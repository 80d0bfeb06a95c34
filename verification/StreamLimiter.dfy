/** The cap on concurrent streams, and the handlers that share it. */
module StreamLimiter {
  const MAX_TOTAL := 1000

  class Limiter {
    var connections: map<string, int>
    var total: int
    const maxPerIP: int
    /** The addresses of the handlers between an acquire that succeeded and its release. */
    ghost var active: multiset<string>

    ghost predicate Valid()
      reads this
    {
      && (forall ip :: ip in connections <==> ip in active)
      && (forall ip :: ip in connections ==> connections[ip] == active[ip])
      && total == |active|
    }

    /** Both caps hold. */
    ghost predicate Capped()
      reads this
    {
      total <= MAX_TOTAL && forall ip :: ip in connections ==> 0 < connections[ip] <= maxPerIP
    }

    constructor (maxPerIP: int)
      ensures Valid() && Capped() && active == multiset{} && this.maxPerIP == maxPerIP
    {
      this.maxPerIP := maxPerIP;
      connections, total, active := map[], 0, multiset{};
    }

    /** A missing key counts as zero. */
    function Load(ip: string): int
      reads this
    {
      if ip in connections then connections[ip] else 0
    }

    method Acquire(ip: string) returns (ok: bool)
      requires Valid() && Capped()
      modifies this
      ensures Valid() && Capped()
      ensures ok <==> |old(active)| < MAX_TOTAL && old(active)[ip] < maxPerIP
      ensures active == if ok then old(active) + multiset{ip} else old(active)
    {
      if total >= MAX_TOTAL { return false; }
      if Load(ip) >= maxPerIP { return false; }
      connections := connections[ip := Load(ip) + 1];
      total := total + 1;
      active := active + multiset{ip};
      ok := true;
    }

    /** Exactly once for each acquire that succeeded. */
    method Release(ip: string)
      requires Valid() && Capped() && ip in active
      modifies this
      ensures Valid() && Capped() && active == old(active) - multiset{ip}
    {
      connections := connections[ip := Load(ip) - 1];
      total := total - 1;
      if Load(ip) <= 0 { connections := connections - {ip}; }
      active := active - multiset{ip};
    }

    method Count(ip: string) returns (n: int)
      requires Valid()
      ensures n == active[ip]
    {
      n := Load(ip);
    }
  }

  /** The limiter seen from outside when `running` are the addresses of the handlers inside. */
  ghost predicate Holds(limiter: Limiter, running: seq<string>)
    reads limiter
  {
    && limiter.Valid() && limiter.Capped() && limiter.active == multiset(running)
  }

  /** What holding means: exact counts, no other keys, both caps. */
  lemma HoldsExactly(limiter: Limiter, running: seq<string>, ip: string)
    requires Holds(limiter, running)
    ensures limiter.total == |running| <= MAX_TOTAL
    ensures ip in limiter.connections <==> ip in running
    ensures ip in running ==> limiter.connections[ip] == multiset(running)[ip] <= limiter.maxPerIP
  {
    assert ip in running <==> ip in multiset(running);
  }

  /** A handler arrives from an address, or the i-th of those inside ends. */
  datatype Event = Arrive(ip: string) | Leave(i: nat)

  /** The addresses inside after one event more. */
  function After(maxPerIP: int, inside: seq<string>, e: Event): seq<string> {
    match e
    case Arrive(ip) => if |inside| < MAX_TOTAL && multiset(inside)[ip] < maxPerIP then inside + [ip] else inside
    case Leave(i) => if i < |inside| then inside[..i] + inside[i + 1..] else inside
  }

  /** The addresses of the handlers inside after a sequence of events. */
  function Running(maxPerIP: int, es: seq<Event>): seq<string> {
    if es == [] then [] else After(maxPerIP, Running(maxPerIP, es[..|es| - 1]), es[|es| - 1])
  }

  /** An arrival gets in exactly when there is room in all and for its address. */
  lemma ArrivalIsAdmittedIff(maxPerIP: int, es: seq<Event>, ip: string)
    ensures var inside, after := Running(maxPerIP, es), Running(maxPerIP, es + [Arrive(ip)]);
            && (after == inside + [ip] <==> |inside| < MAX_TOTAL && multiset(inside)[ip] < maxPerIP)
            && (after == inside || after == inside + [ip])
  {
    assert (es + [Arrive(ip)])[..|es|] == es;
    assert |Running(maxPerIP, es)| != |Running(maxPerIP, es) + [ip]|;
  }

  lemma RunningNext(maxPerIP: int, es: seq<Event>, n: nat)
    requires n < |es|
    ensures Running(maxPerIP, es[..n + 1]) == After(maxPerIP, Running(maxPerIP, es[..n]), es[n])
  {
    assert es[..n + 1][..n] == es[..n];
  }

  /**
   * Any interleaving of handlers: each new one tries to acquire and leaves if it cannot; one that got in
   * releases when it ends, however it ends. At every moment the limiter holds exactly those inside.
   */
  method Interleave(limiter: Limiter, es: seq<Event>) returns (running: seq<string>)
    requires Holds(limiter, [])
    modifies limiter
    ensures Holds(limiter, running) && running == Running(limiter.maxPerIP, es)
  {
    running := [];
    for n := 0 to |es|
      invariant Holds(limiter, running) && running == Running(limiter.maxPerIP, es[..n])
    {
      RunningNext(limiter.maxPerIP, es, n);
      running := Handle(limiter, running, es[n]);
    }
    assert es[..|es|] == es;
  }

  method Handle(limiter: Limiter, running: seq<string>, e: Event) returns (after: seq<string>)
    requires Holds(limiter, running)
    modifies limiter
    ensures Holds(limiter, after) && after == After(limiter.maxPerIP, running, e)
  {
    after := running;
    match e
    case Arrive(ip) =>
      var ok := limiter.Acquire(ip);
      if ok { after := running + [ip]; }
    case Leave(i) =>
      if i < |running| { after := End(limiter, running, i); }
  }

  /** Once every handler has ended nothing is left in the limiter, in whatever order they ended. */
  method EndAll(limiter: Limiter, running: seq<string>)
    requires Holds(limiter, running)
    modifies limiter
    ensures limiter.connections == map[] && limiter.total == 0
  {
    var left := running;
    while left != []
      invariant Holds(limiter, left)
      decreases |left|
    {
      var i: int := *;
      left := End(limiter, left, if 0 <= i < |left| then i else 0);
    }
  }

  method End(limiter: Limiter, running: seq<string>, i: nat) returns (rest: seq<string>)
    requires Holds(limiter, running) && i < |running|
    modifies limiter
    ensures Holds(limiter, rest) && rest == running[..i] + running[i + 1..]
  {
    assert running == running[..i] + [running[i]] + running[i + 1..];
    limiter.Release(running[i]);
    rest := running[..i] + running[i + 1..];
  }
}
