/** The per-client bandwidth budget: seconds and bytes are reals, rounding aside. */
module TokenBucket {
  datatype Bucket = Bucket(tokens: real, maxTokens: real, rate: real, lastRefill: real)

  /** Two seconds of burst, available at once. */
  function Full(rate: real, now: real): Bucket {
    Bucket(rate * 2.0, rate * 2.0, rate, now)
  }

  function Refill(b: Bucket, now: real): Bucket {
    var tokens := b.tokens + (now - b.lastRefill) * b.rate;
    b.(tokens := if tokens > b.maxTokens then b.maxTokens else tokens, lastRefill := now)
  }

  function Spend(b: Bucket, n: nat): Bucket { b.(tokens := b.tokens - n as real) }

  /**
   * What the stream does to its budget: it asks, which refills, it sends a batch the answer admitted,
   * or it sends a message without asking (metadata and skip notices).
   */
  datatype Use = Asked(at: real) | Admitted(at: real, bytes: nat) | Forced(bytes: nat)

  function Apply(b: Bucket, u: Use): Bucket {
    match u
    case Asked(at) => Refill(b, at)
    case Admitted(_, n) => Spend(b, n)
    case Forced(n) => Spend(b, n)
  }

  /** The clock never runs backwards, and a batch is admitted only when the budget just refilled holds it. */
  predicate Permitted(b: Bucket, u: Use) {
    match u
    case Asked(at) => b.lastRefill <= at
    case Admitted(at, n) => b.lastRefill == at && n as real <= b.tokens
    case Forced(_) => true
  }

  function Run(b: Bucket, us: seq<Use>): Bucket {
    if us == [] then b else Apply(Run(b, us[..|us| - 1]), us[|us| - 1])
  }

  /** Every use was permitted at the time. */
  predicate Legal(b: Bucket, us: seq<Use>) {
    us == [] || (Legal(b, us[..|us| - 1]) && Permitted(Run(b, us[..|us| - 1]), us[|us| - 1]))
  }

  function Bytes(u: Use): nat { if u.Admitted? then u.bytes else 0 }

  /** Payload bytes of the batches the budget admitted. */
  function AdmittedBytes(us: seq<Use>): nat {
    if us == [] then 0 else AdmittedBytes(us[..|us| - 1]) + Bytes(us[|us| - 1])
  }

  predicate Timed(us: seq<Use>, from: real, to: real) {
    us == [] || (Timed(us[..|us| - 1], from, to) && (us[|us| - 1].Forced? || from <= us[|us| - 1].at <= to))
  }

  /** Every byte charged, asked for or not. */
  function Charged(us: seq<Use>): nat {
    if us == [] then 0
    else Charged(us[..|us| - 1]) + (if us[|us| - 1].Asked? then 0 else us[|us| - 1].bytes)
  }

  function Positive(x: real): real { if x > 0.0 then x else 0.0 }

  /** What `seconds` of refilling adds, before the cap. */
  function Gain(seconds: real, rate: real): real { seconds * rate }

  lemma GainAdds(x: real, y: real, rate: real)
    ensures Gain(x, rate) + Gain(y, rate) == Gain(x + y, rate)
  {
  }

  lemma GainGrows(x: real, y: real, rate: real)
    requires x <= y && rate > 0.0
    ensures Gain(x, rate) <= Gain(y, rate) && Gain(0.0, rate) == 0.0
  {
    assert (y - x) * rate >= 0.0;
  }

  /** How often the budget is asked makes no difference to what it holds. */
  lemma RefillIsMemoryless(b: Bucket, at: real, later: real)
    requires b.rate > 0.0 && b.lastRefill <= at <= later
    ensures Refill(Refill(b, at), later) == Refill(b, later)
  {
    GainAdds(at - b.lastRefill, later - at, b.rate);
    GainGrows(0.0, later - at, b.rate);
  }

  lemma {:induction false} RunKeepsShape(b: Bucket, us: seq<Use>)
    requires b.tokens <= b.maxTokens
    ensures var r := Run(b, us); r.maxTokens == b.maxTokens && r.rate == b.rate && r.tokens <= r.maxTokens
  {
    if us != [] { RunKeepsShape(b, us[..|us| - 1]); }
  }

  /** However the stream went so far, the budget never exceeds two seconds' worth. */
  lemma TokensAreCapped(rate: real, start: real, us: seq<Use>)
    requires rate > 0.0
    ensures Run(Full(rate, start), us).tokens <= 2.0 * rate
  {
    RunKeepsShape(Full(rate, start), us);
  }

  /** A first refill or admission in a window draws on at most a full bucket. */
  lemma FirstUse(r: Bucket, u: Use)
    requires !u.Forced? && Permitted(r, u) && r.tokens <= r.maxTokens && 0.0 <= r.maxTokens
    ensures Bytes(u) as real + Positive(Apply(r, u).tokens) <= r.maxTokens
  {
  }

  /** Any use takes from what was left and what trickled in since. */
  lemma LaterUse(r: Bucket, u: Use)
    requires r.rate > 0.0 && Permitted(r, u)
    ensures var r' := Apply(r, u);
            Bytes(u) as real + Positive(r'.tokens)
              <= Positive(r.tokens) + Gain(r'.lastRefill - r.lastRefill, r.rate)
  {
    var r' := Apply(r, u);
    GainGrows(0.0, r'.lastRefill - r.lastRefill, r.rate);
    if u.Asked? {
      assert Refill(r, u.at).tokens <= r.tokens + Gain(r'.lastRefill - r.lastRefill, r.rate);
    }
  }

  lemma {:induction false} PastWasLegal(b: Bucket, us: seq<Use>, vs: seq<Use>)
    requires Legal(b, us + vs)
    ensures Legal(b, us)
  {
    if vs == [] {
      assert us + vs == us;
    } else {
      assert (us + vs)[..|us + vs| - 1] == us + vs[..|vs| - 1];
      PastWasLegal(b, us, vs[..|vs| - 1]);
    }
  }

  /** From `from`, when the bucket held at most its maximum, to now: what was admitted and what is left. */
  predicate Within(b: Bucket, spent: nat, from: real) {
    from <= b.lastRefill && spent as real + Positive(b.tokens) <= b.maxTokens + Gain(b.lastRefill - from, b.rate)
  }

  lemma WithinStarts(r: Bucket, u: Use, from: real)
    requires r.rate > 0.0 && r.tokens <= r.maxTokens && 0.0 <= r.maxTokens
    requires !u.Forced? && Permitted(r, u) && from <= u.at
    ensures Within(Apply(r, u), Bytes(u), from)
  {
    FirstUse(r, u);
    GainGrows(0.0, u.at - from, r.rate);
  }

  lemma WithinContinues(r: Bucket, u: Use, spent: nat, from: real)
    requires r.rate > 0.0 && Permitted(r, u) && Within(r, spent, from)
    ensures Within(Apply(r, u), spent + Bytes(u), from)
  {
    LaterUse(r, u);
    var r' := Apply(r, u);
    GainAdds(r.lastRefill - from, r'.lastRefill - r.lastRefill, r.rate);
  }

  predicate AllForced(us: seq<Use>) {
    us == [] || (AllForced(us[..|us| - 1]) && us[|us| - 1].Forced?)
  }

  lemma {:induction false} WindowSpent(b: Bucket, us: seq<Use>, from: real, to: real)
    requires b.rate > 0.0 && b.tokens <= b.maxTokens && 0.0 <= b.maxTokens && Legal(b, us) && Timed(us, from, to)
    ensures var r, spent := Run(b, us), AdmittedBytes(us);
            if AllForced(us) then spent == 0 else Within(r, spent, from) && r.lastRefill <= to
  {
    if us != [] {
      var past, u := us[..|us| - 1], us[|us| - 1];
      WindowSpent(b, past, from, to);
      RunKeepsShape(b, past);
      if !AllForced(past) {
        WithinContinues(Run(b, past), u, AdmittedBytes(past), from);
      } else if !u.Forced? {
        WithinStarts(Run(b, past), u, from);
      }
    }
  }

  lemma {:induction false} RunAppend(b: Bucket, us: seq<Use>, vs: seq<Use>)
    ensures Run(b, us + vs) == Run(Run(b, us), vs)
    ensures Legal(b, us + vs) ==> Legal(Run(b, us), vs)
  {
    if vs == [] {
      assert us + vs == us;
    } else {
      RunAppend(b, us, vs[..|vs| - 1]);
      assert (us + vs)[..|us + vs| - 1] == us + vs[..|vs| - 1];
    }
  }

  lemma Concluded(r: Bucket, spent: nat, idle: bool, rate: real, from: real, span: real)
    requires rate > 0.0 && span >= 0.0 && r.rate == rate && r.maxTokens == rate * 2.0
    requires if idle then spent == 0 else Within(r, spent, from) && r.lastRefill <= from + span
    ensures spent as real <= 2.0 * rate + span * rate
  {
    GainGrows(0.0, span, rate);
    if !idle { GainGrows(r.lastRefill - from, span, rate); }
  }

  /**
   * Over any stretch of a stream's history lasting `span` seconds, the budget admits at most two
   * seconds' worth of payload and what trickles in meanwhile, whatever was forced through.
   */
  lemma WindowBound(rate: real, start: real, past: seq<Use>, window: seq<Use>, from: real, span: real)
    requires rate > 0.0 && span >= 0.0 && Legal(Full(rate, start), past + window)
    requires Timed(window, from, from + span)
    ensures AdmittedBytes(window) as real <= 2.0 * rate + span * rate
  {
    var b := Run(Full(rate, start), past);
    RunAppend(Full(rate, start), past, window);
    RunKeepsShape(Full(rate, start), past);
    WindowSpent(b, window, from, from + span);
    RunKeepsShape(b, window);
    Concluded(Run(b, window), AdmittedBytes(window), AllForced(window), rate, from, span);
  }

  lemma OneMoreUse(b: Bucket, us: seq<Use>, u: Use)
    ensures Run(b, us + [u]) == Apply(Run(b, us), u)
    ensures Legal(b, us + [u]) <==> Legal(b, us) && Permitted(Run(b, us), u)
    ensures Charged(us + [u]) == Charged(us) + (if u.Asked? then 0 else u.bytes)
    ensures AdmittedBytes(us + [u]) == AdmittedBytes(us) + Bytes(u)
    ensures forall from, to :: Timed(us + [u], from, to) <==> Timed(us, from, to) && (u.Forced? || from <= u.at <= to)
  {
    assert (us + [u])[..|us|] == us;
  }

  /** The bound is attained: a burst of two seconds' worth and, a second later, one second's worth more. */
  lemma BoundIsAttained(rate: nat, start: real)
    requires rate > 0
    ensures exists window ::
              && Legal(Full(rate as real, start), window) && Timed(window, start, start + 1.0)
              && AdmittedBytes(window) as real == 2.0 * rate as real + 1.0 * rate as real
  {
    var b, later := Full(rate as real, start), start + 1.0;
    OneMoreUse(b, [], Admitted(start, 2 * rate));
    var w := [] + [Admitted(start, 2 * rate)];
    OneMoreUse(b, w, Asked(later));
    GainGrows(0.0, 1.0, rate as real);
    assert Run(b, w + [Asked(later)]) == Bucket(rate as real, rate as real * 2.0, rate as real, later);
    OneMoreUse(b, w + [Asked(later)], Admitted(later, rate));
    var window := w + [Asked(later)] + [Admitted(later, rate)];
    assert Legal(b, window) && Timed(window, start, later);
  }

  /** What an idle budget regains: two seconds after its last refill, and out of debt then, it is full again. */
  lemma IdleBudgetIsFull(rate: real, b: Bucket, at: real)
    requires rate > 0.0 && b.rate == rate && b.maxTokens == 2.0 * rate && 0.0 <= b.tokens <= b.maxTokens
    requires b.lastRefill + 2.0 <= at
    ensures Refill(b, at).tokens == 2.0 * rate
  {
    GainGrows(2.0, at - b.lastRefill, rate);
  }
}
