/**
 * Which grid times the rolling cache holds, as a function of the instants its maintenance events
 * sampled. Instants and durations are integers in nanoseconds.
 */
module CacheWindow {
  datatype Config = Config(step: int, horizon: int, buffer: int) {
    predicate Valid() { 0 < step && 0 <= horizon && 0 <= buffer }

    /** Rounding down to the step, for instants before the origin too. */
    function Round(t: int): int requires Valid() { t - t % step }

    function Frames(): int requires Valid() { horizon / step + 1 }
  }

  /** A completed maintenance event, with the instants it read from the clock. */
  datatype Event =
    | Fill(now: int)
    | Cutover(now: int)
    | Roll(lead: int, evict: int)
  {
    function First(): int { if Roll? then lead else now }

    function Last(): int { if Roll? then evict else now }
  }

  function Grid(cfg: Config, r: int, n: int): set<int>
    requires cfg.Valid()
  {
    set i: int | 0 <= i < n :: r + i * cfg.step
  }

  function Unexpired(cfg: Config, keys: set<int>, now: int): set<int> {
    set k | k in keys && !(k < now - cfg.buffer)
  }

  function After(cfg: Config, keys: set<int>, e: Event): set<int>
    requires cfg.Valid()
  {
    match e
    case Fill(now) => keys + Grid(cfg, cfg.Round(now), cfg.Frames())
    case Cutover(now) => Grid(cfg, cfg.Round(now), cfg.Frames())
    case Roll(lead, evict) => Unexpired(cfg, keys + {cfg.Round(lead + cfg.horizon)}, evict)
  }

  /** The keys after a warmup and further events, oldest first. */
  function Keys(cfg: Config, es: seq<Event>): set<int>
    requires cfg.Valid()
  {
    if es == [] then {} else After(cfg, Keys(cfg, es[..|es| - 1]), es[|es| - 1])
  }

  /** The clock never runs backwards, within an event or between events; warmup comes first, once. */
  ghost predicate Monotone(es: seq<Event>) {
    && (forall i :: 0 <= i < |es| ==> es[i].First() <= es[i].Last() && (es[i].Fill? <==> i == 0))
    && (forall i :: 0 < i < |es| ==> es[i - 1].Last() <= es[i].First())
  }

  /** Every event runs within one step of the grid, and at most one step after the previous one. */
  ghost predicate Punctual(cfg: Config, es: seq<Event>)
    requires cfg.Valid()
  {
    && (forall i :: 0 <= i < |es| ==> cfg.Round(es[i].First()) == cfg.Round(es[i].Last()))
    && (forall i :: 0 < i < |es| ==> cfg.Round(es[i].First()) <= cfg.Round(es[i - 1].First()) + cfg.step)
  }

  /** The ticker starts after warmup, so its i-th tick comes at least i steps after warmup sampled the clock. */
  ghost predicate Ticked(cfg: Config, es: seq<Event>) {
    forall i :: 0 < i < |es| ==> es[0].First() + i * cfg.step <= es[i].First()
  }

  /** Every grid time from the current one up to the horizon is cached. */
  ghost predicate Covers(cfg: Config, keys: set<int>, now: int)
    requires cfg.Valid()
  {
    forall i: int {:trigger i * cfg.step} ::
      0 <= i && i * cfg.step <= cfg.horizon ==> cfg.Round(now) + i * cfg.step in keys
  }

  ghost predicate AlwaysCovered(cfg: Config)
    requires cfg.Valid()
  {
    forall es: seq<Event> :: es != [] && Monotone(es) && Punctual(cfg, es) && Ticked(cfg, es) ==>
      Covers(cfg, Keys(cfg, es), es[|es| - 1].First())
  }

  // ---- grid arithmetic ----

  lemma Scale(a: int, b: int, d: int)
    requires 0 < d
    ensures a <= b <==> a * d <= b * d
    ensures a < b <==> a * d + d <= b * d
  {
    if a < b { ScaleStrict(a, b, d); }
    if b < a { ScaleStrict(b, a, d); }
  }

  lemma ScaleStrict(a: int, b: int, d: int)
    requires 0 < d && a < b
    ensures a * d + d <= b * d
  {
    assert (b - a - 1) * d >= 0;
    assert (b - a - 1) * d == b * d - a * d - d;
  }

  lemma RoundIs(cfg: Config, t: int, k: int)
    requires cfg.Valid() && k * cfg.step <= t < k * cfg.step + cfg.step
    ensures t / cfg.step == k && cfg.Round(t) == k * cfg.step
  {
    Scale(t / cfg.step, k, cfg.step);
    Scale(k, t / cfg.step, cfg.step);
  }

  lemma RoundFacts(cfg: Config, t: int)
    requires cfg.Valid()
    ensures cfg.Round(t) <= t < cfg.Round(t) + cfg.step && cfg.Round(t) == t / cfg.step * cfg.step
    ensures cfg.Round(cfg.Round(t)) == cfg.Round(t) && cfg.Round(t) % cfg.step == 0
  {
    RoundIs(cfg, cfg.Round(t), t / cfg.step);
  }

  lemma RoundMonotone(cfg: Config, t: int, u: int)
    requires cfg.Valid() && t <= u
    ensures cfg.Round(t) <= cfg.Round(u)
    ensures cfg.Round(u) <= cfg.Round(t) + cfg.step ==>
              cfg.Round(u) == cfg.Round(t) || cfg.Round(u) == cfg.Round(t) + cfg.step
  {
    RoundFacts(cfg, t);
    RoundFacts(cfg, u);
    Scale(u / cfg.step, t / cfg.step, cfg.step);
    Scale(t / cfg.step, u / cfg.step, cfg.step);
    Scale(t / cfg.step + 1, u / cfg.step, cfg.step);
  }

  lemma GridMember(cfg: Config, r: int, i: int)
    requires cfg.Valid() && 0 <= i
    ensures i * cfg.step <= cfg.horizon <==> i < cfg.Frames()
    ensures i < cfg.Frames() ==> r + i * cfg.step in Grid(cfg, r, cfg.Frames())
  {
    var q := cfg.horizon / cfg.step;
    assert q * cfg.step <= cfg.horizon < q * cfg.step + cfg.step;
    Scale(i, q, cfg.step);
    Scale(q, i, cfg.step);
  }

  // ---- coverage ----

  lemma FillCovers(cfg: Config, keys: set<int>, now: int)
    requires cfg.Valid() && Grid(cfg, cfg.Round(now), cfg.Frames()) <= keys
    ensures Covers(cfg, keys, now)
  {
    forall i: int | 0 <= i && i * cfg.step <= cfg.horizon ensures cfg.Round(now) + i * cfg.step in keys {
      GridMember(cfg, cfg.Round(now), i);
    }
  }

  /** The leading edge supplies the one grid time the previous window lacked; eviction spares the rest. */
  lemma RollCovers(cfg: Config, keys: set<int>, before: int, lead: int, evict: int)
    requires cfg.Valid() && cfg.horizon % cfg.step == 0 && cfg.buffer >= cfg.step - 1
    requires Covers(cfg, keys, before) && before <= lead <= evict
    requires cfg.Round(lead) == cfg.Round(evict) && cfg.Round(lead) <= cfg.Round(before) + cfg.step
    ensures Covers(cfg, After(cfg, keys, Roll(lead, evict)), lead)
  {
    RoundMonotone(cfg, before, lead);
    RoundFacts(cfg, lead);
    RoundFacts(cfg, evict);
    var q := cfg.horizon / cfg.step;
    LeadingEdge(cfg, lead);
    forall i: int | 0 <= i && i * cfg.step <= cfg.horizon
      ensures cfg.Round(lead) + i * cfg.step in After(cfg, keys, Roll(lead, evict))
    {
      GridMember(cfg, 0, i);
      Scale(0, i, cfg.step);
      if cfg.Round(lead) != cfg.Round(before) {
        assert (i + 1) * cfg.step == i * cfg.step + cfg.step;
        if i < q { GridMember(cfg, 0, i + 1); }
      }
    }
  }

  lemma LeadingEdge(cfg: Config, lead: int)
    requires cfg.Valid() && cfg.horizon % cfg.step == 0
    ensures cfg.Round(lead + cfg.horizon) == cfg.Round(lead) + cfg.horizon / cfg.step * cfg.step
  {
    RoundFacts(cfg, lead);
    var p, q := lead / cfg.step, cfg.horizon / cfg.step;
    assert (p + q) * cfg.step == p * cfg.step + q * cfg.step;
    RoundIs(cfg, lead + cfg.horizon, p + q);
  }

  lemma PrefixRuns(cfg: Config, es: seq<Event>)
    requires cfg.Valid() && |es| > 1 && Monotone(es)
    ensures var l := |es| - 1; Monotone(es[..l]) && es[..l] != [] && es[..l][l - 1] == es[l - 1]
    ensures Punctual(cfg, es) ==> Punctual(cfg, es[..|es| - 1])
  {
    var rest := es[..|es| - 1];
    assert forall i :: 0 <= i < |rest| ==> rest[i] == es[i];
  }

  lemma {:induction false} CoveredWhenConfigured(cfg: Config, es: seq<Event>)
    requires cfg.Valid() && cfg.horizon % cfg.step == 0 && cfg.buffer >= cfg.step - 1
    requires es != [] && Monotone(es) && Punctual(cfg, es)
    ensures Covers(cfg, Keys(cfg, es), es[|es| - 1].First())
  {
    var l := |es| - 1;
    if es[l].Roll? {
      PrefixRuns(cfg, es);
      CoveredWhenConfigured(cfg, es[..l]);
      RollCovers(cfg, Keys(cfg, es[..l]), es[l - 1].First(), es[l].lead, es[l].evict);
    } else {
      FillCovers(cfg, Keys(cfg, es), es[l].now);
    }
  }

  /** After a slow warmup, a tick late in its slot evicts that slot's key when the buffer is too short. */
  lemma ShortBufferLosesNow(cfg: Config)
    requires cfg.Valid() && cfg.buffer < cfg.step - 1
    ensures !AlwaysCovered(cfg)
  {
    var late := 2 * cfg.step - 1;
    var es := [Fill(0), Roll(late, late)];
    assert es[..1] == [Fill(0)];
    RoundIs(cfg, 0, 0);
    RoundIs(cfg, late, 1);
    assert cfg.Round(late) + 0 * cfg.step !in Keys(cfg, es);
    MissingKey(cfg, es, 0);
  }

  lemma FirstKeys(cfg: Config, es: seq<Event>)
    requires cfg.Valid() && es != [] && es[0].Fill?
    ensures Keys(cfg, es[..1]) == Grid(cfg, cfg.Round(es[0].now), cfg.Frames())
  {
    assert es[..1] == [es[0]] && es[..1][..0] == [];
  }

  lemma EarlyThenLate(cfg: Config, late: int, hole: int)
    requires cfg.Valid() && cfg.horizon % cfg.step != 0
    requires late == 3 * cfg.step - cfg.horizon % cfg.step && hole == 2 * cfg.step + cfg.horizon / cfg.step * cfg.step
    ensures cfg.Round(0) == 0 && cfg.Round(cfg.step) == cfg.step && cfg.Round(late) == 2 * cfg.step
    ensures cfg.Round(cfg.step + cfg.horizon) == hole - cfg.step
    ensures cfg.Round(late + cfg.horizon) == hole + cfg.step
    ensures hole !in Grid(cfg, 0, cfg.Frames())
  {
    var d, q := cfg.step, cfg.horizon / cfg.step;
    RoundIs(cfg, 0, 0);
    RoundIs(cfg, d, 1);
    RoundIs(cfg, late, 2);
    Multiples(q, d);
    RoundIs(cfg, d + cfg.horizon, q + 1);
    RoundIs(cfg, late + cfg.horizon, q + 3);
    BeyondGrid(cfg, hole);
  }

  lemma Multiples(q: int, d: int)
    ensures (q + 1) * d == q * d + d && (q + 2) * d == q * d + 2 * d && (q + 3) * d == q * d + 3 * d
  {
  }

  lemma BeyondGrid(cfg: Config, k: int)
    requires cfg.Valid() && cfg.horizon / cfg.step * cfg.step < k
    ensures k !in Grid(cfg, 0, cfg.Frames())
  {
    forall i | 0 <= i < cfg.Frames() ensures 0 + i * cfg.step != k { Scale(i, cfg.horizon / cfg.step, cfg.step); }
  }

  lemma RollMisses(cfg: Config, es: seq<Event>, lead: int, hole: int)
    requires cfg.Valid() && hole !in Keys(cfg, es) && hole != cfg.Round(lead + cfg.horizon)
    ensures hole !in Keys(cfg, es + [Roll(lead, lead)])
  {
    assert (es + [Roll(lead, lead)])[..|es|] == es;
  }

  lemma MissingKey(cfg: Config, es: seq<Event>, i: int)
    requires cfg.Valid() && es != [] && Monotone(es) && Punctual(cfg, es) && Ticked(cfg, es)
    requires 0 <= i && i * cfg.step <= cfg.horizon
    requires cfg.Round(es[|es| - 1].First()) + i * cfg.step !in Keys(cfg, es)
    ensures !AlwaysCovered(cfg)
  {
    assert !Covers(cfg, Keys(cfg, es), es[|es| - 1].First());
  }

  lemma ThreeTicks(cfg: Config, a: int, b: int)
    requires cfg.Valid() && cfg.step <= a <= b && 2 * cfg.step <= b
    requires cfg.Round(a) <= cfg.Round(0) + cfg.step && cfg.Round(b) <= cfg.Round(a) + cfg.step
    ensures var es := [Fill(0), Roll(a, a), Roll(b, b)];
            Monotone(es) && Punctual(cfg, es) && Ticked(cfg, es)
  {
  }

  /** With a fractional horizon the leading edge jumps a slot when one tick is early and the next late. */
  lemma FractionalHorizonSkipsSlot(cfg: Config)
    requires cfg.Valid() && cfg.horizon % cfg.step != 0
    ensures !AlwaysCovered(cfg)
  {
    var early, late := cfg.step, 3 * cfg.step - cfg.horizon % cfg.step;
    var hole := 2 * cfg.step + cfg.horizon / cfg.step * cfg.step;
    var es := [Fill(0), Roll(early, early), Roll(late, late)];
    EarlyThenLate(cfg, late, hole);
    ThreeTicks(cfg, early, late);
    assert hole !in Keys(cfg, es) by {
      FirstKeys(cfg, es);
      assert es[..1] == [Fill(0)];
      RollMisses(cfg, [Fill(0)], early, hole);
      RollMisses(cfg, [Fill(0)] + [Roll(early, early)], late, hole);
      assert es == [Fill(0)] + [Roll(early, early)] + [Roll(late, late)];
    }
    MissingKey(cfg, es, cfg.horizon / cfg.step);
  }

  /**
   * On every punctual run a ticker can produce, the whole window is cached after each event exactly
   * when the step divides the horizon and the buffer is at least a step less one nanosecond.
   */
  lemma AlwaysCoveredIff(cfg: Config)
    requires cfg.Valid()
    ensures AlwaysCovered(cfg) <==> cfg.horizon % cfg.step == 0 && cfg.buffer >= cfg.step - 1
  {
    if cfg.horizon % cfg.step != 0 {
      FractionalHorizonSkipsSlot(cfg);
    } else if cfg.buffer < cfg.step - 1 {
      ShortBufferLosesNow(cfg);
    } else {
      forall es: seq<Event> | es != [] && Monotone(es) && Punctual(cfg, es) && Ticked(cfg, es)
        ensures Covers(cfg, Keys(cfg, es), es[|es| - 1].First())
      {
        CoveredWhenConfigured(cfg, es);
      }
    }
  }

  // ---- size ----

  ghost predicate Within(cfg: Config, keys: set<int>, lo: int, hi: int)
    requires cfg.Valid()
  {
    forall k :: k in keys ==> lo <= k <= hi && cfg.Round(k) == k
  }

  lemma {:induction false} GridSize(cfg: Config, r: int, n: nat)
    requires cfg.Valid()
    ensures |Grid(cfg, r, n)| <= n
  {
    if n > 0 {
      GridSize(cfg, r, n - 1);
      assert Grid(cfg, r, n) == Grid(cfg, r, n - 1) + {r + (n - 1) * cfg.step};
    } else {
      assert Grid(cfg, r, n) == {};
    }
  }

  lemma SubsetSize(a: set<int>, b: set<int>)
    requires a <= b
    ensures |a| <= |b|
  {
    assert b == a + (b - a);
  }

  lemma AlignedMember(cfg: Config, k: int, lo: int, hi: int)
    requires cfg.Valid() && lo <= k <= hi && cfg.Round(k) == k
    ensures k in Grid(cfg, cfg.Round(lo + cfg.step - 1), (hi - lo) / cfg.step + 1)
  {
    var d, p, q := cfg.step, (lo + cfg.step - 1) / cfg.step, k / cfg.step;
    RoundFacts(cfg, lo + d - 1);
    RoundFacts(cfg, k);
    assert q * d == k && lo <= p * d < lo + d;
    Scale(q, p, d);
    Scale(p, q, d);
    var i, n := q - p, (hi - lo) / d;
    assert i * d == q * d - p * d;
    assert n * d <= hi - lo < n * d + d;
    Scale(n, i, d);
    assert k == cfg.Round(lo + d - 1) + i * d;
  }

  lemma AlignedSize(cfg: Config, keys: set<int>, lo: int, hi: int)
    requires cfg.Valid() && lo <= hi && Within(cfg, keys, lo, hi)
    ensures |keys| <= (hi - lo) / cfg.step + 1
  {
    var a, n := cfg.Round(lo + cfg.step - 1), (hi - lo) / cfg.step + 1;
    forall k | k in keys ensures k in Grid(cfg, a, n) { AlignedMember(cfg, k, lo, hi); }
    GridSize(cfg, a, n);
    SubsetSize(keys, Grid(cfg, a, n));
  }

  lemma GridWithin(cfg: Config, now: int)
    requires cfg.Valid()
    ensures Within(cfg, Grid(cfg, cfg.Round(now), cfg.Frames()), cfg.Round(now), now + cfg.horizon)
  {
    RoundFacts(cfg, now);
    forall i | 0 <= i < cfg.Frames()
      ensures var k := cfg.Round(now) + i * cfg.step;
              cfg.Round(now) <= k <= now + cfg.horizon && cfg.Round(k) == k
    {
      GridMember(cfg, 0, i);
      Scale(0, i, cfg.step);
      assert (now / cfg.step + i) * cfg.step == now / cfg.step * cfg.step + i * cfg.step;
      RoundIs(cfg, cfg.Round(now) + i * cfg.step, now / cfg.step + i);
    }
  }

  ghost predicate UpTo(cfg: Config, keys: set<int>, hi: int)
    requires cfg.Valid()
  {
    forall k :: k in keys ==> k <= hi && cfg.Round(k) == k
  }

  lemma {:induction false} KeysBounded(cfg: Config, es: seq<Event>)
    requires cfg.Valid() && es != [] && Monotone(es)
    ensures UpTo(cfg, Keys(cfg, es), es[|es| - 1].Last() + cfg.horizon)
  {
    var l := |es| - 1;
    var e := es[l];
    if e.Roll? {
      PrefixRuns(cfg, es);
      KeysBounded(cfg, es[..l]);
      RoundFacts(cfg, e.lead + cfg.horizon);
    } else {
      GridWithin(cfg, e.now);
    }
  }

  /** With a clock that never runs backwards, no completed event leaves more than this many keyframes. */
  lemma SizeBound(cfg: Config, es: seq<Event>)
    requires cfg.Valid() && es != [] && Monotone(es)
    ensures |Keys(cfg, es)| <= (cfg.horizon + cfg.buffer) / cfg.step + 1
  {
    var e := es[|es| - 1];
    if e.Roll? {
      var lo, hi, keys := e.evict - cfg.buffer, e.evict + cfg.horizon, Keys(cfg, es);
      KeysBounded(cfg, es);
      assert forall k :: k in keys ==> lo <= k;
      AlignedSize(cfg, keys, lo, hi);
      assert hi - lo == cfg.horizon + cfg.buffer;
    } else {
      assert Keys(cfg, es) == Grid(cfg, cfg.Round(e.now), cfg.Frames()) by {
        if e.Fill? { FirstKeys(cfg, es); assert es[..1] == es; }
      }
      GridSize(cfg, cfg.Round(e.now), cfg.Frames());
      DivMonotone(cfg.horizon, cfg.horizon + cfg.buffer, cfg.step);
    }
  }

  lemma DivMonotone(a: int, b: int, d: int)
    requires 0 < d && a <= b
    ensures a / d <= b / d
  {
    if b / d < a / d { ScaleStrict(b / d, a / d, d); }
  }
}
