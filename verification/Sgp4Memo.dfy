/**
 * The propagator's memo: initialised propagators for one dataset behind an atomic pointer, rebuilt
 * under a mutex with double-checked locking. Each action is one atomic step of one caller.
 */
module Sgp4Memo {
  import opened Wrappers
  import opened Tle
  import opened WorkerPool

  /** SGP4 initialisation of one element set. */
  type Initialiser = Entry -> Option<Propagator>

  function Fresh(init: Initialiser, sats: seq<Entry>): map<int, Propagator> {
    if sats == [] then map[]
    else
      var before, e := Fresh(init, sats[..|sats| - 1]), sats[|sats| - 1];
      if e.noradId in before || init(e).None? then before else before[e.noradId := init(e).value]
  }

  /** Entry `i` is the first of its NORAD ID that initialises. */
  ghost predicate FirstGood(init: Initialiser, sats: seq<Entry>, i: int) {
    && 0 <= i < |sats| && init(sats[i]).Some?
    && forall j :: 0 <= j < i && sats[j].noradId == sats[i].noradId ==> init(sats[j]).None?
  }

  /** A build maps each NORAD ID to its first entry that initialises ... */
  lemma {:induction false} FreshAt(init: Initialiser, sats: seq<Entry>, i: int)
    requires FirstGood(init, sats, i)
    ensures sats[i].noradId in Fresh(init, sats)
    ensures Fresh(init, sats)[sats[i].noradId] == init(sats[i]).value
    decreases |sats|
  {
    var l := |sats| - 1;
    var rest := sats[..l];
    if i < l {
      assert FirstGood(init, rest, i);
      FreshAt(init, rest, i);
    } else if sats[l].noradId in Fresh(init, rest) {
      var k := FreshFrom(init, rest, sats[l].noradId);
    }
  }

  /** ... and nothing else. */
  lemma {:induction false} FreshFrom(init: Initialiser, sats: seq<Entry>, id: int) returns (i: int)
    requires id in Fresh(init, sats)
    ensures FirstGood(init, sats, i) && sats[i].noradId == id
    decreases |sats|
  {
    var l := |sats| - 1;
    var rest := sats[..l];
    if id in Fresh(init, rest) {
      i := FreshFrom(init, rest, id);
      assert forall j :: 0 <= j < i ==> sats[j] == rest[j];
    } else {
      i := l;
      if j :| 0 <= j < l && sats[j].noradId == id && init(sats[j]).Some? {
        assert rest[j] == sats[j];
        var k := Earliest(init, rest, id);
        FreshAt(init, rest, k);
      }
    }
  }

  lemma {:induction false} Earliest(init: Initialiser, sats: seq<Entry>, id: int) returns (i: int)
    requires exists j :: 0 <= j < |sats| && sats[j].noradId == id && init(sats[j]).Some?
    ensures FirstGood(init, sats, i) && sats[i].noradId == id
  {
    i := 0;
    while !(sats[i].noradId == id && init(sats[i]).Some?)
      invariant 0 <= i < |sats|
      invariant forall j :: 0 <= j < i ==> !(sats[j].noradId == id && init(sats[j]).Some?)
      decreases |sats| - i
    {
      i := i + 1;
    }
  }

  /** The rebuild loop. */
  method Build(init: Initialiser, ds: Dataset) returns (props: map<int, Propagator>, skipped: nat)
    ensures props == Fresh(init, ds.satellites)
  {
    props, skipped := map[], 0;
    for i := 0 to |ds.satellites|
      invariant props == Fresh(init, ds.satellites[..i])
    {
      var entry := ds.satellites[i];
      assert ds.satellites[..i + 1][..i] == ds.satellites[..i];
      if entry.noradId !in props {
        var sp := init(entry);
        if sp.None? {
          skipped := skipped + 1;
        } else {
          props := props[entry.noradId := sp.value];
        }
      }
    }
    assert ds.satellites[..|ds.satellites|] == ds.satellites;
  }

  // ---- concurrent callers ----

  datatype Memo = Memo(props: map<int, Propagator>, fetchedAt: int)

  datatype Phase =
    | Arrived
    | Waiting
    | Rechecking
    | Building
    | Storing(props: map<int, Propagator>)
    | Unlocking(props: map<int, Propagator>)
    | Done(props: map<int, Propagator>)

  datatype Caller = Caller(ds: Dataset, phase: Phase)

  datatype System = System(memo: Option<Memo>, lock: Option<nat>, callers: seq<Caller>, builds: nat)

  function Start(dss: seq<Dataset>): System {
    System(None, None, seq(|dss|, i requires 0 <= i < |dss| => Caller(dss[i], Arrived)), 0)
  }

  predicate Hit(s: System, ds: Dataset) { s.memo.Some? && s.memo.value.fetchedAt == ds.fetchedAt }

  function To(s: System, i: nat, p: Phase): System
    requires i < |s.callers|
  {
    s.(callers := s.callers[i := s.callers[i].(phase := p)])
  }

  /** The next step of caller `i`, if it is not blocked on the mutex and has not returned. */
  function Advance(init: Initialiser, s: System, i: nat): Option<System>
    requires i < |s.callers|
  {
    var c := s.callers[i];
    match c.phase
    case Arrived => Some(To(s, i, if Hit(s, c.ds) then Done(s.memo.value.props) else Waiting))
    case Waiting => if s.lock.Some? then None else Some(To(s, i, Rechecking).(lock := Some(i)))
    case Rechecking => Some(To(s, i, if Hit(s, c.ds) then Unlocking(s.memo.value.props) else Building))
    case Building => Some(To(s, i, Storing(Fresh(init, c.ds.satellites))).(builds := s.builds + 1))
    case Storing(props) => Some(To(s, i, Unlocking(props)).(memo := Some(Memo(props, c.ds.fetchedAt))))
    case Unlocking(props) => Some(To(s, i, Done(props)).(lock := None))
    case Done(_) => None
  }

  /** An interleaving names the caller that moves next; a blocked or finished caller cannot be named. */
  function Interleave(init: Initialiser, s: System, order: seq<nat>): Option<System>
    decreases |order|
  {
    if order == [] then Some(s)
    else if order[0] >= |s.callers| then None
    else match Advance(init, s, order[0])
      case None => None
      case Some(s') => Interleave(init, s', order[1..])
  }

  predicate HoldsLock(p: Phase) { p.Rechecking? || p.Building? || p.Storing? || p.Unlocking? }

  /** Two datasets fetched at the same instant build the same propagators. */
  ghost predicate Identifies(init: Initialiser, dss: seq<Dataset>) {
    forall i, j :: 0 <= i < |dss| && 0 <= j < |dss| && dss[i].fetchedAt == dss[j].fetchedAt ==>
      Fresh(init, dss[i].satellites) == Fresh(init, dss[j].satellites)
  }

  ghost predicate CallerOk(init: Initialiser, s: System, i: int)
    requires 0 <= i < |s.callers|
  {
    var c := s.callers[i];
    && (s.lock == Some(i) <==> HoldsLock(c.phase))
    && (c.phase.Storing? || c.phase.Unlocking? || c.phase.Done? ==> c.phase.props == Fresh(init, c.ds.satellites))
  }

  ghost predicate MemoOk(init: Initialiser, dss: seq<Dataset>, memo: Option<Memo>) {
    memo.Some? ==> forall i :: 0 <= i < |dss| && dss[i].fetchedAt == memo.value.fetchedAt ==>
                     memo.value.props == Fresh(init, dss[i].satellites)
  }

  ghost predicate Same(dss: seq<Dataset>, s: System) {
    |s.callers| == |dss| && forall i :: 0 <= i < |dss| ==> s.callers[i].ds == dss[i]
  }

  ghost predicate Inv(init: Initialiser, dss: seq<Dataset>, s: System) {
    Same(dss, s) && MemoOk(init, dss, s.memo) && forall i :: 0 <= i < |dss| ==> CallerOk(init, s, i)
  }

  lemma InvAdvance(init: Initialiser, dss: seq<Dataset>, s: System, i: nat)
    requires Identifies(init, dss) && Inv(init, dss, s) && i < |s.callers| && Advance(init, s, i).Some?
    ensures Inv(init, dss, Advance(init, s, i).value)
  {
    var s' := Advance(init, s, i).value;
    assert CallerOk(init, s, i);
    forall j | 0 <= j < |dss| ensures CallerOk(init, s', j) {
      assert CallerOk(init, s, j);
    }
  }

  lemma {:induction false} InvInterleave(init: Initialiser, dss: seq<Dataset>, s: System, order: seq<nat>)
    requires Identifies(init, dss) && Inv(init, dss, s) && Interleave(init, s, order).Some?
    ensures Inv(init, dss, Interleave(init, s, order).value)
    decreases |order|
  {
    if order != [] {
      InvAdvance(init, dss, s, order[0]);
      InvInterleave(init, dss, Advance(init, s, order[0]).value, order[1..]);
    }
  }

  /** In every interleaving each call that returns, returns a fresh build of its own dataset. */
  ghost predicate AlwaysFresh(init: Initialiser, dss: seq<Dataset>) {
    forall order, i :: 0 <= i < |dss| ==>
      var s := Interleave(init, Start(dss), order);
      s.Some? && |s.value.callers| == |dss| && s.value.callers[i].phase.Done? ==>
        s.value.callers[i].phase.props == Fresh(init, dss[i].satellites)
  }

  lemma {:induction false} InterleaveAppend(init: Initialiser, s: System, order: seq<nat>, i: nat)
    requires var r := Interleave(init, s, order);
             r.Some? && i < |r.value.callers| && Advance(init, r.value, i).Some?
    ensures Interleave(init, s, order + [i]) == Advance(init, Interleave(init, s, order).value, i)
    decreases |order|
  {
    if order == [] {
      assert (order + [i])[1..] == [];
    } else {
      InterleaveAppend(init, Advance(init, s, order[0]).value, order[1..], i);
      assert (order + [i])[1..] == order[1..] + [i];
    }
  }

  /**
   * Caller `i` runs to its return in six steps; caller `j`, arriving later with an equal fetch time, needs
   * a single one, without the mutex, and gets the same map.
   */
  lemma OneAfterTheOther(init: Initialiser, dss: seq<Dataset>, i: nat, j: nat) returns (order: seq<nat>)
    requires i < |dss| && j < |dss| && i != j && dss[i].fetchedAt == dss[j].fetchedAt
    ensures var s := Interleave(init, Start(dss), order);
            && s.Some? && |s.value.callers| == |dss|
            && s.value.callers[j].phase == Done(Fresh(init, dss[i].satellites))
    ensures order == [i, i, i, i, i, i, j]
  {
    var s0 := Start(dss);
    order := [];
    var s := s0;
    var props := Fresh(init, dss[i].satellites);
    var phases := [Waiting, Rechecking, Building, Storing(props), Unlocking(props), Done(props)];
    for k := 0 to 6
      invariant Interleave(init, s0, order) == Some(s) && order == [i, i, i, i, i, i][..k]
      invariant |s.callers| == |dss| && s.callers[j] == Caller(dss[j], Arrived)
      invariant s.callers[i] == Caller(dss[i], if k == 0 then Arrived else phases[k - 1])
      invariant k < 2 ==> s.lock.None?
      invariant s.memo == if k < 5 then None else Some(Memo(props, dss[i].fetchedAt))
    {
      InterleaveAppend(init, s0, order, i);
      order, s := order + [i], Advance(init, s, i).value;
    }
    InterleaveAppend(init, s0, order, j);
    order := order + [j];
  }

  /**
   * The memo always agrees with a fresh build of the caller's own dataset exactly when equal fetch
   * times imply equal builds: the fetch time is the only key.
   */
  lemma FreshIffFetchTimesIdentify(init: Initialiser, dss: seq<Dataset>)
    ensures AlwaysFresh(init, dss) <==> Identifies(init, dss)
  {
    if Identifies(init, dss) {
      forall order, i | 0 <= i < |dss|
        ensures var s := Interleave(init, Start(dss), order);
                s.Some? && |s.value.callers| == |dss| && s.value.callers[i].phase.Done? ==>
                  s.value.callers[i].phase.props == Fresh(init, dss[i].satellites)
      {
        if Interleave(init, Start(dss), order).Some? {
          InvInterleave(init, dss, Start(dss), order);
          assert CallerOk(init, Interleave(init, Start(dss), order).value, i);
        }
      }
    }
    if AlwaysFresh(init, dss) {
      forall i: nat, j: nat | i < |dss| && j < |dss| && dss[i].fetchedAt == dss[j].fetchedAt
        ensures Fresh(init, dss[i].satellites) == Fresh(init, dss[j].satellites)
      {
        if i != j {
          var order := OneAfterTheOther(init, dss, i, j);
        }
      }
    }
  }

  // ---- every call returns ----

  /** Steps a caller still has to take. */
  function Rank(p: Phase): nat {
    match p
    case Arrived => 6
    case Waiting => 5
    case Rechecking => 4
    case Building => 3
    case Storing(_) => 2
    case Unlocking(_) => 1
    case Done(_) => 0
  }

  function Left(cs: seq<Caller>): nat {
    if cs == [] then 0 else Rank(cs[0].phase) + Left(cs[1..])
  }

  lemma {:induction false} LeftUpdate(cs: seq<Caller>, i: nat, c: Caller)
    requires i < |cs|
    ensures Left(cs[i := c]) == Left(cs) - Rank(cs[i].phase) + Rank(c.phase)
  {
    if i == 0 {
      assert cs[i := c][1..] == cs[1..];
    } else {
      LeftUpdate(cs[1..], i - 1, c);
      assert cs[i := c][1..] == cs[1..][i - 1 := c];
    }
  }

  lemma {:induction false} LeftAtFirst(cs: seq<Caller>)
    requires forall i :: 0 <= i < |cs| ==> cs[i].phase.Arrived?
    ensures Left(cs) == 6 * |cs|
  {
    if cs != [] { LeftAtFirst(cs[1..]); }
  }

  lemma AdvanceUsesSteps(init: Initialiser, s: System, i: nat)
    requires i < |s.callers| && Advance(init, s, i).Some?
    ensures Left(Advance(init, s, i).value.callers) < Left(s.callers)
  {
    var s' := Advance(init, s, i).value;
    LeftUpdate(s.callers, i, s'.callers[i]);
    assert s'.callers == s.callers[i := s'.callers[i]];
  }

  /** The mutex is held by exactly the caller inside its critical section, if any. */
  ghost predicate Locked(s: System) {
    && (s.lock.Some? ==> s.lock.value < |s.callers|)
    && forall i :: 0 <= i < |s.callers| ==> (s.lock == Some(i) <==> HoldsLock(s.callers[i].phase))
  }

  lemma LockedAdvance(init: Initialiser, s: System, i: nat)
    requires Locked(s) && i < |s.callers| && Advance(init, s, i).Some?
    ensures var s' := Advance(init, s, i).value;
            && Locked(s') && |s'.callers| == |s.callers|
            && forall j :: 0 <= j < |s.callers| ==> s'.callers[j].ds == s.callers[j].ds
  {
  }

  predicate AllDone(s: System) { forall i :: 0 <= i < |s.callers| ==> s.callers[i].phase.Done? }

  lemma SomeoneAdvances(init: Initialiser, s: System) returns (i: nat)
    requires Locked(s) && !AllDone(s)
    ensures i < |s.callers| && Advance(init, s, i).Some?
  {
    if s.lock.Some? {
      i := s.lock.value;
      assert HoldsLock(s.callers[i].phase);
    } else {
      var j :| 0 <= j < |s.callers| && !s.callers[j].phase.Done?;
      i := j;
      assert !HoldsLock(s.callers[i].phase);
    }
  }

  lemma {:induction false} LockedInterleave(init: Initialiser, s: System, order: seq<nat>)
    requires Locked(s) && Interleave(init, s, order).Some?
    ensures var s' := Interleave(init, s, order).value;
            && Locked(s') && |s'.callers| == |s.callers| && |order| + Left(s'.callers) <= Left(s.callers)
            && forall j :: 0 <= j < |s.callers| ==> s'.callers[j].ds == s.callers[j].ds
    decreases |order|
  {
    if order != [] {
      LockedAdvance(init, s, order[0]);
      AdvanceUsesSteps(init, s, order[0]);
      LockedInterleave(init, Advance(init, s, order[0]).value, order[1..]);
    }
  }

  /** No interleaving is longer than six steps to a caller, and until all have returned someone can move. */
  lemma CallersAreNeverStuck(init: Initialiser, dss: seq<Dataset>, order: seq<nat>)
    requires Interleave(init, Start(dss), order).Some?
    ensures var s := Interleave(init, Start(dss), order).value;
            && |order| <= 6 * |dss|
            && (AllDone(s) || exists i: nat :: i < |s.callers| && Advance(init, s, i).Some?)
  {
    LeftAtFirst(Start(dss).callers);
    LockedInterleave(init, Start(dss), order);
    var s := Interleave(init, Start(dss), order).value;
    if !AllDone(s) {
      var i := SomeoneAdvances(init, s);
    }
  }

  lemma {:induction false} RunToEnd(init: Initialiser, s0: System, order: seq<nat>) returns (more: seq<nat>)
    requires Locked(s0) && Interleave(init, s0, order).Some?
    ensures Interleave(init, s0, order + more).Some? && AllDone(Interleave(init, s0, order + more).value)
    decreases Left(Interleave(init, s0, order).value.callers)
  {
    LockedInterleave(init, s0, order);
    var s := Interleave(init, s0, order).value;
    if AllDone(s) {
      more := [];
      assert order + more == order;
    } else {
      var i := SomeoneAdvances(init, s);
      AdvanceUsesSteps(init, s, i);
      InterleaveAppend(init, s0, order, i);
      var rest := RunToEnd(init, s0, order + [i]);
      more := [i] + rest;
      assert order + more == order + [i] + rest;
    }
  }

  /**
   * However the callers have interleaved so far, the run can be completed, and then every call has
   * returned; when equal fetch times imply equal builds, each with a fresh build of its own dataset.
   */
  lemma EveryCallReturns(init: Initialiser, dss: seq<Dataset>, order: seq<nat>) returns (more: seq<nat>)
    requires Interleave(init, Start(dss), order).Some?
    ensures var r := Interleave(init, Start(dss), order + more);
            && r.Some? && |r.value.callers| == |dss|
            && forall i :: 0 <= i < |dss| ==>
                 && r.value.callers[i].ds == dss[i] && r.value.callers[i].phase.Done?
                 && (Identifies(init, dss) ==> r.value.callers[i].phase.props == Fresh(init, dss[i].satellites))
  {
    more := RunToEnd(init, Start(dss), order);
    LockedInterleave(init, Start(dss), order + more);
    if Identifies(init, dss) {
      FreshIffFetchTimesIdentify(init, dss);
      assert AlwaysFresh(init, dss);
    }
  }

  // ---- the second check ----

  ghost predicate OneBuild(s: System) {
    && (forall i :: 0 <= i < |s.callers| ==> (s.lock == Some(i) <==> HoldsLock(s.callers[i].phase)))
    && (s.lock.Some? ==> s.lock.value < |s.callers|)
    && (forall i :: 0 <= i < |s.callers| && s.callers[i].phase.Building? ==> s.memo.None?)
    && (forall i :: 0 <= i < |s.callers| && s.callers[i].phase.Storing? ==> s.memo.None?)
    && (s.memo.Some? ==> forall i :: 0 <= i < |s.callers| ==> Hit(s, s.callers[i].ds))
    && s.builds == (if s.memo.Some? || (s.lock.Some? && s.callers[s.lock.value].phase.Storing?) then 1 else 0)
  }

  lemma {:induction false} OneBuildInterleave(init: Initialiser, s: System, order: seq<nat>)
    requires OneBuild(s) && Interleave(init, s, order).Some?
    requires forall i, j :: 0 <= i < |s.callers| && 0 <= j < |s.callers| ==>
               s.callers[i].ds.fetchedAt == s.callers[j].ds.fetchedAt
    ensures OneBuild(Interleave(init, s, order).value)
    decreases |order|
  {
    if order != [] {
      OneBuildStep(init, s, order[0]);
      OneBuildInterleave(init, Advance(init, s, order[0]).value, order[1..]);
    }
  }

  lemma OneBuildStep(init: Initialiser, s: System, i: nat)
    requires OneBuild(s) && i < |s.callers| && Advance(init, s, i).Some?
    requires forall k, j :: 0 <= k < |s.callers| && 0 <= j < |s.callers| ==>
               s.callers[k].ds.fetchedAt == s.callers[j].ds.fetchedAt
    ensures OneBuild(Advance(init, s, i).value)
  {
  }

  /** While the dataset does not change, however many callers race, the propagators are built at most once. */
  lemma BuiltAtMostOnce(init: Initialiser, dss: seq<Dataset>, order: seq<nat>)
    requires forall i, j :: 0 <= i < |dss| && 0 <= j < |dss| ==> dss[i].fetchedAt == dss[j].fetchedAt
    requires Interleave(init, Start(dss), order).Some?
    ensures Interleave(init, Start(dss), order).value.builds <= 1
  {
    OneBuildInterleave(init, Start(dss), order);
  }

  // ---- what a keyframe holds ----

  /** Each satellite initialised, propagated and transformed on its own. */
  function PerSatellite(init: Initialiser, motion: Propagator -> Option<Motion>, sats: seq<Entry>): seq<Position> {
    if sats == [] then []
    else
      var e := sats[|sats| - 1];
      PerSatellite(init, motion, sats[..|sats| - 1]) +
      if init(e).Some? && motion(init(e).value).Some? then [Position(e.noradId, motion(init(e).value).value)] else []
  }

  ghost predicate DistinctIds(sats: seq<Entry>) {
    forall i, j :: 0 <= i < j < |sats| ==> sats[i].noradId != sats[j].noradId
  }

  lemma {:induction false} SequentialIsPerSatellite(init: Initialiser, b: Batch, n: nat)
    requires n <= |b.entries| && DistinctIds(b.entries) && b.props == Fresh(init, b.entries)
    ensures Positions(b.Sequential(n)) == PerSatellite(init, b.motion, b.entries[..n])
  {
    if n > 0 {
      SequentialIsPerSatellite(init, b, n - 1);
      var e, before := b.entries[n - 1], b.Sequential(n - 1);
      assert b.entries[..n][..n - 1] == b.entries[..n - 1] && b.entries[..n][n - 1] == e;
      PropOfDistinct(init, b.entries, n - 1);
      if b.HasJob(n - 1) {
        PositionsAppend(before, b.Solve(b.JobAt(n - 1)));
      } else {
        assert b.Sequential(n) == before;
      }
    }
  }

  lemma PropOfDistinct(init: Initialiser, sats: seq<Entry>, i: nat)
    requires i < |sats| && DistinctIds(sats)
    ensures sats[i].noradId in Fresh(init, sats) <==> init(sats[i]).Some?
    ensures init(sats[i]).Some? ==> Fresh(init, sats)[sats[i].noradId] == init(sats[i]).value
  {
    if init(sats[i]).Some? {
      assert FirstGood(init, sats, i);
      FreshAt(init, sats, i);
    }
    if sats[i].noradId in Fresh(init, sats) {
      var k := FreshFrom(init, sats, sats[i].noradId);
    }
  }

  /**
   * On a deduplicated dataset the positions of an uncancelled keyframe are, up to order, those of
   * each satellite initialised, propagated and transformed on its own.
   */
  lemma KeyframeIsPerSatellite(init: Initialiser, b: Batch, s: State)
    requires DistinctIds(b.entries) && b.props == Fresh(init, b.entries)
    requires b.workers > 0 && WorkerPool.Reachable(b, s) && !s.collecting && !s.cancelled
    ensures multiset(s.positions) == multiset(PerSatellite(init, b.motion, b.entries))
  {
    BatchIsSequential(b, s);
    SequentialIsPerSatellite(init, b, |b.entries|);
    assert b.entries[..|b.entries|] == b.entries;
  }
}
