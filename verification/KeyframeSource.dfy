/** Store, memo, worker pool and cache together: where the positions in a keyframe come from. */
module KeyframeSource {
  import opened Tle
  import opened TleStore
  import opened TleDedup
  import opened WorkerPool
  import opened Sgp4Memo
  import Wrappers
  import K = KeyframeCache

  /** Propagation of an initialised propagator to an instant, and the frame transform there. */
  type Flight = (Propagator, int) -> Wrappers.Option<Motion>

  function At(flight: Flight, t: int): Propagator -> Wrappers.Option<Motion> {
    (p: Propagator) => flight(p, t)
  }

  /** The batch that propagates a dataset to an instant with the given propagators. */
  function Plan(ds: Dataset, props: map<int, Propagator>, flight: Flight, t: int, workers: nat): Batch {
    Batch(ds.satellites, props, At(flight, t), workers)
  }

  /** What a dataset yields at an instant: a plain loop over its entries with freshly built propagators. */
  function Yielded(init: Initialiser, flight: Flight): K.Yield {
    (ds: Dataset, t: int) =>
      Positions(Plan(ds, Fresh(init, ds.satellites), flight, t, 1).Sequential(|ds.satellites|))
  }

  lemma {:induction false} WorkersDoNotMatter(b: Batch, c: Batch, n: nat)
    requires n <= |b.entries| && c == b.(workers := c.workers)
    ensures b.Sequential(n) == c.Sequential(n)
  {
    if n > 0 { WorkersDoNotMatter(b, c, n - 1); }
  }

  lemma PositionsWithin(xs: seq<Outcome>, ys: seq<Outcome>)
    requires multiset(xs) <= multiset(ys)
    ensures multiset(Positions(xs)) <= multiset(Positions(ys))
  {
    forall p ensures multiset(Positions(xs))[p] <= multiset(Positions(ys))[p] {
      PositionsCount(xs, p);
      PositionsCount(ys, p);
    }
  }

  /** Callers with datasets the store has held, no two fetched at the same instant, cannot be confused. */
  lemma StoreIdentifies(init: Initialiser, history: seq<Dataset>, dss: seq<Dataset>)
    requires FetchTimesDistinct(history) && forall ds :: ds in dss ==> ds in history
    ensures Identifies(init, dss)
  {
    forall i, j | 0 <= i < |dss| && 0 <= j < |dss| && dss[i].fetchedAt == dss[j].fetchedAt
      ensures Fresh(init, dss[i].satellites) == Fresh(init, dss[j].satellites)
    {
      assert dss[i] in dss && dss[j] in dss;
      var a :| 0 <= a < |history| && history[a] == dss[i];
      var b :| 0 <= b < |history| && history[b] == dss[j];
      assert a < b ==> history[a].fetchedAt != history[b].fetchedAt;
      assert b < a ==> history[b].fetchedAt != history[a].fetchedAt;
    }
  }

  /** What the memo returns in any interleaving of its callers is a fresh build of the caller's dataset. */
  lemma MemoReturnsFresh(init: Initialiser, history: seq<Dataset>, dss: seq<Dataset>, order: seq<nat>, i: nat)
    requires FetchTimesDistinct(history) && forall ds :: ds in dss ==> ds in history
    requires var sys := Interleave(init, Start(dss), order);
             sys.Some? && i < |dss| && |sys.value.callers| == |dss| && sys.value.callers[i].phase.Done?
    ensures Interleave(init, Start(dss), order).value.callers[i].phase.props == Fresh(init, dss[i].satellites)
  {
    StoreIdentifies(init, history, dss);
    FreshIffFetchTimesIdentify(init, dss);
    assert AlwaysFresh(init, dss);
  }

  /** And every call returns: any interleaving can be completed, each caller with its own fresh build. */
  lemma MemoServesEveryCaller(init: Initialiser, history: seq<Dataset>, dss: seq<Dataset>, order: seq<nat>)
    returns (more: seq<nat>)
    requires FetchTimesDistinct(history) && forall ds :: ds in dss ==> ds in history
    requires Interleave(init, Start(dss), order).Some?
    ensures var r := Interleave(init, Start(dss), order + more);
            && r.Some? && |r.value.callers| == |dss|
            && forall i :: 0 <= i < |dss| ==>
                 r.value.callers[i].phase.Done? && r.value.callers[i].phase.props == Fresh(init, dss[i].satellites)
  {
    StoreIdentifies(init, history, dss);
    more := EveryCallReturns(init, dss, order);
  }

  /**
   * One keyframe's batch: whichever callers race for the memo and however the pool is scheduled, the
   * positions collected are those the dataset yields, some missing only if the batch was cancelled.
   * This is all the cache assumes of a propagation.
   */
  lemma BatchDeliversYield(init: Initialiser, flight: Flight, history: seq<Dataset>, dss: seq<Dataset>,
                           order: seq<nat>, i: nat, t: int, workers: nat, s: State)
    requires FetchTimesDistinct(history) && forall ds :: ds in dss ==> ds in history
    requires var sys := Interleave(init, Start(dss), order);
             && sys.Some? && i < |dss| && |sys.value.callers| == |dss| && sys.value.callers[i].phase.Done?
             && var b := Plan(dss[i], sys.value.callers[i].phase.props, flight, t, workers);
                workers > 0 && WorkerPool.Reachable(b, s) && !s.collecting
    ensures multiset(s.positions) <= multiset(Yielded(init, flight)(dss[i], t))
    ensures !s.cancelled ==> multiset(s.positions) == multiset(Yielded(init, flight)(dss[i], t))
  {
    MemoReturnsFresh(init, history, dss, order, i);
    PoolDeliversYield(init, flight, dss[i], t, workers, s);
  }

  lemma PoolDeliversYield(init: Initialiser, flight: Flight, ds: Dataset, t: int, workers: nat, s: State)
    requires var b := Plan(ds, Fresh(init, ds.satellites), flight, t, workers);
             workers > 0 && WorkerPool.Reachable(b, s) && !s.collecting
    ensures multiset(s.positions) <= multiset(Yielded(init, flight)(ds, t))
    ensures !s.cancelled ==> multiset(s.positions) == multiset(Yielded(init, flight)(ds, t))
  {
    var b := Plan(ds, Fresh(init, ds.satellites), flight, t, workers);
    var n := |ds.satellites|;
    BatchIsSequential(b, s);
    WorkersDoNotMatter(b, b.(workers := 1), n);
    ReachableInv(b, s);
    PositionsWithin(s.collected, b.Sequential(n));
  }

  lemma CurrentEntry(c: K.KeyframeCache, k: int)
    requires c.Valid() && c.AllCurrent() && !c.outside.cancelled && k in c.entries
    ensures c.store.history != [] && c.entries[k].keyframe.timestamp == k
    ensures multiset(c.entries[k].keyframe.satellites) ==
            multiset(c.positionsOf(c.store.history[|c.store.history| - 1], k))
  {
    c.EntryAt(k);
    assert k in c.source;
  }

  /**
   * What a reader finds: when every cached entry is current, each holds, up to order, every satellite
   * of the current dataset initialised, propagated to the entry's instant and transformed on its own.
   */
  lemma EntriesHoldCurrentPositions(c: K.KeyframeCache, init: Initialiser, flight: Flight, raw: seq<Entry>, k: int)
    requires c.Valid() && c.AllCurrent() && !c.outside.cancelled && k in c.entries
    requires c.positionsOf == Yielded(init, flight)
    requires c.store.history != [] && IsDedup(raw, c.store.history[|c.store.history| - 1].satellites)
    ensures c.entries[k].keyframe.timestamp == k
    ensures multiset(c.entries[k].keyframe.satellites) ==
            multiset(PerSatellite(init, At(flight, k), c.store.history[|c.store.history| - 1].satellites))
  {
    CurrentEntry(c, k);
    var current := c.store.history[|c.store.history| - 1];
    YieldOfDeduplicated(init, flight, raw, current, k);
    assert c.positionsOf(current, k) == Yielded(init, flight)(current, k);
  }

  lemma YieldOfDeduplicated(init: Initialiser, flight: Flight, raw: seq<Entry>, ds: Dataset, t: int)
    requires IsDedup(raw, ds.satellites)
    ensures multiset(Yielded(init, flight)(ds, t)) == multiset(PerSatellite(init, At(flight, t), ds.satellites))
  {
    DedupHasDistinctIds(raw, ds.satellites);
    YieldIsPerSatellite(init, flight, ds, t);
  }

  lemma YieldIsPerSatellite(init: Initialiser, flight: Flight, ds: Dataset, t: int)
    requires DistinctIds(ds.satellites)
    ensures Yielded(init, flight)(ds, t) == PerSatellite(init, At(flight, t), ds.satellites)
  {
    var b := Plan(ds, Fresh(init, ds.satellites), flight, t, 1);
    SequentialIsPerSatellite(init, b, |ds.satellites|);
    assert ds.satellites[..|ds.satellites|] == ds.satellites;
  }

  lemma {:induction false} PerSatelliteMembers(init: Initialiser, motion: Propagator -> Wrappers.Option<Motion>,
                                               sats: seq<Entry>, q: Position)
    ensures q in PerSatellite(init, motion, sats) <==>
            exists e :: e in sats && init(e).Some? && motion(init(e).value) == Wrappers.Some(q.ecef)
                        && q.noradId == e.noradId
  {
    if sats != [] {
      var rest, e := sats[..|sats| - 1], sats[|sats| - 1];
      PerSatelliteMembers(init, motion, rest, q);
      assert sats == rest + [e];
    }
  }

  /**
   * Satellite by satellite: the entry of slot `k` shows a position exactly when some satellite of the
   * current dataset, initialised and flown to `k`, is there.
   */
  lemma EntriesShowSatellitesAtTheirSlot(c: K.KeyframeCache, init: Initialiser, flight: Flight, raw: seq<Entry>,
                                         k: int, q: Position)
    requires c.Valid() && c.AllCurrent() && !c.outside.cancelled && k in c.entries
    requires c.positionsOf == Yielded(init, flight)
    requires c.store.history != [] && IsDedup(raw, c.store.history[|c.store.history| - 1].satellites)
    ensures var current := c.store.history[|c.store.history| - 1].satellites;
            q in c.entries[k].keyframe.satellites <==>
            exists e :: e in current && init(e).Some? && flight(init(e).value, k) == Wrappers.Some(q.ecef)
                        && q.noradId == e.noradId
  {
    EntriesHoldCurrentPositions(c, init, flight, raw, k);
    var current := c.store.history[|c.store.history| - 1].satellites;
    ShownIffFlown(init, flight, current, k, c.entries[k].keyframe.satellites, q);
  }

  lemma ShownIffFlown(init: Initialiser, flight: Flight, sats: seq<Entry>, k: int, shown: seq<Position>, q: Position)
    requires multiset(shown) == multiset(PerSatellite(init, At(flight, k), sats))
    ensures q in shown <==>
            exists e :: e in sats && init(e).Some? && flight(init(e).value, k) == Wrappers.Some(q.ecef)
                        && q.noradId == e.noradId
  {
    PerSatelliteMembers(init, At(flight, k), sats, q);
    assert q in shown <==> q in multiset(shown);
    assert q in multiset(PerSatellite(init, At(flight, k), sats)) <==> q in PerSatellite(init, At(flight, k), sats);
  }
}
