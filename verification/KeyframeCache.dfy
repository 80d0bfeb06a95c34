/**
 * The rolling keyframe cache and its maintenance goroutine. Every place where the code reads the
 * clock or the store lets the outside world move first, so the contracts hold for any interleaving
 * with refreshes. Readers see `entries` only through single map lookups or a swap of the whole map.
 */
module KeyframeCache {
  import opened Wrappers
  import opened Tle
  import opened TleStore
  import opened CacheWindow
  import opened WorkerPool

  datatype Keyframe = Keyframe(timestamp: int, satellites: seq<Position>)
  datatype CacheEntry = CacheEntry(keyframe: Keyframe, generatedAt: int)

  /** The positions one dataset yields at one instant, in some order. */
  type Yield = (Dataset, int) -> seq<Position>

  /** `e` was made for key `k` from the dataset of version `v`; all of it when `complete`. */
  ghost predicate MadeFrom(cfg: Config, positionsOf: Yield, history: seq<Dataset>, k: int, e: CacheEntry, v: nat,
                           complete: bool)
    requires cfg.Valid()
  {
    && cfg.Round(k) == k == e.keyframe.timestamp
    && v < |history|
    && multiset(e.keyframe.satellites) <= multiset(positionsOf(history[v], k))
    && (complete ==> multiset(e.keyframe.satellites) == multiset(positionsOf(history[v], k)))
  }

  /** Every entry was made from the dataset its source names, of version `base` or later. */
  ghost predicate Coherent(cfg: Config, positionsOf: Yield, history: seq<Dataset>, entries: map<int, CacheEntry>,
                           source: map<int, nat>, base: nat, complete: bool)
    requires cfg.Valid()
  {
    && source.Keys == entries.Keys
    && (forall k :: k in source ==> base <= source[k] < |history|)
    && forall k {:trigger MadeFrom(cfg, positionsOf, history, k, entries[k], source[k], complete)} :: k in entries ==>
         MadeFrom(cfg, positionsOf, history, k, entries[k], source[k], complete)
  }

  lemma CoherentLater(cfg: Config, positionsOf: Yield, h: seq<Dataset>, h': seq<Dataset>, entries: map<int, CacheEntry>,
                      source: map<int, nat>, base: nat, complete: bool, complete': bool)
    requires cfg.Valid() && h <= h' && (complete' ==> complete)
    requires Coherent(cfg, positionsOf, h, entries, source, base, complete)
    ensures Coherent(cfg, positionsOf, h', entries, source, base, complete')
  {
    forall k | k in entries ensures MadeFrom(cfg, positionsOf, h', k, entries[k], source[k], complete') {
      assert MadeFrom(cfg, positionsOf, h, k, entries[k], source[k], complete);
    }
  }

  lemma CoherentPut(cfg: Config, positionsOf: Yield, h: seq<Dataset>, entries: map<int, CacheEntry>,
                    source: map<int, nat>, base: nat, complete: bool, k: int, e: CacheEntry, v: nat)
    requires cfg.Valid() && Coherent(cfg, positionsOf, h, entries, source, base, complete)
    requires base <= v && MadeFrom(cfg, positionsOf, h, k, e, v, complete)
    ensures Coherent(cfg, positionsOf, h, entries[k := e], source[k := v], base, complete)
  {
    forall j | j in entries && j != k ensures MadeFrom(cfg, positionsOf, h, j, entries[j], source[j], complete) {
    }
  }

  lemma CoherentKeep(cfg: Config, positionsOf: Yield, h: seq<Dataset>, entries: map<int, CacheEntry>,
                     source: map<int, nat>, base: nat, complete: bool, kept: map<int, CacheEntry>)
    requires cfg.Valid() && Coherent(cfg, positionsOf, h, entries, source, base, complete)
    requires forall k :: k in kept ==> k in entries && kept[k] == entries[k]
    ensures Coherent(cfg, positionsOf, h, kept, map k | k in kept :: source[k], base, complete)
  {
    forall k | k in kept ensures MadeFrom(cfg, positionsOf, h, k, kept[k], source[k], complete) {
      assert MadeFrom(cfg, positionsOf, h, k, entries[k], source[k], complete);
    }
  }

  lemma SlotIsAligned(cfg: Config, start: int, i: int)
    requires cfg.Valid() && cfg.Round(start) == start
    ensures cfg.Round(start + i * cfg.step) == start + i * cfg.step
  {
    RoundFacts(cfg, start);
    assert (start / cfg.step + i) * cfg.step == start / cfg.step * cfg.step + i * cfg.step;
    RoundIs(cfg, start + i * cfg.step, start / cfg.step + i);
  }

  lemma GridGrows(cfg: Config, start: int, i: int)
    requires cfg.Valid() && 0 <= i
    ensures Grid(cfg, start, i + 1) == Grid(cfg, start, i) + {start + i * cfg.step}
    ensures Grid(cfg, start, 0) == {}
  {
  }

  /** `keys` is what the events so far prescribe, and none of them lies in the future. */
  ghost predicate Follows(cfg: Config, keys: set<int>, es: seq<Event>, clock: int)
    requires cfg.Valid()
  {
    es != [] && Monotone(es) && Ticked(cfg, es) && keys == Keys(cfg, es) && es[|es| - 1].Last() <= clock
  }

  lemma FollowsWarmup(cfg: Config, keys: set<int>, now: int, clock: int)
    requires cfg.Valid() && keys == Grid(cfg, cfg.Round(now), cfg.Frames()) && now <= clock
    ensures Follows(cfg, keys, [Fill(now)], clock)
  {
    FirstKeys(cfg, [Fill(now)]);
    assert [Fill(now)][..1] == [Fill(now)];
  }

  lemma FollowsSize(cfg: Config, entries: map<int, CacheEntry>, es: seq<Event>, clock: int)
    requires cfg.Valid() && Follows(cfg, entries.Keys, es, clock)
    ensures |entries| <= (cfg.horizon + cfg.buffer) / cfg.step + 1
  {
    SizeBound(cfg, es);
    assert |entries| == |entries.Keys|;
  }

  lemma FollowsTick(cfg: Config, keys: set<int>, es: seq<Event>, clock: int, e: Event, keys': set<int>, clock': int)
    requires cfg.Valid() && Follows(cfg, keys, es, clock)
    requires !e.Fill? && clock <= e.First() <= e.Last() <= clock' && keys' == After(cfg, keys, e)
    requires es[0].First() + |es| * cfg.step <= e.First()
    ensures Follows(cfg, keys', es + [e], clock')
  {
    assert (es + [e])[..|es|] == es;
  }

  // ---- what readers see of the entries ----

  /** The keyframe of the slot that contains `t`. */
  function Lookup(cfg: Config, entries: map<int, CacheEntry>, t: int): Option<Keyframe>
    requires cfg.Valid()
  {
    if cfg.Round(t) in entries then Some(entries[cfg.Round(t)].keyframe) else None
  }

  /** The slot `i` steps before the one that contains `t`. */
  function Slot(cfg: Config, t: int, i: int): int
    requires cfg.Valid()
  {
    cfg.Round(t) - i * cfg.step
  }

  /** The keyframes of the last `count` slots up to `t`, oldest first. */
  function Recent(cfg: Config, entries: map<int, CacheEntry>, t: int, count: int): seq<Keyframe>
    requires cfg.Valid()
    decreases count
  {
    if count <= 0 then []
    else
      var ts := Slot(cfg, t, count - 1);
      (if ts in entries then [entries[ts].keyframe] else []) + Recent(cfg, entries, t, count - 1)
  }

  /** Collecting slot `i` leaves those after it to collect. */
  lemma RecentNext(cfg: Config, entries: map<int, CacheEntry>, t: int, i: nat, sofar: seq<Keyframe>)
    requires cfg.Valid()
    ensures var ts := Slot(cfg, t, i);
            sofar + Recent(cfg, entries, t, i + 1) ==
            (if ts in entries then sofar + [entries[ts].keyframe] else sofar) + Recent(cfg, entries, t, i)
  {
  }

  ghost predicate Stamped(entries: map<int, CacheEntry>) {
    forall k :: k in entries ==> entries[k].keyframe.timestamp == k
  }

  /** Timestamps strictly increase, all of them after `from`. */
  predicate Increasing(kfs: seq<Keyframe>, from: int) {
    && (forall i :: 0 <= i < |kfs| ==> from < kfs[i].timestamp)
    && (forall i, j :: 0 <= i < j < |kfs| ==> kfs[i].timestamp < kfs[j].timestamp)
  }

  lemma OldestFirst(kfs: seq<Keyframe>, kf: Keyframe, from: int)
    requires Increasing(kfs, kf.timestamp) && from < kf.timestamp
    ensures Increasing([kf] + kfs, from) && Increasing(kfs, from)
  {
  }

  lemma {:induction false} RecentInOrder(cfg: Config, entries: map<int, CacheEntry>, t: int, count: int)
    requires cfg.Valid() && Stamped(entries)
    ensures Increasing(Recent(cfg, entries, t, count), Slot(cfg, t, count))
    decreases count
  {
    if count > 0 {
      RecentInOrder(cfg, entries, t, count - 1);
      ScaleStrict(count - 1, count, cfg.step);
      var ts, rest := Slot(cfg, t, count - 1), Recent(cfg, entries, t, count - 1);
      OldestFirst(rest, if ts in entries then entries[ts].keyframe else Keyframe(ts, []), Slot(cfg, t, count));
      assert [] + rest == rest;
    }
  }

  lemma {:induction false} RecentMembers(cfg: Config, entries: map<int, CacheEntry>, t: int, count: int, kf: Keyframe)
    requires cfg.Valid()
    ensures kf in Recent(cfg, entries, t, count) <==>
            exists i :: 0 <= i < count && Slot(cfg, t, i) in entries && entries[Slot(cfg, t, i)].keyframe == kf
    decreases count
  {
    if count > 0 {
      RecentMembers(cfg, entries, t, count - 1, kf);
      var ts := Slot(cfg, t, count - 1);
      if ts in entries && entries[ts].keyframe == kf {
        assert kf in [entries[ts].keyframe];
      }
    }
  }

  lemma RecentIsExactly(cfg: Config, entries: map<int, CacheEntry>, t: int, count: int)
    requires cfg.Valid()
    ensures forall kf :: kf in Recent(cfg, entries, t, count) <==>
              exists i :: 0 <= i < count && Slot(cfg, t, i) in entries && entries[Slot(cfg, t, i)].keyframe == kf
  {
    forall kf { RecentMembers(cfg, entries, t, count, kf); }
  }

  // ---- what a turn leaves ----

  /** `now` is `was` with `slot` filled, and exactly `was` if it already was. */
  ghost predicate Gains(was: map<int, CacheEntry>, now: map<int, CacheEntry>, slot: int) {
    slot in now && now == (if slot in was then was else was[slot := now[slot]])
  }

  function From(entries: map<int, CacheEntry>, cutoff: int): map<int, CacheEntry> {
    map k | k in entries && !(k < cutoff) :: entries[k]
  }

  /** Everything not before the cutoff is kept as it was, and nothing is new but perhaps `slot`. */
  ghost predicate Rolled(was: map<int, CacheEntry>, now: map<int, CacheEntry>, slot: int, cutoff: int) {
    && (forall k :: k in was && cutoff <= k ==> k in now && now[k] == was[k])
    && (forall k :: k in now ==> cutoff <= k && (k == slot || (k in was && now[k] == was[k])))
  }

  lemma GainedThenEvicted(was: map<int, CacheEntry>, mid: map<int, CacheEntry>, slot: int, cutoff: int)
    requires Gains(was, mid, slot)
    ensures Rolled(was, From(mid, cutoff), slot, cutoff)
  {
  }

  /**
   * One turn of the maintenance loop: the event, the version it read to decide, the fetch time recorded
   * before it and after it, with the version that belongs to, and the entries before and after.
   */
  datatype Turn = Turn(e: Event, seen: nat, recorded: int, version: nat, left: int,
                       was: map<int, CacheEntry>, now: map<int, CacheEntry>)

  /** It rebuilt the window exactly when the fetch time it read differs from the recorded one, else it rolled. */
  ghost predicate Taken(cfg: Config, history: seq<Dataset>, u: Turn)
    requires cfg.Valid()
  {
    && u.seen < |history| && u.version < |history| && u.left == history[u.version].fetchedAt
    && (u.e.Cutover? || u.e.Roll?)
    && (u.e.Cutover? <==> history[u.seen].fetchedAt != u.recorded)
    && (u.e.Cutover? ==> u.seen <= u.version && u.now.Keys == Grid(cfg, cfg.Round(u.e.now), cfg.Frames()))
    && (u.e.Roll? ==>
          && u.left == u.recorded
          && Rolled(u.was, u.now, cfg.Round(u.e.lead + cfg.horizon), u.e.evict - cfg.buffer))
  }

  /** The events after the first are those of the turns, each of which starts where the one before it ended. */
  ghost predicate Logged(cfg: Config, history: seq<Dataset>, es: seq<Event>, us: seq<Turn>,
                         entries: map<int, CacheEntry>, recorded: int)
    requires cfg.Valid()
  {
    && |es| == |us| + 1
    && (us == [] ==> entries.Keys == Keys(cfg, es))
    && (us == [] ||
        var l := |us| - 1;
        && es[l + 1] == us[l].e && us[l].now == entries && us[l].left == recorded && Taken(cfg, history, us[l])
        && Logged(cfg, history, es[..l + 1], us[..l], us[l].was, us[l].recorded))
  }

  lemma {:induction false} LoggedLater(cfg: Config, h: seq<Dataset>, h': seq<Dataset>, es: seq<Event>, us: seq<Turn>,
                                       entries: map<int, CacheEntry>, recorded: int)
    requires cfg.Valid() && h <= h' && Logged(cfg, h, es, us, entries, recorded)
    ensures Logged(cfg, h', es, us, entries, recorded)
    decreases |us|
  {
    if us != [] {
      var l := |us| - 1;
      LoggedLater(cfg, h, h', es[..l + 1], us[..l], us[l].was, us[l].recorded);
    }
  }

  lemma LoggedMore(cfg: Config, h: seq<Dataset>, h': seq<Dataset>, es: seq<Event>, us: seq<Turn>, u: Turn)
    requires cfg.Valid() && h <= h' && Logged(cfg, h, es, us, u.was, u.recorded) && Taken(cfg, h', u)
    ensures Logged(cfg, h', es + [u.e], us + [u], u.now, u.left)
  {
    LoggedLater(cfg, h, h', es, us, u.was, u.recorded);
    assert (es + [u.e])[..|us| + 1] == es && (us + [u])[..|us|] == us;
  }

  /** A turn that reads the recorded fetch time keeps what has not expired and adds at most one keyframe. */
  lemma QuietTurnKeepsWindow(cfg: Config, history: seq<Dataset>, u: Turn)
    requires cfg.Valid() && Taken(cfg, history, u) && history[u.seen].fetchedAt == u.recorded
    ensures u.e.Roll? && u.left == u.recorded
    ensures forall k :: k in u.was && u.e.evict - cfg.buffer <= k ==> k in u.now && u.now[k] == u.was[k]
    ensures forall k :: k in u.now && k !in u.was ==> k == cfg.Round(u.e.lead + cfg.horizon)
  {
  }

  /** A turn that reads any other rebuilds the whole window, and records that version or a later one. */
  lemma RefreshRebuildsWindow(cfg: Config, history: seq<Dataset>, u: Turn)
    requires cfg.Valid() && Taken(cfg, history, u) && history[u.seen].fetchedAt != u.recorded
    ensures u.e.Cutover? && Covers(cfg, u.now.Keys, u.e.now)
    ensures u.seen <= u.version < |history| && u.left == history[u.version].fetchedAt
  {
    FillCovers(cfg, u.now.Keys, u.e.now);
  }

  lemma TickDue(first: int, n: nat, step: int, due: int)
    requires first + n * step <= due
    ensures first + (n + 1) * step <= due + step
  {
  }

  /** The eviction loop: drops exactly the keys before the cutoff and counts them. */
  method DeleteBefore(entries: map<int, CacheEntry>, cutoff: int) returns (kept: map<int, CacheEntry>, removed: nat)
    ensures forall k :: k in kept <==> k in entries && !(k < cutoff)
    ensures forall k :: k in kept ==> kept[k] == entries[k]
    ensures removed + |kept| == |entries|
  {
    kept, removed := entries, 0;
    var todo: set<int> := entries.Keys;
    while todo != {}
      invariant todo <= kept.Keys && removed + |kept| == |entries|
      invariant forall k :: k in kept ==> k in entries && kept[k] == entries[k]
      invariant forall k :: k in entries && k !in todo ==> (k in kept <==> !(k < cutoff))
      decreases |todo|
    {
      assert (forall k :: k !in todo) ==> todo == {};
      var ts: int :| ts in todo;
      todo := todo - {ts};
      if ts < cutoff {
        ghost var before := kept;
        kept := kept - {ts};
        assert kept.Keys == before.Keys - {ts};
        removed := removed + 1;
      }
    }
  }

  class KeyframeCache {
    const cfg: Config
    const outside: Outside
    const store: Store
    const positionsOf: Yield

    var entries: map<int, CacheEntry>
    var currentFetchedAt: int
    var inGracePeriod: bool

    /** The version each entry was made from, and the version `currentFetchedAt` belongs to. */
    ghost var source: map<int, nat>
    ghost var base: nat

    ghost predicate Valid()
      reads this, store, outside
    {
      && cfg.Valid() && outside.store == store && store.Valid()
      && Coherent(cfg, positionsOf, store.history, entries, source, base, !outside.cancelled)
    }

    /** After warmup began: the recorded fetch time is that of version `base`. */
    ghost predicate Warm()
      reads this, store
    {
      base < |store.history| && store.history[base].fetchedAt == currentFetchedAt
    }

    /** Every entry comes from the dataset the store holds now. */
    ghost predicate AllCurrent()
      reads this, store
    {
      forall k :: k in source ==> source[k] == |store.history| - 1
    }

    constructor (cfg: Config, outside: Outside, positionsOf: Yield)
      requires cfg.Valid() && outside.store.Valid()
      ensures Valid() && entries == map[] && !inGracePeriod
      ensures this.cfg == cfg && this.outside == outside && this.positionsOf == positionsOf
    {
      this.cfg, this.outside, this.store, this.positionsOf := cfg, outside, outside.store, positionsOf;
      entries, currentFetchedAt, inGracePeriod := map[], 0, false;
      source, base := map[], 0;
    }

    lemma EntryAt(k: int)
      requires Valid() && k in entries
      ensures MadeFrom(cfg, positionsOf, store.history, k, entries[k], source[k], !outside.cancelled)
    {
    }

    // ---- readers ----

    /** A hit for `t` is the keyframe of the slot that contains `t`. */
    method Get(t: int) returns (kf: Option<Keyframe>)
      requires Valid()
      ensures kf == Lookup(cfg, entries, t)
      ensures kf.Some? <==> cfg.Round(t) in entries
      ensures kf.Some? ==> kf.value == entries[cfg.Round(t)].keyframe
      ensures kf.Some? ==> kf.value.timestamp <= t < kf.value.timestamp + cfg.step
    {
      var key := cfg.Round(t);
      RoundFacts(cfg, t);
      if key in entries {
        EntryAt(key);
        return Some(entries[key].keyframe);
      }
      kf := None;
    }

    /** The cached keyframes among the last `count` slots up to `t`, oldest first, none left out. */
    method GetRecent(t: int, count: int) returns (result: seq<Keyframe>)
      requires Valid()
      ensures result == Recent(cfg, entries, t, count)
      ensures forall i, j :: 0 <= i < j < |result| ==> result[i].timestamp < result[j].timestamp
      ensures forall kf :: kf in result <==>
                exists i :: 0 <= i < count && Slot(cfg, t, i) in entries && entries[Slot(cfg, t, i)].keyframe == kf
    {
      result := [];
      if count > 0 {
        var key := cfg.Round(t);
        var i := count - 1;
        while i >= 0
          invariant -1 <= i < count
          invariant result + Recent(cfg, entries, t, i + 1) == Recent(cfg, entries, t, count)
        {
          var ts := key - i * cfg.step;
          RecentNext(cfg, entries, t, i, result);
          if ts in entries {
            result := result + [entries[ts].keyframe];
          }
          i := i - 1;
        }
      }
      assert result + [] == result;
      AreStamped();
      RecentInOrder(cfg, entries, t, count);
      RecentIsExactly(cfg, entries, t, count);
    }

    lemma AreStamped()
      requires Valid()
      ensures Stamped(entries)
    {
      forall k | k in entries ensures entries[k].keyframe.timestamp == k { EntryAt(k); }
    }

    /** The newest keyframe not after `now`, looking back at most ten slots. */
    method GetLatest(now: int) returns (kf: Option<Keyframe>)
      requires Valid()
      ensures kf.None? ==> forall i :: 0 <= i < 10 ==> Slot(cfg, now, i) !in entries
      ensures kf.Some? ==> exists i ::
                && 0 <= i < 10 && Slot(cfg, now, i) in entries && kf.value == entries[Slot(cfg, now, i)].keyframe
                && forall j :: 0 <= j < i ==> Slot(cfg, now, j) !in entries
    {
      kf := None;
      for i := 0 to 10
        invariant forall j :: 0 <= j < i ==> Slot(cfg, now, j) !in entries
      {
        var key := cfg.Round(now) - i * cfg.step;
        assert key == Slot(cfg, now, i);
        if key in entries {
          return Some(entries[key].keyframe);
        }
      }
    }

    // ---- maintenance ----

    /** Generates one keyframe from whatever dataset the store holds when it is read. */
    method PropagateToTime(targetTime: int) returns (kf: Option<Keyframe>, ghost v: nat)
      requires cfg.Valid() && outside.store == store && store.Valid() && cfg.Round(targetTime) == targetTime
      modifies outside, store
      ensures store.Valid() && old(store.history) <= store.history
      ensures old(outside.clock) <= outside.clock && (old(outside.cancelled) ==> outside.cancelled)
      ensures old(store.history) != [] ==> kf.Some?
      ensures kf.Some? ==> |old(store.history)| <= v + 1 && kf.value.timestamp == targetTime
      ensures kf.Some? ==> forall at ::
                MadeFrom(cfg, positionsOf, store.history, targetTime, CacheEntry(kf.value, at), v, !outside.cancelled)
    {
      outside.Interfere();
      var ds := store.Get();
      if ds.None? { return None, 0; }
      v := |store.history| - 1;
      outside.Interfere();
      var all := positionsOf(ds.value, targetTime);
      var batch: seq<Position> := all;
      batch := *;  // the pool delivers in any order, and short when cancelled
      if !(multiset(batch) <= multiset(all)) || (!outside.cancelled && multiset(batch) != multiset(all)) {
        batch := all;
      }
      kf := Some(Keyframe(targetTime, batch));
    }

    method Put(kf: Keyframe, ghost v: nat)
      requires Valid() && base <= v
      requires forall at ::
                 MadeFrom(cfg, positionsOf, store.history, kf.timestamp, CacheEntry(kf, at), v, !outside.cancelled)
      modifies this`entries, this`source
      ensures Valid() && source == old(source)[kf.timestamp := v]
      ensures entries.Keys == old(entries.Keys) + {kf.timestamp} && entries[kf.timestamp].keyframe == kf
      ensures entries == old(entries)[kf.timestamp := entries[kf.timestamp]]
    {
      var key := cfg.Round(kf.timestamp);
      var entry := CacheEntry(kf, outside.clock);
      CoherentPut(cfg, positionsOf, store.history, entries, source, base, !outside.cancelled, key, entry, v);
      entries, source := entries[key := entry], source[key := v];
    }

    method TleChanged() returns (changed: bool)
      requires Valid() && Warm()
      ensures changed <==> currentFetchedAt != store.history[|store.history| - 1].fetchedAt
      ensures !changed && FetchTimesDistinct(store.history) ==> AllCurrent()
    {
      var ds := store.Get();
      changed := ds.Some? && ds.value.fetchedAt != currentFetchedAt;
    }

    /** Removes exactly the keys older than the buffer allows. */
    method EvictExpired() returns (removed: nat, ghost now: int)
      requires Valid()
      modifies this`entries, this`source, outside, store
      ensures Valid() && old(store.history) <= store.history
      ensures old(outside.clock) <= now <= outside.clock && (old(outside.cancelled) ==> outside.cancelled)
      ensures entries == From(old(entries), now - cfg.buffer)
      ensures entries.Keys == Unexpired(cfg, old(entries.Keys), now)
      ensures removed + |entries| == |old(entries)|
    {
      ghost var h, complete := store.history, !outside.cancelled;
      outside.Interfere();
      CoherentLater(cfg, positionsOf, h, store.history, entries, source, base, complete, !outside.cancelled);
      now := outside.clock;
      ghost var all := entries;
      entries, removed := DeleteBefore(entries, outside.clock - cfg.buffer);
      CoherentKeep(cfg, positionsOf, store.history, all, source, base, !outside.cancelled, entries);
      source := map k | k in entries :: source[k];
      ghost var left := Unexpired(cfg, all.Keys, now);
      assert forall k :: k in left <==> k in entries.Keys;
    }

    /** Generates and stores the keyframe of one slot, which a loaded store cannot refuse. */
    method Generate(slot: int)
      requires Valid() && Warm() && cfg.Round(slot) == slot
      modifies this`entries, this`source, outside, store
      ensures Valid() && Warm() && old(store.history) <= store.history
      ensures old(outside.clock) <= outside.clock && (old(outside.cancelled) ==> outside.cancelled)
      ensures entries.Keys == old(entries.Keys) + {slot} && entries == old(entries)[slot := entries[slot]]
    {
      ghost var h, complete := store.history, !outside.cancelled;
      var kf, v := PropagateToTime(slot);
      CoherentLater(cfg, positionsOf, h, store.history, entries, source, base, complete, !outside.cancelled);
      Put(kf.value, v);
    }

    /** Time passes before the next step. */
    method Wait()
      requires Valid()
      modifies outside, store
      ensures Valid() && old(store.history) <= store.history
      ensures old(outside.clock) <= outside.clock && (old(outside.cancelled) ==> outside.cancelled)
    {
      ghost var h, complete := store.history, !outside.cancelled;
      outside.Interfere();
      CoherentLater(cfg, positionsOf, h, store.history, entries, source, base, complete, !outside.cancelled);
    }

    /** Until the ticker fires, which is no earlier than it is due. */
    method Sleep(due: int)
      requires Valid()
      modifies outside, store
      ensures Valid() && old(store.history) <= store.history
      ensures old(outside.clock) <= outside.clock && due <= outside.clock
      ensures old(outside.cancelled) ==> outside.cancelled
    {
      Wait();
      if outside.clock < due { outside.clock := due; }
    }

    /** Adds the keyframe a horizon ahead of the sampled clock, unless its slot is already filled. */
    method GenerateLeadingEdge() returns (ghost now: int)
      requires Valid() && Warm()
      modifies this`entries, this`source, outside, store
      ensures Valid() && Warm() && old(store.history) <= store.history
      ensures old(outside.clock) <= now <= outside.clock && (old(outside.cancelled) ==> outside.cancelled)
      ensures entries.Keys == old(entries.Keys) + {cfg.Round(now + cfg.horizon)}
      ensures Gains(old(entries), entries, cfg.Round(now + cfg.horizon))
    {
      Wait();
      now := outside.clock;
      var target := cfg.Round(outside.clock + cfg.horizon);
      RoundFacts(cfg, outside.clock + cfg.horizon);
      var cached := Get(target);
      if cached.Some? { return; }
      Generate(target);
    }

    /** Frame `i` of a warmup that has filled the slots before it. */
    method GenerateFrame(start: int, i: int)
      requires Valid() && Warm() && cfg.Round(start) == start && 0 <= i && entries.Keys == Grid(cfg, start, i)
      modifies this`entries, this`source, outside, store
      ensures Valid() && Warm() && old(store.history) <= store.history
      ensures old(outside.clock) <= outside.clock && (old(outside.cancelled) ==> outside.cancelled)
      ensures entries.Keys == Grid(cfg, start, i + 1)
    {
      SlotIsAligned(cfg, start, i);
      GridGrows(cfg, start, i);
      Generate(start + i * cfg.step);
    }

    /** Fills the empty cache from the sampled clock to the horizon; `done` unless cancelled on the way. */
    method Warmup() returns (ghost now: int, ghost done: bool)
      requires Valid() && entries == map[]
      modifies this`entries, this`source, this`base, this`currentFetchedAt, outside, store
      ensures Valid() && old(store.history) <= store.history
      ensures old(outside.clock) <= now <= outside.clock && (old(outside.cancelled) ==> outside.cancelled)
      ensures old(store.history) != [] ==> Warm() && (done || outside.cancelled)
      ensures done ==> entries.Keys == Grid(cfg, cfg.Round(now), cfg.Frames())
    {
      now, done := outside.clock, false;
      var ds := store.Get();
      if ds.None? { return; }
      currentFetchedAt, base := ds.value.fetchedAt, |store.history| - 1;
      Wait();
      now := outside.clock;
      var start, i := cfg.Round(outside.clock), 0;
      RoundFacts(cfg, outside.clock);
      GridGrows(cfg, start, 0);
      while i < cfg.Frames()
        modifies this`entries, this`source, outside, store
        invariant 0 <= i <= cfg.Frames()
        invariant Valid() && Warm() && old(store.history) <= store.history
        invariant now <= outside.clock && (old(outside.cancelled) ==> outside.cancelled)
        invariant entries.Keys == Grid(cfg, start, i)
      {
        Wait();
        if outside.cancelled { return; }
        GenerateFrame(start, i);
        i := i + 1;
      }
      done := true;
    }

    /** The cutover's loop: a whole window built aside, each frame from the dataset read for it. */
    method BuildAside(start: int) returns (built: map<int, CacheEntry>, done: bool, ghost made: map<int, nat>)
      requires cfg.Valid() && outside.store == store && store.Valid() && cfg.Round(start) == start
      requires store.history != []
      modifies outside, store
      ensures store.Valid() && old(store.history) <= store.history
      ensures old(outside.clock) <= outside.clock && (old(outside.cancelled) ==> outside.cancelled)
      ensures done || outside.cancelled
      ensures Coherent(cfg, positionsOf, store.history, built, made, |old(store.history)| - 1, !outside.cancelled)
      ensures done ==> built.Keys == Grid(cfg, start, cfg.Frames())
    {
      built, done, made := map[], false, map[];
      ghost var oldest := |store.history| - 1;
      var i := 0;
      while i < cfg.Frames()
        invariant 0 <= i <= cfg.Frames()
        invariant store.Valid() && old(store.history) <= store.history
        invariant old(outside.clock) <= outside.clock && (old(outside.cancelled) ==> outside.cancelled)
        invariant Coherent(cfg, positionsOf, store.history, built, made, oldest, !outside.cancelled)
        invariant built.Keys == Grid(cfg, start, i)
      {
        ghost var h, complete := store.history, !outside.cancelled;
        outside.Interfere();
        CoherentLater(cfg, positionsOf, h, store.history, built, made, oldest, complete, !outside.cancelled);
        if outside.cancelled { return; }
        SlotIsAligned(cfg, start, i);
        h, complete := store.history, !outside.cancelled;
        var kf, v := PropagateToTime(start + i * cfg.step);
        CoherentLater(cfg, positionsOf, h, store.history, built, made, oldest, complete, !outside.cancelled);
        var key, entry := cfg.Round(kf.value.timestamp), CacheEntry(kf.value, outside.clock);
        CoherentPut(cfg, positionsOf, store.history, built, made, oldest, !outside.cancelled, key, entry, v);
        built, made := built[key := entry], made[key := v];
        GridGrows(cfg, start, i);
        i := i + 1;
      }
      done := true;
    }

    method Swap(built: map<int, CacheEntry>, ghost made: map<int, nat>, fetchedAt: int, ghost version: nat)
      requires cfg.Valid() && outside.store == store && store.Valid()
      requires Coherent(cfg, positionsOf, store.history, built, made, version, !outside.cancelled)
      requires version < |store.history| && store.history[version].fetchedAt == fetchedAt
      modifies this`entries, this`source, this`base, this`currentFetchedAt
      ensures Valid() && Warm() && entries == built && source == made && base == version
    {
      entries, source := built, made;
      currentFetchedAt, base := fetchedAt, version;
    }

    /** Rebuilds the whole window aside, then swaps it in together with the dataset it was started for. */
    method PerformCutover() returns (ghost now: int, done: bool)
      requires Valid() && Warm()
      modifies this, outside, store
      ensures Valid() && Warm() && old(store.history) <= store.history && !inGracePeriod
      ensures old(outside.clock) <= now <= outside.clock && (old(outside.cancelled) ==> outside.cancelled)
      ensures done || outside.cancelled
      ensures done ==> entries.Keys == Grid(cfg, cfg.Round(now), cfg.Frames()) && |old(store.history)| <= base + 1
      ensures !done ==> entries == old(entries) && source == old(source)
    {
      Wait();
      var ds := store.Get();
      ghost var version := |store.history| - 1;
      inGracePeriod := true;
      Wait();
      ghost var h, complete := store.history, !outside.cancelled;
      now := outside.clock;
      RoundFacts(cfg, outside.clock);
      var built;
      ghost var made;
      built, done, made := BuildAside(cfg.Round(outside.clock));
      if done {
        Swap(built, made, ds.value.fetchedAt, version);
      } else {
        CoherentLater(cfg, positionsOf, h, store.history, entries, source, base, complete, !outside.cancelled);
      }
      inGracePeriod := false;
    }

    /** The uneventful turn: extend the leading edge, then evict. */
    method RollForward() returns (ghost lead: int, ghost evict: int)
      requires Valid() && Warm()
      modifies this`entries, this`source, outside, store
      ensures Valid() && Warm() && old(store.history) <= store.history
      ensures old(outside.clock) <= lead <= evict <= outside.clock
      ensures old(outside.cancelled) ==> outside.cancelled
      ensures entries.Keys == Unexpired(cfg, old(entries.Keys) + {cfg.Round(lead + cfg.horizon)}, evict)
      ensures Rolled(old(entries), entries, cfg.Round(lead + cfg.horizon), evict - cfg.buffer)
    {
      lead := GenerateLeadingEdge();
      ghost var mid := entries;
      var removed;
      removed, evict := EvictExpired();
      GainedThenEvicted(old(entries), mid, cfg.Round(lead + cfg.horizon), evict - cfg.buffer);
    }

    /**
     * One turn of the maintenance loop. It compares the recorded fetch time with that of the version it
     * reads, `seen`: the window is rebuilt exactly when they differ, and otherwise extended and trimmed.
     * If no refresh landed meanwhile, every entry then comes from the current dataset, provided no two
     * datasets were ever fetched at the same instant.
     */
    method Tick() returns (ghost e: Event, ghost seen: nat)
      requires Valid() && Warm()
      modifies this, outside, store
      ensures Valid() && Warm() && old(store.history) <= store.history
      ensures old(outside.clock) <= e.First() <= e.Last() <= outside.clock && !e.Fill?
      ensures old(outside.cancelled) ==> outside.cancelled
      ensures |old(store.history)| <= seen + 1
      ensures !outside.cancelled ==>
                Taken(cfg, store.history,
                      Turn(e, seen, old(currentFetchedAt), base, currentFetchedAt, old(entries), entries))
      ensures !outside.cancelled ==> entries.Keys == After(cfg, old(entries.Keys), e)
      ensures !outside.cancelled && store.history == old(store.history) && FetchTimesDistinct(store.history) ==>
                AllCurrent()
    {
      Wait();
      seen := |store.history| - 1;
      var changed := TleChanged();
      if changed {
        var now, done := PerformCutover();
        e := Cutover(now);
      } else {
        ghost var lead, evict := RollForward();
        e := Roll(lead, evict);
      }
    }

    /** The warmup, and its record. */
    method Begin() returns (ghost es: seq<Event>)
      requires Valid() && entries == map[] && store.history != []
      modifies this`entries, this`source, this`base, this`currentFetchedAt, outside, store
      ensures Valid() && Warm() && (old(outside.cancelled) ==> outside.cancelled)
      ensures |es| == 1 && es[0].First() <= outside.clock
      ensures !outside.cancelled ==> Follows(cfg, entries.Keys, es, outside.clock)
      ensures !outside.cancelled ==> Logged(cfg, store.history, es, [], entries, currentFetchedAt)
    {
      ghost var now, done := Warmup();
      es := [Fill(now)];
      if done { FollowsWarmup(cfg, entries.Keys, now, outside.clock); }
    }

    /** One tick of the ticker, due no earlier than `due`, and its record. */
    method TakeTurn(due: int, ghost es: seq<Event>, ghost us: seq<Turn>) returns (ghost e: Event, ghost u: Turn)
      requires Valid() && Warm() && Follows(cfg, entries.Keys, es, outside.clock)
      requires Logged(cfg, store.history, es, us, entries, currentFetchedAt)
      requires es[0].First() + |es| * cfg.step <= due
      modifies this, outside, store
      ensures Valid() && Warm() && (old(outside.cancelled) ==> outside.cancelled)
      ensures !outside.cancelled ==> Follows(cfg, entries.Keys, es + [e], outside.clock)
      ensures !outside.cancelled ==> Logged(cfg, store.history, es + [e], us + [u], entries, currentFetchedAt)
    {
      ghost var keys, h, recorded, was := entries.Keys, store.history, currentFetchedAt, entries;
      Sleep(due);
      ghost var clock := outside.clock;
      ghost var seen;
      e, seen := Tick();
      u := Turn(e, seen, recorded, base, currentFetchedAt, was, entries);
      if !outside.cancelled {
        FollowsTick(cfg, keys, es, clock, e, entries.Keys, outside.clock);
        LoggedMore(cfg, h, store.history, es, us, u);
      }
    }

    /**
     * The maintenance goroutine once a dataset is available: a warmup, then any number of turns, each
     * logged. Its keys are those of a monotone run of events, so SizeBound and AlwaysCoveredIff speak of
     * them.
     */
    method Maintain(turns: nat) returns (ghost es: seq<Event>, ghost us: seq<Turn>)
      requires Valid() && entries == map[] && store.history != []
      modifies this, outside, store
      ensures Valid() && Warm() && (old(outside.cancelled) ==> outside.cancelled)
      ensures !outside.cancelled ==> |us| == turns && Logged(cfg, store.history, es, us, entries, currentFetchedAt)
      ensures !outside.cancelled ==> Follows(cfg, entries.Keys, es, outside.clock)
      ensures !outside.cancelled ==> |entries| <= (cfg.horizon + cfg.buffer) / cfg.step + 1
    {
      us := [];
      es := Begin();
      var left, due := turns, outside.clock + cfg.step;
      while left > 0 && !outside.cancelled
        invariant Valid() && Warm() && (old(outside.cancelled) ==> outside.cancelled)
        invariant es != [] && |us| + left == turns && es[0].First() + |es| * cfg.step <= due
        invariant !outside.cancelled ==> Follows(cfg, entries.Keys, es, outside.clock)
        invariant !outside.cancelled ==> Logged(cfg, store.history, es, us, entries, currentFetchedAt)
      {
        ghost var e, u := TakeTurn(due, es, us);
        TickDue(es[0].First(), |es|, cfg.step, due);
        es, us, due := es + [e], us + [u], due + cfg.step;
        left := left - 1;
      }
      if !outside.cancelled { FollowsSize(cfg, entries, es, outside.clock); }
    }
  }
}
