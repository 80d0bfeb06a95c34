/** The shared dataset cell, and everything the cache's maintenance goroutine does not control. */
module TleStore {
  import opened Wrappers
  import opened Tle

  ghost predicate FetchTimesDistinct(ds: seq<Dataset>) {
    forall i, j :: 0 <= i < j < |ds| ==> ds[i].fetchedAt != ds[j].fetchedAt
  }

  /** `history` is every dataset ever set; a dataset's version is its index there. */
  class Store {
    var dataset: Option<Dataset>
    ghost var history: seq<Dataset>

    ghost predicate Valid()
      reads this
    {
      dataset == if history == [] then None else Some(history[|history| - 1])
    }

    constructor ()
      ensures Valid() && history == []
    {
      dataset, history := None, [];
    }

    method Get() returns (ds: Option<Dataset>)
      requires Valid()
      ensures ds.None? <==> history == []
      ensures ds.Some? ==> ds.value == history[|history| - 1]
    {
      ds := dataset;
    }

    method Set(ds: Dataset)
      requires Valid()
      modifies this
      ensures Valid() && history == old(history) + [ds]
    {
      dataset, history := Some(ds), history + [ds];
    }
  }

  /** The wall clock, the context, and the goroutines that refresh the store. */
  class Outside {
    const store: Store
    var clock: int
    var cancelled: bool

    constructor (store: Store, clock: int)
      ensures this.store == store && this.clock == clock && !cancelled
    {
      this.store, this.clock, this.cancelled := store, clock, false;
    }

    /** What may happen between two steps of the cache: time passes, refreshes land, the context ends. */
    method Interfere()
      requires store.Valid()
      modifies this, store
      ensures store.Valid() && old(store.history) <= store.history
      ensures old(clock) <= clock && (old(cancelled) ==> cancelled)
    {
      var passed: nat, stop: bool, refreshes: nat := *, *, *;
      clock, cancelled := clock + passed, cancelled || stop;
      while refreshes > 0
        modifies store
        invariant store.Valid() && old(store.history) <= store.history
      {
        var ds := Dataset([], 0, []);
        ds := *;  // any dataset at all
        store.Set(ds);
        refreshes := refreshes - 1;
      }
    }
  }
}
