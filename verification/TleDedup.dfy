/** Merging element sets of several sources: one entry to a NORAD ID, the newest. */
module TleDedup {
  import opened Wrappers
  import opened Tle

  /** The NORAD IDs in order of first appearance. */
  function FirstSeen(es: seq<Entry>): seq<int> {
    if es == [] then []
    else Noting(FirstSeen(es[..|es| - 1]), es[|es| - 1].noradId)
  }

  function Noting(ids: seq<int>, id: int): seq<int> { if id in ids then ids else ids + [id] }

  /** The newer of two candidates, the earlier one on a tie. */
  function Better(w: Option<Entry>, e: Entry): Option<Entry> {
    if w.Some? && e.epoch <= w.value.epoch then w else Some(e)
  }

  function Winner(es: seq<Entry>, id: int): Option<Entry> {
    if es == [] then None
    else
      var w, e := Winner(es[..|es| - 1], id), es[|es| - 1];
      if e.noradId == id then Better(w, e) else w
  }

  /** One entry for each NORAD ID in order of first appearance, its winner. */
  ghost predicate IsDedup(es: seq<Entry>, r: seq<Entry>) {
    |r| == |FirstSeen(es)| && forall k :: 0 <= k < |r| ==> Some(r[k]) == Winner(es, FirstSeen(es)[k])
  }

  // ---- what a winner is ----

  lemma {:induction false} SeenIffWinner(es: seq<Entry>, id: int)
    ensures id in FirstSeen(es) <==> Winner(es, id).Some?
    ensures Winner(es, id).Some? ==> Winner(es, id).value.noradId == id
  {
    if es != [] { SeenIffWinner(es[..|es| - 1], id); }
  }

  /** `es[k]` is the earliest among the entries for its NORAD ID with the newest epoch. */
  ghost predicate EarliestNewest(es: seq<Entry>, k: int) {
    0 <= k < |es|
    && (forall j :: 0 <= j < |es| && es[j].noradId == es[k].noradId ==> es[j].epoch <= es[k].epoch)
    && (forall j :: 0 <= j < k && es[j].noradId == es[k].noradId ==> es[j].epoch < es[k].epoch)
  }

  lemma {:induction false} WinnerIsEarliestNewest(es: seq<Entry>, id: int) returns (k: int)
    ensures Winner(es, id).Some? ==> EarliestNewest(es, k) && es[k] == Winner(es, id).value && es[k].noradId == id
    ensures Winner(es, id).None? ==> forall j :: 0 <= j < |es| ==> es[j].noradId != id
  {
    k := -1;
    if es != [] {
      var l := |es| - 1;
      k := WinnerIsEarliestNewest(es[..l], id);
      if es[l].noradId == id && (Winner(es[..l], id).None? || es[l].epoch > Winner(es[..l], id).value.epoch) { k := l; }
    }
  }

  lemma {:induction false} SeenOnce(es: seq<Entry>)
    ensures forall i, j :: 0 <= i < j < |FirstSeen(es)| ==> FirstSeen(es)[i] != FirstSeen(es)[j]
  {
    if es != [] { SeenOnce(es[..|es| - 1]); }
  }

  // ---- the loop ----

  method Deduplicate(entries: seq<Entry>) returns (result: seq<Entry>)
    ensures IsDedup(entries, result)
  {
    var best: map<int, nat> := map[];
    result := [];
    for i := 0 to |entries|
      invariant IsDedup(entries[..i], result)
      invariant Indexed(best, FirstSeen(entries[..i]))
    {
      var e := entries[i];
      assert entries[..i + 1] == entries[..i] + [e];
      if e.noradId in best {
        var idx := best[e.noradId];
        DedupSeen(entries[..i], e, result, idx);
        if e.epoch > result[idx].epoch {
          result := result[idx := e];
        }
      } else {
        DedupUnseen(entries[..i], e, result);
        best := best[e.noradId := |result|];
        result := result + [e];
      }
    }
    assert entries[..|entries|] == entries;
  }

  ghost predicate Indexed(best: map<int, nat>, ids: seq<int>) {
    && (forall id :: id in best ==> best[id] < |ids| && ids[best[id]] == id)
    && (forall id :: id in ids ==> id in best)
  }

  lemma DedupSeen(es: seq<Entry>, e: Entry, r: seq<Entry>, idx: nat)
    requires IsDedup(es, r) && idx < |r| && FirstSeen(es)[idx] == e.noradId
    ensures FirstSeen(es + [e]) == FirstSeen(es)
    ensures IsDedup(es + [e], if e.epoch > r[idx].epoch then r[idx := e] else r)
  {
    assert (es + [e])[..|es|] == es;
    SeenOnce(es);
  }

  lemma DedupUnseen(es: seq<Entry>, e: Entry, r: seq<Entry>)
    requires IsDedup(es, r) && e.noradId !in FirstSeen(es)
    ensures FirstSeen(es + [e]) == FirstSeen(es) + [e.noradId]
    ensures IsDedup(es + [e], r + [e])
  {
    assert (es + [e])[..|es|] == es;
    SeenIffWinner(es, e.noradId);
  }

  // ---- laws ----

  function NotingAll(ids: seq<int>, more: seq<int>): seq<int> {
    if more == [] then ids else Noting(NotingAll(ids, more[..|more| - 1]), more[|more| - 1])
  }

  lemma {:induction false} NotingMember(ids: seq<int>, more: seq<int>, id: int)
    ensures id in NotingAll(ids, more) <==> id in ids || id in more
  {
    if more != [] {
      NotingMember(ids, more[..|more| - 1], id);
      assert more == more[..|more| - 1] + [more[|more| - 1]];
    }
  }

  /** What is first seen in a concatenation depends only on what is first seen in its parts. */
  lemma {:induction false} FirstSeenAppend(a: seq<Entry>, b: seq<Entry>)
    ensures FirstSeen(a + b) == NotingAll(FirstSeen(a), FirstSeen(b))
  {
    if b == [] {
      assert a + b == a;
    } else {
      var l := |b| - 1;
      assert (a + b)[..|a + b| - 1] == a + b[..l];
      FirstSeenAppend(a, b[..l]);
      var ids, id := FirstSeen(b[..l]), b[l].noradId;
      NotingMember(FirstSeen(a), ids, id);
      if id !in ids { assert (ids + [id])[..|ids|] == ids; }
    }
  }

  function Pick(w: Option<Entry>, v: Option<Entry>): Option<Entry> {
    if v.None? then w else Better(w, v.value)
  }

  /** The winner of a concatenation depends only on the winners of its parts. */
  lemma {:induction false} WinnerAppend(a: seq<Entry>, b: seq<Entry>, id: int)
    ensures Winner(a + b, id) == Pick(Winner(a, id), Winner(b, id))
  {
    if b == [] {
      assert a + b == a;
    } else {
      var l := |b| - 1;
      assert (a + b)[..|a + b| - 1] == a + b[..l];
      WinnerAppend(a, b[..l], id);
    }
  }

  lemma {:induction false} DistinctSeen(r: seq<Entry>, ids: seq<int>)
    requires |r| == |ids| && forall k :: 0 <= k < |r| ==> r[k].noradId == ids[k]
    requires forall i, j :: 0 <= i < j < |ids| ==> ids[i] != ids[j]
    ensures FirstSeen(r) == ids
  {
    if r != [] {
      DistinctSeen(r[..|r| - 1], ids[..|r| - 1]);
    }
  }

  lemma {:induction false} DistinctWinner(r: seq<Entry>, id: int)
    requires forall i, j :: 0 <= i < j < |r| ==> r[i].noradId != r[j].noradId
    ensures forall k :: 0 <= k < |r| && r[k].noradId == id ==> Winner(r, id) == Some(r[k])
    ensures (forall k :: 0 <= k < |r| ==> r[k].noradId != id) ==> Winner(r, id).None?
  {
    if r != [] { DistinctWinner(r[..|r| - 1], id); }
  }

  /** One entry to a NORAD ID, in order of first appearance. */
  lemma DedupHasDistinctIds(es: seq<Entry>, r: seq<Entry>)
    requires IsDedup(es, r)
    ensures forall k :: 0 <= k < |r| ==> r[k].noradId == FirstSeen(es)[k]
    ensures forall i, j :: 0 <= i < j < |r| ==> r[i].noradId != r[j].noradId
  {
    SeenOnce(es);
    forall k | 0 <= k < |r| ensures r[k].noradId == FirstSeen(es)[k] {
      SeenIffWinner(es, FirstSeen(es)[k]);
    }
  }

  /** A deduplicated list shows the same IDs in the same order, with the same winners. */
  lemma DedupKeepsWinners(es: seq<Entry>, r: seq<Entry>, id: int)
    requires IsDedup(es, r)
    ensures FirstSeen(r) == FirstSeen(es) && Winner(r, id) == Winner(es, id)
  {
    var ids := FirstSeen(es);
    DedupHasDistinctIds(es, r);
    SeenOnce(es);
    DistinctSeen(r, ids);
    DistinctWinner(r, id);
    SeenIffWinner(es, id);
    if id in ids {
      var k :| 0 <= k < |ids| && ids[k] == id;
      assert Some(r[k]) == Winner(es, id);
    }
  }

  /** Deduplicating again changes nothing. */
  lemma DedupIdempotent(es: seq<Entry>, r: seq<Entry>, again: seq<Entry>)
    requires IsDedup(es, r) && IsDedup(r, again)
    ensures again == r
  {
    DedupKeepsWinners(es, r, 0);
    forall k | 0 <= k < |r| ensures again[k] == r[k] {
      DedupKeepsWinners(es, r, FirstSeen(es)[k]);
    }
  }

  /** Sources may be deduplicated before they are merged, or not: the outcome is the same. */
  lemma DedupMerges(a: seq<Entry>, b: seq<Entry>, ra: seq<Entry>, rb: seq<Entry>, r: seq<Entry>)
    requires IsDedup(a, ra) && IsDedup(b, rb)
    ensures IsDedup(a + b, r) <==> IsDedup(ra + rb, r)
  {
    DedupKeepsWinners(a, ra, 0);
    DedupKeepsWinners(b, rb, 0);
    FirstSeenAppend(a, b);
    FirstSeenAppend(ra, rb);
    forall k | 0 <= k < |FirstSeen(a + b)|
      ensures Winner(a + b, FirstSeen(a + b)[k]) == Winner(ra + rb, FirstSeen(a + b)[k])
    {
      var id := FirstSeen(a + b)[k];
      DedupKeepsWinners(a, ra, id);
      DedupKeepsWinners(b, rb, id);
      WinnerAppend(a, b, id);
      WinnerAppend(ra, rb, id);
    }
  }
}
