/** The coarse/fine scan against the brute-force scan, and the shape of pass records. */
module PassTheorems {
  import opened Wrappers
  import opened PassSpec

  // ---- the brute-force scan keeps exactly the maximal runs, in order ----

  ghost predicate Kept(sky: Sky, minEl: real, n: nat, rs: seq<Interval>) {
    && StrictlyDisjoint(rs)
    && (forall i :: 0 <= i < |rs| ==> IsRun(sky, minEl, n, rs[i]))
    && (n > 0 && Above(sky, minEl, n - 1) ==> rs != [] && rs[|rs| - 1].end == n)
  }

  lemma {:induction false} KeptAreRuns(sky: Sky, minEl: real, n: nat)
    ensures Kept(sky, minEl, n, Runs(sky, minEl, n))
  {
    if n > 0 {
      KeptAreRuns(sky, minEl, n - 1);
      var before := Runs(sky, minEl, n - 1);
      if !Above(sky, minEl, n - 1) {
      } else if before != [] && before[|before| - 1].end == n - 1 {
        ExtendLast(sky, minEl, n, before);
      } else {
        AppendRun(sky, minEl, n, before);
      }
    }
  }

  lemma ExtendLast(sky: Sky, minEl: real, n: nat, before: seq<Interval>)
    requires n > 0 && Kept(sky, minEl, n - 1, before) && Above(sky, minEl, n - 1)
    requires before != [] && before[|before| - 1].end == n - 1
    ensures Kept(sky, minEl, n, before[|before| - 1 := before[|before| - 1].(end := n)])
  {
    var l := |before| - 1;
    forall i | 0 <= i < l ensures IsRun(sky, minEl, n, before[i]) {
      assert IsRun(sky, minEl, n - 1, before[i]) && before[i].end < before[l].start;
    }
    assert IsRun(sky, minEl, n, before[l].(end := n));
  }

  lemma AppendRun(sky: Sky, minEl: real, n: nat, before: seq<Interval>)
    requires n > 0 && Kept(sky, minEl, n - 1, before) && Above(sky, minEl, n - 1)
    requires before == [] || before[|before| - 1].end != n - 1
    ensures Kept(sky, minEl, n, before + [Interval(n - 1, n)])
  {
    forall i | 0 <= i < |before| ensures IsRun(sky, minEl, n, before[i]) && before[i].end < n - 1 {
      assert IsRun(sky, minEl, n - 1, before[i]);
      assert i < |before| - 1 ==> before[i].end < before[|before| - 1].start;
    }
    assert IsRun(sky, minEl, n, Interval(n - 1, n));
  }

  predicate Covers(w: Interval, k: int) { w.start <= k < w.end }

  lemma {:induction false} AboveIsCovered(sky: Sky, minEl: real, n: nat, k: nat) returns (i: int)
    requires k < n && Above(sky, minEl, k)
    ensures 0 <= i < |Runs(sky, minEl, n)| && Covers(Runs(sky, minEl, n)[i], k)
  {
    KeptAreRuns(sky, minEl, n);
    if k == n - 1 {
      i := |Runs(sky, minEl, n)| - 1;
    } else {
      i := AboveIsCovered(sky, minEl, n - 1, k);
    }
  }

  lemma RunsThatMeetAreEqual(sky: Sky, minEl: real, n: int, v: Interval, w: Interval, k: int)
    requires IsRun(sky, minEl, n, v) && IsRun(sky, minEl, n, w) && Covers(v, k) && Covers(w, k)
    ensures v == w
  {
    assert v.start < w.start ==> Covers(v, w.start - 1);
    assert w.start < v.start ==> Covers(w, v.start - 1);
    assert v.end < w.end ==> Covers(w, v.end);
    assert w.end < v.end ==> Covers(v, w.end);
  }

  /** Brute force lists the maximal runs: all of them, nothing else, in order. */
  lemma RunsAreMaximal(sky: Sky, minEl: real, n: nat, w: Interval)
    ensures w in Runs(sky, minEl, n) <==> IsRun(sky, minEl, n, w)
    ensures StrictlyDisjoint(Runs(sky, minEl, n))
  {
    KeptAreRuns(sky, minEl, n);
    if IsRun(sky, minEl, n, w) {
      var i := AboveIsCovered(sky, minEl, n, w.start);
      RunsThatMeetAreEqual(sky, minEl, n, Runs(sky, minEl, n)[i], w, w.start);
    }
  }

  // ---- the coarse/fine scan ----

  /** Strictly disjoint spans of the grid from `from` on, long enough and risen. */
  ghost predicate Tidy(sky: Sky, minEl: real, n: int, from: int, ws: seq<Interval>) {
    && StrictlyDisjoint(ws)
    && forall i :: 0 <= i < |ws| ==>
         from <= ws[i].start && ws[i].end <= n && ws[i].Length() >= MIN_PASS && Above(sky, minEl, ws[i].start)
  }

  lemma TidyPrepend(sky: Sky, minEl: real, n: int, from: int, w: Interval, ws: seq<Interval>)
    requires Tidy(sky, minEl, n, w.end, ws) && from <= w.start < w.end <= n && Above(sky, minEl, w.start)
    requires w.end < n ==> Below(sky, minEl, w.end)
    ensures Tidy(sky, minEl, n, from, ws)
    ensures w.Length() >= MIN_PASS ==> Tidy(sky, minEl, n, from, [w] + ws)
  {
    assert forall i :: 0 <= i < |ws| ==> w.end < ws[i].start;
  }

  /** Reported spans start at or after the search start and never touch, whatever the samples. */
  lemma {:induction false} WindowsAreDisjoint(sky: Sky, minEl: real, n: int, t: int, max: int)
    requires 0 <= t
    ensures Tidy(sky, minEl, n, SearchStart(t), Windows(sky, minEl, n, t, max))
    ensures |Windows(sky, minEl, n, t, max)| <= (if max < 0 then 0 else max)
    decreases n - t
  {
    if n <= t || max <= 0 {
    } else if Visible(sky, t) {
      match Scan(sky, minEl, SearchStart(t), n)
      case None =>
      case Some(w) =>
        var next := w.end + COARSE_STEP;
        var rest := if w.Length() >= MIN_PASS then max - 1 else max;
        WindowsAreDisjoint(sky, minEl, n, next, rest);
        assert w.end < n ==> Below(sky, minEl, w.end);
        TidyPrepend(sky, minEl, n, SearchStart(t), w, Windows(sky, minEl, n, next, rest));
    } else {
      WindowsAreDisjoint(sky, minEl, n, t + COARSE_STEP, max);
    }
  }

  /** A cursor that cannot stand inside a run: the second its fine scan starts from is not above. */
  predicate Ready(sky: Sky, minEl: real, n: int, t: int) {
    t == 0 || (t >= COARSE_STEP && (t - COARSE_STEP >= n || !Above(sky, minEl, t - COARSE_STEP)))
  }

  /** The first run starting at or after the search start, if there is one. */
  lemma ScanFindsRun(sky: Sky, minEl: real, n: int, t: int)
    requires 0 <= t < n && ErrorFree(sky, n) && Ready(sky, minEl, n, t)
    requires Scan(sky, minEl, SearchStart(t), n).Some?
    ensures var v := Scan(sky, minEl, SearchStart(t), n).value;
            IsRun(sky, minEl, n, v) && Ready(sky, minEl, n, v.end + COARSE_STEP)
  {
    var v := Scan(sky, minEl, SearchStart(t), n).value;
    assert forall k :: 0 <= k < n ==> (Above(sky, minEl, k) <==> !Below(sky, minEl, k));
    if v.start > SearchStart(t) { assert !Above(sky, minEl, v.start - 1); }
  }

  lemma ScanSkipsNoRun(sky: Sky, minEl: real, n: int, t: int, w: Interval)
    requires 0 <= t < n && ErrorFree(sky, n) && Ready(sky, minEl, n, t)
    requires IsRun(sky, minEl, n, w) && SearchStart(t) <= w.start
    ensures var r := Scan(sky, minEl, SearchStart(t), n);
            r.Some? && (w == r.value || r.value.end < w.start)
  {
    var r := Scan(sky, minEl, SearchStart(t), n);
    assert Above(sky, minEl, w.start);
    ScanFindsRun(sky, minEl, n, t);
    var v := r.value;
    assert v.start <= w.start;
    if w.start < v.end { RunsThatMeetAreEqual(sky, minEl, n, v, w, w.start); }
  }

  lemma {:induction false} WindowsAreRuns(sky: Sky, minEl: real, n: int, t: int, max: int, w: Interval)
    requires 0 <= t && ErrorFree(sky, n) && AboveIsVisible(sky, minEl, n) && Ready(sky, minEl, n, t)
    requires w in Windows(sky, minEl, n, t, max)
    ensures IsRun(sky, minEl, n, w)
    decreases n - t
  {
    if Visible(sky, t) {
      ScanFindsRun(sky, minEl, n, t);
      var v := Scan(sky, minEl, SearchStart(t), n).value;
      var rest := if v.Length() >= MIN_PASS then max - 1 else max;
      if w != v { WindowsAreRuns(sky, minEl, n, v.end + COARSE_STEP, rest, w); }
    } else {
      WindowsAreRuns(sky, minEl, n, t + COARSE_STEP, max, w);
    }
  }

  lemma {:induction false} LongRunsAreFound(sky: Sky, minEl: real, n: int, t: int, max: int, w: Interval)
    requires 0 <= t && ErrorFree(sky, n) && AboveIsVisible(sky, minEl, n) && Ready(sky, minEl, n, t)
    requires |Windows(sky, minEl, n, t, max)| < max
    requires IsRun(sky, minEl, n, w) && SearchStart(t) <= w.start && w.Length() >= COARSE_STEP
    ensures w in Windows(sky, minEl, n, t, max)
    decreases n - t
  {
    assert Above(sky, minEl, w.start);
    assert t < n;
    if Visible(sky, t) {
      ScanSkipsNoRun(sky, minEl, n, t, w);
      ScanFindsRun(sky, minEl, n, t);
      var v := Scan(sky, minEl, SearchStart(t), n).value;
      var rest := if v.Length() >= MIN_PASS then max - 1 else max;
      if w != v { LongRunsAreFound(sky, minEl, n, v.end + COARSE_STEP, rest, w); }
    } else {
      assert !Above(sky, minEl, t);
      LongRunsAreFound(sky, minEl, n, t + COARSE_STEP, max, w);
    }
  }

  /**
   * A shorter run depends on the probes: the first one in reach of the fine scan is reported if it
   * lasts ten seconds and a probe falls into it.
   */
  lemma {:induction false} ProbedRunIsFound(sky: Sky, minEl: real, n: int, t: int, max: int, w: Interval, q: nat)
    requires 0 <= t && max > 0 && ErrorFree(sky, n) && AboveIsVisible(sky, minEl, n)
    requires IsRun(sky, minEl, n, w) && w.Length() >= 10 && SearchStart(t) <= w.start
    requires forall k :: SearchStart(t) <= k < w.start ==> !Above(sky, minEl, k)
    requires Covers(w, t + COARSE_STEP * q)
    ensures Windows(sky, minEl, n, t, max) != [] && Windows(sky, minEl, n, t, max)[0] == w
    decreases q
  {
    if Visible(sky, t) {
      assert Above(sky, minEl, w.start);
      var e := FirstBelow(sky, minEl, w.start, n);
      assert forall k :: 0 <= k < n ==> (Above(sky, minEl, k) <==> !Below(sky, minEl, k));
      assert e == w.end;
    } else {
      assert !Above(sky, minEl, t);
      ProbedRunIsFound(sky, minEl, n, t + COARSE_STEP, max, w, q - 1);
    }
  }

  ghost predicate Proper(xs: seq<Interval>) {
    StrictlyDisjoint(xs) && forall i :: 0 <= i < |xs| ==> xs[i].start < xs[i].end
  }

  predicate Among(xs: seq<Interval>, ys: seq<Interval>) {
    forall i :: 0 <= i < |xs| ==> xs[i] in ys
  }

  lemma LaterIn(ys: seq<Interval>, x: Interval)
    requires x in ys && x != ys[0]
    ensures x in ys[1..]
  {
    var a :| 0 <= a < |ys| && ys[a] == x;
    assert ys[1..][a - 1] == x;
  }

  lemma ProperTail(xs: seq<Interval>)
    requires Proper(xs) && xs != []
    ensures Proper(xs[1..]) && forall i :: 0 < i < |xs| ==> xs[0].end < xs[i].start
  {
  }

  /** What does not start the second list lies in its tail. */
  lemma AmongTail(xs: seq<Interval>, ys: seq<Interval>)
    requires Proper(xs) && Proper(ys) && Among(xs, ys) && xs != [] && ys != []
    ensures Among(if xs[0] == ys[0] then xs[1..] else xs, ys[1..])
  {
    assert xs[0] in ys;
    ProperTail(xs);
    ProperTail(ys);
    var rest := if xs[0] == ys[0] then xs[1..] else xs;
    forall i | 0 <= i < |rest| ensures rest[i] in ys[1..] {
      assert rest[i] == xs[if xs[0] == ys[0] then i + 1 else i];
      LaterIn(ys, rest[i]);
    }
  }

  lemma {:induction false} OrderedInclusion(xs: seq<Interval>, ys: seq<Interval>)
    requires Proper(xs) && Proper(ys) && Among(xs, ys)
    ensures Subsequence(xs, ys)
    decreases |ys|
  {
    if xs != [] {
      assert xs[0] in ys;
      ProperTail(xs);
      ProperTail(ys);
      AmongTail(xs, ys);
      OrderedInclusion(if xs[0] == ys[0] then xs[1..] else xs, ys[1..]);
    }
  }

  /**
   * The predicted spans are an order-preserving subsequence of the brute-force runs, none shorter
   * than ten seconds; unless the pass limit was reached, every run of at least thirty seconds is there.
   */
  ghost predicate RefinesBruteForce(sky: Sky, minEl: real, n: nat, max: int) {
    var ws, rs := Windows(sky, minEl, n, 0, max), Runs(sky, minEl, n);
    && Subsequence(ws, rs)
    && (forall w :: w in ws ==> w.Length() >= MIN_PASS)
    && (|ws| < max ==> forall w :: w in rs && w.Length() >= COARSE_STEP ==> w in ws)
  }

  lemma ScanRefinesBruteForce(sky: Sky, minEl: real, n: nat, max: int)
    requires ErrorFree(sky, n) && AboveIsVisible(sky, minEl, n)
    ensures RefinesBruteForce(sky, minEl, n, max)
  {
    var ws, rs := Windows(sky, minEl, n, 0, max), Runs(sky, minEl, n);
    KeptAreRuns(sky, minEl, n);
    WindowsAreDisjoint(sky, minEl, n, 0, max);
    forall i | 0 <= i < |ws| ensures ws[i] in rs {
      WindowsAreRuns(sky, minEl, n, 0, max, ws[i]);
      RunsAreMaximal(sky, minEl, n, ws[i]);
    }
    OrderedInclusion(ws, rs);
    forall w | |ws| < max && w in rs && w.Length() >= COARSE_STEP ensures w in ws {
      LongRunsAreFound(sky, minEl, n, 0, max, w);
    }
  }

  /**
   * A request is served faithfully over every failure-free sky exactly when its minimum elevation is
   * positive: the coarse test is strict and compares with zero, the fine test is not and does not.
   */
  lemma FaithfulIffMinimumPositive(minEl: real)
    ensures (forall sky: Sky, n: nat, max: int :: ErrorFree(sky, n) ==> RefinesBruteForce(sky, minEl, n, max))
            <==> minEl > 0.0
  {
    if minEl > 0.0 {
      forall sky: Sky, n: nat, max: int | ErrorFree(sky, n) ensures RefinesBruteForce(sky, minEl, n, max) {
        ScanRefinesBruteForce(sky, minEl, n, max);
      }
    } else {
      GrazingPassIsMissed(minEl);
    }
  }

  /** Above a minimum of zero or less from second 30 to second 60, but never above the horizon itself. */
  function Grazing(minEl: real): Sky {
    k => Some(Sample(if 30 <= k < 60 then minEl else minEl - 1.0, 0.0, Geodetic(0.0, 0.0, 0.0)))
  }

  /** A pass that rises exactly to a minimum of zero or less, and sets thirty seconds later, is never probed. */
  lemma GrazingPassIsMissed(minEl: real)
    requires minEl <= 0.0
    ensures ErrorFree(Grazing(minEl), 90) && Interval(30, 60) in Runs(Grazing(minEl), minEl, 90)
    ensures Windows(Grazing(minEl), minEl, 90, 0, 1) == []
    ensures !RefinesBruteForce(Grazing(minEl), minEl, 90, 1)
  {
    var sky := Grazing(minEl);
    assert IsRun(sky, minEl, 90, Interval(30, 60));
    RunsAreMaximal(sky, minEl, 90, Interval(30, 60));
    InvisibleSkyHasNoWindows(sky, minEl, 90, 0, 1);
    assert Interval(30, 60).Length() >= COARSE_STEP;
  }

  lemma {:induction false} InvisibleSkyHasNoWindows(sky: Sky, minEl: real, n: int, t: int, max: int)
    requires 0 <= t && forall k :: 0 <= k < n ==> !Visible(sky, k)
    ensures Windows(sky, minEl, n, t, max) == []
    decreases n - t
  {
    if t < n && max > 0 { InvisibleSkyHasNoWindows(sky, minEl, n, t + COARSE_STEP, max); }
  }

  /** The pass limit keeps the first passes: it never changes which ones they are. */
  lemma {:induction false} LimitTakesPrefix(sky: Sky, minEl: real, n: int, t: int, max: nat, more: int)
    requires 0 <= t && max <= more
    ensures Windows(sky, minEl, n, t, max) <= Windows(sky, minEl, n, t, more)
    ensures |Windows(sky, minEl, n, t, max)| < max ==>
              Windows(sky, minEl, n, t, max) == Windows(sky, minEl, n, t, more)
    decreases n - t
  {
    if t < n && max > 0 {
      if Visible(sky, t) {
        match Scan(sky, minEl, SearchStart(t), n)
        case None =>
        case Some(w) =>
          var d := if w.Length() >= MIN_PASS then 1 else 0;
          LimitTakesPrefix(sky, minEl, n, w.end + COARSE_STEP, max - d, more - d);
      } else {
        LimitTakesPrefix(sky, minEl, n, t + COARSE_STEP, max, more);
      }
    }
  }

  // ---- pass records ----

  /** Without failures the ground track is the samples at rise + 10j seconds, all of them before the set. */
  lemma {:induction false} TrackIsEveryTenSeconds(sky: Sky, rise: int, e: int)
    requires rise <= e && forall k :: rise <= k < e ==> sky(k).Some?
    ensures |Track(sky, rise, e)| == (e - rise + TRACK_STEP - 1) / TRACK_STEP
    ensures forall j :: 0 <= j < |Track(sky, rise, e)| ==>
              var p := Track(sky, rise, e)[j];
              p.time == rise + TRACK_STEP * j < e && Shows(sky, p)
    decreases e - rise
  {
    if rise < e {
      TrackIsEveryTenSeconds(sky, rise, e - 1);
      var tr := Track(sky, rise, e - 1);
      assert (e - 1 - rise) % TRACK_STEP == 0 ==> rise + TRACK_STEP * |tr| == e - 1;
    }
  }

  lemma {:induction false} TrackReaches(sky: Sky, rise: int, e: int, k: int)
    requires rise <= k < e && (k - rise) % TRACK_STEP == 0 && sky(k).Some?
    ensures Reaches(Track(sky, rise, e), k)
    decreases e - rise
  {
    if k < e - 1 {
      TrackReaches(sky, rise, e - 1, k);
      var before := Track(sky, rise, e - 1);
      assert before + [] == before;
    }
  }

  lemma {:induction false} TrackShowsSamples(sky: Sky, rise: int, e: int)
    ensures forall i :: 0 <= i < |Track(sky, rise, e)| ==>
              var p := Track(sky, rise, e)[i];
              rise <= p.time < e && (p.time - rise) % TRACK_STEP == 0 && Shows(sky, p)
    ensures forall i, j :: 0 <= i < j < |Track(sky, rise, e)| ==>
              Track(sky, rise, e)[i].time < Track(sky, rise, e)[j].time
    decreases e - rise
  {
    if rise < e { TrackShowsSamples(sky, rise, e - 1); }
  }

  /** Failures or not, the specified track is a track of the sky. */
  lemma TrackTracksSky(sky: Sky, rise: int, e: int)
    ensures TracksSky(sky, rise, e, Track(sky, rise, e))
  {
    TrackShowsSamples(sky, rise, e);
    forall k | rise <= k < e && (k - rise) % TRACK_STEP == 0 && sky(k).Some? {
      TrackReaches(sky, rise, e, k);
    }
  }

  /** The running maximum is the first second at which the elevation over the pass is greatest. */
  lemma {:induction false} PeakIsPeak(sky: Sky, rise: int, t: int)
    requires rise <= t && sky(rise).Some?
    ensures IsPeak(sky, rise, t, Peak(sky, rise, t))
    decreases t - rise
  {
    if rise < t { PeakIsPeak(sky, rise, t - 1); }
  }
}
