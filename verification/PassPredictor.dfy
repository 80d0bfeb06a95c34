/** The predictor's two loops, proved against PassSpec. */
module PassPredictor {
  import opened Wrappers
  import opened PassSpec
  import opened PassTheorems

  /** A request context: it may be cancelled between any two polls, and then stays cancelled. */
  class Context {
    var cancelled: bool

    method Err() returns (stop: bool)
      modifies this
      ensures old(cancelled) ==> cancelled
      ensures stop == cancelled
    {
      var now: bool := *;
      cancelled := cancelled || now;
      stop := cancelled;
    }
  }

  /** An initialised propagator seen from one observer, recording every second it is consulted about. */
  class Observer {
    const sky: Sky
    ghost var consulted: seq<int>

    method ElevationAt(k: int) returns (s: Option<Sample>)
      modifies this
      ensures s == sky(k) && consulted == old(consulted) + [k]
    {
      consulted := consulted + [k];
      s := sky(k);
    }
  }

  /** What the fine scan knows about `[from, t)` once it has seen a rise. */
  ghost predicate Risen(sky: Sky, minEl: real, from: int, t: int, rise: int, peak: int, track: seq<TrackPoint>) {
    && from <= rise < t
    && Above(sky, minEl, rise)
    && (forall k :: from <= k < rise ==> !Above(sky, minEl, k))
    && (forall k :: rise <= k < t ==> !Below(sky, minEl, k))
    && peak == Peak(sky, rise, t - 1)
    && track == Track(sky, rise, t)
  }

  lemma Closed(sky: Sky, minEl: real, from: int, cut: int, end: int, rise: int, peak: int, track: seq<TrackPoint>)
    requires Risen(sky, minEl, from, end, rise, peak, track)
    requires end <= cut && (end < cut ==> Below(sky, minEl, end))
    ensures Scan(sky, minEl, from, cut) == Some(Interval(rise, end))
    ensures Below(sky, minEl, end) ==> Peak(sky, rise, end) == peak
  {
    assert FirstAbove(sky, minEl, from, cut) == rise;
    assert FirstBelow(sky, minEl, rise, cut) == end;
    PeakIsPeak(sky, rise, end - 1);
  }

  /** What the fine scan has recorded about the pass it is following. */
  datatype Following = Following(riseTime: int, riseAz: real, maxEl: real, maxElTime: int, maxElAz: real,
                                 track: seq<TrackPoint>)

  ghost predicate Follows(sky: Sky, minEl: real, from: int, t: int, f: Following) {
    && Risen(sky, minEl, from, t, f.riseTime, f.maxElTime, f.track)
    && f.riseAz == sky(f.riseTime).value.az
    && f.maxEl == sky(f.maxElTime).value.el && f.maxElAz == sky(f.maxElTime).value.az
  }

  /** A failed sample leaves everything as it was. */
  lemma FollowsOn(sky: Sky, minEl: real, from: int, t: int, f: Following)
    requires Follows(sky, minEl, from, t, f) && sky(t).None?
    ensures Follows(sky, minEl, from, t + 1, f)
  {
  }

  function Began(t: int, s: Sample): Following {
    Following(t, s.az, s.el, t, s.az, [TrackPoint(t, s.geo.lat, s.geo.lon, s.geo.alt, s.el)])
  }

  lemma FollowsFirst(sky: Sky, minEl: real, from: int, t: int)
    requires from <= t && Above(sky, minEl, t) && forall k :: from <= k < t ==> !Above(sky, minEl, k)
    ensures Follows(sky, minEl, from, t + 1, Began(t, sky(t).value))
  {
    assert Track(sky, t, t) == [];
  }

  /** The same after one more sample above the minimum. */
  function Continued(f: Following, t: int, s: Sample): Following {
    var g := if s.el > f.maxEl then f.(maxEl := s.el, maxElTime := t, maxElAz := s.az) else f;
    if (t - f.riseTime) % TRACK_STEP == 0
    then g.(track := f.track + [TrackPoint(t, s.geo.lat, s.geo.lon, s.geo.alt, s.el)]) else g
  }

  lemma FollowsMore(sky: Sky, minEl: real, from: int, t: int, f: Following)
    requires Follows(sky, minEl, from, t, f) && Above(sky, minEl, t)
    ensures Follows(sky, minEl, from, t + 1, Continued(f, t, sky(t).value))
  {
  }

  /** The loop of the fine scan: it stops at the horizon, at a set, or when cancelled. */
  method FineScan(ctx: Context, obs: Observer, searchStart: int, horizonNs: int, minEl: real)
    returns (pass: Option<Following>, setAz: Option<real>, t: int)
    requires 0 <= searchStart <= GridSize(horizonNs)
    modifies ctx, obs
    ensures old(ctx.cancelled) ==> ctx.cancelled
    ensures searchStart <= t <= GridSize(horizonNs)
    ensures setAz.None? && !ctx.cancelled ==> t == GridSize(horizonNs)
    ensures setAz.Some? ==> pass.Some? && t < GridSize(horizonNs) && Below(obs.sky, minEl, t) && !ctx.cancelled
                              && setAz.value == obs.sky(t).value.az
    ensures pass.None? ==> forall k :: searchStart <= k < t ==> !Above(obs.sky, minEl, k)
    ensures pass.Some? ==> Follows(obs.sky, minEl, searchStart, t, pass.value)
    ensures obs.consulted == old(obs.consulted) + Range(searchStart, if setAz.Some? then t + 1 else t)
  {
    var f := Following(0, 0.0, 0.0, 0, 0.0, []);
    var wasAbove, foundRise := false, false;
    setAz, t := None, searchStart;
    ghost var sky, n := obs.sky, GridSize(horizonNs);
    while t * NANOS < horizonNs
      invariant searchStart <= t <= n && wasAbove == foundRise && setAz.None?
      invariant old(ctx.cancelled) ==> ctx.cancelled
      invariant obs.consulted == old(obs.consulted) + Range(searchStart, t)
      invariant !foundRise ==> f.track == [] && forall k :: searchStart <= k < t ==> !Above(sky, minEl, k)
      invariant foundRise ==> Follows(sky, minEl, searchStart, t, f)
      decreases n - t
    {
      var stop := ctx.Err();
      if stop { break; }
      var sample := obs.ElevationAt(t);
      if sample.None? {
        if foundRise { FollowsOn(sky, minEl, searchStart, t, f); }
        t := t + 1;
        continue;
      }
      var el, az := sample.value.el, sample.value.az;
      var above := el >= minEl;
      ghost var was, had := f, foundRise;
      if above && !wasAbove {
        f, foundRise := f.(riseTime := t, riseAz := az, maxEl := el, maxElTime := t, maxElAz := az), true;
      }
      if above && foundRise {
        if el > f.maxEl {
          f := f.(maxEl := el, maxElTime := t, maxElAz := az);
        }
        if (t - f.riseTime) % TRACK_STEP == 0 {
          var geo := sample.value.geo;
          f := f.(track := f.track + [TrackPoint(t, geo.lat, geo.lon, geo.alt, el)]);
        }
      }
      if !above && wasAbove && foundRise {
        setAz := Some(az);
        break;
      }
      if above {
        if had { FollowsMore(sky, minEl, searchStart, t, was); } else { FollowsFirst(sky, minEl, searchStart, t); }
        assert f == if had then Continued(was, t, sky(t).value) else Began(t, sky(t).value);
      }
      wasAbove := above;
      t := t + 1;
    }
    pass := if foundRise then Some(f) else None;
  }

  /**
   * The refinement of one coarse hit. A cancelled refinement reports what a scan of the shorter
   * window `[start, cut)` would; an uncancelled one has `cut` at the horizon.
   */
  method RefinePass(ctx: Context, obs: Observer, coarseHit: int, horizonNs: int, minEl: real)
    returns (pass: Option<Pass>, windowEnd: int, ghost cut: int, ghost upTo: int)
    requires 0 <= coarseHit < GridSize(horizonNs)
    modifies ctx, obs
    ensures old(ctx.cancelled) ==> ctx.cancelled
    ensures SearchStart(coarseHit) <= cut <= GridSize(horizonNs)
    ensures !ctx.cancelled ==> cut == GridSize(horizonNs)
    ensures var w := Scan(obs.sky, minEl, SearchStart(coarseHit), cut);
            if w.None? then pass.None? && windowEnd == cut
            else pass.Some? && pass.value.Span() == w.value && windowEnd == w.value.end
    ensures pass.Some? ==> Describes(obs.sky, minEl, pass.value)
    ensures obs.consulted == old(obs.consulted) + Range(SearchStart(coarseHit), upTo)
    ensures windowEnd <= upTo <= windowEnd + 1
  {
    var searchStart := if coarseHit - COARSE_STEP < 0 then 0 else coarseHit - COARSE_STEP;
    var following, setAt, t := FineScan(ctx, obs, searchStart, horizonNs, minEl);
    cut := if setAt.Some? then GridSize(horizonNs) else t;
    if following.None? {
      return None, t, cut, t;
    }
    var f := following.value;
    Closed(obs.sky, minEl, searchStart, cut, t, f.riseTime, f.maxElTime, f.track);
    var setAz := 0.0;
    if setAt.Some? {
      setAz := setAt.value;
    } else {
      var sample := obs.ElevationAt(t);
      if sample.Some? {
        setAz := sample.value.az;
        if sample.value.el > f.maxEl {
          f := f.(maxEl := sample.value.el, maxElTime := t, maxElAz := sample.value.az);
        }
      }
    }
    pass := Some(Pass(f.riseTime, f.maxElTime, t, t - f.riseTime, f.maxEl, f.maxElAz, f.riseAz, setAz, f.track));
    windowEnd, upTo := t, t + 1;
  }

  lemma ScanOfCutWindow(sky: Sky, minEl: real, s: int, cut: int, n: int)
    requires s <= cut <= n && Scan(sky, minEl, s, cut).Some?
    ensures var w, full := Scan(sky, minEl, s, cut).value, Scan(sky, minEl, s, n);
            full.Some? && full.value.start == w.start && w.end <= full.value.end
  {
    var w := Scan(sky, minEl, s, cut).value;
    assert FirstAbove(sky, minEl, s, n) == w.start;
  }

  lemma CutPrefixStaysDisjoint(xs: seq<Interval>, ys: seq<Interval>)
    requires CutPrefix(xs, ys) && StrictlyDisjoint(ys)
    ensures StrictlyDisjoint(xs)
  {
    forall i, j | 0 <= i < j < |xs| ensures xs[i].end < xs[j].start {
      assert xs[i] == ys[i] && xs[j].start == ys[j].start;
    }
  }

  /** Spans are strictly disjoint, long enough, and end less than a second after the horizon. */
  ghost predicate InsideHorizon(horizonNs: int, xs: seq<Interval>) {
    && StrictlyDisjoint(xs)
    && forall i :: 0 <= i < |xs| ==>
         0 <= xs[i].start && xs[i].Length() >= MIN_PASS && xs[i].end * NANOS < horizonNs + NANOS
  }

  ghost predicate LongEnough(xs: seq<Interval>) {
    forall i :: 0 <= i < |xs| ==> xs[i].Length() >= MIN_PASS
  }

  lemma ReportedInsideHorizon(sky: Sky, minEl: real, horizonNs: int, max: int, xs: seq<Interval>)
    requires CutPrefix(xs, Windows(sky, minEl, GridSize(horizonNs), 0, max)) && LongEnough(xs)
    ensures InsideHorizon(horizonNs, xs)
  {
    var n := GridSize(horizonNs);
    var all := Windows(sky, minEl, n, 0, max);
    WindowsAreDisjoint(sky, minEl, n, 0, max);
    CutPrefixStaysDisjoint(xs, all);
    forall i | 0 <= i < |xs| ensures 0 <= xs[i].start && xs[i].end * NANOS < horizonNs + NANOS {
      assert xs[i].start == all[i].start && xs[i].end <= all[i].end <= n;
      assert (xs[i].end - 1) * NANOS < horizonNs;
    }
  }

  /** Total work: at most two samples a second, and a constant. */
  function WorkBound(n: int): int { 2 * n + COARSE_STEP + 1 }

  /**
   * One turn of the coarse loop at second `t`, its fine scan seeing `[.., cut)`: the window it keeps,
   * the next second to probe, and the seconds the fine scan sampled, which end where the window does.
   */
  ghost predicate Step(sky: Sky, minEl: real, n: int, t: int, cut: int, w: Option<Interval>, next: int,
                       scan: Interval)
  {
    && SearchStart(t) <= cut <= n
    && if !Visible(sky, t) then w == None && next == t + COARSE_STEP && scan == Interval(t, t) && cut == n
       else
         var found := Scan(sky, minEl, SearchStart(t), cut);
         && next == (if found.None? then cut else found.value.end) + COARSE_STEP
         && w == (if found.Some? && found.value.Length() >= MIN_PASS then found else None)
         && scan.start == SearchStart(t) && next - COARSE_STEP <= scan.end <= next - COARSE_STEP + 1
  }

  function Kept(w: Option<Interval>): seq<Interval> {
    if w.Some? then [w.value] else []
  }

  /** Two samples for every second passed, with one to spare when a run may already be under way. */
  predicate Paid(sky: Sky, minEl: real, n: int, t: int, calls: int) {
    calls <= 2 * t && (calls <= 2 * t - 1 || Ready(sky, minEl, n, t))
  }

  lemma StepIsPaid(sky: Sky, minEl: real, n: int, t: int, calls: int, w: Option<Interval>, next: int, scan: Interval)
    requires 0 <= t < n && (t == 0 || COARSE_STEP <= t) && Paid(sky, minEl, n, t, calls)
    requires Step(sky, minEl, n, t, n, w, next, scan)
    ensures t < next && COARSE_STEP <= next && Paid(sky, minEl, n, next, calls + 1 + scan.Length())
  {
    if Visible(sky, t) {
      var found := Scan(sky, minEl, SearchStart(t), n);
      if found.Some? { assert Ready(sky, minEl, n, next); }
    }
  }

  lemma CutStepIsBounded(sky: Sky, minEl: real, n: int, t: int, cut: int, calls: int, w: Option<Interval>, next: int,
                         scan: Interval)
    requires 0 <= t < n && (t == 0 || COARSE_STEP <= t) && Paid(sky, minEl, n, t, calls)
    requires Step(sky, minEl, n, t, cut, w, next, scan)
    ensures calls + 1 + scan.Length() <= WorkBound(n)
  {
  }

  lemma {:induction false} RangeLength(a: int, b: int)
    requires a <= b
    ensures |Range(a, b)| == b - a
    decreases b - a
  {
    if a < b { RangeLength(a, b - 1); }
  }

  lemma OneMoreTurn(turns: seq<Turn>, u: Turn)
    requires u.scan.Length() >= 0
    ensures Samples(turns + [u]) == Samples(turns) + [u.probe] + Range(u.scan.start, u.scan.end)
    ensures |Samples(turns + [u])| == |Samples(turns)| + 1 + u.scan.Length()
  {
    assert (turns + [u])[..|turns|] == turns;
    RangeLength(u.scan.start, u.scan.end);
  }

  lemma Appended<T>(x: seq<T>, y: seq<T>, u: seq<T>, v: seq<T>)
    ensures x + y + u + v == x + (y + u + v)
  {
  }

  /** All that was sampled lies before the next fine scan, but for the one second they may share. */
  ghost predicate Behind(turns: seq<Turn>, t: int) {
    forall i :: 0 <= i < |turns| ==>
      turns[i].probe < t && (turns[i].scan.Length() > 0 ==> turns[i].scan.end <= SearchStart(t) + 1)
  }

  lemma StepIsOrderly(sky: Sky, minEl: real, n: int, t: int, cut: int, w: Option<Interval>, next: int,
                      scan: Interval, turns: seq<Turn>)
    requires Step(sky, minEl, n, t, cut, w, next, scan) && (t == 0 || COARSE_STEP <= t)
    requires Orderly(turns) && Behind(turns, t)
    ensures Orderly(turns + [Turn(t, scan)])
    ensures t < next ==> Behind(turns + [Turn(t, scan)], next)
  {
  }

  /** `done` and the windows still expected from second `t` on are all of them. */
  ghost predicate Progress(sky: Sky, minEl: real, n: int, t: int, max: int, done: seq<Interval>, all: seq<Interval>) {
    0 <= t && done + Windows(sky, minEl, n, t, max) == all
  }

  /** A turn that was not cut short keeps the next expected window. */
  lemma StepProgresses(sky: Sky, minEl: real, n: int, t: int, max: int, done: seq<Interval>, all: seq<Interval>,
                       w: Option<Interval>, next: int, scan: Interval)
    requires 0 <= t < n && max > 0 && Progress(sky, minEl, n, t, max, done, all)
    requires Step(sky, minEl, n, t, n, w, next, scan)
    ensures Progress(sky, minEl, n, next, max - |Kept(w)|, done + Kept(w), all)
  {
    var rest := Windows(sky, minEl, n, next, max - |Kept(w)|);
    assert Windows(sky, minEl, n, t, max) == Kept(w) + rest;
    assert done + (Kept(w) + rest) == done + Kept(w) + rest;
  }

  /** Even a turn that was cut short keeps at most the start of the next expected window. */
  lemma StepStaysPrefix(sky: Sky, minEl: real, n: int, t: int, max: int, done: seq<Interval>, all: seq<Interval>,
                        cut: int, w: Option<Interval>, next: int, scan: Interval)
    requires 0 <= t < n && max > 0 && Progress(sky, minEl, n, t, max, done, all)
    requires Step(sky, minEl, n, t, cut, w, next, scan)
    ensures CutPrefix(done + Kept(w), all)
  {
    if w.Some? { ScanOfCutWindow(sky, minEl, SearchStart(t), cut, n); }
  }

  /** One turn of the coarse loop, after the context was polled. */
  method CoarseStep(ctx: Context, obs: Observer, t: int, horizonNs: int, minEl: real)
    returns (pass: Option<Pass>, next: int, ghost cut: int, ghost scan: Interval)
    requires 0 <= t < GridSize(horizonNs)
    modifies ctx, obs
    ensures old(ctx.cancelled) ==> ctx.cancelled
    ensures !ctx.cancelled ==> cut == GridSize(horizonNs)
    ensures Step(obs.sky, minEl, GridSize(horizonNs), t, cut, SpanOf(pass), next, scan)
    ensures obs.consulted == old(obs.consulted) + [t] + Range(scan.start, scan.end)
    ensures pass.Some? ==> Describes(obs.sky, minEl, pass.value) && pass.value.duration >= MIN_PASS
  {
    cut := GridSize(horizonNs);
    var sample := obs.ElevationAt(t);
    if sample.None? || sample.value.el <= 0.0 {
      return None, t + COARSE_STEP, cut, Interval(t, t);
    }
    var windowEnd;
    ghost var upTo;
    pass, windowEnd, cut, upTo := RefinePass(ctx, obs, t, horizonNs, minEl);
    next, scan := windowEnd + COARSE_STEP, Interval(SearchStart(t), upTo);
    if pass.Some? && pass.value.end - pass.value.start < MIN_PASS {
      pass := None;
    }
  }

  function SpanOf(pass: Option<Pass>): Option<Interval> {
    if pass.Some? then Some(pass.value.Span()) else None
  }

  /** Every reported record describes its own span and is long enough. */
  ghost predicate Recorded(sky: Sky, minEl: real, ps: seq<Pass>) {
    ps == [] || (var l := |ps| - 1;
                 Describes(sky, minEl, ps[l]) && ps[l].duration >= MIN_PASS && Recorded(sky, minEl, ps[..l]))
  }

  lemma RecordedAppend(sky: Sky, minEl: real, ps: seq<Pass>, p: Pass)
    requires Recorded(sky, minEl, ps) && Describes(sky, minEl, p) && p.duration >= MIN_PASS
    ensures Recorded(sky, minEl, ps + [p])
  {
    assert (ps + [p])[..|ps|] == ps;
  }

  lemma {:induction false} RecordedDescribe(sky: Sky, minEl: real, ps: seq<Pass>, i: nat)
    requires Recorded(sky, minEl, ps) && i < |ps|
    ensures Describes(sky, minEl, ps[i]) && ps[i].duration >= MIN_PASS
  {
    if i < |ps| - 1 { RecordedDescribe(sky, minEl, ps[..|ps| - 1], i); }
  }

  /**
   * What a reported record holds: the samples at its rise and set, the first greatest elevation over its
   * own span, and on its ground track every successful sample at a multiple of ten seconds after the rise.
   */
  lemma RecordsAreWellFormed(sky: Sky, minEl: real, ps: seq<Pass>, i: nat)
    requires Recorded(sky, minEl, ps) && i < |ps|
    ensures var p := ps[i];
            && p.duration == p.end - p.start >= MIN_PASS
            && sky(p.start).Some? && sky(p.start).value.el >= minEl && p.startAz == sky(p.start).value.az
            && (sky(p.end).Some? ==> p.endAz == sky(p.end).value.az)
            && IsPeak(sky, p.start, p.end, p.maxTime)
            && p.maxEl == sky(p.maxTime).value.el && p.azAtMax == sky(p.maxTime).value.az
    ensures TracksSky(sky, ps[i].start, ps[i].end, ps[i].track)
  {
    RecordedDescribe(sky, minEl, ps, i);
    PeakIsPeak(sky, ps[i].start, ps[i].end);
    TrackTracksSky(sky, ps[i].start, ps[i].end);
  }

  /** Without failures, point j of a reported track is the sample ten j seconds after the rise. */
  lemma TracksAreEveryTenSeconds(sky: Sky, minEl: real, ps: seq<Pass>, i: nat)
    requires Recorded(sky, minEl, ps) && i < |ps|
    requires forall k :: ps[i].start <= k < ps[i].end ==> sky(k).Some?
    ensures var p := ps[i];
            && |p.track| == (p.end - p.start + TRACK_STEP - 1) / TRACK_STEP
            && forall j :: 0 <= j < |p.track| ==>
                 p.track[j].time == p.start + TRACK_STEP * j < p.end && Shows(sky, p.track[j])
  {
    RecordedDescribe(sky, minEl, ps, i);
    TrackIsEveryTenSeconds(sky, ps[i].start, ps[i].end);
  }

  /**
   * What is reported for one satellite: the windows of the undisturbed scan, or when the context was
   * cancelled a prefix of them, the last perhaps closed early; each record describes its own span.
   */
  ghost predicate Reported(sky: Sky, minEl: real, horizonNs: int, max: int, ps: seq<Pass>, live: bool) {
    var all := Windows(sky, minEl, GridSize(horizonNs), 0, max);
    && CutPrefix(Spans(ps), all) && (live ==> Spans(ps) == all)
    && Recorded(sky, minEl, ps) && InsideHorizon(horizonNs, Spans(ps))
  }

  /** An undisturbed report is determined by the request and the sky. */
  lemma ReportIsUnique(sky: Sky, minEl: real, horizonNs: int, max: int, ps: seq<Pass>, qs: seq<Pass>)
    requires Reported(sky, minEl, horizonNs, max, ps, true) && Reported(sky, minEl, horizonNs, max, qs, true)
    ensures ps == qs
  {
    assert |ps| == |Spans(ps)| == |Spans(qs)| == |qs|;
    forall i: nat | i < |ps| ensures ps[i] == qs[i] {
      assert ps[i].Span() == Spans(ps)[i] == Spans(qs)[i] == qs[i].Span();
      RecordedDescribe(sky, minEl, ps, i);
      RecordedDescribe(sky, minEl, qs, i);
    }
  }

  lemma RecordExists(sky: Sky, minEl: real, w: Interval) returns (p: Pass)
    requires Above(sky, minEl, w.start) && w.Length() >= MIN_PASS
    ensures Describes(sky, minEl, p) && p.Span() == w && p.duration >= MIN_PASS
  {
    var m := Peak(sky, w.start, w.end);
    p := Pass(w.start, m, w.end, w.Length(), sky(m).value.el, sky(m).value.az, sky(w.start).value.az,
              if sky(w.end).Some? then sky(w.end).value.az else 0.0, Track(sky, w.start, w.end));
  }

  lemma OneMoreRecord(sky: Sky, minEl: real, ps: seq<Pass>, p: Pass)
    requires Recorded(sky, minEl, ps) && Describes(sky, minEl, p) && p.duration >= MIN_PASS
    ensures Recorded(sky, minEl, ps + [p]) && Spans(ps + [p]) == Spans(ps) + [p.Span()]
  {
    RecordedAppend(sky, minEl, ps, p);
    SpansWith(ps, Some(p));
  }

  lemma {:induction false} RecordsExist(sky: Sky, minEl: real, n: int, from: int, ws: seq<Interval>)
    returns (ps: seq<Pass>)
    requires Tidy(sky, minEl, n, from, ws)
    ensures Spans(ps) == ws && Recorded(sky, minEl, ps)
  {
    ps := [];
    if ws != [] {
      var l := |ws| - 1;
      ps := RecordsExist(sky, minEl, n, from, ws[..l]);
      var p := RecordExists(sky, minEl, ws[l]);
      OneMoreRecord(sky, minEl, ps, p);
      ps := ps + [p];
      assert ws[..l] + [ws[l]] == ws;
    }
  }

  lemma ReportExists(sky: Sky, minEl: real, horizonNs: int, max: int) returns (ps: seq<Pass>)
    ensures Reported(sky, minEl, horizonNs, max, ps, true)
  {
    var n := GridSize(horizonNs);
    var all := Windows(sky, minEl, n, 0, max);
    WindowsAreDisjoint(sky, minEl, n, 0, max);
    ps := RecordsExist(sky, minEl, n, 0, all);
    ReportedInsideHorizon(sky, minEl, horizonNs, max, all);
  }

  /** The windows found between turns: `live` until the context is cancelled. */
  ghost predicate Scanning(sky: Sky, minEl: real, n: int, t: int, max: int, xs: seq<Interval>, all: seq<Interval>,
                           live: bool)
  {
    && 0 <= t
    && CutPrefix(xs, all) && LongEnough(xs)
    && (live ==> Progress(sky, minEl, n, t, max - |xs|, xs, all))
  }

  /** The work done between turns, `calls` samples in all. */
  ghost predicate Working(sky: Sky, minEl: real, n: int, t: int, turns: seq<Turn>, calls: int, live: bool) {
    && Orderly(turns) && calls <= WorkBound(n)
    && (live ==> (t == 0 || COARSE_STEP <= t) && Paid(sky, minEl, n, t, calls) && Behind(turns, t))
  }

  lemma ScanningStep(sky: Sky, minEl: real, n: int, t: int, max: int, xs: seq<Interval>, all: seq<Interval>,
                     cut: int, w: Option<Interval>, next: int, scan: Interval, live: bool)
    requires t < n && |xs| < max && Scanning(sky, minEl, n, t, max, xs, all, true)
    requires Step(sky, minEl, n, t, cut, w, next, scan) && (live ==> cut == n)
    requires w.Some? ==> w.value.Length() >= MIN_PASS
    ensures t < next || (t == next && cut < n)
    ensures Scanning(sky, minEl, n, next, max, xs + Kept(w), all, live)
  {
    StepStaysPrefix(sky, minEl, n, t, max - |xs|, xs, all, cut, w, next, scan);
    if cut == n {
      StepProgresses(sky, minEl, n, t, max - |xs|, xs, all, w, next, scan);
      assert max - |xs + Kept(w)| == max - |xs| - |Kept(w)|;
    }
  }

  lemma WorkingStep(sky: Sky, minEl: real, n: int, t: int, turns: seq<Turn>, calls: int, cut: int, w: Option<Interval>,
                    next: int, scan: Interval, live: bool)
    requires 0 <= t < n && Working(sky, minEl, n, t, turns, calls, true)
    requires Step(sky, minEl, n, t, cut, w, next, scan) && (live ==> cut == n)
    ensures Working(sky, minEl, n, next, turns + [Turn(t, scan)], calls + 1 + scan.Length(), live)
  {
    StepIsOrderly(sky, minEl, n, t, cut, w, next, scan, turns);
    CutStepIsBounded(sky, minEl, n, t, cut, calls, w, next, scan);
    if cut == n { StepIsPaid(sky, minEl, n, t, calls, w, next, scan); }
  }

  function With(ps: seq<Pass>, pass: Option<Pass>): seq<Pass> {
    if pass.Some? then ps + [pass.value] else ps
  }

  lemma SpansWith(ps: seq<Pass>, pass: Option<Pass>)
    ensures Spans(With(ps, pass)) == Spans(ps) + Kept(SpanOf(pass))
  {
  }

  /** The coarse loop between turns: what it has found ... */
  ghost predicate Found(sky: Sky, minEl: real, n: int, t: int, max: int, ps: seq<Pass>, all: seq<Interval>,
                        live: bool)
  {
    Recorded(sky, minEl, ps) && Scanning(sky, minEl, n, t, max, Spans(ps), all, live)
  }

  lemma FoundMore(sky: Sky, minEl: real, n: int, t: int, max: int, ps: seq<Pass>, all: seq<Interval>,
                  cut: int, pass: Option<Pass>, next: int, scan: Interval, live: bool)
    requires t < n && |ps| < max && Found(sky, minEl, n, t, max, ps, all, true)
    requires Step(sky, minEl, n, t, cut, SpanOf(pass), next, scan) && (live ==> cut == n)
    requires pass.Some? ==> Describes(sky, minEl, pass.value) && pass.value.duration >= MIN_PASS
    ensures t < next || (t == next && cut < n)
    ensures Found(sky, minEl, n, next, max, With(ps, pass), all, live)
  {
    ScanningStep(sky, minEl, n, t, max, Spans(ps), all, cut, SpanOf(pass), next, scan, live);
    SpansWith(ps, pass);
    if pass.Some? { RecordedAppend(sky, minEl, ps, pass.value); }
  }

  /** ... and the work it has done. */
  ghost predicate Worked(sky: Sky, minEl: real, n: int, t: int, turns: seq<Turn>, live: bool) {
    Working(sky, minEl, n, t, turns, |Samples(turns)|, live)
  }

  lemma WorkedMore(sky: Sky, minEl: real, n: int, t: int, turns: seq<Turn>, cut: int, w: Option<Interval>, next: int,
                   scan: Interval, live: bool)
    requires 0 <= t < n && Worked(sky, minEl, n, t, turns, true)
    requires Step(sky, minEl, n, t, cut, w, next, scan) && (live ==> cut == n)
    ensures Worked(sky, minEl, n, next, turns + [Turn(t, scan)], live)
  {
    WorkingStep(sky, minEl, n, t, turns, |Samples(turns)|, cut, w, next, scan, live);
    OneMoreTurn(turns, Turn(t, scan));
  }

  lemma Concluded(sky: Sky, minEl: real, horizonNs: int, t: int, max: int, ps: seq<Pass>, live: bool)
    requires var n := GridSize(horizonNs);
             Scanning(sky, minEl, n, t, max, Spans(ps), Windows(sky, minEl, n, 0, max), live)
    requires Recorded(sky, minEl, ps) && (live ==> t * NANOS >= horizonNs || |ps| >= max)
    ensures Reported(sky, minEl, horizonNs, max, ps, live)
  {
    ReportedInsideHorizon(sky, minEl, horizonNs, max, Spans(ps));
    if live {
      assert Windows(sky, minEl, GridSize(horizonNs), t, max - |ps|) == [];
      assert Spans(ps) + [] == Spans(ps);
    }
  }

  lemma Started(sky: Sky, minEl: real, n: nat, max: int)
    ensures Found(sky, minEl, n, 0, max, [], Windows(sky, minEl, n, 0, max), true)
    ensures Worked(sky, minEl, n, 0, [], true)
  {
    assert [] + Windows(sky, minEl, n, 0, max) == Windows(sky, minEl, n, 0, max);
  }

  /** One turn and what it adds to the passes found so far. */
  method TakeTurn(ctx: Context, obs: Observer, t: int, horizonNs: int, minEl: real, max: int, passes: seq<Pass>,
                  ghost turns: seq<Turn>, ghost all: seq<Interval>, ghost before: seq<int>)
    returns (more: seq<Pass>, next: int, ghost turns': seq<Turn>)
    requires var n := GridSize(horizonNs);
             0 <= t < n && |passes| < max && Found(obs.sky, minEl, n, t, max, passes, all, true)
             && Worked(obs.sky, minEl, n, t, turns, true)
    requires obs.consulted == before + Samples(turns)
    modifies ctx, obs
    ensures old(ctx.cancelled) ==> ctx.cancelled
    ensures t < next || (t == next && ctx.cancelled)
    ensures Found(obs.sky, minEl, GridSize(horizonNs), next, max, more, all, !ctx.cancelled)
    ensures Worked(obs.sky, minEl, GridSize(horizonNs), next, turns', !ctx.cancelled)
    ensures obs.consulted == before + Samples(turns')
  {
    ghost var sky, n := obs.sky, GridSize(horizonNs);
    ghost var cut, scan;
    var pass;
    pass, next, cut, scan := CoarseStep(ctx, obs, t, horizonNs, minEl);
    FoundMore(sky, minEl, n, t, max, passes, all, cut, pass, next, scan, !ctx.cancelled);
    WorkedMore(sky, minEl, n, t, turns, cut, SpanOf(pass), next, scan, !ctx.cancelled);
    turns' := turns + [Turn(t, scan)];
    OneMoreTurn(turns, Turn(t, scan));
    Appended(before, Samples(turns), [t], Range(scan.start, scan.end));
    more := passes;
    if pass.Some? {
      more := more + [pass.value];
    }
  }

  /**
   * The coarse scan of one satellite; `None` stands for an element set the propagator rejects. The
   * samples are those of `turns`, and at most two to a second and a constant, whatever the sky.
   */
  method PredictSatellite(ctx: Context, init: Option<Observer>, horizonNs: int, minEl: real, maxPasses: int)
    returns (result: Option<seq<Pass>>, ghost turns: seq<Turn>)
    modifies ctx
    modifies if init.Some? then {init.value} else {}
    ensures old(ctx.cancelled) ==> ctx.cancelled
    ensures result.None? <==> init.None?
    ensures result.Some? ==> Reported(init.value.sky, minEl, horizonNs, maxPasses, result.value, !ctx.cancelled)
    ensures result.Some? ==>
              && init.value.consulted == old(init.value.consulted) + Samples(turns)
              && Orderly(turns) && |Samples(turns)| <= WorkBound(GridSize(horizonNs))
  {
    turns := [];
    if init.None? { return None, turns; }
    var obs := init.value;
    var passes: seq<Pass> := [];
    var t := 0;
    ghost var n, before := GridSize(horizonNs), obs.consulted;
    ghost var all := Windows(obs.sky, minEl, n, 0, maxPasses);
    Started(obs.sky, minEl, n, maxPasses);
    assert before + [] == before;
    while t * NANOS < horizonNs && |passes| < maxPasses
      invariant 0 <= t && (old(ctx.cancelled) ==> ctx.cancelled)
      invariant obs.consulted == before + Samples(turns)
      invariant Found(obs.sky, minEl, n, t, maxPasses, passes, all, !ctx.cancelled)
      invariant Worked(obs.sky, minEl, n, t, turns, !ctx.cancelled)
      decreases n - t, !ctx.cancelled
    {
      var stop := ctx.Err();
      if stop { break; }
      passes, t, turns := TakeTurn(ctx, obs, t, horizonNs, minEl, maxPasses, passes, turns, all, before);
    }
    Concluded(obs.sky, minEl, horizonNs, t, maxPasses, passes, !ctx.cancelled);
    result := Some(passes);
  }
}
