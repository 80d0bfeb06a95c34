/**
 * What the pass predictor is meant to compute, on values.
 *
 * Time is a whole number of seconds after the request's start: every instant the
 * predictor samples lies on that grid. The propagator, the frame transforms and the
 * look-angle geometry together are one deterministic partial function of the grid point.
 */
module PassSpec {
  import opened Wrappers

  const COARSE_STEP := 30
  const TRACK_STEP := 10
  const MIN_PASS := 10
  const NANOS := 1_000_000_000

  datatype Geodetic = Geodetic(lat: real, lon: real, alt: real)
  datatype Sample = Sample(el: real, az: real, geo: Geodetic)
  datatype TrackPoint = TrackPoint(time: int, latitude: real, longitude: real, altitude: real, elevation: real)

  /** `None` is a propagation failure at that second. */
  type Sky = int -> Option<Sample>

  datatype Interval = Interval(start: int, end: int) {
    function Length(): int { end - start }
  }

  datatype Pass = Pass(start: int, maxTime: int, end: int, duration: int, maxEl: real,
                       azAtMax: real, startAz: real, endAz: real, track: seq<TrackPoint>) {
    function Span(): Interval { Interval(start, end) }
  }

  predicate Above(sky: Sky, minEl: real, k: int) {
    sky(k).Some? && sky(k).value.el >= minEl
  }

  predicate Below(sky: Sky, minEl: real, k: int) {
    sky(k).Some? && sky(k).value.el < minEl
  }

  /** The coarse test, which is strict and ignores the requested minimum. */
  predicate Visible(sky: Sky, k: int) {
    sky(k).Some? && sky(k).value.el > 0.0
  }

  /** Number of grid seconds strictly before the horizon, which is given in nanoseconds. */
  function GridSize(horizonNs: int): (n: nat)
    ensures forall k: nat {:trigger k * NANOS} :: k < n <==> k * NANOS < horizonNs
  {
    if horizonNs <= 0 then 0 else (horizonNs + NANOS - 1) / NANOS
  }

  function FirstAbove(sky: Sky, minEl: real, s: int, n: int): (r: int)
    requires s <= n
    ensures s <= r <= n
    ensures forall k :: s <= k < r ==> !Above(sky, minEl, k)
    ensures r < n ==> Above(sky, minEl, r)
    decreases n - s
  {
    if s == n || Above(sky, minEl, s) then s else FirstAbove(sky, minEl, s + 1, n)
  }

  function FirstBelow(sky: Sky, minEl: real, s: int, n: int): (r: int)
    requires s <= n
    ensures s <= r <= n
    ensures forall k :: s <= k < r ==> !Below(sky, minEl, k)
    ensures r < n ==> Below(sky, minEl, r)
    decreases n - s
  {
    if s == n || Below(sky, minEl, s) then s else FirstBelow(sky, minEl, s + 1, n)
  }

  /** The fine scan of `[s, cut)`: its first rise, closed by the first set or by the cut. */
  function Scan(sky: Sky, minEl: real, s: int, cut: int): (w: Option<Interval>)
    requires s <= cut
    ensures w.Some? ==> s <= w.value.start < w.value.end <= cut
  {
    var r := FirstAbove(sky, minEl, s, cut);
    if r == cut then None else Some(Interval(r, FirstBelow(sky, minEl, r, cut)))
  }

  function SearchStart(t: int): int {
    if t < COARSE_STEP then 0 else t - COARSE_STEP
  }

  /** Spans of the passes an undisturbed coarse scan of `n` seconds reports from second `t` on. */
  function Windows(sky: Sky, minEl: real, n: int, t: int, max: int): seq<Interval>
    requires 0 <= t
    decreases n - t
  {
    if n <= t || max <= 0 then []
    else if Visible(sky, t) then
      match Scan(sky, minEl, SearchStart(t), n)
      case None => []
      case Some(w) =>
        var next := w.end + COARSE_STEP;
        if w.Length() >= MIN_PASS then [w] + Windows(sky, minEl, n, next, max - 1)
        else Windows(sky, minEl, n, next, max)
    else Windows(sky, minEl, n, t + COARSE_STEP, max)
  }

  /** Brute force: every second is examined, and the maximal runs above the minimum are kept. */
  function Runs(sky: Sky, minEl: real, n: nat): seq<Interval> {
    if n == 0 then []
    else
      var before := Runs(sky, minEl, n - 1);
      if !Above(sky, minEl, n - 1) then before
      else if before != [] && before[|before| - 1].end == n - 1 then
        before[|before| - 1 := before[|before| - 1].(end := n)]
      else before + [Interval(n - 1, n)]
  }

  predicate IsRun(sky: Sky, minEl: real, n: int, w: Interval) {
    && 0 <= w.start < w.end <= n
    && (forall k :: w.start <= k < w.end ==> Above(sky, minEl, k))
    && (w.start == 0 || !Above(sky, minEl, w.start - 1))
    && (w.end == n || !Above(sky, minEl, w.end))
  }

  ghost predicate ErrorFree(sky: Sky, n: int) {
    forall k :: 0 <= k < n ==> sky(k).Some?
  }

  /** Fails only for a sample between `minEl` and zero, so never when `minEl > 0`. */
  ghost predicate AboveIsVisible(sky: Sky, minEl: real, n: int) {
    forall k :: 0 <= k < n && Above(sky, minEl, k) ==> Visible(sky, k)
  }

  ghost predicate StrictlyDisjoint(ws: seq<Interval>) {
    forall i, j :: 0 <= i < j < |ws| ==> ws[i].end < ws[j].start
  }

  predicate Subsequence<T(==)>(xs: seq<T>, ys: seq<T>) {
    if xs == [] then true
    else if ys == [] then false
    else if xs[0] == ys[0] then Subsequence(xs[1..], ys[1..])
    else Subsequence(xs, ys[1..])
  }

  /** Ground-track points of `[rise, e)`: the successful samples a multiple of ten seconds after the rise. */
  function Track(sky: Sky, rise: int, e: int): seq<TrackPoint>
    decreases e - rise
  {
    if e <= rise then []
    else Track(sky, rise, e - 1) +
         if sky(e - 1).Some? && (e - 1 - rise) % TRACK_STEP == 0 then [PointAt(sky, e - 1)] else []
  }

  function PointAt(sky: Sky, k: int): TrackPoint
    requires sky(k).Some?
  {
    var s := sky(k).value;
    TrackPoint(k, s.geo.lat, s.geo.lon, s.geo.alt, s.el)
  }

  /** A track point shows the sample of its own second. */
  ghost predicate Shows(sky: Sky, p: TrackPoint) {
    && sky(p.time).Some?
    && p.latitude == sky(p.time).value.geo.lat
    && p.longitude == sky(p.time).value.geo.lon
    && p.altitude == sky(p.time).value.geo.alt
    && p.elevation == sky(p.time).value.el
  }

  /**
   * A ground track of `[rise, e)`: the successful samples at multiples of ten seconds after the rise, in
   * order, each shown as it is, and none left out.
   */
  ghost predicate TracksSky(sky: Sky, rise: int, e: int, track: seq<TrackPoint>) {
    && (forall i :: 0 <= i < |track| ==>
          rise <= track[i].time < e && (track[i].time - rise) % TRACK_STEP == 0 && Shows(sky, track[i]))
    && (forall i, j :: 0 <= i < j < |track| ==> track[i].time < track[j].time)
    && (forall k :: rise <= k < e && (k - rise) % TRACK_STEP == 0 && sky(k).Some? ==> Reaches(track, k))
  }

  predicate Reaches(track: seq<TrackPoint>, k: int) {
    track != [] && (track[|track| - 1].time == k || Reaches(track[..|track| - 1], k))
  }

  /** The second in `[rise, t]` a running maximum settles on, strict improvements only. */
  function Peak(sky: Sky, rise: int, t: int): (p: int)
    requires rise <= t && sky(rise).Some?
    ensures sky(p).Some?
    decreases t - rise
  {
    if t == rise then rise
    else
      var p := Peak(sky, rise, t - 1);
      if sky(t).Some? && sky(t).value.el > sky(p).value.el then t else p
  }

  /** `k` is where the elevation over `[from, to]` is greatest, and the first such second. */
  ghost predicate IsPeak(sky: Sky, from: int, to: int, k: int) {
    && from <= k <= to
    && sky(k).Some?
    && (forall j :: from <= j <= to && sky(j).Some? ==> sky(j).value.el <= sky(k).value.el)
    && (forall j :: from <= j < k && sky(j).Some? ==> sky(j).value.el < sky(k).value.el)
  }

  ghost predicate Describes(sky: Sky, minEl: real, p: Pass) {
    && p.start < p.end
    && Above(sky, minEl, p.start)
    && p.maxTime == Peak(sky, p.start, p.end)
    && p.maxEl == sky(p.maxTime).value.el
    && p.azAtMax == sky(p.maxTime).value.az
    && p.startAz == sky(p.start).value.az
    && p.endAz == (if sky(p.end).Some? then sky(p.end).value.az else 0.0)
    && p.duration == p.end - p.start
    && p.track == Track(sky, p.start, p.end)
  }

  // ---- the seconds consulted ----

  function Range(a: int, b: int): seq<int>
    decreases b - a
  {
    if b <= a then [] else Range(a, b - 1) + [b - 1]
  }

  /** One turn of the coarse loop: the second probed and the seconds its fine scan sampled, if any. */
  datatype Turn = Turn(probe: int, scan: Interval)

  /** Every second consulted, in order, repetitions included. */
  function Samples(turns: seq<Turn>): seq<int> {
    if turns == [] then []
    else
      var u := turns[|turns| - 1];
      Samples(turns[..|turns| - 1]) + [u.probe] + Range(u.scan.start, u.scan.end)
  }

  /** Probes go forward, and a fine scan shares at most its first second with the scans before it. */
  ghost predicate Orderly(turns: seq<Turn>) {
    && (forall i, j :: 0 <= i < j < |turns| ==> turns[i].probe < turns[j].probe)
    && (forall i, j :: 0 <= i < j < |turns| && turns[i].scan.Length() > 0 && turns[j].scan.Length() > 0 ==>
          turns[i].scan.end <= turns[j].scan.start + 1)
  }

  function Spans(ps: seq<Pass>): (xs: seq<Interval>)
    ensures |xs| == |ps| && forall i :: 0 <= i < |xs| ==> xs[i] == ps[i].Span()
  {
    if ps == [] then [] else Spans(ps[..|ps| - 1]) + [ps[|ps| - 1].Span()]
  }

  /** `xs` is a prefix of `ys`, except that the last interval may have been closed early. */
  ghost predicate CutPrefix(xs: seq<Interval>, ys: seq<Interval>) {
    && |xs| <= |ys|
    && (forall i :: 0 <= i < |xs| - 1 ==> xs[i] == ys[i])
    && (xs != [] ==> var i := |xs| - 1; xs[i].start == ys[i].start && xs[i].end <= ys[i].end)
  }
}
