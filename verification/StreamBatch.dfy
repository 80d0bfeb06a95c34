/** The message one keyframe becomes: each satellite's position and, when asked for, its recent trail. */
module StreamBatch {
  import opened Seqs
  import opened WorkerPool
  import opened KeyframeCache

  datatype Point = Point(x: real, y: real, z: real)
  /** An empty trail is left out of the encoding. */
  datatype SatPayload = SatPayload(id: int, p: Point, tr: seq<Point>)
  datatype BatchMessage = BatchMessage(t: int, sat: seq<SatPayload>)

  function PointOf(s: Position): Point { Point(s.ecef.x, s.ecef.y, s.ecef.z) }

  function IfIs(id: int): Position -> seq<Point> {
    (s: Position) => if s.noradId == id then [PointOf(s)] else []
  }

  /** Every position listed for a NORAD ID. */
  function Listed(id: int, sats: seq<Position>): seq<Point> { FlatMap(IfIs(id), sats) }

  function In(id: int): Keyframe -> seq<Point> { (kf: Keyframe) => Listed(id, kf.satellites) }

  /** A satellite's positions over the trail keyframes, in their order. */
  function Trail(id: int, kfs: seq<Keyframe>): seq<Point> { FlatMap(In(id), kfs) }

  function At(index: map<int, seq<Point>>, id: int): seq<Point> {
    if id in index then index[id] else []
  }

  lemma IndexStep(before: map<int, seq<Point>>, was: map<int, seq<Point>>, sats: seq<Position>, i: nat, id: int)
    requires i < |sats| && At(was, id) == At(before, id) + Listed(id, sats[..i])
    ensures var s := sats[i];
            At(was[s.noradId := At(was, s.noradId) + [PointOf(s)]], id) == At(before, id) + Listed(id, sats[..i + 1])
  {
    FlatMapNext(IfIs(id), sats, i);
    Associative(At(before, id), Listed(id, sats[..i]), IfIs(id)(sats[i]));
    if sats[i].noradId != id { assert At(was, id) + [] == At(was, id); }
  }

  /** One keyframe's positions appended under their NORAD IDs. */
  method Index(before: map<int, seq<Point>>, sats: seq<Position>) returns (index: map<int, seq<Point>>)
    ensures forall id :: At(index, id) == At(before, id) + Listed(id, sats)
  {
    index := before;
    for i := 0 to |sats|
      invariant forall id :: At(index, id) == At(before, id) + Listed(id, sats[..i])
    {
      var s := sats[i];
      forall id { IndexStep(before, index, sats, i, id); }
      index := index[s.noradId := At(index, s.noradId) + [PointOf(s)]];
    }
    assert sats[..|sats|] == sats;
  }

  /** Every satellite of the keyframe, in its order, with its whole trail. */
  function BatchOf(kf: Keyframe, trailKFs: seq<Keyframe>): BatchMessage {
    BatchMessage(kf.timestamp, FlatMap(Shown(trailKFs), kf.satellites))
  }

  function Shown(trailKFs: seq<Keyframe>): Position -> seq<SatPayload> {
    (s: Position) => [SatPayload(s.noradId, PointOf(s), Trail(s.noradId, trailKFs))]
  }

  method BuildBatch(kf: Keyframe, trailKFs: seq<Keyframe>) returns (m: BatchMessage)
    ensures m == BatchOf(kf, trailKFs)
  {
    var index: map<int, seq<Point>> := map[];
    for i := 0 to |trailKFs|
      invariant forall id :: At(index, id) == Trail(id, trailKFs[..i])
    {
      forall id ensures Trail(id, trailKFs[..i + 1]) == Trail(id, trailKFs[..i]) + Listed(id, trailKFs[i].satellites) {
        FlatMapNext(In(id), trailKFs, i);
      }
      index := Index(index, trailKFs[i].satellites);
    }
    assert trailKFs[..|trailKFs|] == trailKFs;
    var sats: seq<SatPayload> := [];
    for i := 0 to |kf.satellites|
      invariant sats == FlatMap(Shown(trailKFs), kf.satellites[..i])
    {
      FlatMapNext(Shown(trailKFs), kf.satellites, i);
      var s := kf.satellites[i];
      sats := sats + [SatPayload(s.noradId, PointOf(s), At(index, s.noradId))];
    }
    assert kf.satellites[..|kf.satellites|] == kf.satellites;
    m := BatchMessage(kf.timestamp, sats);
  }

  /** What a batch shows: the keyframe's instant, and each satellite in turn under its ID at its own coordinates. */
  lemma BatchShowsPositions(kf: Keyframe, trailKFs: seq<Keyframe>)
    ensures var m, sats := BatchOf(kf, trailKFs), kf.satellites;
            && m.t == kf.timestamp && |m.sat| == |sats|
            && forall i :: 0 <= i < |sats| ==>
                 && m.sat[i].id == sats[i].noradId
                 && m.sat[i].p.x == sats[i].ecef.x && m.sat[i].p.y == sats[i].ecef.y && m.sat[i].p.z == sats[i].ecef.z
                 && m.sat[i].tr == Trail(sats[i].noradId, trailKFs)
  {
    ShownInTurn(kf.satellites, trailKFs);
  }

  lemma {:induction false} ShownInTurn(sats: seq<Position>, trailKFs: seq<Keyframe>)
    ensures var shown := FlatMap(Shown(trailKFs), sats);
            && |shown| == |sats|
            && forall i :: 0 <= i < |sats| ==>
                 shown[i] == SatPayload(sats[i].noradId, PointOf(sats[i]), Trail(sats[i].noradId, trailKFs))
  {
    if sats != [] { ShownInTurn(sats[..|sats| - 1], trailKFs); }
  }

  /** Shedding the trails changes nothing else of a batch. */
  lemma SheddingKeepsPositions(kf: Keyframe, trailKFs: seq<Keyframe>)
    ensures var full, bare := BatchOf(kf, trailKFs), BatchOf(kf, []);
            && bare.t == full.t && |full.sat| == |bare.sat| == |kf.satellites|
            && forall i :: 0 <= i < |bare.sat| ==> bare.sat[i] == full.sat[i].(tr := [])
  {
    ShownInTurn(kf.satellites, trailKFs);
    ShownInTurn(kf.satellites, []);
  }

  predicate ListedOnce(id: int, sats: seq<Position>, j: nat) {
    j < |sats| && forall i :: 0 <= i < |sats| ==> (sats[i].noradId == id <==> i == j)
  }

  lemma {:induction false} NotListed(id: int, sats: seq<Position>)
    requires forall i :: 0 <= i < |sats| ==> sats[i].noradId != id
    ensures Listed(id, sats) == []
  {
    if sats != [] { NotListed(id, sats[..|sats| - 1]); }
  }

  lemma {:induction false} ListedPoint(id: int, sats: seq<Position>, j: nat)
    requires ListedOnce(id, sats, j)
    ensures Listed(id, sats) == [Point(sats[j].ecef.x, sats[j].ecef.y, sats[j].ecef.z)]
  {
    var rest := sats[..|sats| - 1];
    if j < |rest| {
      assert ListedOnce(id, rest, j);
      ListedPoint(id, rest, j);
    } else {
      NotListed(id, rest);
    }
  }

  /** A trail grows by the satellite's coordinates in each keyframe that lists it, in the keyframes' order ... */
  lemma TrailGrows(id: int, kfs: seq<Keyframe>, kf: Keyframe, j: nat)
    requires ListedOnce(id, kf.satellites, j)
    ensures var e := kf.satellites[j].ecef; Trail(id, kfs + [kf]) == Trail(id, kfs) + [Point(e.x, e.y, e.z)]
  {
    FlatMapLast(In(id), kfs, kf);
    ListedPoint(id, kf.satellites, j);
  }

  /** ... and by nothing in one that does not. */
  lemma TrailSkips(id: int, kfs: seq<Keyframe>, kf: Keyframe)
    requires forall i :: 0 <= i < |kf.satellites| ==> kf.satellites[i].noradId != id
    ensures Trail(id, kfs + [kf]) == Trail(id, kfs)
  {
    FlatMapLast(In(id), kfs, kf);
    NotListed(id, kf.satellites);
  }
}
