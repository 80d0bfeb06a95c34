/**
 * The frame rotations over exact reals. An angle is given by its cosine `c` and sine `s` with
 * c*c + s*s == 1; a magnitude is any non-negative `m` whose square is the sum of squares.
 */
module Rotation {
  datatype Vec = Vec(x: real, y: real, z: real)
  /** Kilometres and kilometres per second in TEME; metres and metres per second in ECEF. */
  datatype Motion = Motion(pos: Vec, vel: Vec)
  datatype Turn = Turn(c: real, s: real) {
    predicate Valid() { c * c + s * s == 1.0 }
  }

  const OMEGA_EARTH := 0.00007292115146706979

  function Norm2(v: Vec): real { v.x * v.x + v.y * v.y + v.z * v.z }

  predicate IsMagnitude(m: real, v: Vec) { m >= 0.0 && m * m == Norm2(v) }

  function Scale(v: Vec, k: real): Vec { Vec(v.x * k, v.y * k, v.z * k) }

  /** Rotation about the polar axis. */
  function R3(v: Vec, g: Turn): Vec { Vec(v.x * g.c + v.y * g.s, -v.x * g.s + v.y * g.c, v.z) }

  function Back(g: Turn): Turn { Turn(g.c, -g.s) }

  /** The velocity of the turning frame at `r`. */
  function Swept(r: Vec): Vec { Vec(-OMEGA_EARTH * r.y, OMEGA_EARTH * r.x, 0.0) }

  function TemeToEcef(teme: Motion, gmst: Turn): Motion {
    var r, v := R3(teme.pos, gmst), R3(teme.vel, gmst);
    Motion(Scale(r, 1000.0), Scale(Vec(v.x + OMEGA_EARTH * r.y, v.y - OMEGA_EARTH * r.x, v.z), 1000.0))
  }

  /** The way back, in terms of the frame's motion. */
  function EcefToTeme(ecef: Motion, gmst: Turn): Motion {
    var r, v := Scale(ecef.pos, 0.001), Scale(ecef.vel, 0.001);
    var w := Swept(r);
    Motion(R3(r, Back(gmst)), R3(Vec(v.x + w.x, v.y + w.y, v.z + w.z), Back(gmst)))
  }

  lemma Turned(a: real, b: real, g: Turn)
    requires g.Valid()
    ensures var (x, y) := (a * g.c + b * g.s, -a * g.s + b * g.c);
            && x * x + y * y == a * a + b * b
            && x * g.c - y * g.s == a && x * g.s + y * g.c == b
  {
    var c, s := g.c, g.s;
    var x, y := a * c + b * s, -a * s + b * c;
    assert x * x == a * a * (c * c) + 2.0 * (a * b) * (c * s) + b * b * (s * s);
    assert y * y == a * a * (s * s) - 2.0 * (a * b) * (c * s) + b * b * (c * c);
    Whole(a * a, c * c, s * s);
    Whole(b * b, c * c, s * s);
    assert x * c == a * (c * c) + b * (c * s) && y * s == -a * (s * s) + b * (c * s);
    assert x * s == a * (c * s) + b * (s * s) && y * c == -a * (c * s) + b * (c * c);
    Whole(a, c * c, s * s);
    Whole(b, c * c, s * s);
  }

  lemma Whole(k: real, p: real, q: real)
    requires p + q == 1.0
    ensures k * p + k * q == k
  {
    assert k * (p + q) == k * p + k * q;
  }

  lemma R3KeepsNorm(v: Vec, g: Turn)
    requires g.Valid()
    ensures Norm2(R3(v, g)) == Norm2(v)
  {
    Turned(v.x, v.y, g);
  }

  lemma R3Undone(v: Vec, g: Turn)
    requires g.Valid()
    ensures R3(R3(v, g), Back(g)) == v
  {
    Turned(v.x, v.y, g);
  }

  /** The transform has an inverse: position and velocity are both recovered. */
  lemma TemeIsRecovered(teme: Motion, gmst: Turn)
    requires gmst.Valid()
    ensures EcefToTeme(TemeToEcef(teme, gmst), gmst) == teme
  {
    var ecef := TemeToEcef(teme, gmst);
    var r, v, w := Scale(ecef.pos, 0.001), Scale(ecef.vel, 0.001), Swept(Scale(ecef.pos, 0.001));
    assert r == R3(teme.pos, gmst);
    assert Vec(v.x + w.x, v.y + w.y, v.z + w.z) == R3(teme.vel, gmst);
    R3Undone(teme.pos, gmst);
    R3Undone(teme.vel, gmst);
  }

  /** A point carried along by the Earth over the Greenwich meridian, `rho` from the axis, stands still in ECEF. */
  lemma GreenwichStandsStill(rho: real, z: real, gmst: Turn)
    requires gmst.Valid()
    ensures var r := Vec(rho * gmst.c, rho * gmst.s, z);
            var v := Vec(-OMEGA_EARTH * (rho * gmst.s), OMEGA_EARTH * (rho * gmst.c), 0.0);
            TemeToEcef(Motion(r, v), gmst) == Motion(Vec(rho * 1000.0, 0.0, z * 1000.0), Vec(0.0, 0.0, 0.0))
  {
    var r := Vec(rho * gmst.c, rho * gmst.s, z);
    OnMeridian(rho, gmst);
    assert R3(r, gmst) == Vec(rho, 0.0, z);
    CarriedAlong(OMEGA_EARTH, rho, gmst);
    var v := R3(Swept(r), gmst);
    assert v.x + OMEGA_EARTH * 0.0 == 0.0 && v.y - OMEGA_EARTH * rho == 0.0;
  }

  /** The frame's own motion at a point of the meridian points east, in the turned frame. */
  lemma CarriedAlong(w: real, rho: real, g: Turn)
    requires g.Valid()
    ensures -w * (rho * g.s) * g.c + w * (rho * g.c) * g.s == 0.0
    ensures -(-w * (rho * g.s)) * g.s + w * (rho * g.c) * g.c == w * rho
  {
    OnMeridian(w * rho, g);
  }

  lemma OnMeridian(k: real, g: Turn)
    requires g.Valid()
    ensures k * g.c * g.c + k * g.s * g.s == k
    ensures -(k * g.c) * g.s + k * g.s * g.c == 0.0
    ensures -(k * g.s) * g.c + k * g.c * g.s == 0.0 && k * g.s * g.s + k * g.c * g.c == k
  {
    Whole(k, g.c * g.c, g.s * g.s);
  }

  /** What the propagator accepts, in kilometres, and what the cache keeps, in metres. */
  predicate InShell(m: real) { 6200.0 <= m <= 50000.0 }
  predicate ValidEcef(m: real) { 6200.0 * 1000.0 <= m <= 50000.0 * 1000.0 }

  lemma ProductIsPositive(x: real, y: real)
    requires x > 0.0 && y > 0.0
    ensures x * y > 0.0
  {
  }

  lemma SquareGrows(a: real, b: real)
    requires 0.0 <= a < b
    ensures a * a < b * b
  {
    ProductIsPositive(b - a, b + a);
    assert (b - a) * (b + a) == b * b - a * a;
  }

  lemma MagnitudeIsUnique(m: real, n: real, v: Vec)
    requires IsMagnitude(m, v) && IsMagnitude(n, v)
    ensures m == n
  {
    if m < n { SquareGrows(m, n); }
    if n < m { SquareGrows(n, m); }
  }

  lemma ScaledSquare(x: real, k: real)
    ensures (x * k) * (x * k) == k * k * (x * x)
  {
  }

  lemma ScaledMagnitude(v: Vec, k: real, m: real)
    requires k >= 0.0 && IsMagnitude(m, v)
    ensures IsMagnitude(m * k, Scale(v, k))
  {
    ScaledSquare(v.x, k);
    ScaledSquare(v.y, k);
    ScaledSquare(v.z, k);
    ScaledSquare(m, k);
    var (xx, yy, zz) := (v.x * v.x, v.y * v.y, v.z * v.z);
    assert k * k * (xx + yy + zz) == k * k * xx + k * k * yy + k * k * zz;
  }

  /** The transform multiplies magnitudes by exactly 1000, so it accepts exactly what SGP4 accepted. */
  lemma ShellIsPreserved(teme: Motion, gmst: Turn, km: real, m: real)
    requires gmst.Valid() && IsMagnitude(km, teme.pos) && IsMagnitude(m, TemeToEcef(teme, gmst).pos)
    ensures m == km * 1000.0 && (ValidEcef(m) <==> InShell(km))
  {
    var r := R3(teme.pos, gmst);
    R3KeepsNorm(teme.pos, gmst);
    assert TemeToEcef(teme, gmst).pos == Scale(r, 1000.0);
    Thousandfold(r, km, m);
  }

  lemma Thousandfold(r: Vec, km: real, m: real)
    requires IsMagnitude(km, r) && IsMagnitude(m, Scale(r, 1000.0))
    ensures m == km * 1000.0
  {
    ScaledMagnitude(r, 1000.0, km);
    MagnitudeIsUnique(m, km * 1000.0, Scale(r, 1000.0));
  }

  // ---- look angles ----

  /** South, east and zenith components of a range vector. */
  function Sez(r: Vec, lat: Turn, lon: Turn): Vec {
    Vec(lat.s * lon.c * r.x + lat.s * lon.s * r.y - lat.c * r.z,
        -lon.s * r.x + lon.c * r.y,
        lat.c * lon.c * r.x + lat.c * lon.s * r.y + lat.s * r.z)
  }

  /** A turn to the meridian, then one to the vertical. */
  lemma SezIsTwoTurns(r: Vec, lat: Turn, lon: Turn)
    ensures var h := R3(r, lon);
            Sez(r, lat, lon) == Vec(lat.s * h.x - lat.c * h.z, h.y, lat.c * h.x + lat.s * h.z)
  {
    assert lat.s * (r.x * lon.c + r.y * lon.s) == lat.s * lon.c * r.x + lat.s * lon.s * r.y;
    assert lat.c * (r.x * lon.c + r.y * lon.s) == lat.c * lon.c * r.x + lat.c * lon.s * r.y;
  }

  /** `radius` is that of the prime vertical at the latitude, `e2` the squared eccentricity. */
  function ObserverEcef(radius: real, e2: real, alt: real, lat: Turn, lon: Turn): Vec {
    Vec((radius + alt) * lat.c * lon.c, (radius + alt) * lat.c * lon.s, (radius * (1.0 - e2) + alt) * lat.s)
  }

  /**
   * An observer at height zero stands on the ellipsoid of semi-major axis `a`: the prime-vertical radius
   * is the one whose square times 1 - e2 sin^2 is a^2.
   */
  lemma ObserverIsOnEllipsoid(a: real, radius: real, e2: real, lat: Turn, lon: Turn)
    requires lat.Valid() && lon.Valid() && radius * radius * (1.0 - e2 * (lat.s * lat.s)) == a * a
    ensures var o := ObserverEcef(radius, e2, 0.0, lat, lon);
            (o.x * o.x + o.y * o.y) * (1.0 - e2) + o.z * o.z == a * a * (1.0 - e2)
  {
    var o := ObserverEcef(radius, e2, 0.0, lat, lon);
    var k, f, rr, ss := radius * lat.c, 1.0 - e2, radius * radius, lat.s * lat.s;
    Both(k, k, lon);
    assert o.x * o.x + o.y * o.y == k * k;
    SquareOfProduct(radius, lat.c);
    SquareOfProduct(radius * f, lat.s);
    SquareOfProduct(radius, f);
    OnEllipse(rr, lat.c * lat.c, ss, f, a * a);
  }

  lemma SquareOfProduct(x: real, y: real)
    ensures (x * y) * (x * y) == (x * x) * (y * y)
  {
  }

  lemma OnEllipse(rr: real, cc: real, ss: real, f: real, aa: real)
    requires cc + ss == 1.0 && rr * (1.0 - (1.0 - f) * ss) == aa
    ensures rr * cc * f + rr * (f * f) * ss == aa * f
  {
    assert 1.0 - (1.0 - f) * ss == cc + f * ss;
    assert rr * (cc + f * ss) * f == rr * cc * f + rr * (f * f) * ss;
  }

  function Minus(u: Vec, v: Vec): Vec { Vec(u.x - v.x, u.y - v.y, u.z - v.z) }

  /** `h` metres along the local vertical. */
  function Vertical(h: real, lat: Turn, lon: Turn): Vec { Vec(h * lat.c * lon.c, h * lat.c * lon.s, h * lat.s) }

  lemma Lifted(r: real, alt: real, h: real, p: real)
    ensures (r + (alt + h)) * p - (r + alt) * p == h * p
  {
  }

  lemma Raised(r: real, alt: real, h: real, p: real, q: real)
    ensures (r + (alt + h)) * p * q - (r + alt) * p * q == h * p * q
  {
    Lifted(r, alt, h, p);
    assert (r + (alt + h)) * p * q - (r + alt) * p * q == ((r + (alt + h)) * p - (r + alt) * p) * q;
  }

  /** Raising an observer moves it along the local vertical ... */
  lemma AltitudeIsVertical(radius: real, e2: real, alt: real, h: real, lat: Turn, lon: Turn)
    ensures Minus(ObserverEcef(radius, e2, alt + h, lat, lon), ObserverEcef(radius, e2, alt, lat, lon))
            == Vertical(h, lat, lon)
  {
    Raised(radius, alt, h, lat.c, lon.c);
    Raised(radius, alt, h, lat.c, lon.s);
    Lifted(radius * (1.0 - e2), alt, h, lat.s);
  }

  lemma Both(p: real, k: real, g: Turn)
    requires g.Valid()
    ensures p * g.c * (k * g.c) + p * g.s * (k * g.s) == p * k
  {
    Whole(p * k, g.c * g.c, g.s * g.s);
  }

  /** ... and whatever stands on the local vertical is seen at the zenith, at that height. */
  lemma VerticalIsZenith(h: real, lat: Turn, lon: Turn)
    requires lat.Valid() && lon.Valid()
    ensures Sez(Vertical(h, lat, lon), lat, lon) == Vec(0.0, 0.0, h)
  {
    Both(lat.s, h * lat.c, lon);
    Both(lat.c, h * lat.c, lon);
    OnMeridian(h, lat);
  }

  /** True north lies opposite south, and east is east, so azimuths run clockwise from north. */
  lemma NorthAndEast(lat: Turn, lon: Turn)
    requires lat.Valid() && lon.Valid()
    ensures Sez(Vec(-lat.s * lon.c, -lat.s * lon.s, lat.c), lat, lon) == Vec(-1.0, 0.0, 0.0)
    ensures Sez(Vec(-lon.s, lon.c, 0.0), lat, lon) == Vec(0.0, 1.0, 0.0)
  {
    var north, east := Vec(-lat.s * lon.c, -lat.s * lon.s, lat.c), Vec(-lon.s, lon.c, 0.0);
    SezIsTwoTurns(north, lat, lon);
    SezIsTwoTurns(east, lat, lon);
    OnMeridian(-lat.s, lon);
    OnMeridian(1.0, lon);
    OnMeridian(1.0, lat);
    assert R3(north, lon) == Vec(-lat.s, 0.0, lat.c);
    assert R3(east, lon) == Vec(0.0, 1.0, 0.0);
  }

  lemma SezKeepsRange(r: Vec, lat: Turn, lon: Turn)
    requires lat.Valid() && lon.Valid()
    ensures Norm2(Sez(r, lat, lon)) == Norm2(r)
  {
    SezIsTwoTurns(r, lat, lon);
    R3KeepsNorm(r, lon);
    var h := R3(r, lon);
    Turned(h.x, h.z, lat);
    var p, q := h.x * lat.c + h.z * lat.s, -h.x * lat.s + h.z * lat.c;
    var sez := Sez(r, lat, lon);
    assert sez.z == p && sez.x == -q;
    assert sez.x * sez.x == q * q;
  }

  lemma ComponentWithinMagnitude(v: Vec, m: real)
    requires IsMagnitude(m, v)
    ensures -m <= v.z <= m
  {
    assert v.x * v.x >= 0.0 && v.y * v.y >= 0.0;
    if v.z > m { SquareGrows(m, v.z); }
    if -v.z > m { SquareGrows(m, -v.z); }
  }

  /** The range computed in the local frame is the distance itself, and the sine of the elevation is one. */
  lemma LookAnglesAreDefined(r: Vec, lat: Turn, lon: Turn, distance: real, range: real)
    requires lat.Valid() && lon.Valid() && IsMagnitude(distance, r) && IsMagnitude(range, Sez(r, lat, lon))
    ensures range == distance
    ensures range > 0.0 ==> -1.0 <= Sez(r, lat, lon).z / range <= 1.0
  {
    SezKeepsRange(r, lat, lon);
    MagnitudeIsUnique(range, distance, r);
    ComponentWithinMagnitude(Sez(r, lat, lon), range);
    if range > 0.0 { QuotientWithinOne(Sez(r, lat, lon).z, range); }
  }

  lemma QuotientWithinOne(z: real, m: real)
    requires m > 0.0 && -m <= z <= m
    ensures -1.0 <= z / m <= 1.0
  {
    assert z / m * m == z;
  }
}
