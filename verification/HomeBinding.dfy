/**
 * The home position as integers (src/nightjar/home.py): quantisation, its inverse, and what rounding
 * error does to the round trip. Each float operation is the exact result passed through `fl`.
 */
module HomeBinding {
  import opened Vehicle
  import opened Canonical
  import opened JsonValue
  import opened Models

  /** Double arithmetic: the double nearest an exact result, and which exact results overflow. */
  datatype Floats = Floats(nearest: real -> real, overflows: real -> bool)

  const UNIT := 1.0 / 9007199254740992.0
  const TINY := 1.0 / 340282366920938463463374607431768211456.0
  const LARGE := 18446744073709551616.0

  function Abs(x: real): real { if x < 0.0 then -x else x }

  ghost predicate RoundedAt(fl: Floats, x: real) {
    && (Abs(x) <= LARGE ==> !fl.overflows(x))
    && (!fl.overflows(x) ==> Abs(fl.nearest(x) - x) <= UNIT * Abs(x) + TINY)
  }

  /**
   * Round to nearest (IEEE 754, section 4.3): a relative error of at most 2^-53. TINY, 2^-128, is well
   * above the error of an underflow, and LARGE, 2^64, well below an overflow.
   */
  ghost predicate RoundsToNearest(fl: Floats) {
    forall x :: RoundedAt(fl, x)
  }

  /** Python's `round`: the nearest integer, of two the even one. */
  function Round(x: real): int {
    var f := x.Floor;
    var d := x - f as real;
    if d < 0.5 then f else if d > 0.5 then f + 1 else if f % 2 == 0 then f else f + 1
  }

  lemma RoundNearest(x: real)
    ensures Abs(Round(x) as real - x) <= 0.5
  {
  }

  /** Halfway between two integers the even one is taken. */
  lemma RoundHalf(n: int)
    ensures Round(n as real + 0.5) % 2 == 0
    ensures Round(n as real + 0.5) == n || Round(n as real + 0.5) == n + 1
  {
    assert (n as real + 0.5).Floor == n;
  }

  lemma RoundIs(x: real, n: int)
    requires Abs(x - n as real) < 0.5
    ensures Round(x) == n
  {
    assert n as real - 0.5 < x < n as real + 0.5;
    assert x.Floor == n || x.Floor == n - 1;
  }

  const LAT_LON_SCALE := 10_000_000.0
  const ALTITUDE_SCALE := 1_000.0
  /** 2^51 - 1 */
  const MAX_UNITS := 2251799813685247

  type Scale = s: real | s == LAT_LON_SCALE || s == ALTITUDE_SCALE witness ALTITUDE_SCALE

  /** `round(x * scale)`, which raises on an infinite product. */
  function Quantize(fl: Floats, scale: Scale, x: real): Outcome<int> {
    if fl.overflows(x * scale) then Raise(OtherError(1)) else Ok(Round(fl.nearest(x * scale)))
  }

  /** `n / scale`, which raises on an infinite quotient. */
  function Restore(fl: Floats, scale: Scale, n: int): Outcome<real> {
    if fl.overflows(n as real / scale) then Raise(OtherError(1)) else Ok(fl.nearest(n as real / scale))
  }

  predicate Representable(n: int) {
    -MAX_UNITS <= n <= MAX_UNITS
  }

  /** Dividing by the scale and multiplying back strays from n by little more than n * 2^-53. */
  lemma BackError(fl: Floats, scale: Scale, n: int)
    requires RoundsToNearest(fl) && Representable(n)
    ensures Restore(fl, scale, n).Ok?
    ensures Abs(Restore(fl, scale, n).value * scale - n as real) <= UNIT * Abs(n as real) + TINY * scale
  {
    var x := n as real / scale;
    assert RoundedAt(fl, x);
    if scale == LAT_LON_SCALE {
      assert x * 10000000.0 == n as real;
    } else {
      assert x * 1000.0 == n as real;
    }
  }

  /** Quantising a restored integer gives the integer back: `round((n / scale) * scale) == n`. */
  lemma RoundTrip(fl: Floats, scale: Scale, n: int)
    requires RoundsToNearest(fl) && Representable(n)
    ensures Restore(fl, scale, n).Ok?
    ensures Quantize(fl, scale, Restore(fl, scale, n).value) == Ok(n)
  {
    hide Restore, Round;
    BackError(fl, scale, n);
    var y := Restore(fl, scale, n).value * scale;
    assert RoundedAt(fl, y);
    RoundIs(fl.nearest(y), n);
  }

  predicate Restored(fl: Floats, scale: Scale, n: int) {
    Restore(fl, scale, n).Ok? && Quantize(fl, scale, Restore(fl, scale, n).value) == Ok(n)
  }

  /** Every operation as far off as allowed. */
  function Skewed(): Floats {
    Floats(x => x * (1.0 + UNIT), x => false)
  }

  lemma SkewedRounds()
    ensures RoundsToNearest(Skewed())
  {
    forall x ensures RoundedAt(Skewed(), x) {
      assert Skewed().nearest(x) - x == UNIT * x;
    }
  }

  lemma SkewedMisses(scale: Scale, n: int)
    requires !Representable(n)
    ensures !Restored(Skewed(), scale, n)
  {
    hide Round;
    var m, q := n as real, Skewed().nearest(n as real / scale);
    var y := Skewed().nearest(q * scale);
    assert y == m + 2.0 * UNIT * m + UNIT * UNIT * m by {
      if scale == LAT_LON_SCALE {
        assert (m / 10000000.0) * 10000000.0 == m;
      } else {
        assert (m / 1000.0) * 1000.0 == m;
      }
    }
    assert Abs(y - m) > 0.5;
    RoundNearest(y);
  }

  /**
   * The bound is exact for what rounding to nearest promises: an integer survives every arithmetic with
   * relative errors up to 2^-53 if and only if it is below 2^51 in magnitude.
   */
  lemma RoundTripIff(scale: Scale, n: int)
    ensures (forall fl :: RoundsToNearest(fl) ==> Restored(fl, scale, n)) <==> Representable(n)
  {
    hide RoundsToNearest;
    if Representable(n) {
      forall fl | RoundsToNearest(fl) ensures Restored(fl, scale, n) {
        RoundTrip(fl, scale, n);
      }
    } else {
      SkewedRounds();
      SkewedMisses(scale, n);
    }
  }

  /** Doubles of magnitude 2^53 and more are even integers. */
  ghost predicate EvenAbove(fl: Floats) {
    forall x :: EvenAt(fl.nearest(x))
  }

  ghost predicate EvenAt(y: real) {
    Abs(y) >= 9007199254740992.0 ==> exists k: int :: y == (2 * k) as real
  }

  /** So no odd integer beyond 2^53 survives, whatever the rounding. */
  lemma OddIsLost(fl: Floats, scale: Scale, n: int)
    requires EvenAbove(fl) && n % 2 == 1 && (n > 9007199254740992 || n < -9007199254740992)
    ensures !Restored(fl, scale, n)
  {
    if Restore(fl, scale, n).Ok? {
      var y := fl.nearest(Restore(fl, scale, n).value * scale);
      assert EvenAt(y);
      RoundNearest(y);
      if Abs(y) >= 9007199254740992.0 {
        var k: int :| y == (2 * k) as real;
        RoundIs(y, 2 * k);
      }
    }
  }

  /** Half a unit, and the rounding of one product and one quotient. */
  function Slack(scale: Scale, x: real, n: int): real {
    0.5 + UNIT * Abs(x * scale) + UNIT * Abs(n as real) + TINY * (scale + 1.0)
  }

  /** The coordinate rebuilt from the integer lies within half a unit of the one it was taken from. */
  lemma HalfUnit(fl: Floats, scale: Scale, x: real, n: int)
    requires RoundsToNearest(fl) && Representable(n)
    requires Quantize(fl, scale, x) == Ok(n)
    ensures Restore(fl, scale, n).Ok?
    ensures Abs((Restore(fl, scale, n).value - x) * scale) <= Slack(scale, x, n)
  {
    hide Restore, Round;
    BackError(fl, scale, n);
    var b, y := Restore(fl, scale, n).value, x * scale;
    assert RoundedAt(fl, y);
    RoundNearest(fl.nearest(y));
    assert (b - x) * scale == b * scale - y by {
      if scale == LAT_LON_SCALE {} else {}
    }
  }

  // ----- the snapshot

  /** A home in millimetres and ten-millionths of a degree. */
  datatype Units = Units(altitude: int, latitude: int, longitude: int)

  predicate UnitsRepresentable(u: Units) {
    Representable(u.altitude) && Representable(u.latitude) && Representable(u.longitude)
  }

  const SOURCE_TELEMETRY := "telemetry"
  const HOME_KEYS := ["altitude_mm", "latitude_e7", "longitude_e7", "source"]

  /** `HomeSnapshot.canonical`, from the integers. */
  function HomeJson(u: Units, source: string): Json {
    Obj(Dict(HOME_KEYS, [Int(u.altitude), Int(u.latitude), Int(u.longitude), Str(source)]))
  }

  lemma HomeFields(u: Units, source: string)
    ensures var v := HomeJson(u, source);
            && |v.members| == 4
            && Holds(v, "altitude_mm", Int(u.altitude))
            && Holds(v, "latitude_e7", Int(u.latitude))
            && Holds(v, "longitude_e7", Int(u.longitude))
            && Holds(v, "source", Str(source))
  {
    hide Dict;
    var v := HomeJson(u, source);
    assert HoldsAt(v, "altitude_mm", Int(u.altitude), 0);
    assert HoldsAt(v, "latitude_e7", Int(u.latitude), 1);
    assert HoldsAt(v, "longitude_e7", Int(u.longitude), 2);
    assert HoldsAt(v, "source", Str(source), 3);
  }

  function ToUnits(fl: Floats, home: Home): Outcome<Units> {
    var altitude :- Quantize(fl, ALTITUDE_SCALE, home.altitude);
    var latitude :- Quantize(fl, LAT_LON_SCALE, home.latitude);
    var longitude :- Quantize(fl, LAT_LON_SCALE, home.longitude);
    Ok(Units(altitude, latitude, longitude))
  }

  function FromUnits(fl: Floats, u: Units): Outcome<Home> {
    var latitude :- Restore(fl, LAT_LON_SCALE, u.latitude);
    var longitude :- Restore(fl, LAT_LON_SCALE, u.longitude);
    var altitude :- Restore(fl, ALTITUDE_SCALE, u.altitude);
    Ok(Home(latitude, longitude, altitude))
  }

  /** The home rebuilt from signed integers has those integers again. */
  lemma UnitsRoundTrip(fl: Floats, u: Units)
    requires RoundsToNearest(fl) && UnitsRepresentable(u)
    ensures FromUnits(fl, u).Ok?
    ensures ToUnits(fl, FromUnits(fl, u).value) == Ok(u)
  {
    hide RoundsToNearest, Quantize, Restore;
    RoundTrip(fl, LAT_LON_SCALE, u.latitude);
    RoundTrip(fl, LAT_LON_SCALE, u.longitude);
    RoundTrip(fl, ALTITUDE_SCALE, u.altitude);
  }

  predicate Close(u: Units, a: Home, b: Home) {
    && Abs((b.latitude - a.latitude) * 10_000_000.0) <= Slack(10_000_000.0, a.latitude, u.latitude)
    && Abs((b.longitude - a.longitude) * 10_000_000.0) <= Slack(10_000_000.0, a.longitude, u.longitude)
    && Abs((b.altitude - a.altitude) * 1_000.0) <= Slack(1_000.0, a.altitude, u.altitude)
  }

  /** And it lies within half a unit of the home the integers were taken from. */
  lemma RestoredClose(fl: Floats, home: Home, u: Units)
    requires RoundsToNearest(fl) && UnitsRepresentable(u) && ToUnits(fl, home) == Ok(u)
    ensures FromUnits(fl, u).Ok? && Close(u, home, FromUnits(fl, u).value)
  {
    hide RoundsToNearest, Quantize, Restore, Slack;
    HalfUnit(fl, LAT_LON_SCALE, home.latitude, u.latitude);
    HalfUnit(fl, LAT_LON_SCALE, home.longitude, u.longitude);
    HalfUnit(fl, ALTITUDE_SCALE, home.altitude, u.altitude);
  }

  /** The hashed bytes of a home determine its integers and its source. */
  lemma HomeBytesInjective(a: Units, s: string, b: Units, t: string)
    ensures CanonicalBytes(HomeJson(a, s)) == CanonicalBytes(HomeJson(b, t)) <==> a == b && s == t
  {
    hide CanonicalBytes, Same, Dict;
    assert HOME_KEYS[0][0] == 'a' && HOME_KEYS[1][1] == 'a' && HOME_KEYS[2][1] == 'o' && HOME_KEYS[3][0] == 's';
    var xs := [Int(a.altitude), Int(a.latitude), Int(a.longitude), Str(s)];
    var ys := [Int(b.altitude), Int(b.latitude), Int(b.longitude), Str(t)];
    DictBytesInjective(HOME_KEYS, xs, ys);
    assert xs == ys ==> xs[0] == ys[0] && xs[1] == ys[1] && xs[2] == ys[2] && xs[3] == ys[3];
  }
}
