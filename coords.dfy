/**
 * The coordinate conversions of the map viewer: the image is a square of
 * MAP_SIZE pixels shown in Leaflet's simple CRS, and the game block (0, 0)
 * sits at pixel (ORIGIN, ORIGIN). Block x grows with the pixel longitude,
 * block z grows as the pixel latitude falls.
 */
module Coords {

  /** Side of the square map image, in pixels. */
  const MAP_SIZE: int := 2944
  /** Pixel position of block (0, 0) on both axes. */
  const ORIGIN: int := 1408
  /** Spacing of the grid overlay, in pixels (and blocks). */
  const GRID_STEP: int := 32

  /** A Leaflet position on the image: `lat` is the row, `lng` the column. */
  datatype LatLng = LatLng(lat: real, lng: real)

  /** A game block coordinate. */
  datatype Block = Block(x: int, z: int)

  predicate IsIntegral(v: real) {
    v.Floor as real == v
  }

  predicate IsIntegralPoint(p: LatLng) {
    IsIntegral(p.lat) && IsIntegral(p.lng)
  }

  /** JavaScript's Math.round: the nearest integer, halves rounded up. */
  function Round(v: real): (r: int)
    ensures v - 0.5 < r as real <= v + 0.5
  {
    (v + 0.5).Floor
  }

  /**
   * The block under a pixel position (x = round(lng - ORIGIN),
   * z = round(ORIGIN - lat)): the block whose own pixel is the nearest one.
   */
  function PixelToBlock(p: LatLng): (b: Block)
    ensures p.lng - 0.5 < (b.x + ORIGIN) as real <= p.lng + 0.5
    ensures p.lat - 0.5 <= (ORIGIN - b.z) as real < p.lat + 0.5
  {
    Block(Round(p.lng - ORIGIN as real), Round(ORIGIN as real - p.lat))
  }

  /** The pixel of a block (lat = ORIGIN - z, lng = x + ORIGIN); converting back gives the block. */
  function BlockToPixel(b: Block): (p: LatLng)
    ensures IsIntegralPoint(p)
    ensures PixelToBlock(p) == b
  {
    LatLng((ORIGIN - b.z) as real, (b.x + ORIGIN) as real)
  }

  /** On whole pixels the conversion is exact: pixel to block to pixel is the identity. */
  lemma PixelRoundTrip(p: LatLng)
    requires IsIntegralPoint(p)
    ensures BlockToPixel(PixelToBlock(p)) == p
  {
    var b := PixelToBlock(p);
    CloseIntegersEqual(b.x + ORIGIN, p.lng.Floor);
    CloseIntegersEqual(ORIGIN - b.z, p.lat.Floor);
  }

  /** Two integers less than one apart (as reals) are equal. */
  lemma CloseIntegersEqual(m: int, n: int)
    requires n as real - 0.5 <= m as real <= n as real + 0.5
    ensures m == n
  {
    assert -1 < m - n < 1 by {
      assert (m - n) as real == m as real - n as real;
    }
  }

  /** The pixel the map is centred on is block (0, 0). */
  lemma CentreIsBlockZero()
    ensures PixelToBlock(LatLng(ORIGIN as real, ORIGIN as real)) == Block(0, 0)
    ensures BlockToPixel(Block(0, 0)) == LatLng(ORIGIN as real, ORIGIN as real)
  {
  }

  /** What a two-click measurement reports: the rounded offsets and the squared distance. */
  datatype Measurement = Measurement(dx: int, dz: int, distSquared: int)

  /**
   * The measurement from `a` to `b`: the offsets east (dx) and south (dz)
   * rounded to whole blocks, and the squared distance they span.
   */
  function Measure(a: LatLng, b: LatLng): (m: Measurement)
    ensures (b.lng - a.lng) - 0.5 < m.dx as real <= (b.lng - a.lng) + 0.5
    ensures (a.lat - b.lat) - 0.5 < m.dz as real <= (a.lat - b.lat) + 0.5
    ensures m.distSquared == m.dx * m.dx + m.dz * m.dz
  {
    var dx := Round(b.lng - a.lng);
    var dz := Round(a.lat - b.lat);
    Measurement(dx, dz, dx * dx + dz * dz)
  }

  /**
   * The measured offsets differ by at most one block per axis from the
   * difference of the two clicked blocks, and equal it on whole pixels.
   */
  lemma MeasureMatchesBlocks(a: LatLng, b: LatLng)
    ensures -1 <= Measure(a, b).dx - (PixelToBlock(b).x - PixelToBlock(a).x) <= 1
    ensures -1 <= Measure(a, b).dz - (PixelToBlock(b).z - PixelToBlock(a).z) <= 1
    ensures IsIntegralPoint(a) && IsIntegralPoint(b) ==>
      Measure(a, b).dx == PixelToBlock(b).x - PixelToBlock(a).x
      && Measure(a, b).dz == PixelToBlock(b).z - PixelToBlock(a).z
  {
    var m, pa, pb := Measure(a, b), PixelToBlock(a), PixelToBlock(b);
    OffsetBound(b.lng - a.lng, m.dx, pb.x + ORIGIN, pa.x + ORIGIN, b.lng, a.lng);
    OffsetBound(a.lat - b.lat, m.dz, ORIGIN - pa.z, ORIGIN - pb.z, a.lat, b.lat);
    if IsIntegralPoint(a) && IsIntegralPoint(b) {
      PixelRoundTrip(a);
      PixelRoundTrip(b);
      CloseIntegersEqual(m.dx, pb.x - pa.x);
      CloseIntegersEqual(m.dz, pb.z - pa.z);
    }
  }

  /**
   * An integer `d` within half of `u - v`, next to integers within half a
   * unit of `u` and of `v` (one bound of each kind open), is within one of
   * their difference.
   */
  lemma OffsetBound(diff: real, d: int, pu: int, pv: int, u: real, v: real)
    requires diff == u - v
    requires diff - 0.5 < d as real <= diff + 0.5
    requires (u - 0.5 < pu as real <= u + 0.5) || (u - 0.5 <= pu as real < u + 0.5)
    requires (v - 0.5 < pv as real <= v + 0.5) || (v - 0.5 <= pv as real < v + 0.5)
    ensures -1 <= d - (pu - pv) <= 1
  {
    var e := d - (pu - pv);
    assert e as real == d as real - pu as real + pv as real;
    assert -1.5 < e as real < 1.5;
  }

  /** The squared distance is zero exactly when both offsets are. */
  lemma DistanceZeroIff(a: LatLng, b: LatLng)
    ensures Measure(a, b).distSquared >= 0
    ensures Measure(a, b).distSquared == 0 <==> Measure(a, b).dx == 0 && Measure(a, b).dz == 0
  {
  }

  /**
   * The pixel positions of the grid overlay: for i from -ORIGIN to ORIGIN in
   * steps of GRID_STEP the line p = i + ORIGIN, drawn once as a column and once
   * as a row. The lines sit on whole multiples of GRID_STEP blocks and cover
   * the image from 0 to 2 * ORIGIN (which stops short of MAP_SIZE).
   */
  method GridPositions() returns (ps: seq<int>)
    ensures |ps| == 2 * ORIGIN / GRID_STEP + 1
    ensures forall k :: 0 <= k < |ps| ==> ps[k] == GRID_STEP * k
    ensures forall k :: 0 <= k < |ps| ==> 0 <= ps[k] <= 2 * ORIGIN < MAP_SIZE
    ensures forall k :: 0 <= k < |ps| ==> (ps[k] - ORIGIN) % GRID_STEP == 0
    ensures ps[0] == 0 && ps[|ps| - 1] == 2 * ORIGIN
    ensures ps[ORIGIN / GRID_STEP] == ORIGIN
  {
    ps := [];
    var i := -ORIGIN;
    while i <= ORIGIN
      invariant -ORIGIN <= i <= ORIGIN + GRID_STEP
      invariant (i + ORIGIN) % GRID_STEP == 0
      invariant |ps| * GRID_STEP == i + ORIGIN
      invariant forall k :: 0 <= k < |ps| ==> ps[k] == GRID_STEP * k
      decreases ORIGIN - i
    {
      var p := i + ORIGIN;
      ps := ps + [p];
      i := i + GRID_STEP;
    }
  }
}
