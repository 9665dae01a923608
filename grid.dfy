/** The neighbourhood sampled around an event: an 8x8 block of grid points
    spaced at the service's native resolution of 0.125 degrees. */
module Grid {

  /** A geographic coordinate in degrees. */
  datatype Point = Point(lat: real, lon: real)

  /** A (latitude, longitude) step count from the centre, in grid cells. */
  type Offset = (int, int)

  /** The service's native spatial resolution in degrees. */
  const Resolution: real := 0.125

  /** The offsets `range(-4, 4)` x `range(-4, 4)`, latitude step in the outer loop. */
  function Offsets(): (offs: seq<Offset>)
    ensures |offs| == 64
  {
    seq(64, k requires 0 <= k < 64 => (k / 8 - 4, k % 8 - 4))
  }

  /** The offset visited by the inner loop at `lonInc` while the outer loop is at `latInc`. */
  lemma OffsetAt(latInc: int, lonInc: int)
    requires -4 <= latInc < 4 && -4 <= lonInc < 4
    ensures 0 <= 8 * (latInc + 4) + (lonInc + 4) < 64
    ensures Offsets()[8 * (latInc + 4) + (lonInc + 4)] == (latInc, lonInc)
  {
    var k := 8 * (latInc + 4) + (lonInc + 4);
    assert k / 8 == latInc + 4 && k % 8 == lonInc + 4;
  }

  /** The 64 offsets are exactly the pairs with both steps in -4..3, and they
      are visited in strictly increasing row-major order, so none repeats. */
  lemma OffsetsRowMajor()
    ensures forall a, b :: (a, b) in Offsets() <==> -4 <= a < 4 && -4 <= b < 4
    ensures forall i, j :: 0 <= i < j < 64 ==>
      Offsets()[i].0 < Offsets()[j].0 || (Offsets()[i].0 == Offsets()[j].0 && Offsets()[i].1 < Offsets()[j].1)
  {
    forall a, b | -4 <= a < 4 && -4 <= b < 4 ensures (a, b) in Offsets() {
      OffsetAt(a, b);
    }
    forall i, j | 0 <= i < j < 64
      ensures Offsets()[i].0 < Offsets()[j].0 || (Offsets()[i].0 == Offsets()[j].0 && Offsets()[i].1 < Offsets()[j].1)
    {
      assert i == 8 * (i / 8) + i % 8 && j == 8 * (j / 8) + j % 8;
    }
  }

  /** The grid point `offset` cells away from `centre`. */
  function GridPoint(centre: Point, offset: Offset): (p: Point)
    ensures -4 <= offset.0 < 4 ==> centre.lat - 0.5 <= p.lat <= centre.lat + 0.375
    ensures -4 <= offset.1 < 4 ==> centre.lon - 0.5 <= p.lon <= centre.lon + 0.375
  {
    Point(centre.lat + Resolution * offset.0 as real, centre.lon + Resolution * offset.1 as real)
  }

  /** The 64 points sampled around `centre`, in visiting order. */
  function GridPoints(centre: Point): (ps: seq<Point>)
    ensures |ps| == 64
  {
    seq(64, k requires 0 <= k < 64 => GridPoint(centre, Offsets()[k]))
  }

  /** The sampled points are pairwise distinct and include the centre itself. */
  lemma GridPointsDistinct(centre: Point)
    ensures forall i, j :: 0 <= i < j < 64 ==> GridPoints(centre)[i] != GridPoints(centre)[j]
    ensures centre in GridPoints(centre)
  {
    OffsetsRowMajor();
    OffsetAt(0, 0);
    assert GridPoints(centre)[36] == centre;
  }
}
