/** Spawn positions: the `random` helper and `getRandomPosition` of the game server.
    Math.random() is not modelled; the integer it yields after scaling and flooring is an input. */
module Spawn {

  /** Distance kept between a wall and the range a spawn coordinate is drawn from. */
  const MARGIN := 50
  /** Spawn coordinates are snapped down to multiples of this step. */
  const GRID := 10

  /** The arena bounds (the `dimension` object of the client code). */
  datatype Arena = Arena(minX: int, maxX: int, minY: int, maxY: int) {
    /** Both inset ranges are non-empty, so `random` always has something to draw from. */
    predicate Valid() {
      minX + MARGIN <= maxX - MARGIN && minY + MARGIN <= maxY - MARGIN
    }
  }

  datatype Point = Point(x: int, y: int)

  /** The two integers Math.floor(Math.random() * (max - min + 1)) that one
      position draw produces, for x and for y. */
  datatype Sample = Sample(ux: int, uy: int)

  /** Math.random() lies in [0, 1), so each scaled draw lies in [0, max - min]. */
  predicate ValidSample(a: Arena, s: Sample) {
    && 0 <= s.ux <= (a.maxX - MARGIN) - (a.minX + MARGIN)
    && 0 <= s.uy <= (a.maxY - MARGIN) - (a.minY + MARGIN)
  }

  /** `random(min, max)`: an integer of the closed range [lo, hi], picked by the draw u. */
  function Random(lo: int, hi: int, u: int): (r: int)
    requires 0 <= u <= hi - lo
    ensures lo <= r <= hi
  {
    u + lo
  }

  /** `Math.floor(k / 10) * 10`: the largest multiple of GRID not above k.
      Dafny's division by a positive constant rounds toward minus infinity, as Math.floor does. */
  function Snap(k: int): (r: int)
    ensures r % GRID == 0
    ensures r <= k < r + GRID
  {
    (k / GRID) * GRID
  }

  /** No multiple of GRID lies strictly between Snap(k) and k. */
  lemma SnapIsGreatestMultiple(k: int, m: int)
    requires m % GRID == 0 && m <= k
    ensures m <= Snap(k)
  {
    assert m == (m / GRID) * GRID;
  }

  /** Where `getRandomPosition` can put something: on the grid, at most max - MARGIN,
      and above min + MARGIN - GRID because the snap rounds down. */
  predicate InSpawnRegion(a: Arena, p: Point) {
    && p.x % GRID == 0 && p.y % GRID == 0
    && a.minX + MARGIN - GRID < p.x <= a.maxX - MARGIN
    && a.minY + MARGIN - GRID < p.y <= a.maxY - MARGIN
  }

  /** `getRandomPosition()`: draw x and y in the inset ranges, then snap both to the grid. */
  function RandomPosition(a: Arena, s: Sample): (p: Point)
    requires a.Valid() && ValidSample(a, s)
    ensures InSpawnRegion(a, p)
    ensures a.minX < p.x < a.maxX && a.minY < p.y < a.maxY
  {
    var x := Random(a.minX + MARGIN, a.maxX - MARGIN, s.ux);
    var y := Random(a.minY + MARGIN, a.maxY - MARGIN, s.uy);
    Point(Snap(x), Snap(y))
  }

  /** Every grid point of the inset ranges is produced by some draw. */
  lemma RandomPositionReaches(a: Arena, p: Point)
    requires a.Valid()
    requires p.x % GRID == 0 && a.minX + MARGIN <= p.x <= a.maxX - MARGIN
    requires p.y % GRID == 0 && a.minY + MARGIN <= p.y <= a.maxY - MARGIN
    ensures exists s :: ValidSample(a, s) && RandomPosition(a, s) == p
  {
    var s := Sample(p.x - (a.minX + MARGIN), p.y - (a.minY + MARGIN));
    assert Snap(p.x) == p.x by { SnapIsGreatestMultiple(p.x, p.x); }
    assert Snap(p.y) == p.y by { SnapIsGreatestMultiple(p.y, p.y); }
    assert ValidSample(a, s) && RandomPosition(a, s) == p;
  }
}
