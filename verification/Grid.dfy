/** The two grids of the room over real coordinates: clamped indices, neighbourhoods and distances. */
module Grid {
  import opened Basics

  const VIEW_DISTANCE := 2500
  const VIEW_DISTANCE_NARROW := 1250
  const MAP_SIZE := 40000        // width and height
  const MAP_MIN := -20000        // x and y
  const ZONE_SIZE := 10000
  const SECTOR_SIZE := 1250
  const ZONES := MAP_SIZE / ZONE_SIZE
  const SECTORS := MAP_SIZE / SECTOR_SIZE

  datatype Position = Position(x: real, y: real)

  datatype Idx = Idx(y: int, x: int)

  /** Conversion to int truncates toward zero. */
  function Trunc(r: real): int {
    if r >= 0.0 then r.Floor else -(-r).Floor
  }

  function Clamp(i: int, size: int): (c: int)
    requires size > 0
    ensures 0 <= c < size
  {
    if i < 0 then 0 else if i >= size then size - 1 else i
  }

  function AxisIdx(p: real, width: int, size: int): (i: int)
    requires width > 0 && size > 0
    ensures 0 <= i < size
  {
    Clamp(Trunc((p - MAP_MIN as real) / width as real), size)
  }

  function ZoneIdx(p: Position): (i: Idx)
    ensures 0 <= i.y < ZONES && 0 <= i.x < ZONES
  {
    Idx(AxisIdx(p.y, ZONE_SIZE, ZONES), AxisIdx(p.x, ZONE_SIZE, ZONES))
  }

  predicate OnGrid(i: Idx) {
    0 <= i.y < SECTORS && 0 <= i.x < SECTORS
  }

  function SectorIdx(p: Position): (i: Idx)
    ensures OnGrid(i)
  {
    Idx(AxisIdx(p.y, SECTOR_SIZE, SECTORS), AxisIdx(p.x, SECTOR_SIZE, SECTORS))
  }

  // ---- Indices -------------------------------------------------------------------------------

  /** Conversion drops the fraction: the integer is the nearest one on the side of zero. */
  lemma TruncDropsFraction(r: real)
    ensures r >= 0.0 ==> 0 <= Trunc(r) && Trunc(r) as real <= r < (Trunc(r) + 1) as real
    ensures r <= 0.0 ==> Trunc(r) <= 0 && (Trunc(r) - 1) as real < r <= Trunc(r) as real
  {
  }

  /** Truncating before clamping is flooring before clamping, although the two differ below zero. */
  lemma TruncationIsClamped(r: real, size: int)
    requires size > 0
    ensures Clamp(Trunc(r), size) == Clamp(r.Floor, size)
  {
  }

  /** The cell an index names: everything up to its border at the edges of the map, a half-open square inside. */
  lemma IdxIsCell(p: real, width: int, size: int)
    requires width in {ZONE_SIZE, SECTOR_SIZE} && size > 1
    ensures var i := AxisIdx(p, width, size);
            && (i > 0 ==> (MAP_MIN + i * width) as real <= p)
            && (i < size - 1 ==> p < (MAP_MIN + (i + 1) * width) as real)
  {
    TruncationIsClamped((p - MAP_MIN as real) / width as real, size);
    if width == ZONE_SIZE {
      assert AxisIdx(p, width, size) == Clamp(((p + 20000.0) / 10000.0).Floor, size);
    } else {
      assert AxisIdx(p, width, size) == Clamp(((p + 20000.0) / 1250.0).Floor, size);
    }
  }

  /** `i` names the cell of `p` on both axes. */
  predicate InCell(p: Position, i: Idx, width: int, size: int) {
    && (i.x > 0 ==> (MAP_MIN + i.x * width) as real <= p.x)
    && (i.x < size - 1 ==> p.x < (MAP_MIN + (i.x + 1) * width) as real)
    && (i.y > 0 ==> (MAP_MIN + i.y * width) as real <= p.y)
    && (i.y < size - 1 ==> p.y < (MAP_MIN + (i.y + 1) * width) as real)
  }

  lemma IndicesAreCells(p: Position)
    ensures InCell(p, SectorIdx(p), SECTOR_SIZE, SECTORS) && InCell(p, ZoneIdx(p), ZONE_SIZE, ZONES)
  {
    IdxIsCell(p.x, SECTOR_SIZE, SECTORS);
    IdxIsCell(p.y, SECTOR_SIZE, SECTORS);
    IdxIsCell(p.x, ZONE_SIZE, ZONES);
    IdxIsCell(p.y, ZONE_SIZE, ZONES);
  }

  /** A zone is eight by eight sectors, for every position on or off the map. */
  lemma GridsNest(p: Position)
    ensures ZoneIdx(p) == Idx(SectorIdx(p).y / 8, SectorIdx(p).x / 8)
  {
    AxisNests(p.y);
    AxisNests(p.x);
  }

  lemma AxisNests(p: real)
    ensures AxisIdx(p, ZONE_SIZE, ZONES) == AxisIdx(p, SECTOR_SIZE, SECTORS) / 8
  {
    IdxIsCell(p, ZONE_SIZE, ZONES);
    IdxIsCell(p, SECTOR_SIZE, SECTORS);
  }

  // ---- Distances -----------------------------------------------------------------------------

  function Abs(n: int): nat { if n < 0 then -n else n }

  /** `IsNear`: coordinates are truncated to integers, the distance is Euclidean and strict. */
  predicate IsNear(a: Position, b: Position, viewDist: int) {
    var dx, dy := Trunc(a.x) - Trunc(b.x), Trunc(a.y) - Trunc(b.y);
    viewDist > 0 && dx * dx + dy * dy < viewDist * viewDist
  }

  /** Of two players, whose truncated coordinates differ by `dx` and `dy`, and whose distance rounds down to `r`: they
      are near exactly if `r` is below the view distance. */
  lemma NearIsDistance(a: Position, b: Position, viewDist: int, r: nat)
    requires var dx, dy := Trunc(a.x) - Trunc(b.x), Trunc(a.y) - Trunc(b.y);
             r * r <= dx * dx + dy * dy < (r + 1) * (r + 1)
    ensures IsNear(a, b, viewDist) <==> r < viewDist
  {
    if 0 < viewDist <= r { SquareGrows(r, viewDist); }
    if r < viewDist { SquareGrows(viewDist, r + 1); }
  }

  /** Along an axis the distance is the difference. */
  lemma NearOnAxis(a: Position, b: Position, viewDist: int)
    ensures Trunc(a.y) == Trunc(b.y) ==> (IsNear(a, b, viewDist) <==> Abs(Trunc(a.x) - Trunc(b.x)) < viewDist)
    ensures Trunc(a.x) == Trunc(b.x) ==> (IsNear(a, b, viewDist) <==> Abs(Trunc(a.y) - Trunc(b.y)) < viewDist)
  {
    var dx, dy := Trunc(a.x) - Trunc(b.x), Trunc(a.y) - Trunc(b.y);
    SquareOfAbs(dx);
    SquareOfAbs(dy);
    if dy == 0 { NearIsDistance(a, b, viewDist, Abs(dx)); }
    if dx == 0 { NearIsDistance(a, b, viewDist, Abs(dy)); }
  }

  lemma SquareOfAbs(n: int)
    ensures Abs(n) * Abs(n) == n * n < (Abs(n) + 1) * (Abs(n) + 1)
  {
    if n < 0 { assert Abs(n) * Abs(n) == (-n) * (-n); }
  }

  /** Only the two differences matter, whoever looks at whom and wherever they are; a wider view sees no less. */
  lemma NearIsFair(a: Position, b: Position, c: Position, d: Position, viewDist: int, wider: int)
    ensures IsNear(a, b, viewDist) <==> IsNear(b, a, viewDist)
    ensures IsNear(a, b, viewDist) && viewDist <= wider ==> IsNear(a, b, wider)
    ensures Trunc(a.x) - Trunc(b.x) == Trunc(c.x) - Trunc(d.x) && Trunc(a.y) - Trunc(b.y) == Trunc(c.y) - Trunc(d.y) ==>
              (IsNear(a, b, viewDist) <==> IsNear(c, d, viewDist))
  {
    var dx, dy := Trunc(a.x) - Trunc(b.x), Trunc(a.y) - Trunc(b.y);
    assert (-dx) * (-dx) == dx * dx && (-dy) * (-dy) == dy * dy;
    if 0 < viewDist <= wider { SquareGrows(wider, viewDist); }
  }

  /** Whole distances are the same in every direction. */
  lemma NearInEveryDirection(a: Position, b: Position, viewDist: int, r: nat)
    requires var dx, dy := Trunc(a.x) - Trunc(b.x), Trunc(a.y) - Trunc(b.y);
             dx * dx + dy * dy == r * r
    ensures IsNear(a, b, viewDist) <==> r < viewDist
  {
    NearIsDistance(a, b, viewDist, r);
  }

  /** A box inside the view, by the 3-4-5 triangle. */
  lemma NearInBox(a: Position, b: Position, viewDist: int)
    requires 5 * Abs(Trunc(a.x) - Trunc(b.x)) < 3 * viewDist && 5 * Abs(Trunc(a.y) - Trunc(b.y)) < 4 * viewDist
    ensures IsNear(a, b, viewDist)
  {
    var x, y := Abs(Trunc(a.x) - Trunc(b.x)), Abs(Trunc(a.y) - Trunc(b.y));
    SquareOfAbs(Trunc(a.x) - Trunc(b.x));
    SquareOfAbs(Trunc(a.y) - Trunc(b.y));
    BoxInCircle(x, y, viewDist);
  }

  lemma BoxInCircle(x: nat, y: nat, d: nat)
    requires 5 * x < 3 * d && 5 * y < 4 * d
    ensures x * x + y * y < d * d
  {
    Smaller(5 * x, 3 * d);
    Smaller(5 * y, 4 * d);
    Scaled(5, x);
    Scaled(5, y);
    Scaled(3, d);
    Scaled(4, d);
  }

  lemma Scaled(k: nat, n: nat)
    ensures (k * n) * (k * n) == (k * k) * (n * n)
  {
    assert (k * n) * (k * n) == k * (n * (k * n)) == k * (k * (n * n)) == (k * k) * (n * n);
  }

  lemma Smaller(m: nat, n: nat)
    requires m < n
    ensures m * m < n * n
  {
    assert m * m <= m * n < n * n;
  }

  /** `s` is within `reach` sectors of `c` on both axes. */
  predicate Adjacent(c: Idx, s: Idx, reach: int) {
    OnGrid(s) && Abs(s.y - c.y) <= reach && Abs(s.x - c.x) <= reach
  }

  lemma NearOnAxes(dx: int, dy: int, d: int)
    requires d > 0 && dx * dx + dy * dy < d * d
    ensures Abs(dx) < d && Abs(dy) < d
  {
    assert dx * dx >= 0 && dy * dy >= 0;
    if Abs(dx) >= d { SquareGrows(Abs(dx), d); assert false; }
    if Abs(dy) >= d { SquareGrows(Abs(dy), d); assert false; }
  }

  lemma SquareGrows(n: int, d: int)
    requires 0 < d <= n
    ensures n * n >= d * d
  {
    assert n * n >= d * n >= d * d;
  }

  /** A view distance of `reach` sectors, in truncated or exact coordinates, stays within `reach` indices. */
  lemma NearAxis(a: real, b: real, reach: int)
    requires reach in {1, 2}
    requires Abs(Trunc(a) - Trunc(b)) < reach * SECTOR_SIZE ||
             -((reach * SECTOR_SIZE) as real) <= a - b <= (reach * SECTOR_SIZE) as real
    ensures Abs(AxisIdx(a, SECTOR_SIZE, SECTORS) - AxisIdx(b, SECTOR_SIZE, SECTORS)) <= reach
  {
    Ahead(a, b, reach);
    Ahead(b, a, reach);
  }

  lemma Ahead(a: real, b: real, reach: int)
    requires reach in {1, 2}
    requires Trunc(a) - Trunc(b) < reach * SECTOR_SIZE || a - b <= (reach * SECTOR_SIZE) as real
    ensures AxisIdx(a, SECTOR_SIZE, SECTORS) <= AxisIdx(b, SECTOR_SIZE, SECTORS) + reach
  {
    IdxIsCell(a, SECTOR_SIZE, SECTORS);
    IdxIsCell(b, SECTOR_SIZE, SECTORS);
  }

  /** Players in view of each other are in adjacent sectors, wherever they are. */
  lemma NearIsAdjacent(a: Position, b: Position, reach: int)
    requires reach in {1, 2} && IsNear(a, b, reach * SECTOR_SIZE)
    ensures Adjacent(SectorIdx(a), SectorIdx(b), reach)
  {
    NearOnAxes(Trunc(a.x) - Trunc(b.x), Trunc(a.y) - Trunc(b.y), reach * SECTOR_SIZE);
    NearAxis(b.x, a.x, reach);
    NearAxis(b.y, a.y, reach);
  }

  /** A whole-numbered coordinate inside a sector. */
  lemma InSector(i: int, offset: nat)
    requires 0 <= i < SECTORS && offset < SECTOR_SIZE
    ensures AxisIdx((MAP_MIN + i * SECTOR_SIZE + offset) as real, SECTOR_SIZE, SECTORS) == i
    ensures Trunc((MAP_MIN + i * SECTOR_SIZE + offset) as real) == MAP_MIN + i * SECTOR_SIZE + offset
  {
    IdxIsCell((MAP_MIN + i * SECTOR_SIZE + offset) as real, SECTOR_SIZE, SECTORS);
  }

  /** Coordinates of two sectors that are as close as they get. */
  lemma Closest(i: int, j: int, reach: int) returns (p: real, q: real)
    requires 0 <= i < SECTORS && 0 <= j < SECTORS && Abs(i - j) <= reach && reach in {1, 2}
    ensures AxisIdx(p, SECTOR_SIZE, SECTORS) == i && AxisIdx(q, SECTOR_SIZE, SECTORS) == j
    ensures Abs(Trunc(p) - Trunc(q)) <= 1 + (reach - 1) * SECTOR_SIZE
  {
    var m, n := if i < j then SECTOR_SIZE - 1 else 0, if j < i then SECTOR_SIZE - 1 else 0;
    InSector(i, m);
    InSector(j, n);
    p, q := (MAP_MIN + i * SECTOR_SIZE + m) as real, (MAP_MIN + j * SECTOR_SIZE + n) as real;
  }

  /** No sector is looked at in vain: those around a sector are exactly the ones from which a player in it may be
      seen. */
  lemma AdjacentExactly(c: Idx, s: Idx, reach: int)
    requires OnGrid(c) && OnGrid(s) && reach in {1, 2}
    ensures Adjacent(c, s, reach) <==>
            exists a, b :: SectorIdx(a) == c && SectorIdx(b) == s && IsNear(a, b, reach * SECTOR_SIZE)
  {
    if Adjacent(c, s, reach) {
      var x, x' := Closest(c.x, s.x, reach);
      var y, y' := Closest(c.y, s.y, reach);
      var a, b := Position(x, y), Position(x', y');
      NearInBox(a, b, reach * SECTOR_SIZE);
      assert SectorIdx(a) == c && SectorIdx(b) == s;
    }
    if a, b :| SectorIdx(a) == c && SectorIdx(b) == s && IsNear(a, b, reach * SECTOR_SIZE) {
      NearIsAdjacent(a, b, reach);
    }
  }

  // ---- Neighbourhoods ------------------------------------------------------------------------

  /** GetAdjacentSectors with reach 2 and GetNarrowAdjacentSectors with reach 1: every sector of the
      neighbourhood that is on the grid, once. */
  method Neighbourhood(c: Idx, reach: int) returns (ret: seq<Idx>)
    requires reach >= 0
    ensures NoDuplicates(ret) && forall s :: s in ret <==> Adjacent(c, s, reach)
  {
    ret := [];
    for dy: int := reach + 1 downto -reach
      invariant NoDuplicates(ret)
      invariant forall s :: s in ret <==> Adjacent(c, s, reach) && s.y >= c.y + dy
    {
      for dx: int := -reach to reach + 1
        invariant NoDuplicates(ret)
        invariant forall s :: s in ret <==>
          Adjacent(c, s, reach) && (s.y > c.y + dy || (s.y == c.y + dy && s.x < c.x + dx))
      {
        var ny, nx := c.y + dy, c.x + dx;
        if nx < 0 || nx >= SECTORS || ny < 0 || ny >= SECTORS { continue; }
        ret := ret + [Idx(ny, nx)];
      }
    }
  }
}
