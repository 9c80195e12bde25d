/**
 * The value-level meaning of carving a dungeon (Map/DungeonGenerator.cs):
 * the floor tilemap and the obstacle tilemap as two sets of cells, what
 * `SetFloorTile`, `TrySetWallTile`, stamping a room and tunnelling a
 * corridor do to them, and the straight segments the line rasterizer
 * produces for a corridor's two axis-aligned legs.
 */
module Carving {
  import opened Engine

  /** The cells holding a floor tile and the cells holding a wall tile. */
  datatype Tiles = Tiles(floor: set<Cell>, walls: set<Cell>)

  /** No cell is both floor and wall. */
  predicate Disjoint(t: Tiles)
  {
    t.floor !! t.walls
  }

  /** `SetFloorTile(pos)`: any obstacle goes, the floor tile is set. */
  function SetFloor(t: Tiles, c: Cell): (r: Tiles)
    ensures c in r.floor && c !in r.walls
    ensures Disjoint(t) ==> Disjoint(r)
  {
    Tiles(t.floor + {c}, t.walls - {c})
  }

  /** `TrySetWallTile(pos)`: a floor cell is never made a wall. */
  function TryWall(t: Tiles, c: Cell): (r: Tiles)
    ensures r.floor == t.floor
    ensures c in r.floor || c in r.walls
    ensures c !in t.floor ==> c in r.walls
    ensures Disjoint(t) ==> Disjoint(r)
  {
    if c in t.floor then t else Tiles(t.floor, t.walls + {c})
  }

  // ---------------------------------------------------------------------
  // Rooms

  /** `new Room(x, y, width, height)`: the rectangle a room occupies. */
  datatype Room = Room(x: int, y: int, width: int, height: int)

  predicate InRoom(r: Room, c: Cell)
  {
    r.x <= c.x < r.x + r.width && r.y <= c.y < r.y + r.height
  }

  /** The first or last column or row of the room: stamped as wall. */
  predicate OnBorder(r: Room, c: Cell)
  {
    InRoom(r, c) &&
    (c.x == r.x || c.x == r.x + r.width - 1 || c.y == r.y || c.y == r.y + r.height - 1)
  }

  /** Every other cell of the room: stamped as floor. */
  predicate InInterior(r: Room, c: Cell)
  {
    InRoom(r, c) && !OnBorder(r, c)
  }

  function InteriorCells(r: Room): set<Cell>
  {
    set x, y | r.x < x < r.x + r.width - 1 && r.y < y < r.y + r.height - 1 :: Cell(x, y)
  }

  function BorderCells(r: Room): set<Cell>
  {
    set x, y | r.x <= x < r.x + r.width && r.y <= y < r.y + r.height &&
               (x == r.x || x == r.x + r.width - 1 || y == r.y || y == r.y + r.height - 1)
             :: Cell(x, y)
  }

  lemma RoomCellsMembership(r: Room)
    ensures forall c :: c in InteriorCells(r) <==> InInterior(r, c)
    ensures forall c :: c in BorderCells(r) <==> OnBorder(r, c)
  {
    forall c | InInterior(r, c) ensures c in InteriorCells(r) {
      assert c == Cell(c.x, c.y);
    }
    forall c | OnBorder(r, c) ensures c in BorderCells(r) {
      assert c == Cell(c.x, c.y);
    }
  }

  /**
   * The room-stamping loops of `Generate`: interior cells become floor and
   * lose any wall; a border cell becomes wall unless it is already floor.
   */
  function Stamp(t: Tiles, r: Room): Tiles
  {
    Tiles(t.floor + InteriorCells(r),
          (t.walls - InteriorCells(r)) + (BorderCells(r) - t.floor))
  }

  /**
   * After stamping, every interior cell is floor, every border cell is
   * floor or wall, no floor cell has been lost, disjointness is kept and
   * cells outside the room are untouched.
   */
  lemma StampCarves(t: Tiles, r: Room)
    ensures forall c :: InInterior(r, c) ==> c in Stamp(t, r).floor
    ensures forall c :: OnBorder(r, c) ==> c in Stamp(t, r).floor || c in Stamp(t, r).walls
    ensures forall c :: OnBorder(r, c) && c !in t.floor ==> c in Stamp(t, r).walls
    ensures t.floor <= Stamp(t, r).floor
    ensures t.floor + t.walls <= Stamp(t, r).floor + Stamp(t, r).walls
    ensures Disjoint(t) ==> Disjoint(Stamp(t, r))
    ensures forall c :: !InRoom(r, c) ==>
              (c in Stamp(t, r).floor <==> c in t.floor) && (c in Stamp(t, r).walls <==> c in t.walls)
  {
    RoomCellsMembership(r);
  }

  // ---------------------------------------------------------------------
  // Straight segments (`BresenhamLine.Compute` on an axis-aligned pair)

  /** Manhattan distance. */
  function Dist(a: Cell, b: Cell): nat
  {
    Abs(a.x - b.x) + Abs(a.y - b.y)
  }

  predicate Aligned(a: Cell, b: Cell)
  {
    a.x == b.x || a.y == b.y
  }

  /** `c` lies on the axis-aligned segment from `a` to `b`, ends included. */
  predicate Between(a: Cell, b: Cell, c: Cell)
  {
    (a.x <= c.x <= b.x || b.x <= c.x <= a.x) && (a.y <= c.y <= b.y || b.y <= c.y <= a.y)
  }

  function Sign(n: int): int
  {
    if n < 0 then -1 else if n > 0 then 1 else 0
  }

  /**
   * The cells from `a` to `b`, both included, one unit step at a time. This
   * is what a Bresenham rasterizer yields for a horizontal or vertical line,
   * the only lines a corridor's legs ever are.
   */
  function Segment(a: Cell, b: Cell): (r: seq<Cell>)
    requires Aligned(a, b)
    ensures |r| == Dist(a, b) + 1
    ensures r[0] == a && r[|r| - 1] == b
    ensures forall i :: 0 <= i < |r| - 1 ==> Dist(r[i], r[i + 1]) == 1
    ensures forall c :: c in r <==> Between(a, b, c)
    decreases Dist(a, b)
  {
    if a == b then [a]
    else
      var next := Cell(a.x + Sign(b.x - a.x), a.y + Sign(b.y - a.y));
      [a] + Segment(next, b)
  }

  // ---------------------------------------------------------------------
  // Corridors

  /**
   * The tunnel corner: horizontally first goes through (new.x, old.y),
   * vertically first through (old.x, new.y).
   */
  function Corner(from: Cell, to: Cell, horizontalFirst: bool): (k: Cell)
    ensures Aligned(from, k) && Aligned(k, to)
  {
    if horizontalFirst then Cell(to.x, from.y) else Cell(from.x, to.y)
  }

  /** The list `tunnelCoords` built by the two `BresenhamLine.Compute` calls. */
  function TunnelCoords(from: Cell, to: Cell, horizontalFirst: bool): seq<Cell>
  {
    var k := Corner(from, to, horizontalFirst);
    Segment(from, k) + Segment(k, to)
  }

  /**
   * A tunnel is a walk from the old centre to the new one in unit steps
   * (the corner appears twice, as both legs include it), through the
   * corner, one cell longer than the Manhattan distance.
   */
  lemma TunnelIsWalk(from: Cell, to: Cell, horizontalFirst: bool)
    ensures var cs := TunnelCoords(from, to, horizontalFirst);
      && |cs| == Dist(from, to) + 2
      && cs[0] == from && cs[|cs| - 1] == to
      && Corner(from, to, horizontalFirst) in cs
      && forall i :: 0 <= i < |cs| - 1 ==> Dist(cs[i], cs[i + 1]) <= 1
  {
    var k := Corner(from, to, horizontalFirst);
    var s1, s2 := Segment(from, k), Segment(k, to);
    var cs := s1 + s2;
    assert cs == TunnelCoords(from, to, horizontalFirst);
    forall i | 0 <= i < |cs| - 1 ensures Dist(cs[i], cs[i + 1]) <= 1 {
      if i < |s1| - 1 {
        assert cs[i] == s1[i] && cs[i + 1] == s1[i + 1];
      } else if i == |s1| - 1 {
        assert cs[i] == k && cs[i + 1] == k;
      } else {
        assert cs[i] == s2[i - |s1|] && cs[i + 1] == s2[i - |s1| + 1];
      }
    }
    assert cs[|s1|] == k;
  }

  /** The 3x3 neighbourhood of a cell, the cell included. */
  function Block(c: Cell): (b: set<Cell>)
    ensures forall n :: n in b <==> Abs(n.x - c.x) <= 1 && Abs(n.y - c.y) <= 1
  {
    var x, y := c.x, c.y;
    assert forall n: Cell :: Abs(n.x - x) <= 1 && Abs(n.y - y) <= 1 ==>
      (n.x == x - 1 || n.x == x || n.x == x + 1) && (n.y == y - 1 || n.y == y || n.y == y + 1);
    {Cell(x - 1, y - 1), Cell(x - 1, y), Cell(x - 1, y + 1),
     Cell(x, y - 1), Cell(x, y), Cell(x, y + 1),
     Cell(x + 1, y - 1), Cell(x + 1, y), Cell(x + 1, y + 1)}
  }

  /** One tunnel coordinate: set it to floor, then try to wall its 3x3 block. */
  function TunnelStep(t: Tiles, c: Cell): Tiles
  {
    var f := SetFloor(t, c);
    Tiles(f.floor, f.walls + (Block(c) - f.floor))
  }

  /** The tunnelling loop of `TunnelBetween` over a list of coordinates. */
  function Tunnel(t: Tiles, cs: seq<Cell>): Tiles
    decreases |cs|
  {
    if cs == [] then t else TunnelStep(Tunnel(t, cs[..|cs| - 1]), cs[|cs| - 1])
  }

  /** Tunnelling one more coordinate is one more `TunnelStep`. */
  lemma TunnelSnoc(t: Tiles, cs: seq<Cell>, i: nat)
    requires i < |cs|
    ensures Tunnel(t, cs[..i + 1]) == TunnelStep(Tunnel(t, cs[..i]), cs[i])
  {
    assert cs[..i + 1][..i] == cs[..i];
  }

  /** All cells within one step (8-neighbourhood) of some cell of `cs`. */
  function Around(cs: seq<Cell>): set<Cell>
    decreases |cs|
  {
    if cs == [] then {} else Around(cs[..|cs| - 1]) + Block(cs[|cs| - 1])
  }

  /** The neighbourhood of every coordinate lies inside `Around(cs)`. */
  lemma {:induction false} AroundCovers(cs: seq<Cell>)
    ensures forall i :: 0 <= i < |cs| ==> Block(cs[i]) <= Around(cs)
    decreases |cs|
  {
    if cs != [] {
      var p := cs[..|cs| - 1];
      AroundCovers(p);
      forall i | 0 <= i < |p| ensures Block(cs[i]) <= Around(cs) {
        assert cs[i] == p[i];
      }
    }
  }

  /**
   * Closed form of a tunnel on disjoint tiles: the coordinates are added to
   * the floor, and every cell around them that is not floor becomes wall.
   */
  lemma {:induction false} TunnelClosedForm(t: Tiles, cs: seq<Cell>)
    requires Disjoint(t)
    ensures Tunnel(t, cs).floor == t.floor + set c | c in cs
    ensures Tunnel(t, cs).walls == (t.walls + Around(cs)) - (t.floor + set c | c in cs)
    decreases |cs|
  {
    if cs != [] {
      var p := cs[..|cs| - 1];
      TunnelClosedForm(t, p);
      assert cs == p + [cs[|cs| - 1]];
      assert (set c | c in cs) == (set c | c in p) + {cs[|cs| - 1]};
    }
  }

  /**
   * After `TunnelBetween`, every tunnel coordinate is floor, each of its
   * eight neighbours is floor or wall, the floor has only grown, the tiles
   * stay disjoint and cells away from the tunnel are untouched.
   */
  lemma TunnelCarves(t: Tiles, cs: seq<Cell>)
    requires Disjoint(t)
    ensures forall i :: 0 <= i < |cs| ==> cs[i] in Tunnel(t, cs).floor
    ensures forall i, n :: 0 <= i < |cs| && n in Block(cs[i]) ==>
              n in Tunnel(t, cs).floor || n in Tunnel(t, cs).walls
    ensures t.floor <= Tunnel(t, cs).floor
    ensures t.floor + t.walls <= Tunnel(t, cs).floor + Tunnel(t, cs).walls
    ensures Disjoint(Tunnel(t, cs))
    ensures forall n :: n !in Around(cs) ==>
              (n in Tunnel(t, cs).floor <==> n in t.floor) && (n in Tunnel(t, cs).walls <==> n in t.walls)
  {
    TunnelClosedForm(t, cs);
    AroundCovers(cs);
  }

  /** Without any assumption on the tiles, a tunnel never removes floor. */
  lemma {:induction false} TunnelKeepsFloor(t: Tiles, cs: seq<Cell>)
    ensures t.floor <= Tunnel(t, cs).floor
    ensures t.floor + t.walls <= Tunnel(t, cs).floor + Tunnel(t, cs).walls
    decreases |cs|
  {
    if cs != [] {
      TunnelKeepsFloor(t, cs[..|cs| - 1]);
    }
  }
}
