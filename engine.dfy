/**
 * Stand-ins for the parts of the Unity engine and of C# that the game's
 * scripts rely on: integer grid cells, colours, the integer overload of
 * `Random.Range`, the C# remainder operator and a tilemap.
 */
module Engine {

  /** An integer grid cell (a `Vector3Int` with z = 0, or a `Vector2Int`). */
  datatype Cell = Cell(x: int, y: int)

  function Add(a: Cell, d: Cell): (r: Cell)
    ensures r.x - a.x == d.x && r.y - a.y == d.y
  {
    Cell(a.x + d.x, a.y + d.y)
  }

  /** A colour; only carried around, never computed with. */
  datatype Color = Color(r: real, g: real, b: real, a: real)

  /** Unity's `Color.clear`. */
  const Transparent: Color := Color(0.0, 0.0, 0.0, 0.0)

  datatype Option<T> = None | Some(value: T)

  function Max0(n: int): (r: nat)
    ensures n >= 0 ==> r == n
    ensures n < 0 ==> r == 0
  {
    if n < 0 then 0 else n
  }

  /**
   * The values `Random.Range(lo, hi)` (integer overload) can return: the
   * maximum is exclusive; equal bounds give `lo`; bounds given the wrong
   * way round are swapped.
   */
  predicate RangeDraw(v: int, lo: int, hi: int)
  {
    if lo < hi then lo <= v < hi
    else if lo == hi then v == lo
    else hi <= v < lo
  }

  function Abs(n: int): nat
  {
    if n < 0 then -n else n
  }

  /**
   * The C# `%` operator on `int`, which truncates toward zero: the result
   * takes the sign of the dividend.
   */
  function CsRem(a: int, b: int): (r: int)
    requires b != 0
    ensures Abs(r) < Abs(b)
    ensures a >= 0 ==> r >= 0
    ensures a <= 0 ==> r <= 0
    ensures (a - r) % Abs(b) == 0
  {
    var m := Abs(b);
    if a >= 0 then
      assert a - a % m == m * (a / m);
      MultipleHasNoRemainder(m, a / m);
      a % m
    else
      assert a + (-a) % m == m * -((-a) / m);
      MultipleHasNoRemainder(m, -((-a) / m));
      -((-a) % m)
  }

  /** `m * k` is at least `m` for a positive `k`. */
  lemma MulAtLeast(m: int, k: int)
    requires m > 0 && k >= 1
    ensures m * k >= m
  {
    var j := k - 1;
    assert m * k == m * j + m;
  }

  /** A multiple of `m` leaves no remainder. */
  lemma MultipleHasNoRemainder(m: int, q: int)
    requires m > 0
    ensures (m * q) % m == 0
  {
    var x := m * q;
    var d := x / m;
    var k := q - d;
    assert x == m * d + x % m;
    assert m * k == x % m;
    if k >= 1 {
      MulAtLeast(m, k);
    } else if k <= -1 {
      MulAtLeast(m, -k);
      assert m * k == -(m * -k);
    }
  }

  lemma CsRemOfNatural(a: int, b: int)
    requires a >= 0 && b > 0
    ensures CsRem(a, b) == a % b
  {
  }

  /**
   * A Unity tilemap, reduced to the set of cells that hold a tile. Each
   * tilemap of the game is painted with one tile asset only, whose name is
   * `tileName`.
   */
  class Tilemap {
    var cells: set<Cell>
    const tileName: string

    constructor (tileName: string)
      ensures cells == {} && this.tileName == tileName
    {
      cells := {};
      this.tileName := tileName;
    }

    /** `ClearAllTiles()`. */
    method ClearAllTiles()
      modifies this
      ensures cells == {}
    {
      cells := {};
    }
  }
}
