/**
  Grid geometry: coordinates, the bounds and body-collision tests, and the
  rejection-sampling choice of a free cell.
 */
module GameLogic {
  import opened Constants

  datatype Coord = Coord(x: int, y: int)

  /** A cell of the GridSize x GridSize board. */
  predicate InGrid(c: Coord)
  {
    0 <= c.x < GridSize && 0 <= c.y < GridSize
  }

  /** A cell getRandomCoord may return when asked to avoid `exclude`. */
  predicate IsFree(c: Coord, exclude: seq<Coord>)
  {
    InGrid(c) && c !in exclude
  }

  /** isOutOfBounds: exactly the cells that are not on the board. */
  function IsOutOfBounds(c: Coord): (out: bool)
    ensures out <==> !InGrid(c)
  {
    c.x < 0 || c.x >= GridSize || c.y < 0 || c.y >= GridSize
  }

  /**
    isCollision: `head` meets one of the segments after the first; the first
    segment of `body` is never compared.
   */
  function IsCollision(head: Coord, body: seq<Coord>): (hit: bool)
    ensures hit <==> exists i :: 1 <= i < |body| && body[i] == head
    ensures |body| <= 1 ==> !hit
  {
    if |body| <= 1 then false else head in body[1..]
  }

  /**
    getRandomCoord. Each iteration of the source's do-while loop draws a fresh
    in-grid cell from Math.random; here the draws are the sequence `draws`,
    and the loop returns the first draw outside `exclude`. The loop ends only
    if such a draw comes, which the second precondition states.
   */
  method GetRandomCoord(exclude: seq<Coord>, draws: seq<Coord>) returns (c: Coord, used: nat)
    requires forall k :: 0 <= k < |draws| ==> InGrid(draws[k])
    requires exists k :: 0 <= k < |draws| && draws[k] !in exclude
    ensures IsFree(c, exclude)
    ensures used < |draws| && c == draws[used]
    ensures forall k :: 0 <= k < used ==> draws[k] in exclude
  {
    used := 0;
    c := draws[0];
    while c in exclude
      invariant used < |draws| && c == draws[used]
      invariant forall k :: 0 <= k < used ==> draws[k] in exclude
      invariant exists k :: used <= k < |draws| && draws[k] !in exclude
      decreases |draws| - used
    {
      used := used + 1;
      c := draws[used];
    }
  }

  /** The k-th cell of the board in column-major order. */
  function CellAt(k: nat): Coord
  {
    Coord(k / GridSize, k % GridSize)
  }

  /** Every cell of the board, each once. */
  function AllCells(): (cells: seq<Coord>)
    ensures |cells| == GridSize * GridSize
    ensures forall k :: 0 <= k < |cells| ==> InGrid(cells[k])
  {
    seq(GridSize * GridSize, k requires 0 <= k => CellAt(k))
  }

  ghost predicate Distinct(s: seq<Coord>)
  {
    forall i, j :: 0 <= i < j < |s| ==> s[i] != s[j]
  }

  lemma AllCellsDistinct()
    ensures Distinct(AllCells())
  {
    var cells := AllCells();
    forall i, j | 0 <= i < j < |cells|
      ensures cells[i] != cells[j]
    {
      assert i == GridSize * (i / GridSize) + i % GridSize;
      assert j == GridSize * (j / GridSize) + j % GridSize;
    }
  }

  /** Among more distinct candidates than excluded cells, some candidate is not excluded. */
  lemma {:induction false} FreeAmong(cands: seq<Coord>, exclude: seq<Coord>)
    requires Distinct(cands)
    requires |exclude| < |cands|
    ensures exists k :: 0 <= k < |cands| && cands[k] !in exclude
    decreases |cands|
  {
    if cands[0] in exclude {
      var j :| 0 <= j < |exclude| && exclude[j] == cands[0];
      var rest := exclude[..j] + exclude[j + 1..];
      FreeAmong(cands[1..], rest);
      var k :| 0 <= k < |cands| - 1 && cands[1..][k] !in rest;
      assert cands[k + 1] != cands[0];
      assert exclude == exclude[..j] + [cands[0]] + exclude[j + 1..];
      assert cands[k + 1] !in exclude;
    } else {
      assert cands[0] !in exclude;
    }
  }

  /**
    getRandomCoord returns whenever fewer cells are excluded than the board
    holds, however the excluded cells are arranged.
   */
  lemma FreeCellExists(exclude: seq<Coord>)
    requires |exclude| < GridSize * GridSize
    ensures exists c :: IsFree(c, exclude)
  {
    AllCellsDistinct();
    FreeAmong(AllCells(), exclude);
    var k :| 0 <= k < |AllCells()| && AllCells()[k] !in exclude;
    assert IsFree(AllCells()[k], exclude);
  }

  /**
    The bound is tight: excluding all GridSize * GridSize cells leaves none
    free, so getRandomCoord would draw forever.
   */
  lemma FullGridHasNoFreeCell()
    ensures |AllCells()| == GridSize * GridSize
    ensures forall c :: !IsFree(c, AllCells())
  {
    forall c | InGrid(c)
      ensures c in AllCells()
    {
      var k := c.x * GridSize + c.y;
      assert k / GridSize == c.x && k % GridSize == c.y;
      assert AllCells()[k] == c;
    }
  }
}
