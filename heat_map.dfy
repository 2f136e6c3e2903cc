/**
  The packet-reception heat map (src/components/HeatMap/index.tsx): one cell
  per expected sequence number, marked when that number was received, laid
  out on a near-square grid, and drawn only for at most 300 cells.
 */
module HeatMap {
  import opened SequenceHelper
  import Wrappers

  /** The largest number of cells drawn as a grid. */
  const RENDER_LIMIT: nat := 300

  datatype Cell = Cell(sequence: int, received: bool)

  /** Cells numbered 0 .. totalCells - 1, each marked exactly when its number occurs in `received`. */
  predicate MarkedCells(cells: seq<Cell>, totalCells: nat, received: seq<int>)
  {
    |cells| == totalCells && forall i :: 0 <= i < totalCells ==> cells[i] == Cell(i, i in received)
  }

  /**
    The `cells` memo: all cells start unreceived, then each received number
    in range marks its cell; numbers out of range are skipped and repeats
    mark a cell that is already marked.
   */
  method BuildCells(received: seq<int>, totalCells: nat) returns (cells: seq<Cell>)
    ensures MarkedCells(cells, totalCells, received)
  {
    var allCells := new Cell[totalCells];
    for i := 0 to totalCells
      invariant forall j :: 0 <= j < i ==> allCells[j] == Cell(j, false)
    {
      allCells[i] := Cell(i, false);
    }
    for k := 0 to |received|
      invariant forall j :: 0 <= j < totalCells ==> allCells[j] == Cell(j, j in received[..k])
    {
      var sequence := received[k];
      assert received[..k + 1] == received[..k] + [sequence];
      if 0 <= sequence < totalCells {
        allCells[sequence] := allCells[sequence].(received := true);
      }
    }
    assert received[..|received|] == received;
    cells := allCells[..];
  }

  /** The numbers of the cells drawn as not received, in cell order. */
  function Unreceived(cells: seq<Cell>): seq<int>
    decreases |cells|
  {
    if cells == [] then []
    else
      var last := cells[|cells| - 1];
      Unreceived(cells[..|cells| - 1]) + (if last.received then [] else [last.sequence])
  }

  /** The grey cells are exactly the sequence numbers the statistics panel lists as missing, in the same order. */
  lemma {:induction false} UnreceivedAreMissing(cells: seq<Cell>, totalCells: nat, received: seq<int>)
    requires MarkedCells(cells, totalCells, received)
    ensures Unreceived(cells) == FindMissingSequenceNumber(totalCells, received)
    decreases totalCells
  {
    if totalCells > 0 {
      var init := cells[..totalCells - 1];
      assert MarkedCells(init, totalCells - 1, received) by {
        forall i | 0 <= i < totalCells - 1 ensures init[i] == Cell(i, i in received) {
          assert init[i] == cells[i];
        }
      }
      UnreceivedAreMissing(init, totalCells - 1, received);
      assert cells[totalCells - 1] == Cell(totalCells - 1, totalCells - 1 in received);
    }
  }

  // ---------------------------------------------------------------------------
  // Grid dimensions
  // ---------------------------------------------------------------------------

  /** The search behind `Math.ceil(Math.sqrt(n))`, upward from a candidate whose predecessor is too small. */
  function CeilSqrtFrom(n: nat, c: nat): (r: nat)
    requires c == 0 || (c - 1) * (c - 1) < n
    ensures r * r >= n && (r == 0 || (r - 1) * (r - 1) < n)
    decreases n - c
  {
    if c * c >= n then c
    else
      assert c < n by {
        if c > 0 {
          assert c <= c * c;
        }
      }
      CeilSqrtFrom(n, c + 1)
  }

  /** `cols = Math.ceil(Math.sqrt(totalCells))`. */
  function Cols(totalCells: nat): nat
  {
    CeilSqrtFrom(totalCells, 0)
  }

  lemma SquaresOrdered(a: nat, b: nat)
    requires a * a < b * b
    ensures a < b
  {
    assert (b - a) * (b + a) == b * b - a * a;
  }

  lemma QuotientBelow(q: nat, d: nat, k: nat)
    requires d > 0 && q < k * d
    ensures q / d < k
  {
    assert (q / d) * d <= q;
    assert (q / d) * d < k * d;
  }

  /** The column count is the least c with c * c >= totalCells. */
  lemma ColsIsLeast(totalCells: nat, c: nat)
    ensures Cols(totalCells) * Cols(totalCells) >= totalCells
    ensures c * c >= totalCells ==> Cols(totalCells) <= c
  {
    var r := Cols(totalCells);
    if c * c >= totalCells && r > 0 {
      assert (r - 1) * (r - 1) < c * c;
      SquaresOrdered(r - 1, c);
    }
  }

  /** `rows = Math.ceil(totalCells / cols)`; with no cells this is 0 / 0, which is not a number. */
  function Rows(totalCells: nat): Wrappers.Option<nat>
  {
    if totalCells == 0 then Wrappers.None
    else
      var cols := Cols(totalCells);
      Wrappers.Some((totalCells + cols - 1) / cols)
  }

  /** With at least one cell the grid holds every cell, needs its last row, and is no taller than it is wide. */
  lemma GridFits(totalCells: nat)
    requires totalCells > 0
    ensures Rows(totalCells).Some?
    ensures var rows, cols := Rows(totalCells).value, Cols(totalCells);
      && rows * cols >= totalCells
      && (rows - 1) * cols < totalCells
      && rows <= cols
  {
    var cols := Cols(totalCells);
    var q := totalCells + cols - 1;
    var rows := q / cols;
    assert q == rows * cols + q % cols;
    assert q < (cols + 1) * cols;
    QuotientBelow(q, cols, cols + 1);
  }

  datatype View = Grid(cells: seq<Cell>, cols: nat, rows: Wrappers.Option<nat>) | TooLarge(totalReceived: nat)

  /**
    The component: a grid of marked cells for at most 300 cells, otherwise
    only the count of received numbers, repeats and out-of-range values included.
   */
  method Render(received: seq<int>, totalCells: nat) returns (view: View)
    ensures totalCells <= RENDER_LIMIT ==>
      view.Grid? && MarkedCells(view.cells, totalCells, received)
      && view.cols == Cols(totalCells) && view.rows == Rows(totalCells)
    ensures totalCells > RENDER_LIMIT ==> view == TooLarge(|received|)
  {
    var cells := BuildCells(received, totalCells);
    if totalCells <= RENDER_LIMIT {
      view := Grid(cells, Cols(totalCells), Rows(totalCells));
    } else {
      view := TooLarge(|received|);
    }
  }
}
