/**
 * The character grid of the flipboard: the lines laid out row by row on a
 * board of `width` columns and `height` rows, padded with spaces and with
 * over-long lines cut at the right edge.
 */
module Grid {

  /** The character the board shows at row `y`, column `x` for `lines`: the
      line's own character when there is one, a space otherwise. */
  function CellChar(lines: seq<string>, y: nat, x: nat): char {
    if y < |lines| && x < |lines[y]| then lines[y][x] else ' '
  }

  /** `grid` is the board of `lines`: exactly `height` rows of exactly
      `width` cells, each cell holding `CellChar`. */
  predicate IsGridOf(grid: seq<seq<char>>, lines: seq<string>, width: nat, height: nat) {
    && |grid| == height
    && (forall y :: 0 <= y < height ==> |grid[y]| == width)
    && (forall y, x :: 0 <= y < height && 0 <= x < width ==> grid[y][x] == CellChar(lines, y, x))
  }

  function Spaces(n: nat): (s: string)
    ensures |s| == n && forall k :: 0 <= k < n ==> s[k] == ' '
  {
    if n == 0 then [] else Spaces(n - 1) + [' ']
  }

  /** A line as one row of a board `width` wide: cut when too long, padded
      with spaces when too short. */
  function FitRow(line: string, width: nat): (row: string)
    ensures |row| == width
  {
    if |line| >= width then line[..width] else line + Spaces(width - |line|)
  }

  /** The nested loops of the layout pass: each row starts as `width`
      spaces and the line's characters are copied over the first
      `min(|line|, width)` of them. */
  method BuildGrid(lines: seq<string>, width: nat, height: nat) returns (grid: seq<seq<char>>)
    ensures IsGridOf(grid, lines, width, height)
  {
    grid := [];
    var y := 0;
    while y < height
      invariant 0 <= y <= height
      invariant |grid| == y
      invariant forall r :: 0 <= r < y ==> |grid[r]| == width
      invariant forall r, x :: 0 <= r < y && 0 <= x < width ==> grid[r][x] == CellChar(lines, r, x)
    {
      var row := new char[width](_ => ' ');
      if y < |lines| {
        var line := lines[y];
        var limit := if |line| <= width then |line| else width;
        var x := 0;
        while x < limit
          invariant 0 <= x <= limit
          invariant forall k :: 0 <= k < x ==> row[k] == line[k]
          invariant forall k :: x <= k < width ==> row[k] == ' '
          modifies row
        {
          row[x] := line[x];
          x := x + 1;
        }
      }
      assert forall x :: 0 <= x < width ==> row[x] == CellChar(lines, y, x);
      grid := grid + [row[..]];
      y := y + 1;
    }
  }

  /** The board of given lines and dimensions is unique: laying out the
      same lines twice gives the same grid. */
  lemma GridUnique(g1: seq<seq<char>>, g2: seq<seq<char>>, lines: seq<string>, width: nat, height: nat)
    requires IsGridOf(g1, lines, width, height) && IsGridOf(g2, lines, width, height)
    ensures g1 == g2
  {
    forall y | 0 <= y < height
      ensures g1[y] == g2[y]
    {
      assert forall x :: 0 <= x < width ==> g1[y][x] == g2[y][x];
    }
  }

  /** Row `y` of the board is line `y` cut or padded to the width, and a
      row below the last line is all spaces. */
  lemma GridRows(grid: seq<seq<char>>, lines: seq<string>, width: nat, height: nat)
    requires IsGridOf(grid, lines, width, height)
    ensures forall y :: 0 <= y < height ==> grid[y] == FitRow(if y < |lines| then lines[y] else "", width)
  {
    forall y | 0 <= y < height
      ensures grid[y] == FitRow(if y < |lines| then lines[y] else "", width)
    {
      var line := if y < |lines| then lines[y] else "";
      var row := FitRow(line, width);
      forall x | 0 <= x < width
        ensures grid[y][x] == row[x]
      {
        assert grid[y][x] == CellChar(lines, y, x);
        if x < |line| {
          assert row[x] == line[x];
        } else {
          assert row == line + Spaces(width - |line|);
          assert row[x] == Spaces(width - |line|)[x - |line|];
        }
      }
    }
  }

  /** A line no wider than the board, on a row the board has, is shown in
      full at the left of its row, followed by spaces only. */
  lemma LineShownInFull(grid: seq<seq<char>>, lines: seq<string>, width: nat, height: nat, y: nat)
    requires IsGridOf(grid, lines, width, height)
    requires y < |lines| && y < height && |lines[y]| <= width
    ensures grid[y][..|lines[y]|] == lines[y]
    ensures forall x :: |lines[y]| <= x < width ==> grid[y][x] == ' '
  {
    assert forall x :: 0 <= x < |lines[y]| ==> grid[y][..|lines[y]|][x] == CellChar(lines, y, x);
  }

  /** The previous character of a tile, `prev?.[y]?.[x] || " "`: the old
      cell when the old grid has one, a space otherwise. */
  function PrevCell(prev: seq<seq<char>>, y: nat, x: nat): char {
    if y < |prev| && x < |prev[y]| then prev[y][x] else ' '
  }

  /** Looking up a tile of the previous board built for `lines` gives that
      board's character, or a space outside the previous dimensions (on the
      first layout the previous board is the empty one, of height 0). */
  lemma PrevCellOfGrid(prev: seq<seq<char>>, lines: seq<string>, width: nat, height: nat, y: nat, x: nat)
    requires IsGridOf(prev, lines, width, height)
    ensures PrevCell(prev, y, x) == if y < height && x < width then CellChar(lines, y, x) else ' '
  {
  }
}
