/**
 * The flipboard component's state: the grid on show and the grid shown
 * before it. Each layout pass lays the text out afresh and keeps the old
 * grid as the previous one, so that every tile can compare its new
 * character with its old one.
 */
module Display {
  import opened Text
  import Wrap
  import opened Grid
  import Tile

  /** The lines a layout pass puts on the board: the wrapped text, or with
      wrapping off the text's own lines. */
  function Layout(text: string, boardWidth: nat, enableTextWrapping: bool): (lines: seq<string>)
    requires enableTextWrapping ==> boardWidth >= 1
    ensures enableTextWrapping ==> |lines| <= Wrap.MaxLines && Wrap.LinesFit(lines, boardWidth)
    ensures !enableTextWrapping ==> |lines| >= 1 && Join(lines, '\n') == text
    ensures !enableTextWrapping ==> forall k :: 0 <= k < |lines| ==> '\n' !in lines[k]
  {
    if enableTextWrapping then
      Wrap.WrapFits(text, boardWidth);
      Wrap.Wrap(text, boardWidth)
    else
      Split(text, '\n')
  }

  class FlipboardDisplay {
    var characterGrid: seq<seq<char>>
    var prevCharacterGrid: seq<seq<char>>

    /** Both grids start empty. */
    constructor()
      ensures characterGrid == [] && prevCharacterGrid == []
    {
      characterGrid := [];
      prevCharacterGrid := [];
    }

    /** The layout pass: the grid on show becomes the previous grid, and the
        new grid is the board of the laid-out text. */
    method Update(text: string, boardWidth: nat, boardHeight: nat, enableTextWrapping: bool)
      requires enableTextWrapping ==> boardWidth >= 1
      modifies this
      ensures prevCharacterGrid == old(characterGrid)
      ensures IsGridOf(characterGrid, Layout(text, boardWidth, enableTextWrapping), boardWidth, boardHeight)
    {
      prevCharacterGrid := characterGrid;
      var lines: seq<string>;
      if enableTextWrapping {
        lines := Wrap.WrapText(text, boardWidth);
      } else {
        lines := Split(text, '\n');
      }
      var grid := BuildGrid(lines, boardWidth, boardHeight);
      characterGrid := grid;
    }

    /** The previous character handed to the tile at row `y`, column `x`. */
    function PrevChar(y: nat, x: nat): char
      reads this
    {
      PrevCell(prevCharacterGrid, y, x)
    }

    /** The plan of the tile at row `y`, column `x` of the grid on show. */
    function TilePlan(y: nat, x: nat, flipDuration: real, delay: real, r1: real, r2: real): Tile.TilePlan
      reads this
      requires y < |characterGrid| && x < |characterGrid[y]|
    {
      Tile.Plan([characterGrid[y][x]], [PrevChar(y, x)], flipDuration, delay, r1, r2)
    }
  }

  /** Laying out the same text on the same board twice leaves nothing to
      flip: every tile of the second pass finds its own character as the
      previous one. */
  lemma RepeatedLayoutIsStill(prev: seq<seq<char>>, cur: seq<seq<char>>, lines: seq<string>,
                              width: nat, height: nat, y: nat, x: nat)
    requires IsGridOf(prev, lines, width, height) && IsGridOf(cur, lines, width, height)
    requires y < height && x < width
    ensures !Tile.ShouldAnimate([cur[y][x]], [PrevCell(prev, y, x)])
  {
    GridUnique(prev, cur, lines, width, height);
  }

  /** On the first pass every tile compares against a space, so exactly the
      tiles whose cell is not a space flip. */
  lemma FirstLayoutFlipsInk(cur: seq<seq<char>>, lines: seq<string>, width: nat, height: nat, y: nat, x: nat)
    requires IsGridOf(cur, lines, width, height)
    requires y < height && x < width
    ensures Tile.ShouldAnimate([cur[y][x]], [PrevCell([], y, x)]) <==> cur[y][x] != ' '
  {
    assert [cur[y][x]] == [' '] <==> cur[y][x] == ' ';
  }

  /** With wrapping on, every wrapped line on a row the board has is shown
      there in full, followed by spaces only. */
  lemma WrappedLinesShownInFull(grid: seq<seq<char>>, text: string, width: nat, height: nat, y: nat)
    requires width >= 1
    requires IsGridOf(grid, Layout(text, width, true), width, height)
    requires y < |Wrap.Wrap(text, width)| && y < height
    ensures var line := Wrap.Wrap(text, width)[y];
      && |line| <= width
      && grid[y][..|line|] == line
      && forall x :: |line| <= x < width ==> grid[y][x] == ' '
  {
    var lines := Wrap.Wrap(text, width);
    Wrap.WrapFits(text, width);
    LineShownInFull(grid, lines, width, height, y);
  }
}
