/**
 * The text of one frame, as printBoard of main.go builds it (main.go:98-117):
 * a border line, one line per row and the border again, then an empty line.
 * The screen clear printed before it is not part of the lines.
 */
module Render {
  import opened Grid

  datatype Option<T> = None | Some(value: T)

  /** ANSI colour codes and the live-cell glyph (main.go:19-20, 106), taken as opaque strings. */
  const GreenColorCode: string := "\U{1b}[32m"
  const ResetColorCode: string := "\U{1b}[0m"
  const Glyph: string := "\U{2588}\U{2588}"
  const DeadCell: string := "  "

  /** The text drawn for one cell. */
  function CellText(live: bool): string {
    if live then GreenColorCode + Glyph + ResetColorCode else DeadCell
  }

  /** The texts of the cells of a row, left to right. */
  function CellsText(cells: seq<bool>): string {
    if cells == [] then "" else CellText(cells[0]) + CellsText(cells[1..])
  }

  /** One board row framed by vertical bars. */
  function RowLine(cells: seq<bool>): string {
    "|" + CellsText(cells) + "|"
  }

  /** n copies of character c. */
  function Repeat(c: char, n: nat): (s: string)
    ensures |s| == n && forall k :: 0 <= k < n ==> s[k] == c
  {
    seq(n, _ => c)
  }

  /** The top and bottom border for rows of w cells. */
  function Border(w: nat): string {
    "+" + Repeat('-', 2 * w) + "+"
  }

  /** All lines of one frame; the border width comes from the first row (main.go:98). */
  function Frame(b: Board): seq<string>
    requires |b| > 0
  {
    [Border(|b[0]|)] + seq(|b|, i requires 0 <= i < |b| => RowLine(b[i])) + [Border(|b[0]|), ""]
  }

  /** Number of live cells in a row. */
  function LiveCount(cells: seq<bool>): nat {
    if cells == [] then 0 else (if cells[0] then 1 else 0) + LiveCount(cells[1..])
  }

  /** Reads cell texts back into cells (the inverse of CellsText). */
  function ParseCells(s: string): Option<seq<bool>>
    decreases |s|
  {
    var live := GreenColorCode + Glyph + ResetColorCode;
    if s == "" then Some([])
    else if |s| >= |DeadCell| && s[..|DeadCell|] == DeadCell then
      match ParseCells(s[|DeadCell|..])
      case Some(rest) => Some([false] + rest)
      case None => None
    else if |s| >= |live| && s[..|live|] == live then
      match ParseCells(s[|live|..])
      case Some(rest) => Some([true] + rest)
      case None => None
    else None
  }

  /** Rendering one row after another is rendering the joined row. */
  lemma {:induction false} CellsTextAppend(c1: seq<bool>, c2: seq<bool>)
    ensures CellsText(c1 + c2) == CellsText(c1) + CellsText(c2)
    decreases |c1|
  {
    if c1 == [] {
      assert c1 + c2 == c2;
    } else {
      assert (c1 + c2)[0] == c1[0];
      assert (c1 + c2)[1..] == c1[1..] + c2;
      CellsTextAppend(c1[1..], c2);
    }
  }

  /** Every cell takes two visible columns; a live one also carries the two colour codes. */
  lemma {:induction false} CellsTextLength(cells: seq<bool>)
    ensures |CellsText(cells)| == 2 * |cells| + (|GreenColorCode| + |ResetColorCode|) * LiveCount(cells)
    decreases |cells|
  {
    if cells != [] {
      CellsTextLength(cells[1..]);
    }
  }

  /** A row without live cells is exactly as wide as the border. */
  lemma {:induction false} DeadRowMatchesBorder(cells: seq<bool>)
    requires forall k :: 0 <= k < |cells| ==> !cells[k]
    ensures CellsText(cells) == Repeat(' ', 2 * |cells|)
    ensures |RowLine(cells)| == |Border(|cells|)|
    decreases |cells|
  {
    if cells != [] {
      DeadRowMatchesBorder(cells[1..]);
    }
  }

  /** The text of a row determines the row. */
  lemma {:induction false} ParseRender(cells: seq<bool>)
    ensures ParseCells(CellsText(cells)) == Some(cells)
    decreases |cells|
  {
    if cells != [] {
      var s, t := CellsText(cells), CellsText(cells[1..]);
      var head := CellText(cells[0]);
      assert s == head + t;
      assert s[..|head|] == head && s[|head|..] == t;
      ParseRender(cells[1..]);
      assert [cells[0]] + cells[1..] == cells;
    }
  }

  /** The shape of a frame: border, one line per row, border, empty line. */
  lemma FrameShape(b: Board)
    requires |b| > 0
    ensures var f := Frame(b);
      && |f| == |b| + 3
      && f[0] == f[|b| + 1] == Border(|b[0]|) && f[|b| + 2] == ""
      && forall i :: 0 <= i < |b| ==> f[i + 1] == RowLine(b[i])
  {
  }

  lemma RowStep(cells: seq<bool>, j: nat)
    requires j < |cells|
    ensures CellsText(cells[..j + 1]) == CellsText(cells[..j]) + CellText(cells[j])
  {
    CellsTextAppend(cells[..j], [cells[j]]);
    assert cells[..j + 1] == cells[..j] + [cells[j]];
    assert CellsText([cells[j]]) == CellText(cells[j]) + CellsText([]);
  }

  /** The row-building loop of printBoard (main.go:103-111). */
  method BuildRow(cells: seq<bool>) returns (row: string)
    ensures row == RowLine(cells)
  {
    row := "|";
    for j := 0 to |cells|
      invariant row == "|" + CellsText(cells[..j])
    {
      if cells[j] {
        row := row + (GreenColorCode + Glyph + ResetColorCode);
      } else {
        row := row + DeadCell;
      }
      RowStep(cells, j);
    }
    row := row + "|";
    assert cells[..|cells|] == cells;
  }

  /** printBoard (main.go:93-118) without the printing: the lines it writes, in order. */
  method FrameLines(b: Board) returns (lines: seq<string>)
    requires |b| > 0
    ensures lines == Frame(b)
  {
    var topBorder := "+" + Repeat('-', |b[0]| * 2) + "+";
    lines := [topBorder];
    for i := 0 to |b|
      invariant lines == [topBorder] + seq(i, r requires 0 <= r < i => RowLine(b[r]))
    {
      var row := BuildRow(b[i]);
      lines := lines + [row];
    }
    lines := lines + [topBorder, ""];
  }
}
