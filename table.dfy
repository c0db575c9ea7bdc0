/**
 * `generate_table`: a text table whose columns are as wide as their widest cell or header,
 * framed by `+---+` borders, with cells left-aligned after `"| "` and separated by `" | "`.
 * The columns are those of `zip(*data)` zipped with the headers: as many as the shortest row
 * and the header list allow, and none at all when there are no rows.
 */
module Table {

  function Max(a: nat, b: nat): nat
  {
    if a >= b then a else b
  }

  /** Length of the shortest row: where `zip(*data)` stops. */
  function MinRowLength(data: seq<seq<string>>): (n: nat)
    requires |data| > 0
    ensures forall r :: 0 <= r < |data| ==> n <= |data[r]|
    ensures exists r :: 0 <= r < |data| && n == |data[r]|
  {
    if |data| == 1 then |data[0]|
    else
      var m := MinRowLength(data[1..]);
      assert forall r :: 1 <= r < |data| ==> data[r] == data[1..][r - 1];
      if |data[0]| <= m then |data[0]| else m
  }

  /** The number of columns the table gets. */
  function ColumnCount(data: seq<seq<string>>, headers: seq<string>): (n: nat)
    ensures data == [] ==> n == 0
    ensures n <= |headers|
    ensures forall r :: 0 <= r < |data| ==> n <= |data[r]|
    ensures data != [] ==> n == |headers| || exists r :: 0 <= r < |data| && n == |data[r]|
  {
    if data == [] then 0
    else
      var m := MinRowLength(data);
      if m <= |headers| then m else |headers|
  }

  /** The longest cell of column `c`: `max(len(str(item)) for item in col)`. */
  function CellWidth(data: seq<seq<string>>, c: nat): (w: nat)
    requires |data| > 0
    requires forall r :: 0 <= r < |data| ==> c < |data[r]|
    ensures forall r :: 0 <= r < |data| ==> |data[r][c]| <= w
    ensures exists r :: 0 <= r < |data| && w == |data[r][c]|
  {
    if |data| == 1 then |data[0][c]|
    else
      var m := CellWidth(data[1..], c);
      assert forall r :: 1 <= r < |data| ==> data[r] == data[1..][r - 1];
      Max(|data[0][c]|, m)
  }

  /** The column widths: the longest cell of each column, or its header when that is longer. */
  function Widths(data: seq<seq<string>>, headers: seq<string>): (ws: seq<nat>)
    ensures |ws| == ColumnCount(data, headers)
    ensures forall c :: 0 <= c < |ws| ==> |headers[c]| <= ws[c]
    ensures forall c, r :: 0 <= c < |ws| && 0 <= r < |data| ==> |data[r][c]| <= ws[c]
    ensures forall c :: 0 <= c < |ws| ==>
              ws[c] == |headers[c]| || exists r :: 0 <= r < |data| && ws[c] == |data[r][c]|
  {
    var n := ColumnCount(data, headers);
    seq(n, c requires 0 <= c < n => Max(CellWidth(data, c), |headers[c]|))
  }

  function Repeat(ch: char, n: nat): (s: string)
    ensures |s| == n
    ensures forall i :: 0 <= i < n ==> s[i] == ch
  {
    if n == 0 then [] else Repeat(ch, n - 1) + [ch]
  }

  /** `"{:<w}".format(s)`: the text, then spaces up to width `w`; never cut. */
  function PadRight(s: string, w: nat): (p: string)
    ensures |p| == Max(|s|, w)
    ensures p[..|s|] == s
    ensures forall i :: |s| <= i < |p| ==> p[i] == ' '
  {
    if |s| >= w then s else s + Repeat(' ', w - |s|)
  }

  /**
   * `" | ".join` of the padded cells, one per width. Padding never cuts a cell, so the result
   * is at least the widths plus the separators long.
   */
  function JoinCells(cells: seq<string>, widths: seq<nat>): (j: string)
    requires |widths| <= |cells|
    ensures |widths| >= 1 ==> |j| >= Sum(widths) + 3 * (|widths| - 1)
  {
    if widths == [] then ""
    else if |widths| == 1 then PadRight(cells[0], widths[0])
    else PadRight(cells[0], widths[0]) + " | " + JoinCells(cells[1..], widths[1..])
  }

  /**
   * One row line: `"| " + row_format.format(*cells) + " |\n"`, never narrower than the
   * table's lines.
   */
  function RowLine(cells: seq<string>, widths: seq<nat>): (l: string)
    requires |widths| <= |cells|
    ensures |l| >= LineWidth(widths) + 1
  {
    "| " + JoinCells(cells, widths) + " |\n"
  }

  /** `"+".join("-" * (w + 2) for w in widths)`: dashes and `+` only, of the table's inner width. */
  function Dashes(widths: seq<nat>): (d: string)
    ensures |widths| >= 1 ==> |d| == Sum(widths) + 3 * |widths| - 1
  {
    if widths == [] then ""
    else if |widths| == 1 then Repeat('-', widths[0] + 2)
    else Repeat('-', widths[0] + 2) + "+" + Dashes(widths[1..])
  }

  /** A border line: `+`, the dashes, `+` and a newline, as wide as every other line. */
  function Border(widths: seq<nat>): (b: string)
    ensures |widths| >= 1 ==> LineOfWidth(b, LineWidth(widths))
  {
    "+" + Dashes(widths) + "+\n"
  }

  /** The lines of a table with the given widths: border, header row, border, one row per entry, border. */
  function Lines(ws: seq<nat>, headers: seq<string>, data: seq<seq<string>>): seq<string>
    requires |ws| <= |headers|
    requires forall r :: 0 <= r < |data| ==> |ws| <= |data[r]|
  {
    [Border(ws), RowLine(headers, ws), Border(ws)]
    + seq(|data|, i requires 0 <= i < |data| => RowLine(data[i], ws))
    + [Border(ws)]
  }

  /** The lines `generate_table` writes, with the widths it computes. */
  function TableLines(data: seq<seq<string>>, headers: seq<string>): seq<string>
  {
    Lines(Widths(data, headers), headers, data)
  }

  /** The lines joined, the last one appended last. */
  function Concat(lines: seq<string>): string
  {
    if lines == [] then "" else Concat(lines[..|lines| - 1]) + lines[|lines| - 1]
  }

  lemma ConcatStep(lines: seq<string>, k: nat)
    requires k < |lines|
    ensures Concat(lines[..k + 1]) == Concat(lines[..k]) + lines[k]
  {
    assert lines[..k + 1][..k] == lines[..k];
  }

  lemma TableHead(ws: seq<nat>, headers: seq<string>, data: seq<seq<string>>)
    requires |ws| <= |headers|
    requires forall r :: 0 <= r < |data| ==> |ws| <= |data[r]|
    ensures Concat(Lines(ws, headers, data)[..3]) == Border(ws) + RowLine(headers, ws) + Border(ws)
  {
    var lines := Lines(ws, headers, data);
    ConcatFirstThree(lines);
    FrameLines(ws, headers, data);
  }

  lemma ConcatFirstThree(lines: seq<string>)
    requires |lines| >= 3
    ensures Concat(lines[..3]) == lines[0] + lines[1] + lines[2]
  {
    assert lines[..0] == [];
    ConcatStep(lines, 0);
    ConcatStep(lines, 1);
    ConcatStep(lines, 2);
  }

  lemma LineOfRow(ws: seq<nat>, headers: seq<string>, data: seq<seq<string>>, i: nat)
    requires |ws| <= |headers|
    requires forall r :: 0 <= r < |data| ==> |ws| <= |data[r]|
    requires i < |data|
    ensures i + 3 < |Lines(ws, headers, data)|
    ensures Lines(ws, headers, data)[i + 3] == RowLine(data[i], ws)
  {
  }

  lemma TableRow(ws: seq<nat>, headers: seq<string>, data: seq<seq<string>>, i: nat)
    requires |ws| <= |headers|
    requires forall r :: 0 <= r < |data| ==> |ws| <= |data[r]|
    requires i < |data|
    ensures Concat(Lines(ws, headers, data)[..i + 4]) == Concat(Lines(ws, headers, data)[..i + 3]) + RowLine(data[i], ws)
  {
    LineOfRow(ws, headers, data, i);
    ConcatStep(Lines(ws, headers, data), i + 3);
  }

  lemma TableFoot(ws: seq<nat>, headers: seq<string>, data: seq<seq<string>>)
    requires |ws| <= |headers|
    requires forall r :: 0 <= r < |data| ==> |ws| <= |data[r]|
    ensures Concat(Lines(ws, headers, data)) == Concat(Lines(ws, headers, data)[..|data| + 3]) + Border(ws)
  {
    var lines := Lines(ws, headers, data);
    ConcatStep(lines, |data| + 3);
    assert lines[..|data| + 4] == lines;
  }

  /** `generate_table(data, headers)`, building the text with `table +=` line by line. */
  method GenerateTable(data: seq<seq<string>>, headers: seq<string>) returns (table: string)
    ensures table == Concat(TableLines(data, headers))
  {
    var ws := Widths(data, headers);
    var border := Border(ws);
    table := border;
    table := table + RowLine(headers, ws);
    table := table + border;
    TableHead(ws, headers, data);
    var i := 0;
    while i < |data|
      invariant 0 <= i <= |data|
      invariant table == Concat(Lines(ws, headers, data)[..i + 3])
    {
      TableRow(ws, headers, data, i);
      table := table + RowLine(data[i], ws);
      i := i + 1;
    }
    table := table + border;
    TableFoot(ws, headers, data);
  }

  function Sum(ws: seq<nat>): nat
  {
    if ws == [] then 0 else ws[0] + Sum(ws[1..])
  }

  /** The printed width of every line of a table with these column widths, newline excluded. */
  function LineWidth(ws: seq<nat>): nat
  {
    Sum(ws) + 3 * |ws| + 1
  }

  predicate CellsFit(cells: seq<string>, widths: seq<nat>)
  {
    |widths| <= |cells| && forall c :: 0 <= c < |widths| ==> |cells[c]| <= widths[c]
  }

  lemma {:induction false} JoinCellsLength(cells: seq<string>, widths: seq<nat>)
    requires CellsFit(cells, widths) && |widths| >= 1
    ensures |JoinCells(cells, widths)| == Sum(widths) + 3 * (|widths| - 1)
  {
    if |widths| > 1 {
      CellsFitTail(cells, widths);
      JoinCellsLength(cells[1..], widths[1..]);
    }
  }

  /** A printed line of the given width, newline excluded, that ends in a newline. */
  predicate LineOfWidth(l: string, w: nat)
  {
    |l| == w + 1 && l[w] == '\n'
  }

  lemma RowWidth(cells: seq<string>, ws: seq<nat>)
    requires CellsFit(cells, ws) && |ws| >= 1
    ensures LineOfWidth(RowLine(cells, ws), LineWidth(ws))
  {
    JoinCellsLength(cells, ws);
  }

  lemma FrameLines(ws: seq<nat>, headers: seq<string>, data: seq<seq<string>>)
    requires |ws| <= |headers|
    requires forall r :: 0 <= r < |data| ==> |ws| <= |data[r]|
    ensures var lines := Lines(ws, headers, data);
            |lines| == |data| + 4 && lines[0] == lines[2] == lines[|data| + 3] == Border(ws) &&
            lines[1] == RowLine(headers, ws)
  {
  }

  lemma RowLineWidthAt(ws: seq<nat>, headers: seq<string>, data: seq<seq<string>>, k: nat)
    requires |ws| >= 1 && |ws| <= |headers|
    requires forall r :: 0 <= r < |data| ==> |ws| <= |data[r]|
    requires k < |data| && CellsFit(data[k], ws)
    ensures k + 3 < |Lines(ws, headers, data)| && LineOfWidth(Lines(ws, headers, data)[k + 3], LineWidth(ws))
  {
    LineOfRow(ws, headers, data, k);
    RowWidth(data[k], ws);
  }

  lemma FrameLineWidths(ws: seq<nat>, headers: seq<string>, data: seq<seq<string>>)
    requires |ws| >= 1 && CellsFit(headers, ws)
    requires forall r :: 0 <= r < |data| ==> |ws| <= |data[r]|
    ensures var lines := Lines(ws, headers, data);
            |lines| == |data| + 4 &&
            LineOfWidth(lines[0], LineWidth(ws)) && LineOfWidth(lines[1], LineWidth(ws)) &&
            LineOfWidth(lines[2], LineWidth(ws)) && LineOfWidth(lines[|data| + 3], LineWidth(ws))
  {
    FrameLines(ws, headers, data);
    RowWidth(headers, ws);
  }

  /**
   * With at least one column, every line of the table (borders, header row and data rows)
   * has the same width, the column widths plus three characters per column plus one,
   * and ends in a newline.
   */
  lemma AllLinesSameWidth(data: seq<seq<string>>, headers: seq<string>)
    requires ColumnCount(data, headers) >= 1
    ensures var lines := TableLines(data, headers);
            forall i :: 0 <= i < |lines| ==> LineOfWidth(lines[i], LineWidth(Widths(data, headers)))
  {
    var ws := Widths(data, headers);
    assert forall r :: 0 <= r < |data| ==> CellsFit(data[r], ws);
    LinesOfWidth(ws, headers, data);
  }

  /** Every line built from widths that fit all the cells is `LineWidth(ws)` characters long. */
  lemma LinesOfWidth(ws: seq<nat>, headers: seq<string>, data: seq<seq<string>>)
    requires |ws| >= 1 && CellsFit(headers, ws)
    requires forall r :: 0 <= r < |data| ==> CellsFit(data[r], ws)
    ensures forall r :: 0 <= r < |data| ==> |ws| <= |data[r]|
    ensures var lines := Lines(ws, headers, data);
            forall i :: 0 <= i < |lines| ==> LineOfWidth(lines[i], LineWidth(ws))
  {
    assert forall r :: 0 <= r < |data| ==> |ws| <= |data[r]|;
    var lines := Lines(ws, headers, data);
    FrameLineWidths(ws, headers, data);
    forall i | 3 <= i < |data| + 3 ensures LineOfWidth(lines[i], LineWidth(ws)) {
      RowLineWidthAt(ws, headers, data, i - 3);
    }
    FramedLinesOfWidth(lines, |data|, LineWidth(ws));
  }

  /** Four frame lines and `n` row lines, all of width `w`: every line has width `w`. */
  lemma FramedLinesOfWidth(lines: seq<string>, n: nat, w: nat)
    requires |lines| == n + 4
    requires LineOfWidth(lines[0], w) && LineOfWidth(lines[1], w) && LineOfWidth(lines[2], w)
    requires LineOfWidth(lines[n + 3], w)
    requires forall i :: 3 <= i < n + 3 ==> LineOfWidth(lines[i], w)
    ensures forall i :: 0 <= i < |lines| ==> LineOfWidth(lines[i], w)
  {
    forall i | 0 <= i < |lines| ensures LineOfWidth(lines[i], w) {
      assert i < 3 || i < n + 3 || i == n + 3;
    }
  }

  /** Where column `c`'s text starts inside the joined cells. */
  function ColumnStart(widths: seq<nat>, c: nat): nat
    requires c < |widths|
  {
    if c == 0 then 0 else widths[0] + 3 + ColumnStart(widths[1..], c - 1)
  }

  /**
   * Cells are left-aligned: in a row line, column `c`'s text appears in full at the column's
   * start (after the `"| "` and the earlier columns with their `" | "` separators).
   */
  lemma {:induction false} CellLeftAligned(cells: seq<string>, widths: seq<nat>, c: nat)
    requires CellsFit(cells, widths) && c < |widths|
    ensures var start := 2 + ColumnStart(widths, c);
            start + |cells[c]| <= |RowLine(cells, widths)| &&
            RowLine(cells, widths)[start..start + |cells[c]|] == cells[c]
  {
    JoinInner(cells, widths, c);
    var start := ColumnStart(widths, c);
    SliceInMiddle("| ", JoinCells(cells, widths), " |\n", start, start + |cells[c]|);
  }

  lemma {:induction false} JoinInner(cells: seq<string>, widths: seq<nat>, c: nat)
    requires CellsFit(cells, widths) && c < |widths|
    ensures ColumnStart(widths, c) + |cells[c]| <= |JoinCells(cells, widths)|
    ensures JoinCells(cells, widths)[ColumnStart(widths, c)..ColumnStart(widths, c) + |cells[c]|] == cells[c]
    decreases c, 1
  {
    var j := JoinCells(cells, widths);
    var start := ColumnStart(widths, c);
    var p := PadRight(cells[0], widths[0]);
    assert |p| == widths[0] && p[..|cells[0]|] == cells[0];
    if |widths| == 1 {
      assert j == p && start == 0;
      assert j[start..start + |cells[c]|] == p[..|cells[0]|];
    } else if c == 0 {
      var rest := JoinCells(cells[1..], widths[1..]);
      assert j == p + (" | " + rest) && start == 0;
      PrefixOfAppend(p, " | " + rest, |cells[0]|);
      assert j[start..start + |cells[c]|] == p[..|cells[0]|];
    } else {
      JoinInnerLater(cells, widths, c);
    }
  }

  lemma {:induction false} JoinInnerLater(cells: seq<string>, widths: seq<nat>, c: nat)
    requires CellsFit(cells, widths) && 0 < c < |widths|
    ensures ColumnStart(widths, c) + |cells[c]| <= |JoinCells(cells, widths)|
    ensures JoinCells(cells, widths)[ColumnStart(widths, c)..ColumnStart(widths, c) + |cells[c]|] == cells[c]
    decreases c, 0
  {
    var p := PadRight(cells[0], widths[0]);
    var rest := JoinCells(cells[1..], widths[1..]);
    var j := JoinCells(cells, widths);
    var q := p + " | ";
    assert j == q + rest;
    assert |q| == widths[0] + 3;
    CellsFitTail(cells, widths);
    JoinInner(cells[1..], widths[1..], c - 1);
    var st := ColumnStart(widths[1..], c - 1);
    assert cells[1..][c - 1] == cells[c];
    assert ColumnStart(widths, c) == |q| + st;
    SliceAfter(q, rest, st, st + |cells[c]|);
    assert j[|q| + st..|q| + st + |cells[c]|] == cells[c];
  }

  lemma CellsFitTail(cells: seq<string>, widths: seq<nat>)
    requires CellsFit(cells, widths) && |widths| >= 1
    ensures CellsFit(cells[1..], widths[1..])
  {
    forall k | 0 <= k < |widths| - 1 ensures |cells[1..][k]| <= widths[1..][k] {
      assert cells[1..][k] == cells[k + 1] && widths[1..][k] == widths[k + 1];
    }
  }

  lemma SliceInMiddle(a: string, b: string, c: string, i: nat, j: nat)
    requires i <= j <= |b|
    ensures |a| + j <= |a + b + c| && (a + b + c)[|a| + i..|a| + j] == b[i..j]
  {
    assert a + b + c == a + (b + c);
    SliceAfter(a, b + c, i, j);
    assert (b + c)[i..j] == b[i..j];
  }

  lemma PrefixOfAppend(a: string, b: string, k: nat)
    requires k <= |a|
    ensures (a + b)[..k] == a[..k]
  {
  }

  lemma SliceAfter(a: string, b: string, i: nat, j: nat)
    requires i <= j <= |b|
    ensures (a + b)[|a| + i..|a| + j] == b[i..j]
  {
  }

  /**
   * Without rows there are no columns, so the headers are dropped and the four lines are
   * not of one width: `"++"` borders around an empty `"|  |"` header row.
   */
  lemma NoRowsNoColumns(headers: seq<string>)
    ensures TableLines([], headers) == ["++\n", "|  |\n", "++\n", "++\n"]
  {
    var ws := Widths([], headers);
    assert ws == [];
    assert TableLines([], headers) == [Border(ws), RowLine(headers, ws), Border(ws), Border(ws)];
    assert Border(ws) == "++\n";
    assert RowLine(headers, ws) == "|  |\n";
  }
}
