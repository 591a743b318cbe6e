/** The generic table renderer of src/table.rs: a record becomes upper-cased column
    names and stringified cells, and `render_ansi` aligns the cells of many records
    under a header, padding every column to its widest entry plus a fixed spacing.

    A record is the ordered list of its serialized fields; columns and cells are read
    from that one list, so they always come in the same order. */
module Table {
  import opened Wrappers
  import opened Text
  import opened Arith
  import opened Seqs

  /** The kinds of JSON value a serialized field can take. */
  datatype Value =
    | Str(s: string)
    | Bool(b: bool)
    | Int(i: int)
    | Null
    | Float
    | Array
    | Object

  /** A serialized record field: its name and its value. */
  type Field = (string, Value)

  /** A record, as the ordered list of its serialized fields. */
  type Record = seq<Field>

  /** The value kinds `cells` can stringify; any other kind stops the program. */
  predicate Supported(v: Value) {
    v.Str? || v.Bool? || v.Int?
  }

  predicate AllSupported(row: Record) {
    forall k :: 0 <= k < |row| ==> Supported(row[k].1)
  }

  /** Column names of a record: its field names upper-cased, one per field. */
  function Columns(row: Record): (cols: seq<string>)
    ensures |cols| == |row|
    ensures forall k :: 0 <= k < |row| ==> cols[k] == ToUpper(row[k].0)
  {
    if |row| == 0 then [] else [ToUpper(row[0].0)] + Columns(row[1..])
  }

  /** The text of one cell. */
  function CellText(v: Value): (s: string)
    requires Supported(v)
    ensures v.Str? ==> s == v.s
    ensures v.Bool? ==> s == (if v.b then "true" else "false")
    ensures v.Int? ==> ParseInt(s) == Some(v.i)
  {
    match v
    case Str(s) => s
    case Bool(b) => if b then "true" else "false"
    case Int(i) => IntToStringRoundTrip(i); IntToString(i)
  }

  /** Cells of a record: one text per field, in the order of `Columns`. */
  function Cells(row: Record): (cells: seq<string>)
    requires AllSupported(row)
    ensures |cells| == |Columns(row)|
    ensures forall k :: 0 <= k < |row| ==> cells[k] == CellText(row[k].1)
  {
    if |row| == 0 then [] else [CellText(row[0].1)] + Cells(row[1..])
  }

  /** A record whose upper-cased field names are `names` has the columns `names`. */
  lemma ColumnsAre(row: Record, names: seq<string>)
    requires |row| == |names|
    requires forall k :: 0 <= k < |row| ==> ToUpper(row[k].0) == names[k]
    ensures Columns(row) == names
  {
  }

  /** A record of string fields has those strings as its cells. */
  lemma CellsAre(row: Record, texts: seq<string>)
    requires |row| == |texts|
    requires forall k :: 0 <= k < |row| ==> row[k].1 == Str(texts[k])
    ensures AllSupported(row) && Cells(row) == texts
  {
  }

  predicate Renderable(rows: seq<Record>) {
    forall r :: 0 <= r < |rows| ==> AllSupported(rows[r])
  }

  /** The cells of all rows, row after row. */
  function FlatCells(rows: seq<Record>): seq<string>
    requires Renderable(rows)
  {
    if |rows| == 0 then [] else FlatCells(rows[..|rows| - 1]) + Cells(rows[|rows| - 1])
  }

  /** When every row has `n` fields there are `n` cells per row. */
  lemma {:induction false} FlatCellsLength(rows: seq<Record>, n: nat)
    requires Renderable(rows)
    requires forall r :: 0 <= r < |rows| ==> |rows[r]| == n
    ensures |FlatCells(rows)| == |rows| * n
  {
    if |rows| > 0 {
      var init := rows[..|rows| - 1];
      FlatCellsLength(init, n);
      assert FlatCells(rows) == FlatCells(init) + Cells(rows[|rows| - 1]);
      assert |Cells(rows[|rows| - 1])| == n;
      MulSucc(|rows| - 1, n);
    }
  }

  /** The cells of two lists of rows are the cells of the first, then those of the second. */
  lemma {:induction false} FlatCellsAppend(a: seq<Record>, b: seq<Record>)
    requires Renderable(a) && Renderable(b)
    ensures Renderable(a + b)
    ensures FlatCells(a + b) == FlatCells(a) + FlatCells(b)
    decreases |b|
  {
    if |b| == 0 {
      assert a + b == a;
    } else {
      var init, last := b[..|b| - 1], b[|b| - 1];
      assert Renderable(init) by {
        forall r | 0 <= r < |init| ensures AllSupported(init[r]) {
          assert init[r] == b[r];
        }
      }
      FlatCellsAppend(a, init);
      assert (a + b)[..|a + b| - 1] == a + init;
      assert (a + b)[|a + b| - 1] == last;
      ConcatAssoc(FlatCells(a), FlatCells(init), Cells(last));
    }
  }

  /** When every row has `n` fields, cell `c` of row `r` sits at flat index `r * n + c`. */
  lemma FlatCellAt(rows: seq<Record>, n: nat, r: nat, c: nat)
    requires Renderable(rows)
    requires forall r :: 0 <= r < |rows| ==> |rows[r]| == n
    requires r < |rows| && c < n
    ensures r * n + c < |FlatCells(rows)| && FlatCells(rows)[r * n + c] == CellText(rows[r][c].1)
  {
    var before, row, after := rows[..r], rows[r], rows[r + 1..];
    assert rows == before + [row] + after;
    FlatCellsAppend(before, [row]);
    FlatCellsAppend(before + [row], after);
    assert FlatCells([row]) == Cells(row) by {
      assert [row][..0] == [];
    }
    assert |FlatCells(before)| == r * n by {
      FlatCellsLength(before, n);
    }
    IndexMiddle(FlatCells(before), Cells(row), FlatCells(after), c);
  }

  // Column widths

  /** The larger of `header` and the byte lengths of the cells at flat indices below
      `k` that fall into column `c` of `n`. */
  function ColumnMax(header: nat, cells: seq<string>, n: nat, c: nat, k: nat): nat
    requires 0 < n && k <= |cells|
  {
    if k == 0 then header
    else
      var m := ColumnMax(header, cells, n, c, k - 1);
      if (k - 1) % n == c && ByteLen(cells[k - 1]) > m then ByteLen(cells[k - 1]) else m
  }

  /** Width of every column: the longest of its header and its cells, in bytes. */
  function Widths(cols: seq<string>, cells: seq<string>): (w: seq<nat>)
    ensures |w| == |cols|
  {
    seq(|cols|, c requires 0 <= c < |cols| => ColumnMax(ByteLen(cols[c]), cells, |cols|, c, |cells|))
  }

  /** `ColumnMax` is the maximum: no smaller than the header or any cell of the column,
      and equal to one of them. */
  lemma {:induction false} ColumnMaxIsMaximum(header: nat, cells: seq<string>, n: nat, c: nat, k: nat)
    requires 0 < n && k <= |cells|
    ensures header <= ColumnMax(header, cells, n, c, k)
    ensures forall i :: 0 <= i < k && i % n == c ==> ByteLen(cells[i]) <= ColumnMax(header, cells, n, c, k)
    ensures ColumnMax(header, cells, n, c, k) == header ||
      exists i :: 0 <= i < k && i % n == c && ColumnMax(header, cells, n, c, k) == ByteLen(cells[i])
  {
    if k > 0 {
      ColumnMaxIsMaximum(header, cells, n, c, k - 1);
    }
  }

  lemma WidthsAreMaxima(cols: seq<string>, cells: seq<string>, c: nat)
    requires c < |cols|
    ensures ByteLen(cols[c]) <= Widths(cols, cells)[c]
    ensures forall i :: 0 <= i < |cells| && i % |cols| == c ==> ByteLen(cells[i]) <= Widths(cols, cells)[c]
    ensures Widths(cols, cells)[c] == ByteLen(cols[c]) ||
      exists i :: 0 <= i < |cells| && i % |cols| == c && Widths(cols, cells)[c] == ByteLen(cells[i])
  {
    ColumnMaxIsMaximum(ByteLen(cols[c]), cells, |cols|, c, |cells|);
  }

  /** Cells outside column `c` leave the running maximum alone. */
  lemma {:induction false} ColumnMaxSkip(header: nat, cells: seq<string>, n: nat, c: nat, i: nat, j: nat)
    requires 0 < n && i <= j <= |cells|
    requires forall k :: i <= k < j ==> k % n != c
    ensures ColumnMax(header, cells, n, c, j) == ColumnMax(header, cells, n, c, i)
    decreases j - i
  {
    if i < j {
      ColumnMaxSkip(header, cells, n, c, i, j - 1);
    }
  }

  /** No cell before flat index `c` is in column `c`. */
  lemma ColumnMaxStart(header: nat, cells: seq<string>, n: nat, c: nat)
    requires c < n
    ensures ColumnMax(header, cells, n, c, if c < |cells| then c else |cells|) == header
  {
    forall k | 0 <= k < c
      ensures k % n != c
    {
      ModOfSum(0, n, k);
    }
    ColumnMaxSkip(header, cells, n, c, 0, if c < |cells| then c else |cells|);
  }

  /** One step of the inner width loop: from cell `i` of column `c` to cell `i + n`. */
  lemma ColumnMaxStep(header: nat, cells: seq<string>, n: nat, c: nat, i: nat)
    requires 0 < n && i < |cells| && i % n == c
    ensures var j := if i + n < |cells| then i + n else |cells|;
      ColumnMax(header, cells, n, c, j) ==
        (var m := ColumnMax(header, cells, n, c, i); if ByteLen(cells[i]) > m then ByteLen(cells[i]) else m)
  {
    var j := if i + n < |cells| then i + n else |cells|;
    forall k | i + 1 <= k < j
      ensures k % n != c
    {
      ModStep(i, n, k - i);
    }
    ColumnMaxSkip(header, cells, n, c, i + 1, j);
  }

  /** The inner width loop: visits cells `c`, `c + n`, `c + 2n`, ... and raises
      `w[c]` to the longest of them. */
  method RaiseColumn(w: array<nat>, cells: seq<string>, c: nat)
    requires c < w.Length
    modifies w
    ensures w[c] == ColumnMax(old(w[c]), cells, w.Length, c, |cells|)
    ensures forall j :: 0 <= j < w.Length && j != c ==> w[j] == old(w[j])
  {
    var n := w.Length;
    ghost var header := w[c];
    ColumnMaxStart(header, cells, n, c);
    var i := c;
    while i < |cells|
      invariant c <= i && i % n == c
      invariant w[c] == ColumnMax(header, cells, n, c, if i < |cells| then i else |cells|)
      invariant forall j :: 0 <= j < n && j != c ==> w[j] == old(w[j])
      decreases |cells| - i
    {
      ghost var next := if i + n < |cells| then i + n else |cells|;
      var len := ByteLen(cells[i]);
      assert ColumnMax(header, cells, n, c, next) == if len > w[c] then len else w[c] by {
        ColumnMaxStep(header, cells, n, c, i);
      }
      if len > w[c] {
        w[c] := len;
      }
      assert (i + n) % n == c by {
        ModAddPeriod(i, n);
      }
      i := i + n;
    }
  }

  /** The width pass of `render_ansi`: a vector of header lengths, raised column by
      column to the longest cell of that column. */
  method ComputeWidths(cols: seq<string>, cells: seq<string>) returns (widths: seq<nat>)
    ensures widths == Widths(cols, cells)
  {
    var n := |cols|;
    var w := new nat[n];
    for c := 0 to n
      invariant forall j :: 0 <= j < c ==> w[j] == ByteLen(cols[j])
    {
      w[c] := ByteLen(cols[c]);
    }
    for c := 0 to n
      invariant forall j :: 0 <= j < c ==> w[j] == Widths(cols, cells)[j]
      invariant forall j :: c <= j < n ==> w[j] == ByteLen(cols[j])
    {
      RaiseColumn(w, cells, c);
    }
    widths := w[..];
  }

  // Rendering

  /** The column of flat cell index `i` in a table of `n` columns, counted the way the
      cell loop counts: up to `n - 1`, then back to 0. It is `i % n` (`ColumnOfIsMod`). */
  function ColumnOf(i: nat, n: nat): (c: nat)
    requires 0 < n
    ensures c < n
  {
    if i < n then i else ColumnOf(i - n, n)
  }

  /** The number of complete rows among the first `i` flat cells of `n` columns. */
  function RowsBefore(i: nat, n: nat): nat
    requires 0 < n
  {
    if i < n then 0 else 1 + RowsBefore(i - n, n)
  }

  /** One more cell moves one column on, and after the last column back to column 0
      and one more complete row. */
  lemma {:induction false} ColumnOfNext(i: nat, n: nat)
    requires 0 < n
    ensures ColumnOf(i + 1, n) == if ColumnOf(i, n) == n - 1 then 0 else ColumnOf(i, n) + 1
    ensures RowsBefore(i + 1, n) == if ColumnOf(i, n) == n - 1 then RowsBefore(i, n) + 1 else RowsBefore(i, n)
    decreases i
  {
    if i + 1 == n {
      assert ColumnOf(i + 1, n) == ColumnOf(0, n);
      assert RowsBefore(i + 1, n) == 1 + RowsBefore(0, n);
    } else if i >= n {
      ColumnOfNext(i - n, n);
      assert i + 1 - n == (i - n) + 1;
    }
  }

  lemma {:induction false} ColumnOfIsMod(i: nat, n: nat)
    requires 0 < n
    ensures ColumnOf(i, n) == i % n
    decreases i
  {
    if i < n {
      ModOfSum(0, n, i);
    } else {
      ColumnOfIsMod(i - n, n);
      ModAddPeriod(i - n, n);
    }
  }

  /** Cell `c` of complete row `r` is in column `c` and has `r` complete rows before it. */
  lemma {:induction false} ColumnOfRow(r: nat, n: nat, c: nat)
    requires c < n
    ensures ColumnOf(r * n + c, n) == c && RowsBefore(r * n + c, n) == r
    decreases r
  {
    if r > 0 {
      ColumnOfRow(r - 1, n, c);
      assert r * n + c == ((r - 1) * n + c) + n;
    }
  }

  /** Within a row, the `j`-th cell after a row start `k` is in column `j`. */
  lemma {:induction false} ColumnOfOffset(k: nat, n: nat, j: nat)
    requires 0 < n && ColumnOf(k, n) == 0 && j < n
    ensures ColumnOf(k + j, n) == j
  {
    if j > 0 {
      ColumnOfOffset(k, n, j - 1);
      ColumnOfNext(k + j - 1, n);
    }
  }

  /** Blanks after a text of `len` bytes in a column `width` bytes wide:
      `width.saturating_sub(len) + spacing`. */
  function PadCount(width: nat, len: nat, spacing: nat): nat {
    (if width >= len then width - len else 0) + spacing
  }

  /** One printed header name or cell: the content, then its padding. */
  function Segment(content: string, width: nat, spacing: nat): string {
    content + Spaces(PadCount(width, ByteLen(content), spacing))
  }

  /** The segments of the `j` entries of `contents` from index `k` on, the one in
      column `c` padded to `widths[c]`. */
  function Line(contents: seq<string>, widths: seq<nat>, spacing: nat, k: nat, j: nat): string
    requires k + j <= |contents| && j <= |widths|
  {
    if j == 0 then ""
    else Line(contents, widths, spacing, k, j - 1) + Segment(contents[k + j - 1], widths[j - 1], spacing)
  }

  /** The cell part of the output after the first `k` cells: each cell padded to the
      width of its column, and a newline after the last column of each row. */
  function Body(cells: seq<string>, widths: seq<nat>, spacing: nat, k: nat): string
    requires 0 < |widths| && k <= |cells|
  {
    if k == 0 then ""
    else
      var i := k - 1;
      var c := ColumnOf(i, |widths|);
      Body(cells, widths, spacing, i) + Segment(cells[i], widths[c], spacing)
        + (if c == |widths| - 1 then "\n" else "")
  }

  /** A table with header `cols` over the flat `cells`: the header line, the cells,
      and one closing newline. */
  function Layout(cols: seq<string>, cells: seq<string>, spacing: nat): string
    requires |cols| > 0 || |cells| == 0
  {
    var w := Widths(cols, cells);
    Line(cols, w, spacing, 0, |cols|) + "\n" + (if |cols| == 0 then "" else Body(cells, w, spacing, |cells|)) + "\n"
  }

  /** What `render_ansi` can print: each field of a kind `cells` handles, and no cells
      when the first row has no columns (the cell loop would index an empty width
      vector). */
  predicate Printable(rows: seq<Record>) {
    Renderable(rows) && (|rows| > 0 && |rows[0]| == 0 ==> FlatCells(rows) == [])
  }

  /** The text `render_ansi` prints: nothing for no rows, otherwise the layout of the
      first row's columns over the cells of all rows. */
  function RenderText(rows: seq<Record>, spacing: nat): string
    requires Printable(rows)
  {
    if |rows| == 0 then "" else Layout(Columns(rows[0]), FlatCells(rows), spacing)
  }

  /** The header loop of `render_ansi`. */
  method RenderHeader(cols: seq<string>, widths: seq<nat>, spacing: nat) returns (out: string)
    requires |cols| <= |widths|
    ensures out == Line(cols, widths, spacing, 0, |cols|) + "\n"
  {
    out := "";
    for c := 0 to |cols|
      invariant out == Line(cols, widths, spacing, 0, c)
    {
      out := out + Segment(cols[c], widths[c], spacing);
    }
    out := out + "\n";
  }

  /** The cell loop of `render_ansi`: `columnIndex` cycles through the columns and a
      newline follows the last one. */
  method RenderCells(cells: seq<string>, widths: seq<nat>, spacing: nat) returns (out: string)
    requires 0 < |widths|
    ensures out == Body(cells, widths, spacing, |cells|)
  {
    var n := |widths|;
    out := "";
    var columnIndex := 0;
    for i := 0 to |cells|
      invariant 0 <= columnIndex < n && columnIndex == ColumnOf(i, n)
      invariant out == Body(cells, widths, spacing, i)
    {
      ColumnOfNext(i, n);
      out := out + Segment(cells[i], widths[columnIndex], spacing);
      if columnIndex == n - 1 {
        columnIndex := 0;
        out := out + "\n";
      } else {
        columnIndex := columnIndex + 1;
      }
    }
  }

  /** `render_ansi`, returning what it prints. */
  method RenderAnsi(rows: seq<Record>, spacing: nat) returns (out: string)
    requires Printable(rows)
    ensures |rows| == 0 ==> out == ""
    ensures out == RenderText(rows, spacing)
  {
    if |rows| == 0 {
      return "";
    }
    var cols := Columns(rows[0]);
    var cells := FlatCells(rows);
    var widths := ComputeWidths(cols, cells);
    out := RenderHeader(cols, widths, spacing);
    if |cols| > 0 {
      var body := RenderCells(cells, widths, spacing);
      out := out + body;
    }
    out := out + "\n";
  }

  // Layout properties

  /** A segment whose content fits its column is the content followed by exactly
      `width - len + spacing` blanks: `width + spacing` bytes in all, of which at
      least `spacing` trailing blanks. */
  lemma SegmentFits(content: string, width: nat, spacing: nat)
    requires ByteLen(content) <= width
    ensures Segment(content, width, spacing) == content + Spaces(width - ByteLen(content) + spacing)
    ensures ByteLen(Segment(content, width, spacing)) == width + spacing
    ensures forall j :: |content| <= j < |Segment(content, width, spacing)| ==> Segment(content, width, spacing)[j] == ' '
    ensures |Segment(content, width, spacing)| >= |content| + spacing
  {
    ByteLenAppend(content, Spaces(width - ByteLen(content) + spacing));
    SpacesByteLen(width - ByteLen(content) + spacing);
  }

  /** With the computed widths the padding never saturates: every header name and
      every cell fits its column. */
  lemma ContentsFit(cols: seq<string>, cells: seq<string>)
    requires 0 < |cols|
    ensures forall c :: 0 <= c < |cols| ==> ByteLen(cols[c]) <= Widths(cols, cells)[c]
    ensures forall i :: 0 <= i < |cells| ==> ByteLen(cells[i]) <= Widths(cols, cells)[ColumnOf(i, |cols|)]
  {
    forall c | 0 <= c < |cols|
      ensures ByteLen(cols[c]) <= Widths(cols, cells)[c]
    {
      WidthsAreMaxima(cols, cells, c);
    }
    forall i | 0 <= i < |cells|
      ensures ByteLen(cells[i]) <= Widths(cols, cells)[ColumnOf(i, |cols|)]
    {
      ColumnOfIsMod(i, |cols|);
      WidthsAreMaxima(cols, cells, i % |cols|);
    }
  }

  /** Bytes taken by the first `k` columns: each its width plus the spacing. */
  function LineWidth(widths: seq<nat>, spacing: nat, k: nat): nat
    requires k <= |widths|
  {
    if k == 0 then 0 else LineWidth(widths, spacing, k - 1) + widths[k - 1] + spacing
  }

  /** The `j` entries of `contents` from `k` on fit their columns. */
  predicate Fits(contents: seq<string>, widths: seq<nat>, k: nat, j: nat)
    requires k + j <= |contents| && j <= |widths|
  {
    forall c :: 0 <= c < j ==> ByteLen(contents[k + c]) <= widths[c]
  }

  /** A line whose entries fit their columns is exactly as wide as the columns. */
  lemma {:induction false} LineByteLen(contents: seq<string>, widths: seq<nat>, spacing: nat, k: nat, j: nat)
    requires k + j <= |contents| && j <= |widths|
    requires Fits(contents, widths, k, j)
    ensures ByteLen(Line(contents, widths, spacing, k, j)) == LineWidth(widths, spacing, j)
  {
    if j > 0 {
      LineByteLen(contents, widths, spacing, k, j - 1);
      SegmentFits(contents[k + j - 1], widths[j - 1], spacing);
      ByteLenAppend(Line(contents, widths, spacing, k, j - 1), Segment(contents[k + j - 1], widths[j - 1], spacing));
    }
  }

  /** Within a row that starts at flat index `k`, the first `j` cells print as the
      line of those cells. */
  lemma {:induction false} BodyWithinRow(cells: seq<string>, widths: seq<nat>, spacing: nat, k: nat, j: nat)
    requires 0 < |widths| && ColumnOf(k, |widths|) == 0 && j < |widths| && k + j <= |cells|
    ensures Body(cells, widths, spacing, k + j) == Body(cells, widths, spacing, k) + Line(cells, widths, spacing, k, j)
  {
    if j > 0 {
      var n := |widths|;
      BodyWithinRow(cells, widths, spacing, k, j - 1);
      ColumnOfOffset(k, n, j - 1);
      BodyMidRow(cells, widths, spacing, k + j - 1);
      ConcatAssoc(Body(cells, widths, spacing, k), Line(cells, widths, spacing, k, j - 1),
        Segment(cells[k + j - 1], widths[j - 1], spacing));
    }
  }

  /** A cell before the last column adds just its segment. */
  lemma BodyMidRow(cells: seq<string>, widths: seq<nat>, spacing: nat, i: nat)
    requires 0 < |widths| && i < |cells| && ColumnOf(i, |widths|) != |widths| - 1
    ensures Body(cells, widths, spacing, i + 1) ==
      Body(cells, widths, spacing, i) + Segment(cells[i], widths[ColumnOf(i, |widths|)], spacing)
  {
  }

  lemma BodyLastColumn(cells: seq<string>, widths: seq<nat>, spacing: nat, i: nat)
    requires 0 < |widths| && i < |cells| && ColumnOf(i, |widths|) == |widths| - 1
    ensures Body(cells, widths, spacing, i + 1) ==
      Body(cells, widths, spacing, i) + Segment(cells[i], widths[|widths| - 1], spacing) + "\n"
  {
  }

  /** A complete row that starts at flat index `k` prints as the line of its cells and
      a newline. */
  lemma BodyRow(cells: seq<string>, widths: seq<nat>, spacing: nat, k: nat)
    requires 0 < |widths| && ColumnOf(k, |widths|) == 0 && k + |widths| <= |cells|
    ensures Body(cells, widths, spacing, k + |widths|) ==
      Body(cells, widths, spacing, k) + Line(cells, widths, spacing, k, |widths|) + "\n"
  {
    var n := |widths|;
    var j := n - 1;
    BodyWithinRow(cells, widths, spacing, k, j);
    ColumnOfOffset(k, n, j);
    BodyLastColumn(cells, widths, spacing, k + j);
    ConcatAssoc(Body(cells, widths, spacing, k), Line(cells, widths, spacing, k, j),
      Segment(cells[k + j], widths[j], spacing));
  }

  /** The cells of a complete row fit their columns. */
  lemma RowFits(cols: seq<string>, cells: seq<string>, k: nat)
    requires 0 < |cols| && ColumnOf(k, |cols|) == 0 && k + |cols| <= |cells|
    ensures Fits(cells, Widths(cols, cells), k, |cols|)
  {
    var n := |cols|;
    ContentsFit(cols, cells);
    forall c | 0 <= c < n
      ensures ByteLen(cells[k + c]) <= Widths(cols, cells)[c]
    {
      ColumnOfOffset(k, n, c);
    }
  }

  /** The header names fit their columns. */
  lemma HeaderFits(cols: seq<string>, cells: seq<string>)
    requires 0 < |cols|
    ensures Fits(cols, Widths(cols, cells), 0, |cols|)
  {
    ContentsFit(cols, cells);
  }

  /** Columns line up: the header line and the line of every complete row are
      equally wide, the sum of the column widths plus one spacing per column. */
  lemma RowsAligned(cols: seq<string>, cells: seq<string>, spacing: nat, k: nat)
    requires 0 < |cols| && ColumnOf(k, |cols|) == 0 && k + |cols| <= |cells|
    ensures var w := Widths(cols, cells);
      ByteLen(Line(cols, w, spacing, 0, |cols|)) == LineWidth(w, spacing, |cols|) &&
      ByteLen(Line(cells, w, spacing, k, |cols|)) == LineWidth(w, spacing, |cols|)
  {
    var w := Widths(cols, cells);
    assert ByteLen(Line(cols, w, spacing, 0, |cols|)) == LineWidth(w, spacing, |cols|) by {
      HeaderFits(cols, cells);
      LineByteLen(cols, w, spacing, 0, |cols|);
    }
    assert ByteLen(Line(cells, w, spacing, k, |cols|)) == LineWidth(w, spacing, |cols|) by {
      RowFits(cols, cells, k);
      LineByteLen(cells, w, spacing, k, |cols|);
    }
  }

  predicate NoNewline(s: string) {
    forall j :: 0 <= j < |s| ==> s[j] != '\n'
  }

  lemma SegmentNoNewline(content: string, width: nat, spacing: nat)
    requires NoNewline(content)
    ensures Occurrences(Segment(content, width, spacing), '\n') == 0
  {
    OccurrencesAbsent(Segment(content, width, spacing), '\n');
  }

  lemma {:induction false} LineNoNewline(contents: seq<string>, widths: seq<nat>, spacing: nat, k: nat, j: nat)
    requires k + j <= |contents| && j <= |widths|
    requires forall i :: k <= i < k + j ==> NoNewline(contents[i])
    ensures Occurrences(Line(contents, widths, spacing, k, j), '\n') == 0
  {
    if j > 0 {
      LineNoNewline(contents, widths, spacing, k, j - 1);
      SegmentNoNewline(contents[k + j - 1], widths[j - 1], spacing);
      OccurrencesAppend(Line(contents, widths, spacing, k, j - 1), Segment(contents[k + j - 1], widths[j - 1], spacing), '\n');
    }
  }

  /** The cell part holds one newline per completed row (when no cell holds one). */
  lemma {:induction false} BodyNewlines(cells: seq<string>, widths: seq<nat>, spacing: nat, k: nat)
    requires 0 < |widths| && k <= |cells|
    requires forall i :: 0 <= i < |cells| ==> NoNewline(cells[i])
    ensures Occurrences(Body(cells, widths, spacing, k), '\n') == RowsBefore(k, |widths|)
  {
    if k > 0 {
      var i, n := k - 1, |widths|;
      BodyNewlines(cells, widths, spacing, i);
      ColumnOfNext(i, n);
      var c := ColumnOf(i, n);
      var seg := Segment(cells[i], widths[c], spacing);
      var nl := if c == n - 1 then "\n" else "";
      SegmentNoNewline(cells[i], widths[c], spacing);
      OccurrencesAppend(Body(cells, widths, spacing, i), seg, '\n');
      OccurrencesAppend(Body(cells, widths, spacing, i) + seg, nl, '\n');
    }
  }

  /** Line structure of the rendered table: when every row has the first row's
      columns and no name or cell holds a newline, the output has one newline after
      the header, one after each row and one at the end. */
  lemma RenderNewlines(rows: seq<Record>, spacing: nat)
    requires Printable(rows) && |rows| > 0 && |rows[0]| > 0
    requires forall r :: 0 <= r < |rows| ==> |rows[r]| == |rows[0]|
    requires forall c :: 0 <= c < |rows[0]| ==> NoNewline(ToUpper(rows[0][c].0))
    requires forall i :: 0 <= i < |FlatCells(rows)| ==> NoNewline(FlatCells(rows)[i])
    ensures Occurrences(RenderText(rows, spacing), '\n') == |rows| + 2
  {
    var cols, cells := Columns(rows[0]), FlatCells(rows);
    var n := |cols|;
    var w := Widths(cols, cells);
    LineNoNewline(cols, w, spacing, 0, n);
    BodyNewlines(cells, w, spacing, |cells|);
    FlatCellsLength(rows, n);
    ColumnOfRow(|rows|, n, 0);
    var line, body := Line(cols, w, spacing, 0, n), Body(cells, w, spacing, |cells|);
    OccurrencesAppend(line, "\n", '\n');
    OccurrencesAppend(line + "\n", body, '\n');
    OccurrencesAppend(line + "\n" + body, "\n", '\n');
  }
}
