/**
 * The CSV logger: a map from column names to columns of values (int, float,
 * double or string), written to a stream as "sep=;" on the first line, the
 * column names in key order each followed by ';' on the second, and then one
 * line per row holding the row's value from every column, each followed by
 * ';'. Every line ends in '\n' (std::endl).
 *
 * The std::map is given as its traversal: the entries in increasing key
 * order, which is the order every loop below visits them in.
 * Floating-point values are printed by the caller's `fmt` (the stream's
 * default formatting).
 */
module Logger {
  import opened Numeric
  import opened TextFields

  /** One value of a column: the variant<int, float, double, string>. */
  datatype Cell = IntCell(i: int) | FloatCell(f: real) | DoubleCell(d: real) | TextCell(s: string)

  /** A column name and its values. */
  datatype Entry = Entry(key: string, column: seq<Cell>)

  /** The logger's data (in key order) and its file path. */
  datatype Log = Log(data: seq<Entry>, filePath: string)

  /** What `os << arg` prints for one value. */
  function CellText(c: Cell, fmt: real -> string): string
  {
    match c
    case IntCell(i) => IntToString(i)
    case FloatCell(f) => fmt(f)
    case DoubleCell(d) => fmt(d)
    case TextCell(s) => s
  }

  /** The number of rows: the length of the first column. */
  function RowCount(entries: seq<Entry>): nat
    requires entries != []
  {
    |entries[0].column|
  }

  /** Every column has at least as many values as the first, so every row can be read. */
  predicate ColumnsCover(entries: seq<Entry>)
    requires entries != []
  {
    forall k :: 0 <= k < |entries| ==> RowCount(entries) <= |entries[k].column|
  }

  function Keys(entries: seq<Entry>): (ks: seq<string>)
    ensures |ks| == |entries| && forall k :: 0 <= k < |entries| ==> ks[k] == entries[k].key
  {
    seq(|entries|, k requires 0 <= k < |entries| => entries[k].key)
  }

  /** Row i: the i-th value of every column, in key order. */
  function Row(entries: seq<Entry>, i: nat, fmt: real -> string): (cells: seq<string>)
    requires entries != [] && ColumnsCover(entries) && i < RowCount(entries)
    ensures |cells| == |entries|
    ensures forall k :: 0 <= k < |entries| ==> cells[k] == CellText(entries[k].column[i], fmt)
  {
    seq(|entries|, k requires 0 <= k < |entries| => CellText(entries[k].column[i], fmt))
  }

  /** The lines of the output, without their line ends. */
  function CsvLines(entries: seq<Entry>, fmt: real -> string): (lines: seq<string>)
    requires entries != [] && ColumnsCover(entries)
    ensures |lines| == 2 + RowCount(entries)
  {
    ["sep=;", Terminated(Keys(entries), ';')] +
    seq(RowCount(entries), i requires 0 <= i < RowCount(entries) => Terminated(Row(entries, i, fmt), ';'))
  }

  /** Everything operator<< writes. */
  function Csv(entries: seq<Entry>, fmt: real -> string): string
    requires entries != [] && ColumnsCover(entries)
  {
    Terminated(CsvLines(entries, fmt), '\n')
  }

  /** operator<<(os, logger): the header loop, then the row loop with a column loop inside. */
  method WriteCsv(log: Log, fmt: real -> string) returns (out: string)
    requires log.data != [] && ColumnsCover(log.data)
    ensures out == Csv(log.data, fmt)
  {
    var entries := log.data;
    var rows := RowCount(entries);
    ghost var lines := CsvLines(entries, fmt);
    out := "sep=;" + "\n";
    assert out == Terminated(lines[..1], '\n');
    var header := WriteTerminated(Keys(entries), ';');
    out := out + header + "\n";
    TerminatedSnoc(lines[..1], header, '\n');
    assert lines[..2] == lines[..1] + [header];
    for i := 0 to rows
      invariant out == Terminated(lines[..2 + i], '\n')
    {
      var row := WriteTerminated(Row(entries, i, fmt), ';');
      TerminatedSnoc(lines[..2 + i], row, '\n');
      assert lines[..2 + i + 1] == lines[..2 + i] + [row];
      out := out + row + "\n";
    }
    assert lines[..2 + rows] == lines;
  }

  /** The inner loop: every word followed by the separator. */
  method WriteTerminated(ws: seq<string>, sep: char) returns (line: string)
    ensures line == Terminated(ws, sep)
  {
    line := "";
    for k := 0 to |ws|
      invariant line == Terminated(ws[..k], sep)
    {
      TerminatedSnoc(ws[..k], ws[k], sep);
      assert ws[..k + 1] == ws[..k] + [ws[k]];
      line := line + ws[k] + [sep];
    }
    assert ws[..|ws|] == ws;
  }

  // ----- reading the output back -----

  /** No key and no printed value holds ';' or a line end. */
  predicate Plain(entries: seq<Entry>, fmt: real -> string)
    requires entries != [] && ColumnsCover(entries)
  {
    (forall k :: 0 <= k < |entries| ==> Free(entries[k].key, ';') && Free(entries[k].key, '\n')) &&
    forall i, k :: 0 <= i < RowCount(entries) && 0 <= k < |entries| ==>
      Free(CellText(entries[k].column[i], fmt), ';') && Free(CellText(entries[k].column[i], fmt), '\n')
  }

  /**
   * Splitting the output at line ends and each line at ';' gives back
   * "sep=;", the keys in key order, and row i as the i-th value of every
   * column, with one row per value of the first column.
   */
  lemma CsvReadsBack(entries: seq<Entry>, fmt: real -> string)
    requires entries != [] && ColumnsCover(entries) && Plain(entries, fmt)
    ensures var lines := SplitTerminated(Csv(entries, fmt), '\n');
      |lines| == 2 + RowCount(entries) &&
      lines[0] == "sep=;" &&
      SplitTerminated(lines[1], ';') == Keys(entries) &&
      forall i :: 0 <= i < RowCount(entries) ==> SplitTerminated(lines[2 + i], ';') == Row(entries, i, fmt)
  {
    var lines := CsvLines(entries, fmt);
    LinesArePlain(entries, fmt);
    TerminatedRoundTrip(lines, '\n');
    TerminatedRoundTrip(Keys(entries), ';');
    forall i | 0 <= i < RowCount(entries)
      ensures SplitTerminated(lines[2 + i], ';') == Row(entries, i, fmt)
    {
      TerminatedRoundTrip(Row(entries, i, fmt), ';');
    }
  }

  lemma LinesArePlain(entries: seq<Entry>, fmt: real -> string)
    requires entries != [] && ColumnsCover(entries) && Plain(entries, fmt)
    ensures AllFree(CsvLines(entries, fmt), '\n')
  {
    var lines := CsvLines(entries, fmt);
    forall n | 0 <= n < |lines|
      ensures Free(lines[n], '\n')
    {
      if n == 1 {
        TerminatedFree(Keys(entries), ';', '\n');
      } else if n >= 2 {
        assert lines[n] == Terminated(Row(entries, n - 2, fmt), ';');
        TerminatedFree(Row(entries, n - 2, fmt), ';', '\n');
      }
    }
  }
}
