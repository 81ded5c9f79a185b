/**
 * The Markdown pipe tables of the variables document and the identifiers
 * given to their rows (scripts/migrate_variables.py: `parse_table_rows`,
 * `assign_id`).
 */
module Tables {
  import opened Wrappers
  import opened Text

  /** The five kinds of variable table. */
  datatype Table = Stock | Flow | Threshold | PositiveOptionality | NormalizationQuality

  // ---------------------------------------------------------------- rows

  /** The first character after any leading whitespace is `|`. */
  predicate IsPipeLine(line: string)
  {
    var n := SpaceRun(line, 0);
    n < |line| && line[n] == '|'
  }

  /** `IsPipeLine` is `line.strip().startswith("|")`. */
  lemma IsPipeLineStrip(line: string)
    ensures IsPipeLine(line) <==> StartsWith(Strip(line), "|")
  {
    TrimStartLength(line);
    TrimStartChars(line);
    TrimStartFirst(line);
    var a := TrimStart(line);
    if |a| > 0 {
      TrimEndKeepsFirst(a);
    }
  }

  /** `re.match(r'\|\s*:?-+', t)`: a table separator such as `| :--- |` or `|---|`. */
  predicate IsSeparator(t: string)
  {
    |t| > 0 && t[0] == '|' &&
    var j := 1 + SpaceRun(t, 1);
    j < |t| && (t[j] == '-' || (t[j] == ':' && j + 1 < |t| && t[j + 1] == '-'))
  }

  /** The stripped `|`-separated pieces of `t`. */
  function Pieces(t: string): (c: seq<string>)
    ensures |c| == |Split(t, '|')| >= 1
  {
    StripEach(Split(t, '|'))
  }

  /** `[c.strip() for c in parts]`. */
  function StripEach(parts: seq<string>): (r: seq<string>)
    ensures |r| == |parts|
  {
    if parts == [] then [] else [Strip(parts[0])] + StripEach(parts[1..])
  }

  /** The cells of a table line: its pieces less one empty piece at each end. */
  function RowCells(line: string): (r: seq<string>)
  {
    var c := Pieces(Strip(line));
    var c1 := if |c| > 0 && c[0] == "" then c[1..] else c;
    if |c1| > 0 && c1[|c1| - 1] == "" then c1[..|c1| - 1] else c1
  }

  /**
   * Every cell of a line is stripped, and the cells are its pieces less at most
   * one piece at each end, a dropped piece being empty.
   */
  lemma RowCellsStripped(line: string)
    ensures forall c | c in RowCells(line) :: Stripped(c)
    ensures var c := Pieces(Strip(line));
      exists a, b :: 0 <= a <= 1 && |c| - 1 <= b <= |c| && a <= b && RowCells(line) == c[a..b]
        && (a == 1 ==> c[0] == "") && (b == |c| - 1 ==> c[|c| - 1] == "")
  {
    var c := Pieces(Strip(line));
    StripEachAllStripped(Split(Strip(line), '|'));
    var a := if c[0] == "" then 1 else 0;
    var c1 := c[a..];
    var b := if |c1| > 0 && c1[|c1| - 1] == "" then |c| - 1 else |c|;
    assert RowCells(line) == c[a..b];
  }

  /** `c.strip()` of every piece leaves each piece stripped. */
  lemma {:induction false} StripEachAllStripped(parts: seq<string>)
    ensures forall c | c in StripEach(parts) :: Stripped(c)
  {
    if parts != [] {
      StripStripped(parts[0]);
      StripEachAllStripped(parts[1..]);
    }
  }

  /** The first line at or after `i` that starts with `|`. */
  function FirstPipeLine(lines: seq<string>, i: nat): (r: Option<nat>)
    ensures r.Some? ==> i <= r.value < |lines| && IsPipeLine(lines[r.value])
    ensures r.Some? ==> forall k :: i <= k < r.value ==> !IsPipeLine(lines[k])
    ensures r.None? ==> forall k :: i <= k < |lines| ==> !IsPipeLine(lines[k])
    decreases |lines| - i
  {
    if i >= |lines| then None
    else if IsPipeLine(lines[i]) then Some(i)
    else FirstPipeLine(lines, i + 1)
  }

  /** The first data line after the header at `h`: one separator line is skipped. */
  function BodyStart(lines: seq<string>, h: nat): nat
  {
    if h + 1 < |lines| && IsSeparator(Strip(lines[h + 1])) then h + 2 else h + 1
  }

  /** The non-empty rows of the run of `|` lines starting at `i`. */
  function DataRows(lines: seq<string>, i: nat): seq<seq<string>>
  {
    RunRows(RowCells, lines, i)
  }

  /**
   * The non-empty rows of the run of `|` lines starting at `i`, with `cellsOf`
   * splitting a line into cells (always `RowCells`; taking it as a parameter
   * keeps the splitting out of the reasoning about runs).
   */
  function RunRows(cellsOf: string -> seq<string>, lines: seq<string>, i: nat): seq<seq<string>>
    decreases |lines| - i
  {
    if i >= |lines| || !IsPipeLine(lines[i]) then []
    else
      var cells := cellsOf(lines[i]);
      (if |cells| > 0 then [cells] else []) + RunRows(cellsOf, lines, i + 1)
  }

  /** What `parse_table_rows(lines, start)` returns. */
  function TableRows(lines: seq<string>, start: nat): seq<seq<string>>
  {
    match FirstPipeLine(lines, start)
    case None => []
    case Some(h) => DataRows(lines, BodyStart(lines, h))
  }

  /** `parse_table_rows`: find the header, skip it and a separator, collect rows up to the first non-table line. */
  method ParseTableRows(lines: seq<string>, start: nat) returns (rows: seq<seq<string>>)
    ensures rows == TableRows(lines, start)
  {
    var header := FindHeader(lines, start);
    if header.None? {
      return [];
    }
    var h := header.value;
    var i := h + 1;
    if i < |lines| && IsSeparator(Strip(lines[i])) {
      i := i + 1;
    }
    assert i == BodyStart(lines, h);
    rows := CollectRows(lines, i);
    TableRowsFromHeader(lines, start, h);
  }

  /** Once the header is found at `h`, the rows are those of the lines after it and any separator. */
  lemma TableRowsFromHeader(lines: seq<string>, start: nat, h: nat)
    requires FirstPipeLine(lines, start) == Some(h)
    ensures TableRows(lines, start) == DataRows(lines, BodyStart(lines, h))
  {
  }

  /** The header search of `parse_table_rows`: the first line from `start` that starts with `|`. */
  method FindHeader(lines: seq<string>, start: nat) returns (h: Option<nat>)
    ensures h == FirstPipeLine(lines, start)
  {
    var i := start;
    while i < |lines| && !IsPipeLine(lines[i])
      invariant start <= i
      invariant FirstPipeLine(lines, start) == FirstPipeLine(lines, i)
      decreases |lines| - i
    {
      FirstPipeLineSkip(lines, i);
      i := i + 1;
    }
    if i >= |lines| {
      return None;
    }
    return Some(i);
  }

  /** The data-row loop of `parse_table_rows`: rows are collected up to the first non-table line. */
  method CollectRows(lines: seq<string>, b: nat) returns (rows: seq<seq<string>>)
    ensures rows == DataRows(lines, b)
  {
    ghost var all := DataRows(lines, b);
    rows := [];
    var i := b;
    EmptyAppend(all);
    while i < |lines|
      invariant b <= i
      invariant all == rows + DataRows(lines, i)
      decreases |lines| - i
    {
      if !IsPipeLine(lines[i]) {
        DataRowsStop(lines, i, rows, all);
        return;
      }
      var cells := RowCells(lines[i]);
      if |cells| > 0 {
        DataRowsKeep(lines, i, rows, all);
        rows := rows + [cells];
      } else {
        DataRowsSkip(lines, i, rows, all);
      }
      i := i + 1;
    }
    DataRowsStop(lines, i, rows, all);
  }

  /** A line without `|` at the start is passed over in the search for the header. */
  lemma FirstPipeLineSkip(lines: seq<string>, i: nat)
    requires i < |lines| && !IsPipeLine(lines[i])
    ensures FirstPipeLine(lines, i) == FirstPipeLine(lines, i + 1)
  {
  }

  /** Reading ends at a line without `|` at the start, or past the last line. */
  lemma DataRowsStop(lines: seq<string>, i: nat, rows: seq<seq<string>>, all: seq<seq<string>>)
    requires i >= |lines| || !IsPipeLine(lines[i])
    requires all == rows + DataRows(lines, i)
    ensures all == rows
  {
    assert DataRows(lines, i) == [];
    AppendEmpty(rows);
  }

  /** A `|` line with cells adds them after the rows read so far. */
  lemma DataRowsKeep(lines: seq<string>, i: nat, rows: seq<seq<string>>, all: seq<seq<string>>)
    requires i < |lines| && IsPipeLine(lines[i]) && |RowCells(lines[i])| > 0
    requires all == rows + DataRows(lines, i)
    ensures all == (rows + [RowCells(lines[i])]) + DataRows(lines, i + 1)
  {
    assert DataRows(lines, i) == [RowCells(lines[i])] + DataRows(lines, i + 1);
    AppendAssoc(rows, [RowCells(lines[i])], DataRows(lines, i + 1));
  }

  /** A `|` line without cells adds nothing. */
  lemma DataRowsSkip(lines: seq<string>, i: nat, rows: seq<seq<string>>, all: seq<seq<string>>)
    requires i < |lines| && IsPipeLine(lines[i]) && |RowCells(lines[i])| == 0
    requires all == rows + DataRows(lines, i)
    ensures all == rows + DataRows(lines, i + 1)
  {
    assert DataRows(lines, i) == [] + DataRows(lines, i + 1);
    EmptyAppend(DataRows(lines, i + 1));
  }

  /** Appending nothing changes nothing. */
  lemma AppendEmpty<T>(a: seq<T>)
    ensures a + [] == a
  {
  }

  /** Prepending nothing changes nothing. */
  lemma EmptyAppend<T>(a: seq<T>)
    ensures [] + a == a
  {
  }

  /** Concatenation is associative (stated over an arbitrary element type, where it is cheap). */
  lemma AppendAssoc<T>(a: seq<T>, b: seq<T>, c: seq<T>)
    ensures a + (b + c) == (a + b) + c
  {
  }

  // ---------------------------------------------------------------- row properties

  /** Lines with no `|` at the start give no rows. */
  lemma NoPipeNoRows(lines: seq<string>, start: nat)
    requires forall k :: start <= k < |lines| ==> !IsPipeLine(lines[k])
    ensures TableRows(lines, start) == []
  {
    var f := FirstPipeLine(lines, start);
    assert f.None?;
  }

  /** Length of the run of `|` lines starting at `i`. */
  function PipeRun(lines: seq<string>, i: nat): (n: nat)
    ensures i + n <= |lines| || (i >= |lines| && n == 0)
    ensures forall k :: i <= k < i + n ==> IsPipeLine(lines[k])
    ensures i + n < |lines| ==> !IsPipeLine(lines[i + n])
    decreases |lines| - i
  {
    if i < |lines| && IsPipeLine(lines[i]) then 1 + PipeRun(lines, i + 1) else 0
  }

  /**
   * Every data row is the cells of a line in the run of `|` lines from `i`:
   * it is non-empty, comes from no line before `i`, and there are no more rows
   * than lines in the run.
   */
  lemma {:induction false} DataRowsFromRun(lines: seq<string>, i: nat)
    ensures |DataRows(lines, i)| <= PipeRun(lines, i)
    ensures forall r :: r in DataRows(lines, i) ==>
      (|r| > 0 && exists k :: i <= k < i + PipeRun(lines, i) && r == RowCells(lines[k]))
    decreases |lines| - i
  {
    if i < |lines| && IsPipeLine(lines[i]) {
      DataRowsFromRun(lines, i + 1);
      var cells := RowCells(lines[i]);
      var here := if |cells| > 0 then [cells] else [];
      forall r | r in DataRows(lines, i)
        ensures |r| > 0 && exists k :: i <= k < i + PipeRun(lines, i) && r == RowCells(lines[k])
      {
        if r in here {
          assert r == RowCells(lines[i]);
        } else {
          assert r in DataRows(lines, i + 1);
          var k :| i + 1 <= k < i + 1 + PipeRun(lines, i + 1) && r == RowCells(lines[k]);
          assert i <= k < i + PipeRun(lines, i);
        }
      }
    }
  }

  /**
   * Reading stops at the first line that does not start with `|`: any lines
   * that agree up to and including that line give the same rows.
   */
  lemma {:induction false} DataRowsStopAtGap(lines: seq<string>, other: seq<string>, i: nat)
    requires i + PipeRun(lines, i) < |lines| && i + PipeRun(lines, i) < |other|
    requires forall k :: i <= k <= i + PipeRun(lines, i) ==> other[k] == lines[k]
    ensures DataRows(other, i) == DataRows(lines, i)
    decreases |lines| - i
  {
    assert other[i] == lines[i];
    if IsPipeLine(lines[i]) {
      assert PipeRun(lines, i) == 1 + PipeRun(lines, i + 1);
      DataRowsStopAtGap(lines, other, i + 1);
    }
  }

  /**
   * `parse_table_rows` never returns the header line, nor the separator it skips:
   * every row is the cells of a `|` line after them, in the run of `|` lines
   * that follows them.
   */
  lemma TableRowsProvenance(lines: seq<string>, start: nat, h: nat)
    requires FirstPipeLine(lines, start) == Some(h)
    ensures var b := BodyStart(lines, h);
      h < b <= h + 2 && (b == h + 2 ==> IsSeparator(Strip(lines[h + 1]))) &&
      forall r :: r in TableRows(lines, start) ==>
        (|r| > 0 && exists k :: b <= k < b + PipeRun(lines, b) && r == RowCells(lines[k]))
    ensures forall r | r in TableRows(lines, start) :: forall c | c in r :: Stripped(c)
  {
    var b := BodyStart(lines, h);
    DataRowsFromRun(lines, b);
    forall r | r in TableRows(lines, start)
      ensures forall c | c in r :: Stripped(c)
    {
      var k :| b <= k < b + PipeRun(lines, b) && r == RowCells(lines[k]);
      RowCellsStripped(lines[k]);
    }
  }

  /** The row count is at most the number of `|` lines read after the header and separator. */
  lemma TableRowsCount(lines: seq<string>, start: nat, h: nat)
    requires FirstPipeLine(lines, start) == Some(h)
    ensures |TableRows(lines, start)| <= PipeRun(lines, BodyStart(lines, h))
  {
    DataRowsFromRun(lines, BodyStart(lines, h));
  }

  /** A row of cells written out as a table line. */
  function RenderRow(cells: seq<string>): string
  {
    "|" + Join(cells, '|') + "|"
  }

  /**
   * Splitting a rendered row gives back its cells, provided there is at least
   * one and each is stripped and free of `|`: exactly one empty piece is
   * dropped at each end, and every cell is kept, empty or not.
   */
  lemma RowCellsRender(cells: seq<string>)
    requires |cells| >= 1
    requires forall k :: 0 <= k < |cells| ==> '|' !in cells[k] && Strip(cells[k]) == cells[k]
    ensures RowCells(RenderRow(cells)) == cells
  {
    var line := RenderRow(cells);
    RenderedStripped(cells);
    RenderedPieces(cells);
    var c := [""] + cells + [""];
    assert c[1..] == cells + [""];
    assert (cells + [""])[..|cells|] == cells;
  }

  /** A rendered row starts and ends with `|`, so `strip()` leaves it alone. */
  lemma RenderedStripped(cells: seq<string>)
    ensures Strip(RenderRow(cells)) == RenderRow(cells)
  {
    var line := RenderRow(cells);
    assert line[0] == '|' && line[|line| - 1] == '|';
    StrippedStrip(line);
  }

  /** The stripped pieces of a rendered row are an empty piece, the cells, and an empty piece. */
  lemma RenderedPieces(cells: seq<string>)
    requires |cells| >= 1
    requires forall k :: 0 <= k < |cells| ==> '|' !in cells[k] && Strip(cells[k]) == cells[k]
    ensures Pieces(RenderRow(cells)) == [""] + cells + [""]
  {
    SplitRendered(cells);
    var parts := [""] + cells + [""];
    StrippedStrip("");
    forall k | 0 <= k < |parts| ensures Strip(parts[k]) == parts[k] {
      if 0 < k < |parts| - 1 {
        assert parts[k] == cells[k - 1];
      }
    }
    PiecesOfStripped(RenderRow(cells));
  }

  /** A rendered row splits into an empty piece, the cells, and an empty piece. */
  lemma SplitRendered(cells: seq<string>)
    requires |cells| >= 1
    requires forall k :: 0 <= k < |cells| ==> '|' !in cells[k]
    ensures Split(RenderRow(cells), '|') == [""] + cells + [""]
  {
    var inner := Join(cells, '|');
    assert RenderRow(cells) == [] + ['|'] + (inner + "|");
    SplitAfterPiece([], '|', inner + "|");
    JoinAppend(cells, '|');
    SplitJoin(cells + [""], '|');
  }

  /** When every piece is already stripped, the pieces are the split itself. */
  lemma PiecesOfStripped(t: string)
    requires forall k :: 0 <= k < |Split(t, '|')| ==> Strip(Split(t, '|')[k]) == Split(t, '|')[k]
    ensures Pieces(t) == Split(t, '|')
  {
    StripEachStripped(Split(t, '|'));
  }

  /** Stripping pieces that are already stripped changes nothing. */
  lemma {:induction false} StripEachStripped(parts: seq<string>)
    requires forall k :: 0 <= k < |parts| ==> Strip(parts[k]) == parts[k]
    ensures StripEach(parts) == parts
  {
    if parts != [] {
      StripEachStripped(parts[1..]);
      assert [parts[0]] + parts[1..] == parts;
    }
  }

  /** Joining with an empty last piece adds a trailing separator. */
  lemma {:induction false} JoinAppend(parts: seq<string>, d: char)
    requires |parts| >= 1
    ensures Join(parts + [""], d) == Join(parts, d) + [d]
  {
    if |parts| == 1 {
      assert (parts + [""])[1..] == [""];
    } else {
      assert (parts + [""])[1..] == parts[1..] + [""];
      JoinAppend(parts[1..], d);
    }
  }

  // ---------------------------------------------------------------- identifiers

  /** The two-letter code of a table; unknown (`None`) tables get `XX`. */
  function Prefix(t: Option<Table>): (p: string)
    ensures |p| == 2
  {
    match t
    case Some(Stock) => "SV"
    case Some(Flow) => "FV"
    case Some(Threshold) => "TV"
    case Some(PositiveOptionality) => "PO"
    case Some(NormalizationQuality) => "NQ"
    case None => "XX"
  }

  /** The six codes are pairwise distinct. */
  lemma PrefixInjective(t: Option<Table>, u: Option<Table>)
    requires Prefix(t) == Prefix(u)
    ensures t == u
  {
    var p := Prefix(t);
    assert p[0] == Prefix(u)[0] && p[1] == Prefix(u)[1];
  }

  /** `assign_id(table, idx)`: the table's code, a dash, and `idx` zero-padded to two digits. */
  function AssignId(t: Option<Table>, n: nat): (id: string)
    ensures |id| >= 5 && id[..2] == Prefix(t) && id[2] == '-'
  {
    if t == Some(NormalizationQuality) then "NQ-" + Pad2(n) else Prefix(t) + "-" + Pad2(n)
  }

  /**
   * After the dash comes the two-digit padding of the number: a single digit
   * gets one leading zero, and the digits spell the number.
   */
  lemma AssignIdNumber(t: Option<Table>, n: nat)
    ensures AssignId(t, n)[3..] == Pad2(n)
    ensures n < 10 ==> |AssignId(t, n)| == 5 && AssignId(t, n)[3] == '0'
    ensures AllDigits(AssignId(t, n)[3..]) && DigitsValue(AssignId(t, n)[3..]) == n
  {
    var id := AssignId(t, n);
    assert id[3..] == Pad2(n);
    Pad2Value(n);
  }

  /** The first stock variable is `SV-01`. */
  lemma AssignIdExample()
    ensures AssignId(Some(Stock), 1) == "SV-01"
  {
    assert Decimal(1) == "1";
  }

  /** Distinct (table, number) pairs get distinct identifiers. */
  lemma AssignIdInjective(t: Option<Table>, n: nat, u: Option<Table>, m: nat)
    requires AssignId(t, n) == AssignId(u, m)
    ensures t == u && n == m
  {
    AssignIdNumber(t, n);
    AssignIdNumber(u, m);
    PrefixInjective(t, u);
  }
}
