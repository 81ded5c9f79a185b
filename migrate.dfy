/**
 * The conversion of the Markdown variables document into variable records
 * (scripts/migrate_variables.py: `main`). The document is given as its lines;
 * the written YAML document is returned as a value.
 */
module Migrate {
  import opened Wrappers
  import opened Text
  import opened Normalize
  import opened Tables

  /** The fields only a normalization-quality record has. */
  datatype NqFields = NqFields(nqType: string, threshold: string)

  /** One output record, with the keys in the order the script writes them. */
  datatype Variable = Variable(
    id: string,
    name: string,
    table: Option<Table>,
    currentValue: string,
    trend: string,
    insight: string,
    confidence: string,
    versionAdded: string,
    sessionAdded: Option<nat>,
    crossRefs: seq<string>,
    epistemicTag: string,
    nq: Option<NqFields>)

  /** `table_counters`: rows numbered so far per table (an absent key counts as 0). */
  type Counters = map<Option<Table>, nat>

  function Count(c: Counters, t: Option<Table>): nat
  {
    if t in c then c[t] else 0
  }

  /** `table_counters[t] = table_counters.get(t, 0) + 1`. */
  function Bump(c: Counters, t: Option<Table>): (d: Counters)
    ensures Count(d, t) == Count(c, t) + 1
  {
    c[t := Count(c, t) + 1]
  }

  /** Bumping one table's counter leaves the others alone. */
  lemma BumpOthers(c: Counters, t: Option<Table>, u: Option<Table>)
    requires u != t
    ensures Count(Bump(c, t), u) == Count(c, u)
  {
  }

  /** The counters and the records produced so far. */
  datatype Tally = Tally(counters: Counters, vars: seq<Variable>)

  /** The scanner's state: `current_table` and the tally. */
  datatype State = State(current: Option<Table>, tally: Tally)

  /** What the written document holds. */
  datatype Document = Document(
    version: string,
    date: string,
    source: string,
    monitoringNotes: seq<string>,
    entries: seq<Variable>)

  const Version := "1.7"
  const Date := "2026-02-24"
  const Source := "v1.5 + Session 15 (A12 variables) + Session 16 integration"

  /** The notes written when the document yields none. */
  const DefaultNotes: seq<string> := [
    "Variables require weekly recheck on flow and threshold tables. Stock variables recheck monthly or on significant event.",
    "v1.5 NOTE (CRITICAL): Trump deadline variables, Iran proposal delivery, Geneva Round 3 outcome, and student protest expansion require DAILY monitoring through at least March 6.",
    "v1.7 NOTE (Session 16): IAEA Board (March 2) creates third independent clock converging with Geneva Round 3 and Trump deadline."
  ]

  // ---------------------------------------------------------------- headings

  /** The `if`/`elif` chain over the stripped line: the first heading text found picks the table. */
  function Heading(stripped: string, current: Option<Table>): Option<Table>
  {
    if Contains(stripped, "TABLE 1:") || Contains(stripped, "CRITICAL STOCK VARIABLES") then Some(Stock)
    else if Contains(stripped, "TABLE 2:") || Contains(stripped, "CRITICAL FLOW VARIABLES") then Some(Flow)
    else if Contains(stripped, "TABLE 3:") || Contains(stripped, "THRESHOLD") then Some(Threshold)
    else if Contains(stripped, "TABLE 4:") || Contains(stripped, "POSITIVE OPTIONALITY") then Some(PositiveOptionality)
    else if Contains(stripped, "NORMALIZATION QUALITY VARIABLES") then Some(NormalizationQuality)
    else current
  }

  /**
   * `current_table and stripped.startswith('| Variable') or stripped.startswith('| Code')`:
   * `and` binds tighter, so a `| Code` line starts a table even with no current table.
   */
  predicate StartsTable(current: Option<Table>, stripped: string)
  {
    (current.Some? && StartsWith(stripped, "| Variable")) || StartsWith(stripped, "| Code")
  }

  /**
   * The chain is first-match: each branch's texts pick its table whenever
   * no earlier branch's texts occur, and the table only changes on a line
   * holding a heading text.
   */
  lemma HeadingFirstMatch(stripped: string, current: Option<Table>)
    ensures Heading(stripped, current) != current ==>
      Contains(stripped, "TABLE 1:") || Contains(stripped, "CRITICAL STOCK VARIABLES") ||
      Contains(stripped, "TABLE 2:") || Contains(stripped, "CRITICAL FLOW VARIABLES") ||
      Contains(stripped, "TABLE 3:") || Contains(stripped, "THRESHOLD") ||
      Contains(stripped, "TABLE 4:") || Contains(stripped, "POSITIVE OPTIONALITY") ||
      Contains(stripped, "NORMALIZATION QUALITY VARIABLES")
    ensures var stock := Contains(stripped, "TABLE 1:") || Contains(stripped, "CRITICAL STOCK VARIABLES");
      stock ==> Heading(stripped, current) == Some(Stock)
    ensures var stock := Contains(stripped, "TABLE 1:") || Contains(stripped, "CRITICAL STOCK VARIABLES");
      var flow := Contains(stripped, "TABLE 2:") || Contains(stripped, "CRITICAL FLOW VARIABLES");
      !stock && flow ==> Heading(stripped, current) == Some(Flow)
    ensures var stock := Contains(stripped, "TABLE 1:") || Contains(stripped, "CRITICAL STOCK VARIABLES");
      var flow := Contains(stripped, "TABLE 2:") || Contains(stripped, "CRITICAL FLOW VARIABLES");
      var threshold := Contains(stripped, "TABLE 3:") || Contains(stripped, "THRESHOLD");
      !stock && !flow && threshold ==> Heading(stripped, current) == Some(Threshold)
    ensures var stock := Contains(stripped, "TABLE 1:") || Contains(stripped, "CRITICAL STOCK VARIABLES");
      var flow := Contains(stripped, "TABLE 2:") || Contains(stripped, "CRITICAL FLOW VARIABLES");
      var threshold := Contains(stripped, "TABLE 3:") || Contains(stripped, "THRESHOLD");
      var positive := Contains(stripped, "TABLE 4:") || Contains(stripped, "POSITIVE OPTIONALITY");
      !stock && !flow && !threshold && positive ==> Heading(stripped, current) == Some(PositiveOptionality)
    ensures var stock := Contains(stripped, "TABLE 1:") || Contains(stripped, "CRITICAL STOCK VARIABLES");
      var flow := Contains(stripped, "TABLE 2:") || Contains(stripped, "CRITICAL FLOW VARIABLES");
      var threshold := Contains(stripped, "TABLE 3:") || Contains(stripped, "THRESHOLD");
      var positive := Contains(stripped, "TABLE 4:") || Contains(stripped, "POSITIVE OPTIONALITY");
      !stock && !flow && !threshold && !positive && Contains(stripped, "NORMALIZATION QUALITY VARIABLES") ==>
        Heading(stripped, current) == Some(NormalizationQuality)
    ensures Heading(stripped, current) == Some(NormalizationQuality) && current != Some(NormalizationQuality) ==>
      !Contains(stripped, "TABLE 1:") && !Contains(stripped, "CRITICAL STOCK VARIABLES") &&
      !Contains(stripped, "TABLE 2:") && !Contains(stripped, "CRITICAL FLOW VARIABLES") &&
      !Contains(stripped, "TABLE 3:") && !Contains(stripped, "THRESHOLD") &&
      !Contains(stripped, "TABLE 4:") && !Contains(stripped, "POSITIVE OPTIONALITY")
  {
  }

  // ---------------------------------------------------------------- rows

  /** The record of a normalization-quality row: five cleaned cells and fixed metadata. */
  function NqRecord(row: seq<string>): Variable
    requires |row| >= 5
  {
    Variable(Clean(row[0]), Clean(row[1]), Some(NormalizationQuality), "", "", Clean(row[3]),
      "Med", "v1.4", Some(12), [], "Mixed", Some(NqFields(Clean(row[2]), Clean(row[4]))))
  }

  /** The record of an ordinary row numbered `n` in table `t`, named `name`, annotated `version`. */
  function CountedRecord(t: Option<Table>, n: nat, name: string, version: string, row: seq<string>): Variable
    requires |row| >= 5
  {
    Variable(AssignId(t, n), name, t, Clean(row[1]), Clean(row[2]), Clean(row[3]),
      StripChars(Clean(row[4]), {'[', ']'}), version, None, [], "Mixed", None)
  }

  /** The cleaned name of a row's first cell and the version found in it. */
  function NameAndVersion(cell: string): (string, string)
  {
    var (raw, version) := ExtractNameAndVersion(cell);
    (Clean(raw), version)
  }

  /** The body of the loop over the rows of one table, for row `row` found under table `t`. */
  function AddRow(t: Option<Table>, row: seq<string>, tl: Tally): Tally
  {
    RowInto(NameAndVersion, t, row, tl)
  }

  /**
   * `AddRow` with `nameOf` reading the name and version from the first cell
   * (always `NameAndVersion`; taking it as a parameter keeps the text cleaning
   * out of the reasoning about counters and records).
   */
  function RowInto(nameOf: string -> (string, string), t: Option<Table>, row: seq<string>, tl: Tally): Tally
  {
    if t == Some(NormalizationQuality) && |row| >= 5 then
      Tally(tl.counters, tl.vars + [NqRecord(row)])
    else if |row| >= 5 then
      var named := nameOf(row[0]);
      if named.0 == "" || named.0 == "Variable" then tl else AddCounted(t, named.0, named.1, row, tl)
    else tl
  }

  /** An ordinary row named `name`: its table's counter goes up by one and numbers the new record. */
  function AddCounted(t: Option<Table>, name: string, version: string, row: seq<string>, tl: Tally): Tally
    requires |row| >= 5
  {
    Tally(Bump(tl.counters, t), tl.vars + [CountedRecord(t, Count(tl.counters, t) + 1, name, version, row)])
  }

  /** A normalization-quality row with five cells adds its record and leaves the counters. */
  lemma RowIntoNq(nameOf: string -> (string, string), t: Option<Table>, row: seq<string>, tl: Tally)
    requires t == Some(NormalizationQuality) && |row| >= 5
    ensures RowInto(nameOf, t, row, tl) == Tally(tl.counters, tl.vars + [NqRecord(row)])
  {
  }

  /** A row with fewer than five cells adds nothing. */
  lemma RowIntoShort(nameOf: string -> (string, string), t: Option<Table>, row: seq<string>, tl: Tally)
    requires |row| < 5
    ensures RowInto(nameOf, t, row, tl) == tl
  {
  }

  /** A row whose name cleans to nothing, or to the header word, adds nothing. */
  lemma RowIntoSkipped(nameOf: string -> (string, string), t: Option<Table>, row: seq<string>, tl: Tally)
    requires t != Some(NormalizationQuality) && |row| >= 5
    requires nameOf(row[0]).0 == "" || nameOf(row[0]).0 == "Variable"
    ensures RowInto(nameOf, t, row, tl) == tl
  {
  }

  /** Any other ordinary row is numbered one past its table's counter. */
  lemma RowIntoCounted(nameOf: string -> (string, string), t: Option<Table>, row: seq<string>, tl: Tally)
    requires t != Some(NormalizationQuality) && |row| >= 5
    requires nameOf(row[0]).0 != "" && nameOf(row[0]).0 != "Variable"
    ensures RowInto(nameOf, t, row, tl) == AddCounted(t, nameOf(row[0]).0, nameOf(row[0]).1, row, tl)
  {
  }

  /** The first `n` rows of a table added in order. */
  function AddRows(t: Option<Table>, rows: seq<seq<string>>, n: nat, tl: Tally): Tally
    requires n <= |rows|
  {
    RowsInto(AddRow, t, rows, n, tl)
  }

  /**
   * `AddRows` with `add` adding one row (always `AddRow`; taking it as a
   * parameter keeps the records out of the reasoning about lines).
   */
  function RowsInto(add: (Option<Table>, seq<string>, Tally) -> Tally, t: Option<Table>,
                    rows: seq<seq<string>>, n: nat, tl: Tally): Tally
    requires n <= |rows|
  {
    if n == 0 then tl else add(t, rows[n - 1], RowsInto(add, t, rows, n - 1, tl))
  }

  // ---------------------------------------------------------------- lines

  /** One pass of the loop over the lines, at line `i`. */
  function LineStep(lines: seq<string>, i: nat, st: State): State
    requires i < |lines|
  {
    LineWith(Heading, lines, i, st)
  }

  /**
   * `LineStep` with `heading` reading the headings (always `Heading`; taking it
   * as a parameter keeps the heading texts out of the reasoning about tables).
   */
  function LineWith(heading: (string, Option<Table>) -> Option<Table>, lines: seq<string>, i: nat, st: State): State
    requires i < |lines|
  {
    var stripped := Strip(lines[i]);
    var current := heading(stripped, st.current);
    if StartsTable(current, stripped) then
      var rows := TableRows(lines, i);
      State(None, AddRows(current, rows, |rows|, st.tally))
    else State(current, st.tally)
  }

  /**
   * One line: a line that parses a table leaves no current table (so a `| Code`
   * line always does), and a line after which a table is current adds no
   * records.
   */
  lemma LineStepEffect(lines: seq<string>, i: nat, st: State)
    requires i < |lines|
    ensures var stripped := Strip(lines[i]);
      && (StartsTable(Heading(stripped, st.current), stripped) ==> LineStep(lines, i, st).current.None?)
      && (StartsWith(stripped, "| Code") ==> LineStep(lines, i, st).current.None?)
      && (LineStep(lines, i, st).current.Some? ==>
            LineStep(lines, i, st) == State(Heading(stripped, st.current), st.tally))
  {
  }

  /** The state after the first `n` lines. */
  function Scan(lines: seq<string>, n: nat): State
    requires n <= |lines|
  {
    if n == 0 then State(None, Tally(map[], [])) else LineStep(lines, n - 1, Scan(lines, n - 1))
  }

  // ---------------------------------------------------------------- monitoring notes

  /** A stripped line that opens the notes. */
  predicate NotesMarker(stripped: string)
  {
    StartsWith(stripped, "*Variables require") || StartsWith(stripped, "*v1.")
  }

  /** `clean_text(line.strip().strip("*"))`. */
  function NoteText(line: string): string
  {
    Clean(StripChars(Strip(line), {'*'}))
  }

  /** What line `line` adds to the notes once they are open. */
  function NoteOf(line: string): seq<string>
  {
    if StartsWith(Strip(line), "*") && NoteText(line) != "" then [NoteText(line)] else []
  }

  /** `in_notes` and `monitoring_notes` after the first `n` lines. */
  function NotesScan(lines: seq<string>, n: nat): (bool, seq<string>)
    requires n <= |lines|
  {
    NotesInto(NoteOf, lines, n)
  }

  /**
   * `NotesScan` with `noteOf` giving a line's note (always `NoteOf`; taking it
   * as a parameter keeps the text cleaning out of the reasoning about lines).
   */
  function NotesInto(noteOf: string -> seq<string>, lines: seq<string>, n: nat): (bool, seq<string>)
    requires n <= |lines|
  {
    if n == 0 then (false, [])
    else
      var (open, notes) := NotesInto(noteOf, lines, n - 1);
      var nowOpen := open || NotesMarker(Strip(lines[n - 1]));
      (nowOpen, if nowOpen then notes + noteOf(lines[n - 1]) else notes)
  }

  /** The first notes marker at or after `i`. */
  function FirstMarker(lines: seq<string>, i: nat): (m: Option<nat>)
    ensures m.Some? ==> i <= m.value < |lines| && NotesMarker(Strip(lines[m.value]))
    ensures m.Some? ==> forall k :: i <= k < m.value ==> !NotesMarker(Strip(lines[k]))
    ensures m.None? ==> forall k :: i <= k < |lines| ==> !NotesMarker(Strip(lines[k]))
    decreases |lines| - i
  {
    if i >= |lines| then None
    else if NotesMarker(Strip(lines[i])) then Some(i)
    else FirstMarker(lines, i + 1)
  }

  /** The notes of lines `from` to `n - 1`, with no state: every `*` line with text. */
  function NotesBetween(lines: seq<string>, from: nat, n: nat): seq<string>
    requires from <= n <= |lines|
    decreases n - from
  {
    if n == from then [] else NotesBetween(lines, from, n - 1) + NoteOf(lines[n - 1])
  }

  // ---------------------------------------------------------------- the whole run

  /** The document `main` writes for the given lines. */
  function Migrated(lines: seq<string>): Document
  {
    var notes := NotesScan(lines, |lines|).1;
    Document(Version, Date, Source, if notes != [] then notes else DefaultNotes,
      Scan(lines, |lines|).tally.vars)
  }

  /** `main`, less the reading and writing of files. */
  method MigrateVariables(lines: seq<string>) returns (doc: Document)
    ensures doc == Migrated(lines)
  {
    var tally := ScanLines(lines);
    var notes := CollectNotes(lines);
    doc := Document(Version, Date, Source, if notes != [] then notes else DefaultNotes, tally.vars);
  }

  /** The loop over the lines, with the tables it finds. */
  method ScanLines(lines: seq<string>) returns (tally: Tally)
    ensures tally == Scan(lines, |lines|).tally
  {
    var current: Option<Table> := None;
    tally := Tally(map[], []);
    var i := 0;
    while i < |lines|
      invariant i <= |lines|
      invariant State(current, tally) == Scan(lines, i)
    {
      current, tally := ReadLine(lines, i, current, tally);
      i := i + 1;
    }
  }

  /** One pass of the loop over the lines: a heading, a table, or nothing. */
  method ReadLine(lines: seq<string>, i: nat, current0: Option<Table>, tally0: Tally)
    returns (current: Option<Table>, tally: Tally)
    requires i < |lines|
    ensures State(current, tally) == LineStep(lines, i, State(current0, tally0))
  {
    var stripped := Strip(lines[i]);
    current := Heading(stripped, current0);
    tally := tally0;
    if StartsTable(current, stripped) {
      var rows := ParseTableRows(lines, i);
      tally := AddTable(current, rows, tally);
      current := None;
    }
  }

  /** The loop over the rows of one parsed table. */
  method AddTable(t: Option<Table>, rows: seq<seq<string>>, tl: Tally) returns (r: Tally)
    ensures r == AddRows(t, rows, |rows|, tl)
  {
    r := tl;
    var j := 0;
    while j < |rows|
      invariant j <= |rows|
      invariant r == AddRows(t, rows, j, tl)
    {
      r := ConvertRow(t, rows[j], r);
      AddRowsStep(t, rows, j + 1, tl);
      j := j + 1;
    }
  }

  /** One row: a normalization-quality record, a numbered record, or nothing. */
  method ConvertRow(t: Option<Table>, row: seq<string>, tl: Tally) returns (r: Tally)
    ensures r == AddRow(t, row, tl)
  {
    if t == Some(NormalizationQuality) && |row| >= 5 {
      var v := ConvertNqRow(row);
      return Tally(tl.counters, tl.vars + [v]);
    } else if |row| >= 5 {
      var name, version := ReadName(row[0]);
      if name == "" || name == "Variable" {
        RowIntoSkipped(NameAndVersion, t, row, tl);
        return tl;
      }
      r := CountRow(t, name, version, row, tl);
      RowIntoCounted(NameAndVersion, t, row, tl);
      return;
    }
    return tl;
  }

  /** An ordinary row with a usable name: bump the table's counter, number the record. */
  method CountRow(t: Option<Table>, name: string, version: string, row: seq<string>, tl: Tally) returns (r: Tally)
    requires |row| >= 5
    ensures r == AddCounted(t, name, version, row, tl)
  {
    var n := Count(tl.counters, t) + 1;
    var v := ConvertCountedRow(t, n, name, version, row);
    r := Tally(Bump(tl.counters, t), tl.vars + [v]);
  }

  /** The name and version of a row's first cell. */
  method ReadName(cell: string) returns (name: string, version: string)
    ensures (name, version) == NameAndVersion(cell)
  {
    var raw;
    raw, version := ExtractNameAndVersion(cell).0, ExtractNameAndVersion(cell).1;
    name := CleanText(raw);
  }

  /** The record of a normalization-quality row. */
  method ConvertNqRow(row: seq<string>) returns (v: Variable)
    requires |row| >= 5
    ensures v == NqRecord(row)
  {
    var code := CleanText(row[0]);
    var name := CleanText(row[1]);
    var nqType := CleanText(row[2]);
    var desc := CleanText(row[3]);
    var threshold := CleanText(row[4]);
    v := Variable(code, name, Some(NormalizationQuality), "", "", desc,
      "Med", "v1.4", Some(12), [], "Mixed", Some(NqFields(nqType, threshold)));
  }

  /** The record of an ordinary row, numbered `n`. */
  method ConvertCountedRow(t: Option<Table>, n: nat, name: string, version: string, row: seq<string>) returns (v: Variable)
    requires |row| >= 5
    ensures v == CountedRecord(t, n, name, version, row)
  {
    var value := CleanText(row[1]);
    var trend := CleanText(row[2]);
    var insight := CleanText(row[3]);
    var confidence := CleanText(row[4]);
    v := Variable(AssignId(t, n), name, t, value, trend, insight,
      StripChars(confidence, {'[', ']'}), version, None, [], "Mixed", None);
  }

  /** The loop that collects the monitoring notes. */
  method CollectNotes(lines: seq<string>) returns (notes: seq<string>)
    ensures notes == NotesScan(lines, |lines|).1
  {
    notes := [];
    var open := false;
    var i := 0;
    while i < |lines|
      invariant i <= |lines|
      invariant (open, notes) == NotesScan(lines, i)
    {
      var stripped := Strip(lines[i]);
      if NotesMarker(stripped) {
        open := true;
      }
      if open {
        var note := ReadNote(lines[i]);
        notes := notes + note;
      }
      i := i + 1;
    }
  }

  /** The note line `line` adds once the notes are open. */
  method ReadNote(line: string) returns (note: seq<string>)
    ensures note == NoteOf(line)
  {
    var stripped := Strip(line);
    note := [];
    if StartsWith(stripped, "*") {
      var text := CleanText(StripChars(stripped, {'*'}));
      if text != "" {
        note := [text];
      }
    }
  }

  // ---------------------------------------------------------------- numbering

  /** The identifiers of the numbered records (all but normalization quality) of table `u`, in order. */
  function CountedIds(vars: seq<Variable>, u: Option<Table>): seq<string>
  {
    if vars == [] then []
    else
      var v := vars[|vars| - 1];
      CountedIds(vars[..|vars| - 1], u) + (if v.nq.None? && v.table == u then [v.id] else [])
  }

  /** The identifiers `u-01`, `u-02`, ..., up to number `n`, in order. */
  function Numbers(u: Option<Table>, n: nat): (ids: seq<string>)
    ensures |ids| == n
  {
    if n == 0 then [] else Numbers(u, n - 1) + [AssignId(u, n)]
  }

  /** The fixed fields of a record, and what the skip rule guarantees of a numbered one. */
  predicate WellFormed(v: Variable)
  {
    v.crossRefs == [] && v.epistemicTag == "Mixed" &&
    if v.nq.Some? then
      v.table == Some(NormalizationQuality) && v.currentValue == "" && v.trend == "" &&
      v.confidence == "Med" && v.versionAdded == "v1.4" && v.sessionAdded == Some(12)
    else
      v.table != Some(NormalizationQuality) && v.sessionAdded.None? &&
      v.name != "" && v.name != "Variable" &&
      |v.id| >= 5 && v.id[..2] == Prefix(v.table) && v.id[2] == '-'
  }

  /** Numbered records of different positions have different identifiers. */
  predicate DistinctIds(vars: seq<Variable>)
  {
    forall i, j :: 0 <= i < j < |vars| && vars[i].nq.None? && vars[j].nq.None? ==> vars[i].id != vars[j].id
  }

  /**
   * What the tally keeps: each table's numbered records carry `01` up to its
   * counter, with no gap, in order; the normalization-quality counter is never
   * used; every record is well formed; numbered identifiers are unique.
   */
  ghost predicate Numbered(tl: Tally)
  {
    Count(tl.counters, Some(NormalizationQuality)) == 0 &&
    (forall u :: CountedIds(tl.vars, u) == Numbers(u, Count(tl.counters, u))) &&
    (forall i :: 0 <= i < |tl.vars| ==> WellFormed(tl.vars[i])) &&
    DistinctIds(tl.vars)
  }

  lemma CountedIdsAppend(vars: seq<Variable>, v: Variable, u: Option<Table>)
    ensures CountedIds(vars + [v], u) == CountedIds(vars, u) + (if v.nq.None? && v.table == u then [v.id] else [])
  {
    assert (vars + [v])[..|vars|] == vars;
  }

  /** A numbered record's identifier is among its table's identifiers. */
  lemma {:induction false} CountedIdsMember(vars: seq<Variable>, i: nat)
    requires i < |vars| && vars[i].nq.None?
    ensures vars[i].id in CountedIds(vars, vars[i].table)
  {
    var front := vars[..|vars| - 1];
    assert vars == front + [vars[|vars| - 1]];
    CountedIdsAppend(front, vars[|vars| - 1], vars[i].table);
    if i < |vars| - 1 {
      CountedIdsMember(front, i);
    }
  }

  /** Every identifier of `Numbers(u, n)` is `AssignId(u, k)` for some `1 <= k <= n`. */
  lemma {:induction false} NumbersMember(u: Option<Table>, n: nat, id: string) returns (k: nat)
    requires id in Numbers(u, n)
    ensures 1 <= k <= n && id == AssignId(u, k)
  {
    if id == AssignId(u, n) {
      k := n;
    } else {
      k := NumbersMember(u, n - 1, id);
    }
  }

  /** The `k`-th identifier of a table is `AssignId(u, k + 1)`. */
  lemma {:induction false} NumbersAt(u: Option<Table>, n: nat, k: nat)
    requires k < n
    ensures Numbers(u, n)[k] == AssignId(u, k + 1)
  {
    if k < n - 1 {
      NumbersAt(u, n - 1, k);
    }
  }

  /** Identifiers of two different tables never coincide. */
  lemma NumbersDisjoint(u: Option<Table>, n: nat, w: Option<Table>, m: nat, id: string)
    requires u != w && id in Numbers(u, n)
    ensures id !in Numbers(w, m)
  {
    var k := NumbersMember(u, n, id);
    if id in Numbers(w, m) {
      var l := NumbersMember(w, m, id);
      AssignIdInjective(u, k, w, l);
    }
  }

  // ---------------------------------------------------------------- the numbering is kept

  /** Appending a well-formed record that is not numbered keeps the invariant. */
  lemma AppendUnnumbered(tl: Tally, v: Variable)
    requires Numbered(tl) && WellFormed(v) && v.nq.Some?
    ensures Numbered(Tally(tl.counters, tl.vars + [v]))
  {
    var vars := tl.vars + [v];
    forall u
      ensures CountedIds(vars, u) == Numbers(u, Count(tl.counters, u))
    {
      CountedIdsAppend(tl.vars, v, u);
    }
    assert forall i :: 0 <= i < |tl.vars| ==> vars[i] == tl.vars[i];
  }

  /** Appending the next numbered record of table `t` keeps the invariant. */
  lemma AppendNumbered(tl: Tally, t: Option<Table>, v: Variable)
    requires Numbered(tl) && WellFormed(v) && v.nq.None? && v.table == t
    requires v.id == AssignId(t, Count(tl.counters, t) + 1)
    ensures Numbered(Tally(Bump(tl.counters, t), tl.vars + [v]))
  {
    var c := Bump(tl.counters, t);
    var vars := tl.vars + [v];
    BumpOthers(tl.counters, t, Some(NormalizationQuality));
    forall u
      ensures CountedIds(vars, u) == Numbers(u, Count(c, u))
    {
      CountedIdsAppend(tl.vars, v, u);
      if u != t {
        BumpOthers(tl.counters, t, u);
      }
    }
    forall i | 0 <= i < |tl.vars| && tl.vars[i].nq.None?
      ensures tl.vars[i].id != v.id
    {
      var w := tl.vars[i].table;
      CountedIdsMember(tl.vars, i);
      var k := NumbersMember(w, Count(tl.counters, w), tl.vars[i].id);
      if tl.vars[i].id == v.id {
        AssignIdInjective(w, k, t, Count(tl.counters, t) + 1);
      }
    }
    assert forall i :: 0 <= i < |tl.vars| ==> vars[i] == tl.vars[i];
  }

  /** `AddRow` keeps the numbering invariant. */
  lemma AddRowNumbered(t: Option<Table>, row: seq<string>, tl: Tally)
    requires Numbered(tl)
    ensures Numbered(AddRow(t, row, tl))
  {
    if t == Some(NormalizationQuality) && |row| >= 5 {
      RowIntoNq(NameAndVersion, t, row, tl);
      AppendUnnumbered(tl, NqRecord(row));
    } else if |row| >= 5 {
      var name := NameAndVersion(row[0]).0;
      if name == "" || name == "Variable" {
        RowIntoSkipped(NameAndVersion, t, row, tl);
      } else {
        AddCountedNumbered(t, row, tl, name);
      }
    } else {
      RowIntoShort(NameAndVersion, t, row, tl);
    }
  }

  /** A counted row keeps the numbering invariant. */
  lemma AddCountedNumbered(t: Option<Table>, row: seq<string>, tl: Tally, name: string)
    requires Numbered(tl) && t != Some(NormalizationQuality) && |row| >= 5
    requires name == NameAndVersion(row[0]).0 && name != "" && name != "Variable"
    ensures Numbered(AddRow(t, row, tl))
  {
    RowIntoCounted(NameAndVersion, t, row, tl);
    var n := Count(tl.counters, t) + 1;
    AppendNumbered(tl, t, CountedRecord(t, n, name, NameAndVersion(row[0]).1, row));
  }

  /** `AddRows` is `AddRow` applied row after row. */
  lemma AddRowsStep(t: Option<Table>, rows: seq<seq<string>>, n: nat, tl: Tally)
    requires 0 < n <= |rows|
    ensures AddRows(t, rows, n, tl) == AddRow(t, rows[n - 1], AddRows(t, rows, n - 1, tl))
  {
  }

  /** The rows of a table keep the numbering invariant. */
  lemma {:induction false} AddRowsNumbered(t: Option<Table>, rows: seq<seq<string>>, n: nat, tl: Tally)
    requires n <= |rows| && Numbered(tl)
    ensures Numbered(AddRows(t, rows, n, tl))
  {
    if n > 0 {
      AddRowsNumbered(t, rows, n - 1, tl);
      AddRowNumbered(t, rows[n - 1], AddRows(t, rows, n - 1, tl));
      AddRowsStep(t, rows, n, tl);
    }
  }

  /** Every prefix of the document keeps the numbering invariant. */
  lemma {:induction false} ScanNumbered(lines: seq<string>, n: nat)
    requires n <= |lines|
    ensures Numbered(Scan(lines, n).tally)
  {
    if n > 0 {
      ScanNumbered(lines, n - 1);
      var st := Scan(lines, n - 1);
      var stripped := Strip(lines[n - 1]);
      var current := Heading(stripped, st.current);
      if StartsTable(current, stripped) {
        var rows := TableRows(lines, n - 1);
        AddRowsNumbered(current, rows, |rows|, st.tally);
      }
    }
  }

  /**
   * The entries `main` writes: every record well formed, the numbered ones of
   * each table carrying `01` up to that table's final counter without gap and
   * in order, none of them in the normalization-quality table, and no
   * identifier of a numbered record repeated.
   */
  lemma MigratedNumbered(lines: seq<string>)
    ensures var doc := Migrated(lines);
      (forall i :: 0 <= i < |doc.entries| ==> WellFormed(doc.entries[i])) &&
      (forall u :: CountedIds(doc.entries, u) == Numbers(u, Count(Scan(lines, |lines|).tally.counters, u))) &&
      CountedIds(doc.entries, Some(NormalizationQuality)) == [] &&
      DistinctIds(doc.entries)
  {
    ScanNumbered(lines, |lines|);
  }

  // ---------------------------------------------------------------- one row, one table

  /** A row yields a record: five cells, and a usable name unless it is a normalization-quality row. */
  predicate Kept(t: Option<Table>, row: seq<string>)
  {
    |row| >= 5 && (t == Some(NormalizationQuality) ||
      (NameAndVersion(row[0]).0 != "" && NameAndVersion(row[0]).0 != "Variable"))
  }

  /**
   * What one row does: a skipped row changes nothing; a kept row appends one
   * record; a normalization-quality record leaves the counters alone; any other
   * record bumps its table's counter and takes the bumped number as its identifier.
   */
  lemma AddRowEffect(t: Option<Table>, row: seq<string>, tl: Tally)
    ensures !Kept(t, row) ==> AddRow(t, row, tl) == tl
    ensures Kept(t, row) ==>
      (|AddRow(t, row, tl).vars| == |tl.vars| + 1 &&
       AddRow(t, row, tl).vars[..|tl.vars|] == tl.vars && AddRow(t, row, tl).vars[|tl.vars|].table == t)
    ensures Kept(t, row) && t == Some(NormalizationQuality) ==>
      (AddRow(t, row, tl).counters == tl.counters && AddRow(t, row, tl).vars == tl.vars + [NqRecord(row)])
    ensures Kept(t, row) && t != Some(NormalizationQuality) ==>
      (Count(AddRow(t, row, tl).counters, t) == Count(tl.counters, t) + 1 &&
       AddRow(t, row, tl).vars[|tl.vars|].id == AssignId(t, Count(tl.counters, t) + 1))
  {
    if t == Some(NormalizationQuality) && |row| >= 5 {
      RowIntoNq(NameAndVersion, t, row, tl);
    } else if |row| >= 5 {
      var name := NameAndVersion(row[0]).0;
      if name == "" || name == "Variable" {
        RowIntoSkipped(NameAndVersion, t, row, tl);
      } else {
        RowIntoCounted(NameAndVersion, t, row, tl);
      }
    } else {
      RowIntoShort(NameAndVersion, t, row, tl);
    }
  }

  /** `b` is `a` followed by records of table `t` only. */
  predicate ExtendedBy(a: seq<Variable>, b: seq<Variable>, t: Option<Table>)
  {
    |a| <= |b| && b[..|a|] == a && forall i :: |a| <= i < |b| ==> b[i].table == t
  }

  lemma ExtendedByTrans(a: seq<Variable>, b: seq<Variable>, c: seq<Variable>, t: Option<Table>)
    requires ExtendedBy(a, b, t) && ExtendedBy(b, c, t)
    ensures ExtendedBy(a, c, t)
  {
    assert c[..|a|] == c[..|b|][..|a|];
  }

  lemma ExtendedBySelf(a: seq<Variable>, t: Option<Table>)
    ensures ExtendedBy(a, a, t)
  {
    assert a[..|a|] == a;
  }

  /** One row extends the records by at most one record of its table. */
  lemma AddRowExtends(t: Option<Table>, row: seq<string>, tl: Tally)
    ensures ExtendedBy(tl.vars, AddRow(t, row, tl).vars, t)
    ensures |AddRow(t, row, tl).vars| <= |tl.vars| + 1
  {
    AddRowEffect(t, row, tl);
    if !Kept(t, row) {
      ExtendedBySelf(tl.vars, t);
    }
  }

  /** A row after an extension of `a` still extends `a`. */
  lemma RowExtendsFurther(t: Option<Table>, row: seq<string>, a: seq<Variable>, mid: Tally)
    requires ExtendedBy(a, mid.vars, t)
    ensures ExtendedBy(a, AddRow(t, row, mid).vars, t)
    ensures |AddRow(t, row, mid).vars| <= |mid.vars| + 1
  {
    AddRowExtends(t, row, mid);
    ExtendedByTrans(a, mid.vars, AddRow(t, row, mid).vars, t);
  }

  /**
   * A table's rows extend the records: the earlier records stay in front, at
   * most one record is added per row, and every added record belongs to the table.
   */
  lemma {:induction false} AddRowsExtends(t: Option<Table>, rows: seq<seq<string>>, n: nat, tl: Tally)
    requires n <= |rows|
    ensures ExtendedBy(tl.vars, AddRows(t, rows, n, tl).vars, t)
    ensures |AddRows(t, rows, n, tl).vars| <= |tl.vars| + n
  {
    if n > 0 {
      AddRowsStep(t, rows, n, tl);
      AddRowsExtends(t, rows, n - 1, tl);
      RowExtendsFurther(t, rows[n - 1], tl.vars, AddRows(t, rows, n - 1, tl));
    } else {
      ExtendedBySelf(tl.vars, t);
    }
  }

  /**
   * By the precedence of `and` over `or`, a `| Code` line opens a table even
   * with no current table, while a `| Variable` line needs one.
   */
  lemma StartsTableWithoutHeading(stripped: string)
    ensures StartsTable(None, stripped) <==> StartsWith(stripped, "| Code")
    ensures StartsWith(stripped, "| Variable") ==> StartsTable(Some(Stock), stripped)
    ensures !StartsTable(None, "| Variable | Value |")
  {
    var v := "| Variable | Value |";
    assert v[..6][2] != "| Code"[2];
  }

  // ---------------------------------------------------------------- the notes

  /**
   * The notes open at the first marker line and stay open: after `n` lines they
   * are open exactly when a marker occurs among them, and hold the notes of the
   * lines from the first marker on.
   */
  lemma {:induction false} NotesScanFromMarker(lines: seq<string>, n: nat)
    requires n <= |lines|
    ensures var m := FirstMarker(lines, 0);
      (NotesScan(lines, n).0 <==> m.Some? && m.value < n) &&
      NotesScan(lines, n).1 == (if m.Some? && m.value < n then NotesBetween(lines, m.value, n) else [])
  {
    if n > 0 {
      NotesScanFromMarker(lines, n - 1);
      var m := FirstMarker(lines, 0);
      if m.Some? && m.value == n - 1 {
        assert NotesBetween(lines, m.value, n - 1) == [];
      }
    }
  }

  /** Every collected note has text. */
  lemma {:induction false} NotesBetweenNonEmpty(lines: seq<string>, from: nat, n: nat)
    requires from <= n <= |lines|
    ensures forall k :: 0 <= k < |NotesBetween(lines, from, n)| ==> NotesBetween(lines, from, n)[k] != ""
  {
    if n > from {
      NotesBetweenNonEmpty(lines, from, n - 1);
    }
  }

  /**
   * The document's notes: those of the lines from the first marker on, or the
   * three default notes when there are none; never an empty list, never an empty note.
   */
  lemma MigratedNotes(lines: seq<string>)
    ensures var m := FirstMarker(lines, 0);
      var found := if m.Some? then NotesBetween(lines, m.value, |lines|) else [];
      Migrated(lines).monitoringNotes == (if found != [] then found else DefaultNotes)
    ensures Migrated(lines).monitoringNotes != []
    ensures forall k :: 0 <= k < |Migrated(lines).monitoringNotes| ==> Migrated(lines).monitoringNotes[k] != ""
  {
    NotesScanFromMarker(lines, |lines|);
    var m := FirstMarker(lines, 0);
    if m.Some? {
      NotesBetweenNonEmpty(lines, m.value, |lines|);
    }
  }
}
