/**
 * build.py: loads the entity collections and their metadata into a template
 * context, offers the templates the helpers `filter_by` and `sort_by`, and
 * renders the selected reports, passing over any whose template is missing.
 *
 * Files are a map from data file name to loaded content; the Jinja2
 * rendering is an oracle `render(template, context)`.
 */
module Build {
  import opened Wrappers
  import opened Yaml
  import opened Text
  import Validate

  // ---------------------------------------------------------------- loading

  /** build.py's `load_yaml`: the whole document, or an empty list for a missing or empty file. */
  function LoadDocument(file: Option<Value>): (data: Value)
    ensures file.None? || file == Some(Null) ==> data == List([])
    ensures file.Some? && file.value != Null ==> data == file.value
  {
    match file
    case None => List([])
    case Some(Null) => List([])
    case Some(v) => v
  }

  /** `load_entries`: the value under `entries` of a mapping, a list itself, and otherwise nothing. */
  function LoadEntries(file: Option<Value>): (entries: Value)
    ensures LoadDocument(file).Dict? && "entries" in LoadDocument(file).fields ==> entries == LoadDocument(file).fields["entries"]
    ensures LoadDocument(file).List? ==> entries == LoadDocument(file)
    ensures !LoadDocument(file).List? && !(LoadDocument(file).Dict? && "entries" in LoadDocument(file).fields) ==> entries == List([])
  {
    var data := LoadDocument(file);
    if data.Dict? && "entries" in data.fields then data.fields["entries"]
    else if data.List? then data
    else List([])
  }

  /** `load_metadata`: every top-level key of a mapping except `entries`. */
  function LoadMetadata(file: Option<Value>): (meta: map<string, Value>)
    ensures LoadDocument(file).Dict? ==> meta.Keys == LoadDocument(file).fields.Keys - {"entries"}
    ensures LoadDocument(file).Dict? ==> forall k | k in meta :: meta[k] == LoadDocument(file).fields[k]
    ensures !LoadDocument(file).Dict? ==> meta == map[]
  {
    var data := LoadDocument(file);
    if data.Dict? then map k | k in data.fields && k != "entries" :: data.fields[k] else map[]
  }

  /** build.py and validate.py read the entity list of a file the same way. */
  lemma LoadEntriesAgrees(file: Option<Value>)
    ensures LoadEntries(file) == Validate.LoadYaml(file)
  {
  }

  /** The metadata and the entries of a mapping put it back together. */
  lemma MetadataRoundTrip(fields: map<string, Value>)
    ensures "entries" in fields ==> LoadMetadata(Some(Dict(fields)))["entries" := LoadEntries(Some(Dict(fields)))] == fields
    ensures "entries" !in fields ==> LoadMetadata(Some(Dict(fields))) == fields
  {
    var meta := LoadMetadata(Some(Dict(fields)));
    if "entries" in fields {
      assert meta["entries" := fields["entries"]] == fields;
    } else {
      assert meta == fields;
    }
  }

  // ---------------------------------------------------------------- filter_by

  /** `filter_by`: the items whose value under `key` (`None` when missing) is `value`, in order. */
  function FilterBy(items: seq<Record>, key: string, value: Value): (r: seq<Record>)
    ensures |r| <= |items|
    ensures forall x | x in r :: x in items && Get(x, key, Null) == value
  {
    if items == [] then []
    else
      var last := items[|items| - 1];
      FilterBy(items[..|items| - 1], key, value) + (if Get(last, key, Null) == value then [last] else [])
  }

  /** Filtering a concatenation filters each part: the kept items stay in their order. */
  lemma {:induction false} FilterByAppend(a: seq<Record>, b: seq<Record>, key: string, value: Value)
    ensures FilterBy(a + b, key, value) == FilterBy(a, key, value) + FilterBy(b, key, value)
    decreases |b|
  {
    if b == [] {
      assert a + b == a;
    } else {
      var init := b[..|b| - 1];
      assert (a + b)[..|a + b| - 1] == a + init;
      assert (a + b)[|a + b| - 1] == b[|b| - 1];
      FilterByAppend(a, init, key, value);
    }
  }

  /** Every matching item is kept as often as it occurs; no other item is. */
  lemma {:induction false} FilterByCounts(items: seq<Record>, key: string, value: Value, x: Record)
    ensures multiset(FilterBy(items, key, value))[x] == if Get(x, key, Null) == value then multiset(items)[x] else 0
  {
    if items != [] {
      var init := items[..|items| - 1];
      assert items == init + [items[|items| - 1]];
      FilterByCounts(init, key, value, x);
    }
  }

  // ---------------------------------------------------------------- sort_by

  /** The `sort_by` key of an item: its string under `key`, `""` when missing. */
  function KeyOf(item: Record, key: string): string
  {
    if key in item && item[key].Str? then item[key].s else ""
  }

  /** Every item's sort key is a string or missing, so Python can compare them. */
  predicate StringKeys(items: seq<Record>, key: string)
  {
    forall k :: 0 <= k < |items| ==> key !in items[k] || items[k][key].Str?
  }

  /** `a` may come before `b`: ascending order of keys, or descending when `reverse`. */
  predicate Before(reverse: bool, a: string, b: string)
  {
    if reverse then StrLe(b, a) else StrLe(a, b)
  }

  /** Places `x` just before the first item it may precede. */
  function Insert(x: Record, sorted: seq<Record>, key: string, reverse: bool): (r: seq<Record>)
    ensures multiset(r) == multiset(sorted) + multiset{x}
  {
    if sorted == [] then [x]
    else if Before(reverse, KeyOf(x, key), KeyOf(sorted[0], key)) then [x] + sorted
    else
      assert sorted == [sorted[0]] + sorted[1..];
      [sorted[0]] + Insert(x, sorted[1..], key, reverse)
  }

  /**
   * `sort_by`: Python's stable `sorted` by `KeyOf`, reversed when asked (the
   * reversal keeps equal keys in their original order).
   */
  function SortBy(items: seq<Record>, key: string, reverse: bool): (r: seq<Record>)
    requires StringKeys(items, key)
    ensures multiset(r) == multiset(items)
  {
    if items == [] then []
    else
      assert items == [items[0]] + items[1..];
      Insert(items[0], SortBy(items[1..], key, reverse), key, reverse)
  }

  predicate Sorted(s: seq<Record>, key: string, reverse: bool)
  {
    forall i, j :: 0 <= i < j < |s| ==> Before(reverse, KeyOf(s[i], key), KeyOf(s[j], key))
  }

  lemma BeforeTotal(reverse: bool, a: string, b: string)
    ensures Before(reverse, a, b) || Before(reverse, b, a)
  {
    StrLeTotal(a, b);
  }

  lemma BeforeTransitive(reverse: bool, a: string, b: string, c: string)
    requires Before(reverse, a, b) && Before(reverse, b, c)
    ensures Before(reverse, a, c)
  {
    if reverse {
      StrLeTransitive(c, b, a);
    } else {
      StrLeTransitive(a, b, c);
    }
  }

  lemma {:induction false} StrLeReflexive(a: string)
    ensures StrLe(a, a)
  {
    if |a| > 0 {
      StrLeReflexive(a[1..]);
    }
  }

  /** Every item of `s` may follow `x`. */
  predicate AllAfter(x: Record, s: seq<Record>, key: string, reverse: bool)
  {
    forall i :: 0 <= i < |s| ==> Before(reverse, KeyOf(x, key), KeyOf(s[i], key))
  }

  lemma {:induction false} InsertSorted(x: Record, s: seq<Record>, key: string, reverse: bool)
    requires Sorted(s, key, reverse)
    ensures Sorted(Insert(x, s, key, reverse), key, reverse)
    decreases |s|
  {
    if s != [] {
      var kx := KeyOf(x, key);
      if Before(reverse, kx, KeyOf(s[0], key)) {
        forall i | 0 <= i < |s| ensures Before(reverse, kx, KeyOf(s[i], key)) {
          if i > 0 {
            BeforeTransitive(reverse, kx, KeyOf(s[0], key), KeyOf(s[i], key));
          }
        }
        SortedCons(x, s, key, reverse);
      } else {
        BeforeTotal(reverse, kx, KeyOf(s[0], key));
        InsertSorted(x, s[1..], key, reverse);
        var rest := Insert(x, s[1..], key, reverse);
        InsertElements(x, s[1..], key, reverse);
        forall i | 0 <= i < |rest| ensures Before(reverse, KeyOf(s[0], key), KeyOf(rest[i], key)) {
          assert rest[i] in rest;
          if rest[i] != x {
            var j :| 0 <= j < |s[1..]| && rest[i] == s[1..][j];
            assert s[1..][j] == s[j + 1];
          }
        }
        SortedCons(s[0], rest, key, reverse);
      }
    }
  }

  /** What `Insert` returns holds `x` and the items of `s`, and nothing else. */
  lemma InsertElements(x: Record, s: seq<Record>, key: string, reverse: bool)
    ensures forall y | y in Insert(x, s, key, reverse) :: y == x || exists j :: 0 <= j < |s| && y == s[j]
  {
    var r := Insert(x, s, key, reverse);
    forall y | y in r ensures y == x || exists j :: 0 <= j < |s| && y == s[j] {
      assert y in multiset(r);
      if y != x {
        assert y in multiset(s);
        assert y in s;
      }
    }
  }

  lemma SortedCons(x: Record, s: seq<Record>, key: string, reverse: bool)
    requires Sorted(s, key, reverse) && AllAfter(x, s, key, reverse)
    ensures Sorted([x] + s, key, reverse)
  {
    var r := [x] + s;
    forall i, j | 0 <= i < j < |r| ensures Before(reverse, KeyOf(r[i], key), KeyOf(r[j], key)) {
      assert r[j] == s[j - 1];
      if i > 0 {
        assert r[i] == s[i - 1];
      }
    }
  }

  /** `sort_by` orders the items by key: ascending, or descending when `reverse`. */
  lemma {:induction false} SortBySorted(items: seq<Record>, key: string, reverse: bool)
    requires StringKeys(items, key)
    ensures Sorted(SortBy(items, key, reverse), key, reverse)
  {
    if items != [] {
      SortBySorted(items[1..], key, reverse);
      InsertSorted(items[0], SortBy(items[1..], key, reverse), key, reverse);
    }
  }

  /** The items whose sort key is `k`, in order. */
  function WithKey(s: seq<Record>, key: string, k: string): seq<Record>
  {
    if s == [] then []
    else (if KeyOf(s[0], key) == k then [s[0]] else []) + WithKey(s[1..], key, k)
  }

  /** `Insert` puts `x` ahead of every item with the same key. */
  lemma {:induction false} InsertWithKey(x: Record, s: seq<Record>, key: string, reverse: bool, k: string)
    ensures WithKey(Insert(x, s, key, reverse), key, k)
         == (if KeyOf(x, key) == k then [x] else []) + WithKey(s, key, k)
    decreases |s|
  {
    if s == [] {
      WithKeyCons(x, [], key, k);
    } else if Before(reverse, KeyOf(x, key), KeyOf(s[0], key)) {
      WithKeyCons(x, s, key, k);
    } else {
      InsertWithKey(x, s[1..], key, reverse, k);
      InsertPast(x, s, key, reverse, k);
    }
  }

  /** `x` moves past `s[0]`, whose key differs, so the items with key `k` keep their order. */
  lemma InsertPast(x: Record, s: seq<Record>, key: string, reverse: bool, k: string)
    requires s != [] && !Before(reverse, KeyOf(x, key), KeyOf(s[0], key))
    requires WithKey(Insert(x, s[1..], key, reverse), key, k)
          == (if KeyOf(x, key) == k then [x] else []) + WithKey(s[1..], key, k)
    ensures WithKey(Insert(x, s, key, reverse), key, k)
         == (if KeyOf(x, key) == k then [x] else []) + WithKey(s, key, k)
  {
    var rest := Insert(x, s[1..], key, reverse);
    InsertUnfold(x, s, key, reverse);
    WithKeyCons(s[0], rest, key, k);
    KeyMoves(reverse, KeyOf(x, key), KeyOf(s[0], key));
    WithKeyUnfold(s, key, k);
    SwapEmpty(if KeyOf(s[0], key) == k then [s[0]] else [], if KeyOf(x, key) == k then [x] else [], WithKey(s[1..], key, k));
  }

  lemma WithKeyUnfold(s: seq<Record>, key: string, k: string)
    requires s != []
    ensures WithKey(s, key, k) == (if KeyOf(s[0], key) == k then [s[0]] else []) + WithKey(s[1..], key, k)
  {
  }

  /** Two pieces of which one is empty commute in front of a third. */
  lemma SwapEmpty(a: seq<Record>, b: seq<Record>, w: seq<Record>)
    requires a == [] || b == []
    ensures a + (b + w) == b + (a + w)
  {
    if a == [] {
      assert a + (b + w) == b + w == b + (a + w);
    } else {
      assert a + (b + w) == a + w == b + (a + w);
    }
  }

  lemma InsertUnfold(x: Record, s: seq<Record>, key: string, reverse: bool)
    requires s != [] && !Before(reverse, KeyOf(x, key), KeyOf(s[0], key))
    ensures Insert(x, s, key, reverse) == [s[0]] + Insert(x, s[1..], key, reverse)
  {
  }

  /** `x` only moves past items with another key. */
  lemma KeyMoves(reverse: bool, a: string, b: string)
    requires !Before(reverse, a, b)
    ensures a != b
  {
    StrLeReflexive(a);
  }

  lemma WithKeyCons(x: Record, s: seq<Record>, key: string, k: string)
    ensures WithKey([x] + s, key, k) == (if KeyOf(x, key) == k then [x] else []) + WithKey(s, key, k)
  {
    assert ([x] + s)[1..] == s;
  }

  /**
   * `sort_by` is stable: the items sharing any one key keep their original
   * order.
   */
  lemma {:induction false} SortByStable(items: seq<Record>, key: string, reverse: bool, k: string)
    requires StringKeys(items, key)
    ensures WithKey(SortBy(items, key, reverse), key, k) == WithKey(items, key, k)
  {
    if items != [] {
      SortByStable(items[1..], key, reverse, k);
      InsertWithKey(items[0], SortBy(items[1..], key, reverse), key, reverse, k);
    }
  }

  // ---------------------------------------------------------------- reports

  /** An entry of the report map: name, template file, output file. */
  datatype Report = Report(name: string, template: string, output: string)

  /** The report map, in its order. */
  const Reports: seq<Report> := [
    Report("variables", "app_variables.md.j2", "APPENDIX_VARIABLES.md"),
    Report("gaps", "app_gaps.md.j2", "APPENDIX_GAPS.md"),
    Report("traps", "isa_traps.md.j2", "ISA_TRAPS.md"),
    Report("scenarios", "isa_scenarios.md.j2", "ISA_SCENARIOS.md"),
    Report("index", "master_index.md.j2", "00_MASTER_INDEX.md")
  ]

  /** The reports of `rs` named in `targets`, in the order of `rs`. */
  function Named(rs: seq<Report>, targets: seq<string>): (r: seq<Report>)
    ensures forall x :: x in r <==> x in rs && x.name in targets
  {
    if rs == [] then []
    else
      var last := rs[|rs| - 1];
      Named(rs[..|rs| - 1], targets) + (if last.name in targets then [last] else [])
  }

  /** The reports `build_all` renders: those named in `targets`, or all when there are none. */
  function SelectReports(targets: seq<string>): seq<Report>
  {
    if targets == [] then Reports else Named(Reports, targets)
  }

  /** Selection keeps the order of the report map and drops exactly the unnamed reports. */
  lemma {:induction false} NamedAppend(a: seq<Report>, b: seq<Report>, targets: seq<string>)
    ensures Named(a + b, targets) == Named(a, targets) + Named(b, targets)
    decreases |b|
  {
    if b == [] {
      assert a + b == a;
    } else {
      var init := b[..|b| - 1];
      assert (a + b)[..|a + b| - 1] == a + init;
      assert (a + b)[|a + b| - 1] == b[|b| - 1];
      NamedAppend(a, init, targets);
    }
  }

  lemma SelectReportsAll(targets: seq<string>)
    ensures targets == [] ==> SelectReports(targets) == Reports && |SelectReports(targets)| == 5
    ensures targets != [] ==> forall x :: x in SelectReports(targets) <==> x in Reports && x.name in targets
  {
  }

  /** What the report loop does: the files it writes, and the names of the reports it passes over. */
  datatype Outputs = Outputs(written: seq<(string, string)>, skipped: seq<string>)

  /**
   * The report loop: a report whose template exists is rendered into its
   * output file; one whose template is missing is passed over, and the loop
   * goes on.
   */
  function Rendered(rs: seq<Report>, templates: set<string>, render: (string, map<string, Value>) -> string, ctx: map<string, Value>): (o: Outputs)
    ensures |o.written| + |o.skipped| == |rs|
  {
    if rs == [] then Outputs([], [])
    else
      var prior := Rendered(rs[..|rs| - 1], templates, render, ctx);
      var r := rs[|rs| - 1];
      if r.template in templates then Outputs(prior.written + [(r.output, render(r.template, ctx))], prior.skipped)
      else Outputs(prior.written, prior.skipped + [r.name])
  }

  /** The reports with a template, in order. */
  function WithTemplate(rs: seq<Report>, templates: set<string>): seq<Report>
  {
    if rs == [] then []
    else
      var last := rs[|rs| - 1];
      WithTemplate(rs[..|rs| - 1], templates) + (if last.template in templates then [last] else [])
  }

  /**
   * A missing template skips only its own report: every report with a
   * template is written, in order, with what its template renders, and the
   * skipped reports are those without one.
   */
  lemma {:induction false} RenderedOutputs(rs: seq<Report>, templates: set<string>, render: (string, map<string, Value>) -> string, ctx: map<string, Value>)
    ensures var o := Rendered(rs, templates, render, ctx);
      var kept := WithTemplate(rs, templates);
      && |o.written| == |kept|
      && (forall i :: 0 <= i < |kept| ==> o.written[i] == (kept[i].output, render(kept[i].template, ctx)))
      && (forall n :: n in o.skipped <==> exists r :: r in rs && r.template !in templates && r.name == n)
  {
    if rs != [] {
      var init := rs[..|rs| - 1];
      RenderedOutputs(init, templates, render, ctx);
      assert forall r :: r in rs <==> r in init || r == rs[|rs| - 1];
    }
  }

  /** The template context: each collection's entries and metadata, and the build date. */
  function Context(files: map<string, Value>, today: string): map<string, Value>
  {
    ContextWith(LoadEntries, LoadMetadata, files, today)
  }

  /** The collections of the context, each with the data file it is read from. */
  const EntryKeys: seq<(string, string)> := [
    ("variables", "variables.yaml"), ("gaps", "gaps.yaml"), ("traps", "traps.yaml"),
    ("observations", "observations.yaml"), ("scenarios", "scenarios.yaml"),
    ("sessions", "sessions.yaml"), ("modules", "modules.yaml")
  ]

  /** The metadata keys of the context, each with the data file it is read from. */
  const MetaKeys: seq<(string, string)> := [
    ("variables_meta", "variables.yaml"), ("gaps_meta", "gaps.yaml"), ("traps_meta", "traps.yaml"),
    ("observations_meta", "observations.yaml"), ("scenarios_meta", "scenarios.yaml")
  ]

  /**
   * The context holds exactly the seven collections, the five metadata
   * mappings and the build date, each read from its own file.
   */
  lemma ContextContents(files: map<string, Value>, today: string)
    ensures Context(files, today).Keys ==
      (set i | 0 <= i < |EntryKeys| :: EntryKeys[i].0) + (set i | 0 <= i < |MetaKeys| :: MetaKeys[i].0) + {"build_date"}
    ensures forall i | 0 <= i < |EntryKeys| ::
      Context(files, today)[EntryKeys[i].0] == LoadEntries(FileOf(files, EntryKeys[i].1))
    ensures forall i | 0 <= i < |MetaKeys| ::
      Context(files, today)[MetaKeys[i].0] == Dict(LoadMetadata(FileOf(files, MetaKeys[i].1)))
    ensures Context(files, today)["build_date"] == Str(today)
  {
    ContextKeys(files, today);
    ContextEntries(files, today);
    ContextMeta(files, today);
  }

  lemma ContextKeys(files: map<string, Value>, today: string)
    ensures Context(files, today).Keys ==
      (set i | 0 <= i < |EntryKeys| :: EntryKeys[i].0) + (set i | 0 <= i < |MetaKeys| :: MetaKeys[i].0) + {"build_date"}
  {
    assert (set i | 0 <= i < |EntryKeys| :: EntryKeys[i].0)
        == {"variables", "gaps", "traps", "observations", "scenarios", "sessions", "modules"} by {
      assert EntryKeys[0].0 == "variables" && EntryKeys[1].0 == "gaps" && EntryKeys[2].0 == "traps";
      assert EntryKeys[3].0 == "observations" && EntryKeys[4].0 == "scenarios";
      assert EntryKeys[5].0 == "sessions" && EntryKeys[6].0 == "modules";
    }
    assert (set i | 0 <= i < |MetaKeys| :: MetaKeys[i].0)
        == {"variables_meta", "gaps_meta", "traps_meta", "observations_meta", "scenarios_meta"} by {
      assert MetaKeys[0].0 == "variables_meta" && MetaKeys[1].0 == "gaps_meta" && MetaKeys[2].0 == "traps_meta";
      assert MetaKeys[3].0 == "observations_meta" && MetaKeys[4].0 == "scenarios_meta";
    }
  }

  lemma ContextEntries(files: map<string, Value>, today: string)
    ensures forall i | 0 <= i < |EntryKeys| ::
      Context(files, today)[EntryKeys[i].0] == LoadEntries(FileOf(files, EntryKeys[i].1))
  {
    forall i | 0 <= i < |EntryKeys|
      ensures Context(files, today)[EntryKeys[i].0] == LoadEntries(FileOf(files, EntryKeys[i].1))
    {
      ContextEntry(files, today, i);
    }
  }

  lemma ContextEntry(files: map<string, Value>, today: string, i: nat)
    requires i < |EntryKeys|
    ensures Context(files, today)[EntryKeys[i].0] == LoadEntries(FileOf(files, EntryKeys[i].1))
  {
    if i == 0 {} else if i == 1 {} else if i == 2 {} else if i == 3 {} else if i == 4 {} else if i == 5 {} else {}
  }

  lemma ContextMeta(files: map<string, Value>, today: string)
    ensures forall i | 0 <= i < |MetaKeys| ::
      Context(files, today)[MetaKeys[i].0] == Dict(LoadMetadata(FileOf(files, MetaKeys[i].1)))
  {
    forall i | 0 <= i < |MetaKeys|
      ensures Context(files, today)[MetaKeys[i].0] == Dict(LoadMetadata(FileOf(files, MetaKeys[i].1)))
    {
      if i == 0 {} else if i == 1 {} else if i == 2 {} else if i == 3 {} else {}
    }
  }

  /**
   * `Context` with `entries` and `meta` reading a file (always `LoadEntries`
   * and `LoadMetadata`; taking them as parameters keeps the loading out of
   * the reasoning about the report loop).
   */
  function ContextWith(entries: Option<Value> -> Value, meta: Option<Value> -> map<string, Value>,
                       files: map<string, Value>, today: string): map<string, Value>
  {
    map[
      "variables" := entries(FileOf(files, "variables.yaml")),
      "variables_meta" := Dict(meta(FileOf(files, "variables.yaml"))),
      "gaps" := entries(FileOf(files, "gaps.yaml")),
      "gaps_meta" := Dict(meta(FileOf(files, "gaps.yaml"))),
      "traps" := entries(FileOf(files, "traps.yaml")),
      "traps_meta" := Dict(meta(FileOf(files, "traps.yaml"))),
      "observations" := entries(FileOf(files, "observations.yaml")),
      "observations_meta" := Dict(meta(FileOf(files, "observations.yaml"))),
      "scenarios" := entries(FileOf(files, "scenarios.yaml")),
      "scenarios_meta" := Dict(meta(FileOf(files, "scenarios.yaml"))),
      "sessions" := entries(FileOf(files, "sessions.yaml")),
      "modules" := entries(FileOf(files, "modules.yaml")),
      "build_date" := Str(today)
    ]
  }

  function FileOf(files: map<string, Value>, name: string): Option<Value>
  {
    if name in files then Some(files[name]) else None
  }

  /** `build_all`: the report loop over the selected reports. */
  method BuildAll(files: map<string, Value>, today: string, targets: seq<string>, templates: set<string>,
                  render: (string, map<string, Value>) -> string) returns (o: Outputs)
    ensures o == Rendered(SelectReports(targets), templates, render, Context(files, today))
  {
    var ctx := Context(files, today);
    var reports := SelectReports(targets);
    o := RenderAll(reports, templates, render, ctx);
  }

  /** The report loop of `build_all`. */
  method RenderAll(reports: seq<Report>, templates: set<string>, render: (string, map<string, Value>) -> string,
                   ctx: map<string, Value>) returns (o: Outputs)
    ensures o == Rendered(reports, templates, render, ctx)
  {
    o := Outputs([], []);
    var i := 0;
    while i < |reports|
      invariant 0 <= i <= |reports|
      invariant o == Rendered(reports[..i], templates, render, ctx)
    {
      assert reports[..i + 1][..i] == reports[..i];
      var r := reports[i];
      if r.template !in templates {
        o := Outputs(o.written, o.skipped + [r.name]);
      } else {
        o := Outputs(o.written + [(r.output, render(r.template, ctx))], o.skipped);
      }
      i := i + 1;
    }
    assert reports[..i] == reports;
  }

  /**
   * build.py's `main`: with `--validate`, a failing validator exit status
   * (`validateStatus`) stops the build with status 1 before anything is
   * written; otherwise the other arguments are the targets.
   */
  method RunBuild(args: seq<string>, validateStatus: int, files: map<string, Value>, today: string, templates: set<string>,
              render: (string, map<string, Value>) -> string) returns (status: int, o: Outputs)
    ensures "--validate" in args && validateStatus != 0 ==> status == 1 && o == Outputs([], [])
    ensures !("--validate" in args && validateStatus != 0)
        ==> status == 0 && o == Rendered(SelectReports(Validate.Without(args, "--validate")), templates, render, Context(files, today))
  {
    var doValidate := "--validate" in args;
    var targets := Validate.Without(args, "--validate");
    if doValidate && validateStatus != 0 {
      return 1, Outputs([], []);
    }
    o := BuildAll(files, today, targets, templates, render);
    status := 0;
  }
}
