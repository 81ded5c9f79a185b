/**
 * validate.py: checks every entity collection of the data directory against
 * its JSON schema, reports repeated identifiers, takes a cross-reference
 * inventory, and turns the findings into an exit status.
 *
 * The file system is a `Repo` value and the JSON-Schema check is an oracle
 * `check(schemaFile, entry)` giving the first violation, if any. A Python
 * exception that escapes `main` (a collection that is not a list of mappings,
 * an identifier Python cannot put in a set) is the outcome `Raised`; the
 * interpreter then exits with status 1.
 */
module Validate {
  import opened Wrappers
  import opened Yaml
  import opened Text

  /** One row of the entity map: data file, schema file, identifier field. */
  datatype Entity = Entity(dataFile: string, schemaFile: string, idField: string)

  /** The entity type names, in the order the map lists them. */
  const EntityTypes: seq<string> :=
    ["variables", "gaps", "traps", "observations", "scenarios", "sessions", "modules"]

  /**
   * The entity map: each type keeps its collection in `<type>.yaml` and its
   * schema in `<type without the plural s>.schema.json`.
   */
  function EntityOf(t: string): (e: Option<Entity>)
  {
    if t == "variables" then Some(Entity("variables.yaml", "variable.schema.json", "id"))
    else if t == "gaps" then Some(Entity("gaps.yaml", "gap.schema.json", "id"))
    else if t == "traps" then Some(Entity("traps.yaml", "trap.schema.json", "id"))
    else if t == "observations" then Some(Entity("observations.yaml", "observation.schema.json", "id"))
    else if t == "scenarios" then Some(Entity("scenarios.yaml", "scenario.schema.json", "id"))
    else if t == "sessions" then Some(Entity("sessions.yaml", "session.schema.json", "number"))
    else if t == "modules" then Some(Entity("modules.yaml", "module.schema.json", "code"))
    else None
  }

  /**
   * The map knows exactly the listed types, and each keeps its identifier in
   * `id`, except sessions (`number`) and modules (`code`).
   */
  lemma EntityMap(t: string)
    ensures EntityOf(t).Some? <==> t in EntityTypes
    ensures EntityOf(t).Some? ==> EntityOf(t).value.idField == (if t == "sessions" then "number" else if t == "modules" then "code" else "id")
  {
  }

  /**
   * The repository as the validator finds it: the directory the script lives
   * in (messages print it), the loaded content of every data file that exists
   * under `data/` (an empty file loads as `Null`), and the schema files that
   * exist under `schemas/`.
   */
  datatype Repo = Repo(base: string, data: map<string, Value>, schemas: set<string>)

  /** The first schema violation of an entry: where it is and what it says. */
  datatype Failure = Failure(path: seq<string>, message: string)

  /** What a pass produces: its error lines, or an exception. */
  datatype Outcome = Errors(errors: seq<string>) | Raised

  // ---------------------------------------------------------------- loading

  /**
   * `load_yaml`: the entity list of a data file (`None` when it is missing):
   * the value under `entries` of a mapping that has that key (whatever it
   * is), the document itself when it is a list, and otherwise nothing.
   */
  function LoadYaml(file: Option<Value>): (entries: Value)
    ensures file.None? ==> entries == List([])
    ensures file.Some? && file.value.List? ==> entries == file.value
    ensures file.Some? && file.value.Dict? && "entries" in file.value.fields ==> entries == file.value.fields["entries"]
    ensures entries == List([]) || Some(entries) == file
         || (file.Some? && file.value.Dict? && "entries" in file.value.fields && entries == file.value.fields["entries"])
    ensures file.Some? && !file.value.List? && !(file.value.Dict? && "entries" in file.value.fields) ==> entries == List([])
  {
    match file
    case None => List([])
    case Some(Null) => List([])
    case Some(Dict(fields)) => if "entries" in fields then fields["entries"] else List([])
    case Some(List(items)) => List(items)
    case Some(_) => List([])
  }

  function DataPath(repo: Repo, file: string): string
  {
    repo.base + "/data/" + file
  }

  function SchemaPath(repo: Repo, file: string): string
  {
    repo.base + "/schemas/" + file
  }

  /** `load_yaml(DATA / file)`. */
  function Loaded(repo: Repo, file: string): Value
  {
    LoadYaml(if file in repo.data then Some(repo.data[file]) else None)
  }

  /** Python `len(v)`; `None` where `len` raises. */
  function Len(v: Value): (n: Option<nat>)
    ensures n.None? <==> !(v.List? || v.Dict? || v.Str?)
    ensures v.List? ==> n == Some(|v.items|)
  {
    match v
    case List(items) => Some(|items|)
    case Dict(fields) => Some(|fields|)
    case Str(s) => Some(|s|)
    case _ => None
  }

  // ---------------------------------------------------------------- identifiers

  /** Values Python can put in a set: lists and mappings cannot. */
  predicate Hashable(v: Value)
  {
    !v.List? && !v.Dict?
  }

  predicate AllHashable(vs: seq<Value>)
  {
    forall v | v in vs :: Hashable(v)
  }

  /** Every identifier the entries carry can be put in a set. */
  predicate Keyed(entries: seq<Record>, field: string)
  {
    forall k :: 0 <= k < |entries| && field in entries[k] ==> Hashable(entries[k][field])
  }

  /** Python `f"{v}"` for a hashable loaded value. */
  function Show(v: Value): string
    requires Hashable(v)
  {
    match v
    case Null => "None"
    case Bool(b) => if b then "True" else "False"
    case Int(i) => if i < 0 then "-" + Decimal(-i) else Decimal(i)
    case Str(s) => s
  }

  /** The identifiers the duplicate pass reads: a missing one is `"UNKNOWN"`. */
  function Ids(entries: seq<Record>, field: string): (ids: seq<Value>)
    ensures |ids| == |entries|
    ensures Keyed(entries, field) ==> AllHashable(ids)
    ensures forall k | 0 <= k < |entries| :: ids[k] == Get(entries[k], field, Str("UNKNOWN"))
  {
    if entries == [] then []
    else Ids(entries[..|entries| - 1], field) + [Get(entries[|entries| - 1], field, Str("UNKNOWN"))]
  }

  /** The values of `ids`, as the `ids_seen` set holds them. */
  function Seen(ids: seq<Value>): set<Value>
  {
    set v | v in ids
  }

  /**
   * The identifiers the duplicate pass flags, in entry order: the identifier
   * of every entry that an earlier entry already had.
   */
  function Repeated(ids: seq<Value>): (r: seq<Value>)
    ensures forall v | v in r :: v in ids
  {
    if ids == [] then []
    else
      var init := ids[..|ids| - 1];
      Repeated(init) + (if ids[|ids| - 1] in init then [ids[|ids| - 1]] else [])
  }

  function DuplicateMessage(t: string, id: Value): string
    requires Hashable(id)
  {
    "  [" + t + "] Duplicate ID: " + Show(id)
  }

  function DuplicateMessages(t: string, ids: seq<Value>): (r: seq<string>)
    requires AllHashable(ids)
    ensures |r| == |ids|
  {
    if ids == [] then []
    else DuplicateMessages(t, ids[..|ids| - 1]) + [DuplicateMessage(t, ids[|ids| - 1])]
  }

  /**
   * With every identifier counted: the flagged identifiers and one copy of
   * each distinct identifier together make up all the identifiers. So each
   * identifier is flagged once for every occurrence after its first, and the
   * first is never flagged.
   */
  lemma {:induction false} RepeatedCount(ids: seq<Value>)
    ensures multiset(Repeated(ids)) + multiset(Seen(ids)) == multiset(ids)
  {
    if ids != [] {
      var init, x := ids[..|ids| - 1], ids[|ids| - 1];
      RepeatedStep(init, x);
      SeenStep(init, x);
      assert ids == init + [x];
      RepeatedCount(init);
    }
  }

  lemma {:induction false} RepeatedLength(ids: seq<Value>)
    ensures |Repeated(ids)| == |ids| - |Seen(ids)|
  {
    if ids != [] {
      var init, x := ids[..|ids| - 1], ids[|ids| - 1];
      RepeatedStep(init, x);
      SeenStep(init, x);
      assert ids == init + [x];
      RepeatedLength(init);
    }
  }

  lemma FirstNotFlagged(ids: seq<Value>, v: Value)
    requires v in ids
    ensures multiset(Repeated(ids))[v] == multiset(ids)[v] - 1
  {
    RepeatedCount(ids);
    assert v in Seen(ids);
  }

  /** One more identifier: flagged exactly when it has been seen before. */
  lemma RepeatedStep(ids: seq<Value>, x: Value)
    ensures Repeated(ids + [x]) == Repeated(ids) + (if x in ids then [x] else [])
  {
    assert (ids + [x])[..|ids|] == ids;
  }

  lemma SeenStep(ids: seq<Value>, x: Value)
    ensures Seen(ids + [x]) == Seen(ids) + {x}
    ensures x in ids <==> x in Seen(ids)
    ensures multiset(Seen(ids + [x])) == multiset(Seen(ids)) + (if x in ids then multiset{} else multiset{x})
  {
    assert forall v :: v in ids + [x] <==> v in ids || v == x;
  }

  method FindDuplicates(t: string, entries: seq<Record>, field: string) returns (errors: seq<string>, raised: bool)
    ensures raised <==> !Keyed(entries, field)
    ensures !raised ==> errors == DuplicateMessages(t, Repeated(Ids(entries, field)))
  {
    var seen: set<Value> := {};
    errors := [];
    var i := 0;
    while i < |entries|
      invariant 0 <= i <= |entries|
      invariant Keyed(entries[..i], field)
      invariant seen == Seen(Ids(entries[..i], field))
      invariant errors == DuplicateMessages(t, Repeated(Ids(entries[..i], field)))
    {
      var eid := Get(entries[i], field, Str("UNKNOWN"));
      if !Hashable(eid) {
        return errors, true;
      }
      errors := DuplicateStep(t, entries, field, i, seen, errors);
      seen := seen + {eid};
      i := i + 1;
    }
    assert entries[..i] == entries;
    return errors, false;
  }

  /** One turn of the duplicate loop: entry `i`'s identifier is flagged when it is in `seen`. */
  method DuplicateStep(t: string, entries: seq<Record>, field: string, i: nat, seen: set<Value>, errors: seq<string>)
    returns (next: seq<string>)
    requires i < |entries| && Keyed(entries[..i], field) && Hashable(Get(entries[i], field, Str("UNKNOWN")))
    requires seen == Seen(Ids(entries[..i], field))
    requires errors == DuplicateMessages(t, Repeated(Ids(entries[..i], field)))
    ensures Keyed(entries[..i + 1], field)
    ensures seen + {Get(entries[i], field, Str("UNKNOWN"))} == Seen(Ids(entries[..i + 1], field))
    ensures next == DuplicateMessages(t, Repeated(Ids(entries[..i + 1], field)))
  {
    var eid := Get(entries[i], field, Str("UNKNOWN"));
    var ids := Ids(entries[..i], field);
    IdsStep(entries, field, i);
    RepeatedStep(ids, eid);
    SeenStep(ids, eid);
    if eid in seen {
      next := errors + [DuplicateMessage(t, eid)];
      MessagesAppend(t, Repeated(ids), [eid]);
    } else {
      next := errors;
      assert Repeated(ids) + [] == Repeated(ids);
    }
  }

  lemma IdsStep(entries: seq<Record>, field: string, i: nat)
    requires i < |entries|
    ensures Ids(entries[..i + 1], field) == Ids(entries[..i], field) + [Get(entries[i], field, Str("UNKNOWN"))]
    ensures Keyed(entries[..i], field) && (field in entries[i] ==> Hashable(entries[i][field])) ==> Keyed(entries[..i + 1], field)
  {
    assert entries[..i + 1][..i] == entries[..i];
  }

  lemma MessagesAppend(t: string, a: seq<Value>, b: seq<Value>)
    requires AllHashable(a) && AllHashable(b) && |b| == 1
    ensures AllHashable(a + b)
    ensures DuplicateMessages(t, a + b) == DuplicateMessages(t, a) + [DuplicateMessage(t, b[0])]
  {
    assert (a + b)[..|a|] == a;
  }

  // ---------------------------------------------------------------- schema pass

  /** Python's `" -> ".join(path)`, or `"(root)"` for the empty path. */
  function PathString(path: seq<string>): (r: string)
    ensures path == [] ==> r == "(root)"
    ensures |path| == 1 ==> r == path[0]
  {
    if path == [] then "(root)" else JoinArrows(path)
  }

  function JoinArrows(parts: seq<string>): string
    requires parts != []
  {
    if |parts| == 1 then parts[0] else JoinArrows(parts[..|parts| - 1]) + " -> " + parts[|parts| - 1]
  }

  /** The identifier the schema pass prints for entry `i`: `index-<i>` when it has none. */
  function EntryName(entry: Record, field: string, i: nat): (id: Value)
    ensures field in entry ==> id == entry[field]
    ensures field !in entry ==> id == Str("index-" + Decimal(i))
  {
    Get(entry, field, Str("index-" + Decimal(i)))
  }

  function SchemaMessage(t: string, id: Value, f: Failure): string
    requires Hashable(id)
  {
    "  [" + t + "] " + Show(id) + ": " + PathString(f.path) + ": " + f.message
  }

  /** The error line of entry `i` of the schema pass, if it fails the schema. */
  function SchemaError(t: string, entries: seq<Record>, field: string, check: (string, Record) -> Option<Failure>, schema: string, i: nat): seq<string>
    requires i < |entries| && Keyed(entries, field)
  {
    match check(schema, entries[i])
    case None => []
    case Some(f) => [SchemaMessage(t, EntryName(entries[i], field, i), f)]
  }

  /** The schema pass: one line for each entry that fails the schema, in entry order. */
  function SchemaMessages(t: string, entries: seq<Record>, field: string, check: (string, Record) -> Option<Failure>, schema: string): seq<string>
    requires Keyed(entries, field)
  {
    if entries == [] then []
    else
      var n := |entries| - 1;
      SchemaMessages(t, entries[..n], field, check, schema) + SchemaError(t, entries, field, check, schema, n)
  }

  /** The entries that fail the schema, counted. */
  function Failing(entries: seq<Record>, check: (string, Record) -> Option<Failure>, schema: string): nat
  {
    if entries == [] then 0
    else Failing(entries[..|entries| - 1], check, schema) + (if check(schema, entries[|entries| - 1]).Some? then 1 else 0)
  }

  /**
   * The schema pass reports exactly one line per failing entry: at most one
   * per entry, none when every entry passes.
   */
  lemma {:induction false} SchemaMessagesCount(t: string, entries: seq<Record>, field: string, check: (string, Record) -> Option<Failure>, schema: string)
    requires Keyed(entries, field)
    ensures |SchemaMessages(t, entries, field, check, schema)| == Failing(entries, check, schema) <= |entries|
    ensures SchemaMessages(t, entries, field, check, schema) == [] <==> forall k :: 0 <= k < |entries| ==> check(schema, entries[k]).None?
  {
    if entries != [] {
      var n := |entries| - 1;
      SchemaMessagesCount(t, entries[..n], field, check, schema);
      if check(schema, entries[n]).None? {
        forall k | 0 <= k < n && !check(schema, entries[k]).None?
          ensures !check(schema, entries[..n][k]).None?
        {
          assert entries[..n][k] == entries[k];
        }
      }
    }
  }

  method CheckSchemas(t: string, entries: seq<Record>, field: string, check: (string, Record) -> Option<Failure>, schema: string) returns (errors: seq<string>)
    requires Keyed(entries, field)
    ensures errors == SchemaMessages(t, entries, field, check, schema)
  {
    errors := [];
    var i := 0;
    while i < |entries|
      invariant 0 <= i <= |entries|
      invariant Keyed(entries[..i], field)
      invariant errors == SchemaMessages(t, entries[..i], field, check, schema)
    {
      SchemaErrorPrefix(t, entries, field, check, schema, i);
      errors := errors + SchemaError(t, entries, field, check, schema, i);
      i := i + 1;
    }
    assert entries[..i] == entries;
  }

  /** Entry `i`'s line is the same read from the whole collection or from a prefix that holds it. */
  lemma SchemaErrorPrefix(t: string, entries: seq<Record>, field: string, check: (string, Record) -> Option<Failure>, schema: string, i: nat)
    requires i < |entries| && Keyed(entries, field)
    ensures Keyed(entries[..i + 1], field)
    ensures SchemaMessages(t, entries[..i + 1], field, check, schema)
         == SchemaMessages(t, entries[..i], field, check, schema) + SchemaError(t, entries, field, check, schema, i)
  {
    var p := entries[..i + 1];
    assert p[..i] == entries[..i];
    assert p[i] == entries[i];
  }

  // ---------------------------------------------------------------- one entity type

  /**
   * `validate_entity_type`: the first failing gate (unknown type, missing
   * data file, missing schema file) gives its one line; otherwise the
   * duplicate lines followed by the schema lines.
   */
  function Validation(t: string, repo: Repo, check: (string, Record) -> Option<Failure>): Outcome
  {
    match EntityOf(t)
    case None => Errors(["Unknown entity type: " + t])
    case Some(e) =>
      if e.dataFile !in repo.data then Errors(["Data file not found: " + DataPath(repo, e.dataFile)])
      else if e.schemaFile !in repo.schemas then Errors(["Schema file not found: " + SchemaPath(repo, e.schemaFile)])
      else
        match RecordsOf(Loaded(repo, e.dataFile))
        case None => Raised
        case Some(entries) =>
          if !Keyed(entries, e.idField) then Raised
          else Errors(DuplicateMessages(t, Repeated(Ids(entries, e.idField)))
                      + SchemaMessages(t, entries, e.idField, check, e.schemaFile))
  }

  method ValidateEntityType(t: string, repo: Repo, check: (string, Record) -> Option<Failure>) returns (o: Outcome)
    ensures o == Validation(t, repo, check)
  {
    var e := EntityOf(t);
    if e.None? {
      return Errors(["Unknown entity type: " + t]);
    }
    var Entity(dataFile, schemaFile, idField) := e.value;
    if dataFile !in repo.data {
      return Errors(["Data file not found: " + DataPath(repo, dataFile)]);
    }
    if schemaFile !in repo.schemas {
      return Errors(["Schema file not found: " + SchemaPath(repo, schemaFile)]);
    }
    var loaded := RecordsOf(Loaded(repo, dataFile));
    if loaded.None? {
      return Raised;
    }
    var entries := loaded.value;
    var duplicates, raised := FindDuplicates(t, entries, idField);
    if raised {
      return Raised;
    }
    var failures := CheckSchemas(t, entries, idField, check, schemaFile);
    return Errors(duplicates + failures);
  }

  /** The gates, in order, each giving exactly one line. */
  lemma ValidationGates(t: string, repo: Repo, check: (string, Record) -> Option<Failure>)
    ensures t !in EntityTypes ==> Validation(t, repo, check) == Errors(["Unknown entity type: " + t])
    ensures t in EntityTypes && EntityOf(t).value.dataFile !in repo.data
         ==> Validation(t, repo, check) == Errors(["Data file not found: " + DataPath(repo, EntityOf(t).value.dataFile)])
    ensures t in EntityTypes && EntityOf(t).value.dataFile in repo.data && EntityOf(t).value.schemaFile !in repo.schemas
         ==> Validation(t, repo, check) == Errors(["Schema file not found: " + SchemaPath(repo, EntityOf(t).value.schemaFile)])
  {
    EntityMap(t);
  }

  /**
   * Past the gates, an entity type reports one duplicate line for each entry
   * whose identifier an earlier entry had, then at most one schema line per
   * entry; no entry is reported when all identifiers differ and all entries
   * pass.
   */
  lemma ValidationCounts(t: string, repo: Repo, check: (string, Record) -> Option<Failure>, e: Entity, entries: seq<Record>)
    requires EntityOf(t) == Some(e) && e.dataFile in repo.data && e.schemaFile in repo.schemas
    requires RecordsOf(Loaded(repo, e.dataFile)) == Some(entries) && Keyed(entries, e.idField)
    ensures Validation(t, repo, check).Errors?
    ensures var ids := Ids(entries, e.idField);
      && var errors := Validation(t, repo, check).errors;
      && |ids| - |Seen(ids)| <= |errors| <= 2 * |entries| - |Seen(ids)|
      && (errors == [] <==> |Seen(ids)| == |entries| && forall k :: 0 <= k < |entries| ==> check(e.schemaFile, entries[k]).None?)
  {
    var ids := Ids(entries, e.idField);
    RepeatedLength(ids);
    SchemaMessagesCount(t, entries, e.idField, check, e.schemaFile);
  }

  // ---------------------------------------------------------------- cross references

  /** Every collection loads as a list of mappings, so `entry.get` never raises. */
  predicate AllLoadable(repo: Repo)
  {
    forall t | t in EntityTypes :: Loadable(repo, t)
  }

  predicate Loadable(repo: Repo, t: string)
  {
    match EntityOf(t)
    case None => true
    case Some(e) => RecordsOf(Loaded(repo, e.dataFile)).Some?
  }

  /**
   * `check_cross_references`: only an inventory of the identifiers (which it
   * prints); it reports no error, and raises where loading the collections
   * does.
   */
  function CheckCrossReferences(repo: Repo): (o: Outcome)
    ensures o.Errors? ==> o.errors == []
    ensures o.Raised? <==> !AllLoadable(repo)
  {
    if AllLoadable(repo) then Errors([]) else Raised
  }

  // ---------------------------------------------------------------- main

  function Without(args: seq<string>, flag: string): (r: seq<string>)
    ensures |r| <= |args|
    ensures forall a :: a in r <==> a in args && a != flag
  {
    if args == [] then []
    else Without(args[..|args| - 1], flag) + (if args[|args| - 1] == flag then [] else [args[|args| - 1]])
  }

  predicate XrefOnly(args: seq<string>)
  {
    "--xref" in args
  }

  /** The types `main` checks: the arguments other than `--xref`, or all of them. */
  function TypesToCheck(args: seq<string>): seq<string>
  {
    var rest := Without(args, "--xref");
    if rest == [] then EntityTypes else rest
  }

  lemma TypesToCheckDefault(args: seq<string>)
    ensures "--xref" !in TypesToCheck(args)
    ensures (forall a | a in args :: a == "--xref") ==> TypesToCheck(args) == EntityTypes
    ensures (exists a | a in args :: a != "--xref") ==> TypesToCheck(args) == Without(args, "--xref")
  {
    var rest := Without(args, "--xref");
    if rest != [] {
      assert rest[0] in rest;
    }
    if exists a | a in args :: a != "--xref" {
      var a :| a in args && a != "--xref";
      assert a in rest;
    }
    assert "--xref"[0] !in "vgtosm";
    forall k | 0 <= k < |EntityTypes| ensures EntityTypes[k] != "--xref" {
      assert EntityTypes[k][0] in "vgtosm";
    }
  }

  /** What `main` has gathered: the error lines and the entry count, or the exception. */
  datatype Summary = Summary(errors: seq<string>, entries: nat) | Crashed

  /** One turn of the per-type loop: unknown types are passed over. */
  function Step(prior: Summary, t: string, repo: Repo, check: (string, Record) -> Option<Failure>): Summary
  {
    StepWith(Validation, prior, t, repo, check)
  }

  /**
   * `Step` with `validate` checking one type (always `Validation`; taking it
   * as a parameter keeps the passes of a type out of the reasoning about the
   * loop).
   */
  function StepWith(validate: (string, Repo, (string, Record) -> Option<Failure>) -> Outcome,
                    prior: Summary, t: string, repo: Repo, check: (string, Record) -> Option<Failure>): Summary
  {
    if prior.Crashed? then Crashed
    else
      match EntityOf(t)
      case None => prior
      case Some(e) =>
        match Len(Loaded(repo, e.dataFile))
        case None => Crashed
        case Some(n) =>
          match validate(t, repo, check)
          case Raised => Crashed
          case Errors(es) => Summary(prior.errors + es, prior.entries + n)
  }

  /** The per-type loop of `main` over `types`. */
  function Checked(types: seq<string>, repo: Repo, check: (string, Record) -> Option<Failure>): Summary
  {
    if types == [] then Summary([], 0)
    else Step(Checked(types[..|types| - 1], repo, check), types[|types| - 1], repo, check)
  }

  /** `main`: the per-type loop unless `--xref` is given, then the cross-reference pass. */
  function Validated(args: seq<string>, repo: Repo, check: (string, Record) -> Option<Failure>): Summary
  {
    var s := if XrefOnly(args) then Summary([], 0) else Checked(TypesToCheck(args), repo, check);
    if s.Crashed? then Crashed
    else
      match CheckCrossReferences(repo)
      case Raised => Crashed
      case Errors(x) => Summary(s.errors + x, s.entries)
  }

  /** The exit status: 1 after an error line or an exception, 0 otherwise. */
  function Status(s: Summary): (code: int)
    ensures code == 0 || code == 1
    ensures code == 0 <==> s.Summary? && s.errors == []
  {
    if s.Crashed? || s.errors != [] then 1 else 0
  }

  method RunValidator(args: seq<string>, repo: Repo, check: (string, Record) -> Option<Failure>) returns (status: int, summary: Summary)
    ensures summary == Validated(args, repo, check)
    ensures status == Status(summary)
  {
    var xrefOnly := "--xref" in args;
    summary := Summary([], 0);
    if !xrefOnly {
      summary := CheckTypes(TypesToCheck(args), repo, check);
      if summary.Crashed? {
        return 1, Crashed;
      }
    }
    var xref := CheckCrossReferences(repo);
    if xref.Raised? {
      return 1, Crashed;
    }
    summary := Summary(summary.errors + xref.errors, summary.entries);
    status := if summary.errors != [] then 1 else 0;
  }

  /** The per-type loop, stopping at the first exception. */
  method CheckTypes(types: seq<string>, repo: Repo, check: (string, Record) -> Option<Failure>) returns (summary: Summary)
    ensures summary == Checked(types, repo, check)
  {
    var totalErrors: seq<string> := [];
    var totalEntries: nat := 0;
    var i := 0;
    while i < |types|
      invariant 0 <= i <= |types|
      invariant Checked(types[..i], repo, check) == Summary(totalErrors, totalEntries)
    {
      assert types[..i + 1][..i] == types[..i];
      var next := CheckType(Summary(totalErrors, totalEntries), types[i], repo, check);
      if next.Crashed? {
        CrashedStays(types, i + 1, repo, check);
        return Crashed;
      }
      totalErrors, totalEntries := next.errors, next.entries;
      i := i + 1;
    }
    assert types[..i] == types;
    return Summary(totalErrors, totalEntries);
  }

  /** One turn of the per-type loop: count the entries, then validate the type. */
  method CheckType(prior: Summary, t: string, repo: Repo, check: (string, Record) -> Option<Failure>) returns (next: Summary)
    requires prior.Summary?
    ensures next == Step(prior, t, repo, check)
  {
    var e := EntityOf(t);
    if e.None? {
      return prior;
    }
    var count := Len(Loaded(repo, e.value.dataFile));
    if count.None? {
      return Crashed;
    }
    var errors := ValidateEntityType(t, repo, check);
    if errors.Raised? {
      return Crashed;
    }
    return Summary(prior.errors + errors.errors, prior.entries + count.value);
  }

  /** Once the per-type loop has raised, `main` has raised. */
  lemma {:induction false} CrashedStays(types: seq<string>, i: nat, repo: Repo, check: (string, Record) -> Option<Failure>)
    requires i <= |types| && Checked(types[..i], repo, check).Crashed?
    ensures Checked(types, repo, check).Crashed?
    decreases |types| - i
  {
    if i < |types| {
      assert types[..i + 1][..i] == types[..i];
      CrashedStays(types, i + 1, repo, check);
    } else {
      assert types[..i] == types;
    }
  }

  /** Joins two runs of the per-type loop. */
  function Then(a: Summary, b: Summary): Summary
  {
    if a.Crashed? || b.Crashed? then Crashed else Summary(a.errors + b.errors, a.entries + b.entries)
  }

  /**
   * The per-type loop over `a + b` is the loop over `a` followed by the loop
   * over `b`: the error lines are those of each type in argument order.
   */
  lemma {:induction false} CheckedAppend(a: seq<string>, b: seq<string>, repo: Repo, check: (string, Record) -> Option<Failure>)
    ensures Checked(a + b, repo, check) == Then(Checked(a, repo, check), Checked(b, repo, check))
    decreases |b|
  {
    if b == [] {
      assert a + b == a;
    } else {
      var init, t := b[..|b| - 1], b[|b| - 1];
      assert (a + b)[..|a + b| - 1] == a + init;
      CheckedAppend(a, init, repo, check);
      var p := Checked(a, repo, check);
      var q := Checked(init, repo, check);
      if p.Summary? && q.Summary? {
        StepShift(p, q, t, repo, check);
      }
    }
  }

  /** A turn of the loop only appends to what came before it. */
  lemma StepShift(p: Summary, q: Summary, t: string, repo: Repo, check: (string, Record) -> Option<Failure>)
    requires p.Summary? && q.Summary?
    ensures Step(Then(p, q), t, repo, check) == Then(p, Step(q, t, repo, check))
  {
    StepWithShift(Validation, p, q, t, repo, check);
  }

  lemma StepWithShift(validate: (string, Repo, (string, Record) -> Option<Failure>) -> Outcome,
                      p: Summary, q: Summary, t: string, repo: Repo, check: (string, Record) -> Option<Failure>)
    requires p.Summary? && q.Summary?
    ensures StepWith(validate, Then(p, q), t, repo, check) == Then(p, StepWith(validate, q, t, repo, check))
  {
    match validate(t, repo, check)
    case Raised =>
    case Errors(es) =>
      assert p.errors + q.errors + es == p.errors + (q.errors + es);
  }

  /** An unknown type name contributes nothing: `main` passes over it silently. */
  lemma UnknownSkipped(a: seq<string>, t: string, b: seq<string>, repo: Repo, check: (string, Record) -> Option<Failure>)
    requires t !in EntityTypes
    ensures Checked(a + [t] + b, repo, check) == Checked(a + b, repo, check)
  {
    EntityMap(t);
    CheckedAppend(a + [t], b, repo, check);
    CheckedAppend(a, [t], repo, check);
    CheckedAppend(a, b, repo, check);
    assert [t][..0] == [];
  }

  /** A type the loop accepts silently: unknown, or loading and validating without a line. */
  predicate Passes(t: string, repo: Repo, check: (string, Record) -> Option<Failure>)
  {
    match EntityOf(t)
    case None => true
    case Some(e) => Len(Loaded(repo, e.dataFile)).Some? && Validation(t, repo, check) == Errors([])
  }

  lemma {:induction false} CheckedClean(types: seq<string>, repo: Repo, check: (string, Record) -> Option<Failure>)
    ensures Status(Checked(types, repo, check)) == 0 <==> forall k :: 0 <= k < |types| ==> Passes(types[k], repo, check)
  {
    if types != [] {
      var n := |types| - 1;
      CheckedClean(types[..n], repo, check);
      assert forall k :: 0 <= k < n ==> types[..n][k] == types[k];
    }
  }

  /**
   * `main` exits with 0 exactly when every collection loads as a list of
   * mappings and, unless `--xref` is given, every type it checks passes.
   */
  lemma MainStatus(args: seq<string>, repo: Repo, check: (string, Record) -> Option<Failure>)
    ensures Status(Validated(args, repo, check)) == 0
        <==> AllLoadable(repo)
             && (XrefOnly(args) || forall k :: 0 <= k < |TypesToCheck(args)| ==> Passes(TypesToCheck(args)[k], repo, check))
  {
    CheckedClean(TypesToCheck(args), repo, check);
  }

  /** With `--xref` no type is validated: only the cross-reference pass decides. */
  lemma XrefSkipsTypes(args: seq<string>, repo: Repo, check: (string, Record) -> Option<Failure>)
    requires XrefOnly(args)
    ensures Validated(args, repo, check) == (if AllLoadable(repo) then Summary([], 0) else Crashed)
  {
  }
}
