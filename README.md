# A verified model of the ITP data tooling

This project models the four scripts of the Iran Transition Project data
framework that carry logic:

- **`scripts/migrate_variables.py`** turns the Markdown appendix of
  variables into a YAML document of records. It tracks the current table from
  heading texts, parses pipe tables, and splits each name cell into a name and a
  `(vX.Y)` version. It repairs mojibake and outer bold, numbers records per table
  (`SV-01`, `FV-02`, …), and collects the monitoring notes.
  - Modules: `Text` (Python string primitives), `Normalize` (`clean_text`,
    `extract_name_and_version`), `Tables` (`parse_table_rows`, `assign_id`) and
    `Migrate` (`main`).
- **`validate.py`** checks every entity collection. The gates it checks are: an
  unknown type, a missing data file, and a missing schema. It then reports
  duplicate identifiers and schema errors, one per entry (the JSON-Schema check
  itself is a parameter `check`). It runs the cross-reference inventory and
  turns the result into an exit status.
  - Module: `Validate`.
- **`build.py`** loads the collections and their metadata into the template
  context. It provides the `filter_by` and `sort_by` template helpers, selects
  the reports to build, and skips a report whose template is missing.
  - Module: `Build`.
- **`scripts/cleanup_variables.py`** rewrites the migrated document in place. It
  removes `**` from every truthy `insight` and replaces `monitoring_notes` by the
  five fixed notes.
  - Module: `Cleanup`, with a class `VariablesFile` whose methods update the
    loaded entries and top-level keys in place.

A loaded YAML document is modelled as the datatype `Yaml.Value` (null, bool,
int, string, list, mapping).

The model covers the following Python exceptions. Each becomes an explicit
outcome (`Raised`, `Crashed`, `None`); none is a precondition:
- `validate.py`:
  - a non-mapping entry meets `entry.get`;
  - an unhashable identifier meets the seen-set;
  - `len` is called on a scalar.
- `cleanup_variables.py`: an `insight` that is not a string meets `.replace`.

Every loop of the scripts is a `method` with a `while` loop. Each such method
is proved equal to a specification function, and the properties are proved as
lemmas about those functions:
- `clean_text`'s repair loop;
- the two loops of `parse_table_rows`;
- the line loop, the row loop and the notes loop of `main`;
- the duplicate and schema loops of `validate_entity_type`;
- the per-type loop of `validate.py`'s `main`;
- the report loop of `build_all`;
- the entry loop of the cleanup script.

Where the standard-library behaviour matters, it is written out:
- `str.strip` uses Python's whitespace set;
- `re.sub` with the two version-tag patterns is modelled as a left-to-right scan;
- `^\*\*(.*)\*\*$`: `$` may match before a final newline, and `.` does not match one;
- `"%02d"` padding;
- lexicographic string order for `sorted`.

The model follows the code where a reader might expect otherwise:
- **Cross-reference check.** `check_cross_references` only builds and prints an
  inventory of identifiers and always returns no errors (validate.py:136-146).
  It does not resolve references.
- **Schema errors.** `jsonschema.validate` raises one error per entry, so an
  entry gets at most one schema line, not one per violated rule.
- **Monitoring notes.** The notes are collected from the first marker line to
  the end of the file, not only from its trailing lines.

## Model

| member | source | states |
|---|---|---|
| Text.StripStripped | scripts/migrate_variables.py:17 | `strip()` leaves no whitespace at either end |
| Text.StrippedStrip | scripts/migrate_variables.py:48 | a string without whitespace at its ends is unchanged by `strip()` |
| Text.StripChars | scripts/migrate_variables.py:178 | `strip("[]")` leaves neither bracket at either end of the result |
| Text.ReplaceAbsent | scripts/migrate_variables.py:30-31 | `replace` of a pattern that does not occur changes nothing |
| Text.ReplaceLeavesNoOccurrence | scripts/migrate_variables.py:30-31 | after `replace(pat, rep)`, no occurrence of a string that shares no character with `rep` is left, given it was `pat` or absent before |
| Text.RemoveBoldLeavesNone | scripts/cleanup_variables.py:13 | `replace("**", "")` leaves no `**` in its result |
| Text.JoinSplit | scripts/migrate_variables.py:73 | joining the pieces of `split(d)` with `d` gives back the string |
| Text.SplitJoin | scripts/migrate_variables.py:73 | splitting a join of `d`-free pieces gives back the pieces |
| Text.Pad2 | scripts/migrate_variables.py:97-98 | `{idx:02d}` has at least two digits: `0` then the digit below 10, plain decimal from 10 on |
| Text.Pad2Value | scripts/migrate_variables.py:97-98 | zero padding does not change the number the digits spell |
| Text.DecimalRoundTrip | scripts/migrate_variables.py:97-98 | the decimal digits of `n` spell `n` |
| Text.StrLeTotal | build.py:80-81 | string order is total |
| Text.StrLeTransitive | build.py:80-81 | string order is transitive |
| Text.StrLeAntisymmetric | build.py:80-81 | string order is antisymmetric |
| Yaml.Get | build.py:78 | `dict.get(key, default)`: the value under the key, otherwise the default |
| Yaml.RecordsOf | validate.py:75-76 | iterating a loaded value as entries yields the mappings of a list of mappings, one per item and in order, yields nothing for an empty mapping or string, and raises otherwise |
| Normalize.CleanText | scripts/migrate_variables.py:15-34 | the loop over the repair table computes `Clean`: strip, then each repair in table order, then the outer-bold unwrap |
| Normalize.CleanDef | scripts/migrate_variables.py:15-34 | `Clean(s)` is the unwrap of the repairs applied to `s.strip()` |
| Normalize.UnwrapBold | scripts/migrate_variables.py:33 | a string not wrapped in `**…**` is unchanged; a wrapped one loses exactly the outer pair, and a newline just before the closing pair is kept |
| Normalize.MojibakeWellFormed | scripts/migrate_variables.py:19-29 | the nine keys and their replacements are non-empty |
| Normalize.ReplacementRange | scripts/migrate_variables.py:19-29 | every replacement is a single character: §, ³, or one at U+2013 or above |
| Normalize.CleanRepairs | scripts/migrate_variables.py:19-33 | no occurrence of seven of the nine keys survives `clean_text` |
| Normalize.CleanMayLeaveSectionKey | scripts/migrate_variables.py:25-31 | the section-sign key can survive `clean_text`: `"\xc2\xc2\xa7"` cleans to `"\xc2\xa7"` |
| Normalize.CleanIsStripOtherwise | scripts/migrate_variables.py:15-34 | a string with no key and no wrapping bold after stripping is only stripped |
| Normalize.SubstituteAbsent | scripts/migrate_variables.py:30-31 | repairs whose keys do not occur change nothing |
| Normalize.SubstituteClears | scripts/migrate_variables.py:30-31 | a key sharing no character with any replacement is absent after all repairs |
| Normalize.UnwrapBoldKeepsAbsent | scripts/migrate_variables.py:33 | unwrapping bold creates no occurrence of a newline-free string |
| Normalize.FindTag | scripts/migrate_variables.py:41 | `re.search` of the tag pattern returns the leftmost position where a tag starts, or none when no position holds one |
| Normalize.TagLength | scripts/migrate_variables.py:41 | a tag match starts with `(v`, ends with `)` and is at least 6 characters long |
| Normalize.DigitRun | scripts/migrate_variables.py:41 | `\d+` matches the maximal run of digits |
| Normalize.TagVersionDefault | scripts/migrate_variables.py:41-42 | without a tag the version is `v1.0` |
| Normalize.TagVersionLeftmost | scripts/migrate_variables.py:41-42 | with a tag the version is `v` followed by the digits inside the leftmost tag |
| Normalize.ExtractNameAndVersion | scripts/migrate_variables.py:37-49 | the name has no `**` and no surrounding whitespace; the version is read from the stripped cell |
| Normalize.TagFreeName | scripts/migrate_variables.py:44-48 | the name after the three deletions and `strip()` has no `**` and no surrounding whitespace |
| Normalize.RemoveNothingWithoutParen | scripts/migrate_variables.py:45-46 | neither tag deletion changes a string without `(` |
| Normalize.RemoveNoBoldTagWithoutStar | scripts/migrate_variables.py:45 | the bold-tag deletion changes nothing in a string without `*` |
| Normalize.ExtractExample | scripts/migrate_variables.py:40-49 | the documented example `**(v1.3)** **Name**` gives `("Name", "v1.3")` |
| Normalize.BoldWordName | scripts/migrate_variables.py:46-48 | a bold word without `*` or `(` comes out as the word |
| Normalize.ExtractMayLeaveTag | scripts/migrate_variables.py:45-48 | the cleaned name can still hold a tag: `((v1.2)v1.2)` gives the name `(v1.2)` |
| Tables.IsPipeLineStrip | scripts/migrate_variables.py:57 | a line is a table line when its stripped form starts with `\|` |
| Tables.FirstPipeLine | scripts/migrate_variables.py:56-58 | the header search finds the first `\|` line at or after the start, or none |
| Tables.ParseTableRows | scripts/migrate_variables.py:52-83 | the two loops of `parse_table_rows` compute `TableRows` |
| Tables.FindHeader | scripts/migrate_variables.py:56-60 | the first loop stops at the first `\|` line from the start |
| Tables.CollectRows | scripts/migrate_variables.py:67-83 | the data loop collects the rows up to the first non-table line |
| Tables.TableRowsFromHeader | scripts/migrate_variables.py:61-68 | once the header is found, the rows are those read after it and after any separator |
| Tables.NoPipeNoRows | scripts/migrate_variables.py:57-60 | no `\|` line at or after the start gives no rows |
| Tables.TableRowsProvenance | scripts/migrate_variables.py:57-81 | the header is never returned; at most one separator line is skipped; every row is non-empty and is the cells of a line in the run of `\|` lines after them; every cell is whitespace-stripped |
| Tables.RowCellsStripped | scripts/migrate_variables.py:73-78 | every cell of a line is whitespace-stripped, and the cells are the line's `\|` pieces less at most one empty piece at each end |
| Tables.TableRowsCount | scripts/migrate_variables.py:67-83 | there are no more rows than `\|` lines read |
| Tables.DataRowsFromRun | scripts/migrate_variables.py:67-81 | every data row is non-empty and comes from a line of the run of `\|` lines; there are no more rows than lines in the run |
| Tables.DataRowsStopAtGap | scripts/migrate_variables.py:68-71 | reading stops at the first non-`\|` line: lines past it do not matter |
| Tables.RowCellsRender | scripts/migrate_variables.py:72-78 | splitting a rendered row of stripped, `\|`-free cells gives back exactly the cells (one empty piece dropped at each end) |
| Tables.RenderedPieces | scripts/migrate_variables.py:73 | the stripped pieces of a rendered row are an empty piece, the cells, and an empty piece |
| Tables.StripEachStripped | scripts/migrate_variables.py:73 | stripping already-stripped cells changes nothing |
| Tables.Prefix | scripts/migrate_variables.py:88-95 | every table code has two letters |
| Tables.PrefixInjective | scripts/migrate_variables.py:88-95 | the five table codes and `XX` are pairwise distinct |
| Tables.AssignId | scripts/migrate_variables.py:86-98 | an identifier is the table's code, a dash, and the digits |
| Tables.AssignIdNumber | scripts/migrate_variables.py:97-98 | after the dash comes `{idx:02d}` of the number, so a number below 10 gives a five-character id such as `SV-01`; the digits spell the number |
| Tables.AssignIdExample | scripts/migrate_variables.py:86-98 | the first stock variable is `SV-01` |
| Tables.AssignIdInjective | scripts/migrate_variables.py:86-98 | distinct (table, number) pairs get distinct identifiers |
| Migrate.HeadingFirstMatch | scripts/migrate_variables.py:116-125 | the table changes only on a line with a heading text; each branch's texts pick its table whenever no earlier branch's texts occur (so a flow heading mentioning THRESHOLD picks Flow) |
| Migrate.StartsTableWithoutHeading | scripts/migrate_variables.py:128 | with no current table, a line starts a table exactly when it starts with `\| Code`; a `\| Variable` line needs a current table |
| Migrate.LineStepEffect | scripts/migrate_variables.py:127-186 | after a line that parses a table no table is current (so always after a `\| Code` line); a line after which a table is current adds no records |
| Migrate.Bump | scripts/migrate_variables.py:165-167 | bumping a table's counter adds one to it |
| Migrate.BumpOthers | scripts/migrate_variables.py:165-167 | bumping one table's counter leaves the others alone |
| Migrate.RowIntoNq | scripts/migrate_variables.py:132-154 | a normalization-quality row with five cells appends its fixed-metadata record and leaves the counters |
| Migrate.RowIntoShort | scripts/migrate_variables.py:132-156 | a row with fewer than five cells adds nothing |
| Migrate.RowIntoSkipped | scripts/migrate_variables.py:161-163 | a row whose name cleans to nothing or to `Variable` adds nothing and bumps no counter |
| Migrate.RowIntoCounted | scripts/migrate_variables.py:165-184 | any other row bumps its table's counter and appends a record numbered with the bumped counter |
| Migrate.AddRowEffect | scripts/migrate_variables.py:131-184 | a skipped row changes nothing; a kept row appends one record of its table; a normalization-quality record leaves the counters; any other record bumps its table's counter and takes the bumped number in its identifier |
| Migrate.AddRowExtends | scripts/migrate_variables.py:131-184 | one row keeps the earlier records in front and adds at most one record, of its table |
| Migrate.AddRowsExtends | scripts/migrate_variables.py:131-184 | a table's rows keep earlier records in front and add at most one record per row, each of that table |
| Migrate.AddRowNumbered | scripts/migrate_variables.py:131-184 | one row keeps the numbering invariant |
| Migrate.AddRowsNumbered | scripts/migrate_variables.py:131-184 | a table's rows keep the numbering invariant |
| Migrate.ScanNumbered | scripts/migrate_variables.py:112-186 | every prefix of the line loop keeps the numbering invariant |
| Migrate.MigratedNumbered | scripts/migrate_variables.py:156-184 | every record is well formed; each table's numbered records carry `01` up to its final counter without gap and in order, across all tables of that type (the counters are never reset); none is numbered in the normalization-quality table; no numbered identifier repeats |
| Migrate.Numbers | scripts/migrate_variables.py:165-169 | a table's identifiers up to `n` are `n` identifiers |
| Migrate.NumbersAt | scripts/migrate_variables.py:165-169 | the `k`-th identifier of a table is `AssignId(t, k + 1)` |
| Migrate.NumbersDisjoint | scripts/migrate_variables.py:165-169 | identifiers of two different tables never coincide |
| Migrate.FirstMarker | scripts/migrate_variables.py:192 | the first line that opens the notes, or none |
| Migrate.NotesScanFromMarker | scripts/migrate_variables.py:188-197 | after `n` lines the notes are open exactly when a marker occurred among them, and they hold the notes of the lines from the first marker on |
| Migrate.NotesBetweenNonEmpty | scripts/migrate_variables.py:194-197 | every collected note has text |
| Migrate.MigratedNotes | scripts/migrate_variables.py:188-208 | the document's notes are those of the lines from the first marker on, or the three default notes when there are none; the list is never empty and no note is empty |
| Migrate.MigrateVariables | scripts/migrate_variables.py:101-210 | `main` without the file reading and writing computes `Migrated`: the fixed version, date and source, the notes, and the records |
| Migrate.ScanLines | scripts/migrate_variables.py:109-186 | the loop over the lines computes the state of `Scan` |
| Migrate.ReadLine | scripts/migrate_variables.py:113-186 | one pass of the line loop is `LineStep` |
| Migrate.AddTable | scripts/migrate_variables.py:131-184 | the row loop of one table computes `AddRows` |
| Migrate.ConvertRow | scripts/migrate_variables.py:132-184 | one row is `AddRow` |
| Migrate.CountRow | scripts/migrate_variables.py:165-184 | an ordinary row with a usable name is `AddCounted` |
| Migrate.ReadName | scripts/migrate_variables.py:157-159 | the name and version of the first cell |
| Migrate.ConvertNqRow | scripts/migrate_variables.py:133-153 | the record of a normalization-quality row |
| Migrate.ConvertCountedRow | scripts/migrate_variables.py:171-183 | the record of an ordinary row |
| Migrate.CollectNotes | scripts/migrate_variables.py:189-197 | the notes loop computes `NotesScan` |
| Migrate.ReadNote | scripts/migrate_variables.py:194-197 | the note a line adds once the notes are open |
| Validate.EntityMap | validate.py:23-31 | the map knows exactly the seven types; the identifier field is `number` for sessions, `code` for modules, `id` otherwise |
| Validate.LoadYaml | validate.py:34-46 | a missing file gives `[]`; a list gives itself; a mapping with `entries` gives that value; null, a scalar or a mapping without `entries` gives `[]` |
| Validate.Len | validate.py:164 | `len` is defined on lists, mappings and strings and raises on anything else |
| Validate.Ids | validate.py:76 | one identifier per entry, in order: the entry's field, or `UNKNOWN` when missing; all hashable when no entry holds an unhashable one |
| Validate.Repeated | validate.py:74-79 | every flagged identifier occurs among the identifiers |
| Validate.RepeatedCount | validate.py:74-79 | the flagged identifiers plus one copy of each distinct identifier are exactly all identifiers, so each is flagged once per occurrence after its first |
| Validate.RepeatedLength | validate.py:74-79 | the number of duplicate lines is the number of entries minus the number of distinct identifiers |
| Validate.FirstNotFlagged | validate.py:74-79 | an identifier is flagged one time fewer than it occurs: its first occurrence is never flagged |
| Validate.DuplicateMessages | validate.py:78 | one line per flagged identifier |
| Validate.FindDuplicates | validate.py:74-79 | the duplicate loop raises exactly when an identifier is unhashable; otherwise it reports one line per flagged identifier, in entry order |
| Validate.PathString | validate.py:88 | the empty path prints as `(root)`; a one-element path prints as that element |
| Validate.EntryName | validate.py:83 | the printed identifier is the entry's field, or `index-<i>` |
| Validate.SchemaMessagesCount | validate.py:82-90 | the schema pass gives exactly one line per failing entry, so at most one per entry, and none when every entry passes |
| Validate.CheckSchemas | validate.py:82-90 | the schema loop computes `SchemaMessages` |
| Validate.ValidateEntityType | validate.py:55-91 | the method computes `Validation` |
| Validate.ValidationGates | validate.py:57-67 | an unknown type, a missing data file, then a missing schema file each give exactly one line, in that order |
| Validate.ValidationCounts | validate.py:69-91 | past the gates, the number of lines lies between the duplicate count and the duplicate count plus the entry count; no line exactly when all identifiers differ and all entries pass |
| Validate.CheckCrossReferences | validate.py:94-146 | the cross-reference pass reports no error, and raises exactly where loading a collection as entries does |
| Validate.Without | validate.py:152 | removing a flag keeps exactly the other arguments |
| Validate.TypesToCheckDefault | validate.py:150-154 | `--xref` is never a type; with no other argument all seven types are checked; otherwise the arguments other than `--xref` |
| Validate.Status | validate.py:178-184 | the exit status is 0 or 1, and 0 exactly when no error line was reported and nothing raised |
| Validate.RunValidator | validate.py:149-184 | `main` computes `Validated` and exits with its status |
| Validate.CheckTypes | validate.py:159-171 | the per-type loop computes `Checked` |
| Validate.CheckType | validate.py:160-171 | one turn of the per-type loop is `Step` |
| Validate.CrashedStays | validate.py:159-171 | once the per-type loop has raised, the run has raised |
| Validate.CheckedAppend | validate.py:159-171 | the error lines are those of each type, concatenated in argument order |
| Validate.UnknownSkipped | validate.py:161-162 | an unknown type name contributes nothing |
| Validate.CheckedClean | validate.py:159-171 | the per-type loop has status 0 exactly when every listed type passes |
| Validate.MainStatus | validate.py:149-184 | `main` exits with 0 exactly when every collection loads as a list of mappings and, unless `--xref` is given, every checked type passes |
| Validate.XrefSkipsTypes | validate.py:151-176 | with `--xref` no type is validated; only the cross-reference pass decides |
| Build.LoadDocument | build.py:26-36 | a missing or empty file gives `[]`; any other document is returned whole |
| Build.LoadEntries | build.py:39-46 | `load_entries`: a mapping with `entries` gives that value, a list gives itself, anything else gives `[]` |
| Build.ContextContents | build.py:60-74 | `Context` (the `ctx` dict) has exactly the seven collections, the five `_meta` mappings and `build_date`, each collection read by `load_entries` and each `_meta` by `load_metadata` from its own data file |
| Build.LoadEntriesAgrees | build.py:39-46 | `load_entries` reads the entity list as validate.py's `load_yaml` does |
| Build.LoadMetadata | build.py:49-54 | a mapping's metadata has every key but `entries`, with its value unchanged; non-mappings give `{}` |
| Build.MetadataRoundTrip | build.py:39-54 | the metadata and the entries of a mapping put it back together |
| Build.FilterBy | build.py:77-78 | only items whose value under the key (`None` when missing) equals the value are kept |
| Build.FilterByCounts | build.py:77-78 | every matching item is kept as often as it occurs, and no other item is |
| Build.FilterByAppend | build.py:77-78 | filtering keeps the order of the items |
| Build.Insert | build.py:80-81 | inserting adds exactly the one item |
| Build.SortBy | build.py:80-81 | `sort_by` returns a permutation of its items |
| Build.SortBySorted | build.py:80-81 | the result is ordered by key, ascending, or descending when `reverse` |
| Build.SortByStable | build.py:80-81 | the sort is stable: the items that share a key keep their order |
| Build.Named | build.py:95-96 | the selected reports are exactly those named in the targets |
| Build.NamedAppend | build.py:95-96 | selection keeps the order of the report map |
| Build.SelectReportsAll | build.py:87-96 | with no targets all five reports remain; otherwise exactly the named ones |
| Build.Rendered | build.py:100-113 | every report is either written or skipped |
| Build.RenderedOutputs | build.py:100-113 | every report with a template is written in order with what its template renders; the skipped ones are exactly those without a template |
| Build.RenderAll | build.py:100-113 | the report loop computes `Rendered` |
| Build.BuildAll | build.py:57-113 | `build_all` renders the selected reports with the loaded context |
| Build.RunBuild | build.py:116-140 | with `--validate` and a failing validator the build stops with status 1 and writes nothing; otherwise it builds the targets other than `--validate` |
| Cleanup.CleanEntry | scripts/cleanup_variables.py:11-13 | one turn raises exactly for a truthy non-string insight; otherwise it keeps the keys, changes no field but `insight`, and leaves an entry without a truthy insight unchanged |
| Cleanup.CleanEntryNoBold | scripts/cleanup_variables.py:13 | a rewritten insight holds no `**` |
| Cleanup.CleanEntryIdempotent | scripts/cleanup_variables.py:11-13 | cleaning an entry twice is cleaning it once |
| Cleanup.Cleaned | scripts/cleanup_variables.py:11-13 | the loop keeps the number and order of entries and cleans each |
| Cleanup.CleanedIdempotent | scripts/cleanup_variables.py:11-13 | a second run of the loop changes nothing |
| Cleanup.EntriesOf | scripts/cleanup_variables.py:11 | the entries are the mappings listed under `entries` |
| Cleanup.VariablesFile.constructor | scripts/cleanup_variables.py:6-8 | the loaded document, held as its entries and the other top-level keys |
| Cleanup.VariablesFile.CleanInsights | scripts/cleanup_variables.py:11-13 | the loop cleans every entry in place and leaves the other keys; when it raises, the entries before the bad one are cleaned and the rest untouched |
| Cleanup.VariablesFile.ReplaceMonitoringNotes | scripts/cleanup_variables.py:16-22 | `monitoring_notes` becomes the new list; nothing else changes |
| Cleanup.Run | scripts/cleanup_variables.py:6-25 | the script computes `CleanedFile`, the rewritten document or nothing when it raises |
| Cleanup.RunWith | scripts/cleanup_variables.py:6-25 | the script with given notes computes `CleanedWith` |
| Cleanup.CleanedWithShape | scripts/cleanup_variables.py:11-25 | the written document keeps every other top-level key, holds the new notes, and keeps the number and order of entries; each entry changes at most its insight, which then has no `**` |
| Cleanup.CleanedFileIdempotent | scripts/cleanup_variables.py:11-25 | running the script on what it wrote writes the same document again |
| Cleanup.CleanedWithIdempotent | scripts/cleanup_variables.py:11-25 | the same, for any replacement notes |

## Left out

- File and OS input and output are not modelled. This covers `open`, `Path.exists`, `mkdir`, the fixed paths, `yaml.safe_load`, `yaml.dump`, `json.load`, `print` and `sys.exit`:
  - the migration takes the lines of the appendix and returns the document;
  - the validator takes a repository (base path, loaded data files, present schema files);
  - the build takes the loaded files;
  - the cleanup takes and returns the document;
  - an exit code is a returned value.
- The internals of `jsonschema.validate` are not modelled: they are a foreign library. They are a parameter `check` that gives the one reported failure (path and message) of an entry, or none.
- Jinja rendering is a parameter `render`, and template presence is a set of names: both are a foreign library.
- The `subprocess` run of validate.py in `build.py`'s `main` is not modelled: it is a process call. Its exit status is a parameter.
- `date.today()` is a parameter `today`: it reads the clock.
- `Normalize.DigitRun`, `Normalize.TagLength`: only the ASCII digits `0`-`9` are modelled for `\d` (`Text.IsDigit`). Python's `\d` also matches every other Unicode decimal digit, so a tag such as `(v۱.۳)` with Persian digits is a version tag in Python but not in the model.
- `Yaml.Value` covers only the YAML types null, bool, int, string, list and mapping with string keys. `yaml.safe_load` can also produce floats (`0.8`), dates and timestamps (`2026-02-24`) and mappings with non-string keys. These are outside the model, including where they reach `Build.LoadMetadata`, `Build.FilterBy` and the identifier duplicate pass.
- The identifier inventory of `check_cross_references` is not modelled. Its six sets are only printed, so the model keeps only the loading (which can raise) and the empty error list.
- `len(rendered)` and the other printed counts are not modelled: they are output only.
- `load_schema`'s errors on malformed JSON are not modelled. The schema is only handed to the foreign check.
- Python's `1 == True` equality is not modelled. Identifiers compare structurally, and `str()`/repr of unhashable values is left out, because those values raise before they are printed.
- The written YAML keeps no key order, because a `Value` mapping is a `map`.
- `Build.SortBy`: only string keys are modelled (`StringKeys`). Python can also sort lists with all-integer keys, and those are not covered.
- `Cleanup.VariablesFile.constructor`, `Cleanup.Run`, `Cleanup.RunWith`: only documents that are a mapping whose `entries` is a list of mappings (`Loadable`) are modelled, because the migration script always writes that shape. Other shapes are outside the model, although some of them pass the loop without raising in Python (an `entries` that is a string, a mapping, or a list of strings or lists, where `"insight" in entry` is a substring or membership test) and the script then rewrites `monitoring_notes` and writes the file.
- `Cleanup.Run`: the document is not written when the loop raises. It returns `None`, even though the half-cleaned document exists in memory at that point.
- The extra parameter of `RunRows`, `RowInto`, `RowsInto`, `LineWith`, `NotesInto`, `PadWith`, `StepWith`, `ContextWith`, `CleanedWith` and `RunWith` is always the one function or value its documentation names. It exists only to keep the reasoning small, and nothing else is ever passed.
