/**
 * scripts/cleanup_variables.py: rewrites the migrated variables document in
 * place. Every entry's truthy `insight` loses its `**` bold markers, and the
 * `monitoring_notes` key is replaced by a fixed list of five notes; then the
 * document is written back (here: returned).
 */
module Cleanup {
  import opened Wrappers
  import opened Yaml
  import opened Text

  /**
   * The five monitoring notes the script writes in place of the old ones
   * (each text is spelled as short pieces joined by `+`, which keeps the
   * verifier's picture of the literal small).
   */
  const ReplacementNotes: seq<string> := [
    "Variables require " + "weekly recheck on flow " + "and threshold tables. " + "Stock variables recheck " +
      "monthly or on " + "significant event.",
    "v1.2 NOTE (still " + "active): Given active " + "mourning cycle, Hormuz " + "exercise tempo, and " +
      "campaign-ready US force " + "posture, flow and " + "threshold variables " + "should be rechecked " +
      "every 3-5 days until " + "situation stabilizes or " + "transitions to a new " + "phase.",
    "v1.3 NOTE: Paydari " + "trajectory and Ghalibaf " + "timeline variables are " + "election-cycle " +
      "dependent (2028); " + "monitor Guardian " + "Council candidate " + "approval patterns in " +
      "2027 as leading " + "indicator. Judicial " + "moratorium threshold is " + "instantaneous upon any " +
      "transition event -- no " + "warning lag.",
    "v1.5 NOTE (CRITICAL): " + "Trump deadline " + "variables, Iran " + "proposal delivery, " +
      "Geneva Round 3 outcome, " + "and student protest " + "expansion require DAILY " + "monitoring through at " +
      "least March 6. The " + "system is in " + "maximum-velocity phase. " + "Multiple variables are " +
      "converging on a ~10-day " + "decision window (Feb 22 " + "to ~March 3). Any " + "individual variable " +
      "crossing its threshold " + "may cascade the others.",
    "v1.7 NOTE (Session 16): " + "IAEA Board (March 2) " + "creates third " + "independent clock " +
      "converging with Geneva " + "Round 3 and Trump " + "deadline. This is the " + "tightest multi-clock " +
      "convergence documented " + "in the project. Student " + "protest expansion (12+ " + "universities) now " +
      "modeled as independent " + "internal resistance " + "clock (A12.3.6). " + "Caine/Cooper dynamics " +
      "create new variable in " + "Washington Patience " + "Clock. All three " + "factors require " +
      "monitoring through at " + "least March 6."
  ]

  const NotesValue: Value := List([Str(ReplacementNotes[0]), Str(ReplacementNotes[1]), Str(ReplacementNotes[2]),
                                   Str(ReplacementNotes[3]), Str(ReplacementNotes[4])])

  /** Whether an entry's `insight` is rewritten: present and truthy. */
  predicate HasInsight(e: Record)
  {
    "insight" in e && Truthy(e["insight"])
  }

  /**
   * One turn of the entry loop: a truthy `insight` string loses every `"**"`;
   * an entry without a truthy insight is left alone; a truthy insight that
   * is not a string has no `replace`, and Python raises (`None`).
   */
  function CleanEntry(e: Record): (r: Option<Record>)
    ensures r.None? <==> HasInsight(e) && !e["insight"].Str?
    ensures r.Some? ==> r.value.Keys == e.Keys && forall k | k in e && k != "insight" :: r.value[k] == e[k]
    ensures r.Some? && !HasInsight(e) ==> r.value == e
  {
    if HasInsight(e) then
      match e["insight"]
      case Str(s) => Some(e["insight" := Str(ReplaceAll(s, "**", ""))])
      case _ => None
    else Some(e)
  }

  /** Every string insight left by the loop is free of `"**"`. */
  lemma CleanEntryNoBold(e: Record)
    requires CleanEntry(e).Some?
    ensures var r := CleanEntry(e).value;
      "insight" in r && r["insight"].Str? && HasInsight(e) ==> !Contains(r["insight"].s, "**")
  {
    if HasInsight(e) {
      var s := e["insight"].s;
      RemoveBoldLeavesNone(s);
      NoBoldMarkerMeansAbsent(ReplaceAll(s, "**", ""));
    }
  }

  /** Cleaning an entry twice is cleaning it once. */
  lemma CleanEntryIdempotent(e: Record)
    requires CleanEntry(e).Some?
    ensures CleanEntry(CleanEntry(e).value) == CleanEntry(e)
  {
    if HasInsight(e) {
      var s := e["insight"].s;
      var t := ReplaceAll(s, "**", "");
      var r := CleanEntry(e).value;
      assert r == e["insight" := Str(t)];
      if t != "" {
        RemoveBoldLeavesNone(s);
        NoBoldMarkerMeansAbsent(t);
        ReplaceAbsent(t, "**", "");
        assert r["insight" := Str(t)] == r;
      }
    }
  }

  predicate AllCleanable(es: seq<Record>)
  {
    forall k :: 0 <= k < |es| ==> CleanEntry(es[k]).Some?
  }

  /** The entries after a loop that does not raise. */
  function Cleaned(es: seq<Record>): (r: seq<Record>)
    requires AllCleanable(es)
    ensures |r| == |es|
    ensures forall k :: 0 <= k < |es| ==> r[k] == CleanEntry(es[k]).value
  {
    if es == [] then []
    else Cleaned(es[..|es| - 1]) + [CleanEntry(es[|es| - 1]).value]
  }

  /** The loop leaves nothing to do for a second run. */
  lemma CleanedIdempotent(es: seq<Record>)
    requires AllCleanable(es)
    ensures AllCleanable(Cleaned(es)) && Cleaned(Cleaned(es)) == Cleaned(es)
  {
    forall k | 0 <= k < |es| ensures CleanEntry(Cleaned(es)[k]) == Some(Cleaned(es)[k]) {
      CleanEntryIdempotent(es[k]);
    }
  }

  /** The mappings of a list of entries. */
  function Dicts(rs: seq<Record>): (vs: seq<Value>)
    ensures |vs| == |rs| && forall k :: 0 <= k < |rs| ==> vs[k] == Dict(rs[k])
  {
    if rs == [] then [] else Dicts(rs[..|rs| - 1]) + [Dict(rs[|rs| - 1])]
  }

  /** A document the script can process: a mapping whose `entries` is a list of mappings. */
  predicate Loadable(data: Value)
  {
    data.Dict? && "entries" in data.fields && data.fields["entries"].List? && AllDicts(data.fields["entries"].items)
  }

  function EntriesOf(data: Value): (rs: seq<Record>)
    requires Loadable(data)
    ensures Dicts(rs) == data.fields["entries"].items
  {
    var items := data.fields["entries"].items;
    var rs := RecordsOf(data.fields["entries"]).value;
    assert Dicts(rs) == items;
    rs
  }

  /** The loaded variables document, held as its entries and its other top-level keys. */
  class VariablesFile {
    var entries: seq<Record>
    var meta: map<string, Value>

    predicate Valid()
      reads this
    {
      "entries" !in meta
    }

    /** The document as `yaml.dump` would write it. */
    function Data(): Value
      reads this
    {
      Dict(meta["entries" := List(Dicts(entries))])
    }

    constructor (data: Value)
      requires Loadable(data)
      ensures Valid() && Data() == data
      ensures entries == EntriesOf(data)
    {
      entries := EntriesOf(data);
      meta := data.fields - {"entries"};
      new;
      assert meta["entries" := data.fields["entries"]] == data.fields;
    }

    /**
     * The entry loop. Past an entry whose insight raises, nothing is cleaned;
     * before it, every entry is; the other keys are untouched.
     */
    method CleanInsights() returns (raised: bool)
      requires Valid()
      modifies this
      ensures Valid() && meta == old(meta) && |entries| == |old(entries)|
      ensures raised <==> !AllCleanable(old(entries))
      ensures !raised ==> entries == Cleaned(old(entries))
      ensures raised ==> exists b :: (0 <= b < |entries| && CleanEntry(old(entries)[b]).None?
                                      && (forall k :: 0 <= k < b ==> Some(entries[k]) == CleanEntry(old(entries)[k]))
                                      && entries[b..] == old(entries)[b..])
    {
      var i := 0;
      while i < |entries|
        invariant 0 <= i <= |entries| == |old(entries)|
        invariant meta == old(meta)
        invariant AllCleanable(old(entries)[..i])
        invariant forall k :: 0 <= k < i ==> Some(entries[k]) == CleanEntry(old(entries)[k])
        invariant entries[i..] == old(entries)[i..]
      {
        assert entries[i] == entries[i..][0];
        var next := CleanEntry(entries[i]);
        if next.None? {
          return true;
        }
        assert old(entries)[..i + 1][i] == old(entries)[i];
        entries := entries[i := next.value];
        assert entries[i + 1..] == old(entries)[i + 1..] by {
          assert entries[i + 1..] == old(entries)[i..][1..];
        }
        i := i + 1;
      }
      assert old(entries)[..i] == old(entries);
      return false;
    }

    /** `monitoring_notes` becomes `notes`; no other key changes. */
    method ReplaceMonitoringNotes(notes: Value)
      requires Valid()
      modifies this
      ensures Valid() && entries == old(entries)
      ensures meta == old(meta)["monitoring_notes" := notes]
    {
      meta := meta["monitoring_notes" := notes];
    }
  }

  /**
   * What the script writes: the document with every entry cleaned and the
   * notes replaced, or nothing when an insight raises.
   */
  function CleanedFile(data: Value): (out: Option<Value>)
    requires Loadable(data)
  {
    CleanedWith(NotesValue, data)
  }

  /**
   * `CleanedFile` with `notes` as the new monitoring notes (always
   * `NotesValue`; a parameter keeps the note texts out of the reasoning
   * about the entries).
   */
  function CleanedWith(notes: Value, data: Value): (out: Option<Value>)
    requires Loadable(data)
  {
    var es := EntriesOf(data);
    if AllCleanable(es) then Some(Dict(data.fields["entries" := List(Dicts(Cleaned(es)))]["monitoring_notes" := notes]))
    else None
  }

  /** The script: load, clean the entries, replace the notes, write. */
  method Run(data: Value) returns (out: Option<Value>)
    requires Loadable(data)
    ensures out == CleanedFile(data)
  {
    out := RunWith(NotesValue, data);
  }

  /** `Run` with `notes` as the new monitoring notes (always `NotesValue`, as for `CleanedWith`). */
  method RunWith(notes: Value, data: Value) returns (out: Option<Value>)
    requires Loadable(data)
    ensures out == CleanedWith(notes, data)
  {
    var file := new VariablesFile(data);
    var raised := file.CleanInsights();
    if raised {
      return None;
    }
    file.ReplaceMonitoringNotes(notes);
    out := Some(file.Data());
    assert file.meta["entries" := List(Dicts(file.entries))]
        == data.fields["entries" := List(Dicts(Cleaned(EntriesOf(data))))]["monitoring_notes" := notes];
  }

  /**
   * The written document keeps every top-level key but `monitoring_notes`,
   * which holds the new notes, and keeps the number and order of entries;
   * each entry changes at most its `insight`, which then has no `"**"`.
   */
  lemma CleanedWithShape(notes: Value, data: Value)
    requires Loadable(data) && CleanedWith(notes, data).Some?
    ensures var out := CleanedWith(notes, data).value;
      && Loadable(out)
      && out.fields.Keys == data.fields.Keys + {"monitoring_notes"}
      && out.fields["monitoring_notes"] == notes
      && (forall k | k in data.fields && k != "entries" && k != "monitoring_notes" :: out.fields[k] == data.fields[k])
      && |EntriesOf(out)| == |EntriesOf(data)|
      && forall i :: 0 <= i < |EntriesOf(data)| ==>
           var before, after := EntriesOf(data)[i], EntriesOf(out)[i];
           && after.Keys == before.Keys
           && (forall k | k in before && k != "insight" :: after[k] == before[k])
           && ("insight" in after && after["insight"].Str? && HasInsight(before) ==> !Contains(after["insight"].s, "**"))
  {
    var out := CleanedWith(notes, data).value;
    var es := EntriesOf(data);
    var cs := Cleaned(es);
    assert out.fields["entries"] == List(Dicts(cs));
    assert EntriesOf(out) == cs by {
      DictsInjective(EntriesOf(out), cs);
    }
    forall i | 0 <= i < |es| ensures "insight" in cs[i] && cs[i]["insight"].Str? && HasInsight(es[i]) ==> !Contains(cs[i]["insight"].s, "**") {
      CleanEntryNoBold(es[i]);
    }
  }

  lemma DictsInjective(a: seq<Record>, b: seq<Record>)
    requires Dicts(a) == Dicts(b)
    ensures a == b
  {
    assert |a| == |b|;
    forall k | 0 <= k < |a| ensures a[k] == b[k] {
      assert Dicts(a)[k] == Dict(a[k]);
    }
  }

  /** Running the script on what it wrote writes the same document again. */
  lemma CleanedFileIdempotent(data: Value)
    requires Loadable(data) && CleanedFile(data).Some?
    ensures Loadable(CleanedFile(data).value)
    ensures CleanedFile(CleanedFile(data).value) == CleanedFile(data)
  {
    CleanedWithIdempotent(NotesValue, data);
  }

  lemma CleanedWithIdempotent(notes: Value, data: Value)
    requires Loadable(data) && CleanedWith(notes, data).Some?
    ensures Loadable(CleanedWith(notes, data).value)
    ensures CleanedWith(notes, CleanedWith(notes, data).value) == CleanedWith(notes, data)
  {
    CleanedWithShape(notes, data);
    var out := CleanedWith(notes, data).value;
    var es := EntriesOf(data);
    CleanedIdempotent(es);
    assert EntriesOf(out) == Cleaned(es) by {
      DictsInjective(EntriesOf(out), Cleaned(es));
    }
    assert out.fields["entries" := List(Dicts(Cleaned(Cleaned(es))))]["monitoring_notes" := notes] == out.fields;
  }
}
