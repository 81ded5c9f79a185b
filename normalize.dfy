/**
 * Text normalisation of the variables migration (scripts/migrate_variables.py):
 * repairing double-encoded punctuation, unwrapping outer bold, and splitting a
 * name cell into the plain name and its `(vX.Y)` version tag.
 */
module Normalize {
  import opened Wrappers
  import opened Text

  /**
   * The nine repairs, in the order they are applied: each key is the UTF-8 bytes
   * of a punctuation character misread as Latin-1, mapped back to that character.
   */
  const Mojibake: seq<(string, string)> := [
    ("\U{e2}\U{80}\U{93}", "\U{2013}"),  // en dash
    ("\U{e2}\U{80}\U{94}", "\U{2014}"),  // em dash
    ("\U{e2}\U{80}\U{99}", "\U{2019}"),  // right single quote
    ("\U{e2}\U{80}\U{9c}", "\U{201c}"),  // left double quote
    ("\U{e2}\U{80}\U{9d}", "\U{201d}"),  // right double quote
    ("\U{c2}\U{a7}", "\U{a7}"),          // section sign
    ("\U{c2}\U{b3}", "\U{b3}"),          // superscript three
    ("\U{e2}\U{89}\U{a4}", "\U{2264}"),  // less than or equal
    ("\U{e2}\U{86}\U{92}", "\U{2192}")   // right arrow
  ]

  predicate NonEmptyKeys(tbl: seq<(string, string)>)
  {
    forall k :: 0 <= k < |tbl| ==> |tbl[k].0| > 0
  }

  /** `s.replace(bad, good)` for each pair of `tbl`, first pair first. */
  function Substitute(s: string, tbl: seq<(string, string)>): string
    requires NonEmptyKeys(tbl)
  {
    if |tbl| == 0 then s
    else
      var last := tbl[|tbl| - 1];
      ReplaceAll(Substitute(s, tbl[..|tbl| - 1]), last.0, last.1)
  }

  /** `^\*\*(.*)\*\*$` matching at the very end (`.` does not match a newline). */
  predicate WrappedCore(t: string)
  {
    |t| >= 4 && t[..2] == "**" && t[|t| - 2..] == "**" && '\n' !in t[2..|t| - 2]
  }

  /** `re.sub(r'^\*\*(.*)\*\*$', ...)` finds a match: `$` may also match before a final newline. */
  predicate BoldWrapped(t: string)
  {
    WrappedCore(t) || (|t| > 0 && t[|t| - 1] == '\n' && WrappedCore(t[..|t| - 1]))
  }

  /** `re.sub(r'^\*\*(.*)\*\*$', r'\1', t)`: drops one pair of bold markers wrapping the whole string. */
  function UnwrapBold(t: string): (r: string)
    ensures !BoldWrapped(t) ==> r == t
    ensures WrappedCore(t) ==> r == t[2..|t| - 2]
    ensures BoldWrapped(t) && !WrappedCore(t) ==> r == t[2..|t| - 3] + "\n"
  {
    if WrappedCore(t) then t[2..|t| - 2]
    else if |t| > 0 && t[|t| - 1] == '\n' && WrappedCore(t[..|t| - 1]) then t[2..|t| - 3] + "\n"
    else t
  }

  /** Every key and every replacement of the table is non-empty. */
  lemma MojibakeWellFormed()
    ensures NonEmptyKeys(Mojibake)
    ensures forall k :: 0 <= k < |Mojibake| ==> |Mojibake[k].1| > 0
  {
    forall k | 0 <= k < |Mojibake|
      ensures |Mojibake[k].0| >= 2 && |Mojibake[k].1| == 1
    {
    }
  }

  /** What `clean_text(s)` returns. */
  function Clean(s: string): string
  {
    Applied(CleanSteps, s)
  }

  /** The steps of `clean_text`: strip, apply the repairs, unwrap outer bold. */
  function CleanSteps(s: string): string
  {
    MojibakeWellFormed();
    UnwrapBold(Substitute(Strip(s), Mojibake))
  }

  /**
   * `f(s)`. `Clean` calls its steps through this function value so that
   * reasoning about its callers does not unfold them; `CleanDef` spells them out.
   */
  function Applied(f: string -> string, s: string): string
  {
    f(s)
  }

  /** `Clean` spelled out: strip, repair, unwrap. */
  lemma CleanDef(s: string)
    ensures NonEmptyKeys(Mojibake)
    ensures Clean(s) == UnwrapBold(Substitute(Strip(s), Mojibake))
  {
    MojibakeWellFormed();
    assert CleanSteps(s) == UnwrapBold(Substitute(Strip(s), Mojibake));
  }

  /** `clean_text`: strip, apply the repairs one after the other, unwrap outer bold. */
  method CleanText(s: string) returns (r: string)
    ensures r == Clean(s)
  {
    MojibakeWellFormed();
    var t := Strip(s);
    ghost var stripped := t;
    for k := 0 to |Mojibake|
      invariant t == Substitute(stripped, Mojibake[..k])
    {
      assert Mojibake[..k + 1][..k] == Mojibake[..k];
      t := ReplaceAll(t, Mojibake[k].0, Mojibake[k].1);
    }
    assert Mojibake[..|Mojibake|] == Mojibake;
    r := UnwrapBold(t);
    CleanDef(s);
  }

  // ---------------------------------------------------------------- clean_text properties

  /** Repairs do nothing to a string holding none of their keys. */
  lemma {:induction false} SubstituteAbsent(s: string, tbl: seq<(string, string)>)
    requires NonEmptyKeys(tbl)
    requires forall k :: 0 <= k < |tbl| ==> !Contains(s, tbl[k].0)
    ensures Substitute(s, tbl) == s
  {
    if |tbl| > 0 {
      SubstituteAbsent(s, tbl[..|tbl| - 1]);
      ReplaceAbsent(s, tbl[|tbl| - 1].0, tbl[|tbl| - 1].1);
    }
  }

  /**
   * A key of `tbl` that shares no character with any replacement is gone after
   * the repairs: its own replacement removes it and no later one recreates it.
   */
  lemma {:induction false} SubstituteClears(s: string, tbl: seq<(string, string)>, p: string)
    requires NonEmptyKeys(tbl)
    requires forall k :: 0 <= k < |tbl| ==> |tbl[k].1| > 0
    requires exists k :: 0 <= k < |tbl| && tbl[k].0 == p
    requires forall k, c :: 0 <= k < |tbl| && c in tbl[k].1 ==> c !in p
    ensures !Contains(Substitute(s, tbl), p)
  {
    var n := |tbl|;
    var last := tbl[n - 1];
    var front := tbl[..n - 1];
    if last.0 != p {
      var k :| 0 <= k < n && tbl[k].0 == p;
      assert front[k] == tbl[k];
      SubstituteClears(s, front, p);
    }
    ReplaceLeavesNoOccurrence(Substitute(s, front), last.0, last.1, p);
  }

  /** Unwrapping outer bold creates no occurrence of a newline-free string. */
  lemma UnwrapBoldKeepsAbsent(t: string, p: string)
    requires '\n' !in p && !Contains(t, p)
    ensures !Contains(UnwrapBold(t), p)
  {
    var r := UnwrapBold(t);
    if WrappedCore(t) {
      if Contains(r, p) {
        assert OccursAt(t, r, 2);
        ContainsTransitive(t, r, p);
      }
    } else if BoldWrapped(t) {
      var core := t[2..|t| - 3];
      if Contains(core + "\n", p) {
        ContainsAppendChar(core, '\n', p);
        assert OccursAt(t, core, 2);
        ContainsTransitive(t, core, p);
      }
    }
  }

  /** Each replacement is one character: the section sign, superscript three, or one from U+2013 on. */
  lemma ReplacementRange()
    ensures forall j :: 0 <= j < |Mojibake| ==> |Mojibake[j].1| == 1
    ensures forall j, c :: 0 <= j < |Mojibake| && c in Mojibake[j].1 ==>
      c == '\U{a7}' || c == '\U{b3}' || c >= '\U{2013}'
  {
  }

  /** Apart from the section-sign and superscript-three keys, every key character is below U+00A7 or is U+00E2. */
  lemma KeyRange(k: nat)
    requires k < |Mojibake| && k != 5 && k != 6
    ensures forall c :: c in Mojibake[k].0 ==> c < '\U{a7}' || c == '\U{e2}'
  {
  }

  /**
   * `clean_text` repairs every occurrence of seven of the nine keys: none is
   * left in its result. (The section-sign and superscript-three keys contain
   * their own replacement, so they can reappear; see `CleanMayLeaveSectionKey`.)
   */
  lemma CleanRepairs(s: string, k: nat)
    requires k < |Mojibake| && k != 5 && k != 6
    ensures !Contains(Clean(s), Mojibake[k].0)
  {
    var p := Mojibake[k].0;
    MojibakeWellFormed();
    ReplacementRange();
    KeyRange(k);
    assert Mojibake[k].0 == p;
    SubstituteClears(Strip(s), Mojibake, p);
    UnwrapBoldKeepsAbsent(Substitute(Strip(s), Mojibake), p);
    CleanDef(s);
  }

  /** A string with no key and no wrapping bold only gets stripped. */
  lemma CleanIsStripOtherwise(s: string)
    requires forall k :: 0 <= k < |Mojibake| ==> !Contains(Strip(s), Mojibake[k].0)
    requires !BoldWrapped(Strip(s))
    ensures Clean(s) == Strip(s)
  {
    CleanDef(s);
    SubstituteAbsent(Strip(s), Mojibake);
  }

  /** Applying the first `m + 1` repairs is applying the first `m`, then repair `m`. */
  lemma SubstituteStep(s: string, tbl: seq<(string, string)>, m: nat)
    requires NonEmptyKeys(tbl) && m < |tbl|
    ensures Substitute(s, tbl[..m + 1]) == ReplaceAll(Substitute(s, tbl[..m]), tbl[m].0, tbl[m].1)
  {
    assert tbl[..m + 1][..m] == tbl[..m];
  }

  /** Once no later key occurs, the remaining repairs change nothing. */
  lemma {:induction false} SubstituteRestAbsent(s: string, tbl: seq<(string, string)>, m: nat)
    requires NonEmptyKeys(tbl) && m <= |tbl|
    requires forall k :: m <= k < |tbl| ==> !Contains(Substitute(s, tbl[..m]), tbl[k].0)
    ensures Substitute(s, tbl) == Substitute(s, tbl[..m])
    decreases |tbl| - m
  {
    if m == |tbl| {
      assert tbl[..m] == tbl;
    } else {
      SubstituteStep(s, tbl, m);
      ReplaceAbsent(Substitute(s, tbl[..m]), tbl[m].0, tbl[m].1);
      SubstituteRestAbsent(s, tbl, m + 1);
    }
  }

  /** The section-sign repair on a doubled lead byte re-forms the key. */
  lemma SectionRepairStep()
    ensures ReplaceAll("\U{c2}\U{c2}\U{a7}", "\U{c2}\U{a7}", "\U{a7}") == "\U{c2}\U{a7}"
  {
    var s := "\U{c2}\U{c2}\U{a7}";
    assert s[..2] != "\U{c2}\U{a7}" && s[1..] == "\U{c2}\U{a7}";
  }

  /** None of the first five keys occurs in `s`, and none of the last three in `t`. */
  lemma SectionOtherKeysAbsent(s: string, t: string)
    requires '\U{e2}' !in s && '\U{e2}' !in t && '\U{b3}' !in t
    ensures forall k :: 0 <= k < 5 ==> !Contains(s, Mojibake[k].0)
    ensures forall k :: 6 <= k < |Mojibake| ==> !Contains(t, Mojibake[k].0)
  {
    forall k | 0 <= k < 5 ensures !Contains(s, Mojibake[k].0) {
      MissingCharNotContained(s, Mojibake[k].0, '\U{e2}');
    }
    MissingCharNotContained(t, Mojibake[6].0, '\U{b3}');
    MissingCharNotContained(t, Mojibake[7].0, '\U{e2}');
    MissingCharNotContained(t, Mojibake[8].0, '\U{e2}');
  }

  /** A doubled lead byte before the section-sign key leaves that key in the result. */
  lemma CleanMayLeaveSectionKey()
    ensures Clean("\U{c2}\U{c2}\U{a7}") == "\U{c2}\U{a7}"
    ensures Contains(Clean("\U{c2}\U{c2}\U{a7}"), Mojibake[5].0)
  {
    var s := "\U{c2}\U{c2}\U{a7}";
    var t := "\U{c2}\U{a7}";
    StrippedStrip(s);
    SectionKeyRepairs();
    CleanDef(s);
    assert !BoldWrapped(t);
    MojibakeWellFormed();
    assert OccursAt(t, Mojibake[5].0, 0);
  }

  /** The repairs turn the doubled lead byte example into the section-sign key itself. */
  lemma SectionKeyRepairs()
    ensures NonEmptyKeys(Mojibake)
    ensures Substitute("\U{c2}\U{c2}\U{a7}", Mojibake) == "\U{c2}\U{a7}"
  {
    MojibakeWellFormed();
    var s := "\U{c2}\U{c2}\U{a7}";
    var t := "\U{c2}\U{a7}";
    SectionOtherKeysAbsent(s, t);
    var front := Mojibake[..5];
    assert forall k :: 0 <= k < 5 ==> front[k] == Mojibake[k];
    SubstituteAbsent(s, front);
    SubstituteStep(s, Mojibake, 5);
    SectionRepairStep();
    SubstituteRestAbsent(s, Mojibake, 6);
  }

  // ---------------------------------------------------------------- version tags

  /** Length of the run of digits starting at `i`. */
  function DigitRun(s: string, i: nat): (n: nat)
    requires i <= |s|
    ensures i + n <= |s|
    ensures forall k :: i <= k < i + n ==> IsDigit(s[k])
    ensures i + n == |s| || !IsDigit(s[i + n])
    decreases |s| - i
  {
    if i < |s| && IsDigit(s[i]) then 1 + DigitRun(s, i + 1) else 0
  }

  /** Length of a match of `\(v\d+\.\d+\)` at `i`, or 0 when there is none. */
  function TagLength(s: string, i: nat): (n: nat)
    requires i <= |s|
    ensures i + n <= |s|
    ensures n > 0 ==> n >= 6 && s[i] == '(' && s[i + 1] == 'v' && s[i + n - 1] == ')'
  {
    if i + 2 <= |s| && s[i] == '(' && s[i + 1] == 'v' then
      var a := DigitRun(s, i + 2);
      if a > 0 && i + 2 + a < |s| && s[i + 2 + a] == '.' then
        var b := DigitRun(s, i + 3 + a);
        if b > 0 && i + 3 + a + b < |s| && s[i + 3 + a + b] == ')' then 4 + a + b else 0
      else 0
    else 0
  }

  /** A version tag starts at `i`. */
  predicate TagAt(s: string, i: nat)
    requires i <= |s|
  {
    TagLength(s, i) > 0
  }

  /** `re.search(r'\(v(\d+\.\d+)\)', s[i..])`: the leftmost tag position. */
  function FindTag(s: string, i: nat): (r: Option<nat>)
    requires i <= |s|
    ensures r.Some? ==> i <= r.value <= |s| && TagAt(s, r.value)
    ensures r.Some? ==> forall q :: i <= q < r.value ==> !TagAt(s, q)
    ensures r.None? ==> forall q :: i <= q <= |s| ==> !TagAt(s, q)
    decreases |s| - i
  {
    if TagAt(s, i) then Some(i)
    else if i == |s| then None
    else FindTag(s, i + 1)
  }

  /** The two patterns the name cleanup deletes. */
  datatype Pattern =
    | BoldTag  // \*\*\(v\d+\.\d+\)\*\*\s*
    | Tag      // \(v\d+\.\d+\)\s*

  /** Length of a match of `pat` at `i`, or 0 when there is none. */
  function MatchLength(pat: Pattern, s: string, i: nat): (n: nat)
    requires i <= |s|
    ensures i + n <= |s|
  {
    match pat
    case Tag =>
      var n := TagLength(s, i);
      if n > 0 then n + SpaceRun(s, i + n) else 0
    case BoldTag =>
      if i + 2 <= |s| && s[i] == '*' && s[i + 1] == '*' then
        var n := TagLength(s, i + 2);
        if n > 0 && i + n + 4 <= |s| && s[i + n + 2] == '*' && s[i + n + 3] == '*'
        then n + 4 + SpaceRun(s, i + n + 4)
        else 0
      else 0
  }

  /** `re.sub(pat, '', s[i..])`: scan left to right, deleting each match and resuming after it. */
  function RemoveMatches(pat: Pattern, s: string, i: nat): string
    requires i <= |s|
    decreases |s| - i
  {
    if i == |s| then ""
    else
      var n := MatchLength(pat, s, i);
      if n > 0 then RemoveMatches(pat, s, i + n) else [s[i]] + RemoveMatches(pat, s, i + 1)
  }

  /** Where the pattern matches nowhere from `i` on, nothing is deleted. */
  lemma {:induction false} RemoveNothing(pat: Pattern, s: string, i: nat)
    requires i <= |s|
    requires forall k :: i <= k < |s| ==> MatchLength(pat, s, k) == 0
    ensures RemoveMatches(pat, s, i) == s[i..]
    decreases |s| - i
  {
    if i < |s| {
      RemoveNothing(pat, s, i + 1);
      assert s[i..] == [s[i]] + s[i + 1..];
    }
  }

  /** Both patterns begin with `(` or `**(`, so neither deletes anything without a `(` ahead. */
  lemma RemoveNothingWithoutParen(pat: Pattern, s: string, i: nat)
    requires i <= |s|
    requires forall k :: i <= k < |s| ==> s[k] != '('
    ensures RemoveMatches(pat, s, i) == s[i..]
  {
    forall k | i <= k < |s| ensures MatchLength(pat, s, k) == 0 {
      if k + 2 < |s| {
        assert s[k + 2] != '(';
      }
    }
    RemoveNothing(pat, s, i);
  }

  /** A bold tag begins with `**`, so none is deleted from a string without asterisks. */
  lemma RemoveNoBoldTagWithoutStar(s: string)
    requires forall k :: 0 <= k < |s| ==> s[k] != '*'
    ensures RemoveMatches(BoldTag, s, 0) == s
  {
    forall k | 0 <= k < |s| ensures MatchLength(BoldTag, s, k) == 0 {
      assert s[k] != '*';
    }
    RemoveNothing(BoldTag, s, 0);
    assert s[0..] == s;
  }

  /** The version `extract_name_and_version` reports for the stripped cell `t`. */
  function TagVersion(t: string): string
  {
    match FindTag(t, 0)
    case Some(p) => "v" + t[p + 2..p + TagLength(t, p) - 1]
    case None => "v1.0"
  }

  /** Without a tag the version defaults to `v1.0`. */
  lemma TagVersionDefault(t: string)
    requires forall q :: 0 <= q <= |t| ==> !TagAt(t, q)
    ensures TagVersion(t) == "v1.0"
  {
    assert FindTag(t, 0).None?;
  }

  /** With a tag, the version is `v` followed by the digits inside the leftmost one. */
  lemma TagVersionLeftmost(t: string, p: nat)
    requires p <= |t| && TagAt(t, p)
    requires forall q :: 0 <= q < p ==> !TagAt(t, q)
    ensures TagVersion(t) == "v" + t[p + 2..p + TagLength(t, p) - 1]
  {
    var f := FindTag(t, 0);
    assert f.Some?;
    assert f.value == p;
  }

  /** The name `extract_name_and_version` reports for the stripped cell `t`. */
  function TagFreeName(t: string): (n: string)
    ensures NoBoldMarker(n) && Stripped(n)
  {
    var untagged := RemoveMatches(Tag, RemoveMatches(BoldTag, t, 0), 0);
    var unbolded := ReplaceAll(untagged, "**", "");
    RemoveBoldLeavesNone(untagged);
    StripContained(unbolded);
    StripStripped(unbolded);
    NoBoldMarkerInfix(unbolded, Strip(unbolded));
    Strip(unbolded)
  }

  /**
   * `extract_name_and_version(raw)`: the version comes from the leftmost
   * `(vX.Y)` tag (see `TagVersionDefault`, `TagVersionLeftmost`); the name has
   * every bold-wrapped tag, every tag and every `**` deleted, and is stripped.
   */
  function ExtractNameAndVersion(raw: string): (r: (string, string))
    ensures NoBoldMarker(r.0) && Stripped(r.0)
    ensures r.1 == TagVersion(Strip(raw))
  {
    var t := Strip(raw);
    (TagFreeName(t), TagVersion(t))
  }

  /** `t` holds a tag `(vD.D)` at `i` (one digit on each side), followed by a non-space or the end. */
  lemma ShortTagAt(t: string, i: nat)
    requires i + 6 <= |t|
    requires t[i] == '(' && t[i + 1] == 'v' && IsDigit(t[i + 2]) && t[i + 3] == '.'
    requires IsDigit(t[i + 4]) && t[i + 5] == ')'
    ensures TagLength(t, i) == 6
    ensures i + 6 < |t| && !IsSpace(t[i + 6]) ==> MatchLength(Tag, t, i) == 6
  {
    assert DigitRun(t, i + 3) == 0;
    assert DigitRun(t, i + 2) == 1;
    assert DigitRun(t, i + 5) == 0;
    assert DigitRun(t, i + 4) == 1;
  }

  /** The docstring's example: `**(v1.3)** **Name**` gives `Name` at version `v1.3`. */
  lemma ExtractExample(t: string)
    requires t == "**(v1.3)** **Name**"
    ensures ExtractNameAndVersion(t) == ("Name", "v1.3")
  {
    ExampleChars(t);
    ExampleOnChars(t);
  }

  /** The characters of the example, one by one. */
  lemma ExampleChars(t: string)
    requires t == "**(v1.3)** **Name**"
    ensures |t| == 19 && t[0] == '*' && t[1] == '*' && t[2] == '(' && t[3] == 'v' && t[4] == '1'
    ensures t[5] == '.' && t[6] == '3' && t[7] == ')' && t[8] == '*' && t[9] == '*' && t[10] == ' '
    ensures t[11] == '*' && t[12] == '*' && t[13] == 'N' && t[14] == 'a' && t[15] == 'm' && t[16] == 'e'
    ensures t[17] == '*' && t[18] == '*'
  {
  }

  /** `ExtractExample`, from the characters of the example. */
  lemma ExampleOnChars(t: string)
    requires |t| == 19 && t[0] == '*' && t[1] == '*' && t[2] == '(' && t[3] == 'v' && t[4] == '1'
    requires t[5] == '.' && t[6] == '3' && t[7] == ')' && t[8] == '*' && t[9] == '*' && t[10] == ' '
    requires t[11] == '*' && t[12] == '*' && t[13] == 'N' && t[14] == 'a' && t[15] == 'm' && t[16] == 'e'
    requires t[17] == '*' && t[18] == '*'
    ensures ExtractNameAndVersion(t) == ("Name", "v1.3")
  {
    StrippedStrip(t);
    ExampleVersion(t);
    ExampleName(t);
  }

  /** In the example, the name is the bold word after the tag. */
  lemma ExampleName(t: string)
    requires |t| == 19 && t[0] == '*' && t[1] == '*' && t[2] == '(' && t[3] == 'v' && IsDigit(t[4])
    requires t[5] == '.' && IsDigit(t[6]) && t[7] == ')' && t[8] == '*' && t[9] == '*' && t[10] == ' '
    requires t[11] == '*' && t[12] == '*' && t[13] == 'N' && t[14] == 'a' && t[15] == 'm' && t[16] == 'e'
    requires t[17] == '*' && t[18] == '*'
    ensures TagFreeName(t) == "Name"
  {
    ExampleBoldPass(t);
    var name := t[13..17];
    assert t[11..] == "**" + name + "**";
    assert |name| == 4 && name[0] == 'N' && name[1] == 'a' && name[2] == 'm' && name[3] == 'e';
    forall k | 0 <= k < |name| ensures name[k] != '*' && name[k] != '(' {
      assert k == 0 || k == 1 || k == 2 || k == 3;
    }
    BoldWordName(name);
    FourChars(name, 'N', 'a', 'm', 'e');
  }

  /** A four-character string is the sequence of its characters. */
  lemma FourChars(s: string, a: char, b: char, c: char, d: char)
    requires |s| == 4 && s[0] == a && s[1] == b && s[2] == c && s[3] == d
    ensures s == [a, b, c, d]
  {
  }

  /** In the example, the bold-tag deletion removes `**(v1.3)** ` and nothing else. */
  lemma ExampleBoldPass(t: string)
    requires |t| == 19 && t[0] == '*' && t[1] == '*' && t[2] == '(' && t[3] == 'v' && IsDigit(t[4])
    requires t[5] == '.' && IsDigit(t[6]) && t[7] == ')' && t[8] == '*' && t[9] == '*' && t[10] == ' '
    requires t[11] == '*'
    requires forall k :: 11 <= k < |t| ==> t[k] != '('
    ensures RemoveMatches(BoldTag, t, 0) == t[11..]
  {
    ShortTagAt(t, 2);
    assert SpaceRun(t, 11) == 0;
    assert SpaceRun(t, 10) == 1;
    assert MatchLength(BoldTag, t, 0) == 11;
    RemoveNothingWithoutParen(BoldTag, t, 11);
  }

  /** In the example, the version comes from the tag at position 2. */
  lemma ExampleVersion(t: string)
    requires |t| >= 8 && t[0] == '*' && t[1] == '*' && t[2] == '(' && t[3] == 'v' && t[4] == '1'
    requires t[5] == '.' && t[6] == '3' && t[7] == ')'
    ensures TagVersion(t) == "v1.3"
  {
    ShortTagAt(t, 2);
    assert !TagAt(t, 0) && !TagAt(t, 1);
    TagVersionLeftmost(t, 2);
    FourChars("v" + t[4..7], 'v', '1', '.', '3');
  }

  /** The name part of a bold word without asterisks or parentheses is the word itself. */
  lemma BoldWordName(w: string)
    requires forall k :: 0 <= k < |w| ==> w[k] != '*' && w[k] != '('
    requires Stripped(w)
    ensures Strip(ReplaceAll(RemoveMatches(Tag, "**" + w + "**", 0), "**", "")) == w
  {
    TagPassKeepsBoldWord(w);
    UnboldWord(w);
    StrippedStrip(w);
  }

  /** The tag deletion leaves a bold word without parentheses alone. */
  lemma TagPassKeepsBoldWord(w: string)
    requires forall k :: 0 <= k < |w| ==> w[k] != '('
    ensures RemoveMatches(Tag, "**" + w + "**", 0) == "**" + w + "**"
  {
    BoldWordNoParen(w);
    RemoveNothingFromStart(Tag, "**" + w + "**");
  }

  /** Bolding a word adds no `(`. */
  lemma BoldWordNoParen(w: string)
    requires forall k :: 0 <= k < |w| ==> w[k] != '('
    ensures var s := "**" + w + "**"; forall k :: 0 <= k < |s| ==> s[k] != '('
  {
    var s := "**" + w + "**";
    forall k | 0 <= k < |s| ensures s[k] != '(' {
      if 2 <= k < 2 + |w| {
        assert s[k] == w[k - 2];
      }
    }
  }

  /** A string without `(` passes through the tag deletion unchanged. */
  lemma RemoveNothingFromStart(pat: Pattern, s: string)
    requires forall k :: 0 <= k < |s| ==> s[k] != '('
    ensures RemoveMatches(pat, s, 0) == s
  {
    RemoveNothingWithoutParen(pat, s, 0);
    assert s[0..] == s;
  }

  /** `**w**` with its `**` deleted is `w`, for a word without asterisks. */
  lemma UnboldWord(w: string)
    requires forall k :: 0 <= k < |w| ==> w[k] != '*'
    ensures ReplaceAll("**" + w + "**", "**", "") == w
  {
    DropLeadingBold(w + "**");
    assert "**" + w + "**" == "**" + (w + "**");
    DropTrailingBold(w);
  }

  /** A leading `**` is deleted. */
  lemma DropLeadingBold(x: string)
    ensures ReplaceAll("**" + x, "**", "") == ReplaceAll(x, "**", "")
  {
    var s := "**" + x;
    assert s[..2] == "**" && s[2..] == x;
  }

  /** A trailing `**` after a word without asterisks is deleted. */
  lemma DropTrailingBold(w: string)
    requires forall k :: 0 <= k < |w| ==> w[k] != '*'
    ensures ReplaceAll(w + "**", "**", "") == w
  {
    ReplaceAfterStarFree(w, "**");
    assert ReplaceAll("**", "**", "") == "";
    assert w + "" == w;
  }

  /** `replace("**", "")` passes over a prefix without asterisks unchanged. */
  lemma {:induction false} ReplaceAfterStarFree(w: string, tail: string)
    requires forall k :: 0 <= k < |w| ==> w[k] != '*'
    ensures ReplaceAll(w + tail, "**", "") == w + ReplaceAll(tail, "**", "")
  {
    if |w| > 0 {
      var s := w + tail;
      assert s[1..] == w[1..] + tail;
      if |s| >= 2 {
        assert s[..2] != "**" by { assert s[0] == w[0]; }
      }
      ReplaceAfterStarFree(w[1..], tail);
      assert w == [w[0]] + w[1..];
    } else {
      assert w + tail == tail;
    }
  }

  /**
   * The cleaned name can still hold a version tag: deleting an inner tag can
   * join the characters around it into a new one.
   */
  lemma ExtractMayLeaveTag(t: string)
    requires t == "((v1.2)v1.2)"
    ensures var name := ExtractNameAndVersion(t).0; name == "(v1.2)" && TagAt(name, 0)
  {
    MayLeaveChars(t);
    MayLeaveOnChars(t);
  }

  /** The characters of `((v1.2)v1.2)`, one by one. */
  lemma MayLeaveChars(t: string)
    requires t == "((v1.2)v1.2)"
    ensures |t| == 12 && t[0] == '(' && t[1] == '(' && t[2] == 'v' && t[3] == '1' && t[4] == '.'
    ensures t[5] == '2' && t[6] == ')' && t[7] == 'v' && t[8] == '1' && t[9] == '.'
    ensures t[10] == '2' && t[11] == ')'
  {
  }

  /** `ExtractMayLeaveTag`, from the characters of `((v1.2)v1.2)`. */
  lemma MayLeaveOnChars(t: string)
    requires |t| == 12 && t[0] == '(' && t[1] == '(' && t[2] == 'v' && t[3] == '1' && t[4] == '.'
    requires t[5] == '2' && t[6] == ')' && t[7] == 'v' && t[8] == '1' && t[9] == '.'
    requires t[10] == '2' && t[11] == ')'
    ensures var name := ExtractNameAndVersion(t).0; name == "(v1.2)" && TagAt(name, 0)
  {
    StrippedStrip(t);
    MayLeaveBoldPass(t);
    MayLeaveTagPass(t);
    var n := [t[0]] + t[7..];
    assert |n| == 6 && n[0] == '(' && n[1] == 'v' && n[2] == '1' && n[3] == '.' && n[4] == '2' && n[5] == ')';
    JoinedTag(n);
  }

  /** No bold tag is deleted from `((v1.2)v1.2)`: it has no asterisk. */
  lemma MayLeaveBoldPass(t: string)
    requires |t| == 12 && t[0] == '(' && t[1] == '(' && t[2] == 'v' && t[3] == '1' && t[4] == '.'
    requires t[5] == '2' && t[6] == ')' && t[7] == 'v' && t[8] == '1' && t[9] == '.'
    requires t[10] == '2' && t[11] == ')'
    ensures RemoveMatches(BoldTag, t, 0) == t
  {
    forall k | 0 <= k < |t| ensures t[k] != '*' {
      assert k == 0 || k == 1 || k == 2 || k == 3 || k == 4 || k == 5 || k == 6 || k == 7
        || k == 8 || k == 9 || k == 10 || k == 11;
    }
    RemoveNoBoldTagWithoutStar(t);
  }

  /** The tag deletion on `((v1.2)v1.2)` removes the inner `(v1.2)` only. */
  lemma MayLeaveTagPass(t: string)
    requires |t| == 12 && t[0] == '(' && t[1] == '(' && t[2] == 'v' && t[3] == '1' && t[4] == '.'
    requires t[5] == '2' && t[6] == ')' && t[7] == 'v' && t[8] == '1' && t[9] == '.'
    requires t[10] == '2' && t[11] == ')'
    ensures RemoveMatches(Tag, t, 0) == [t[0]] + t[7..]
  {
    assert MatchLength(Tag, t, 0) == 0;
    ShortTagAt(t, 1);
    forall k | 7 <= k < |t| ensures t[k] != '(' {
      assert k == 7 || k == 8 || k == 9 || k == 10 || k == 11;
    }
    RemoveNothingWithoutParen(Tag, t, 7);
  }

  /** The characters `(v1.2)` left over form a tag, and the rest of the cleanup keeps them. */
  lemma JoinedTag(n: string)
    requires |n| == 6 && n[0] == '(' && n[1] == 'v' && n[2] == '1' && n[3] == '.' && n[4] == '2' && n[5] == ')'
    ensures Strip(ReplaceAll(n, "**", "")) == "(v1.2)" && TagAt("(v1.2)", 0)
  {
    forall k | 0 <= k < |n| ensures n[k] != '*' {
      assert k == 0 || k == 1 || k == 2 || k == 3 || k == 4 || k == 5;
    }
    MissingCharNotContained(n, "**", '*');
    ReplaceAbsent(n, "**", "");
    StrippedStrip(n);
    SixChars(n, '(', 'v', '1', '.', '2', ')');
    ShortTagAt(n, 0);
  }

  /** A six-character string is the sequence of its characters. */
  lemma SixChars(s: string, a: char, b: char, c: char, d: char, e: char, f: char)
    requires |s| == 6 && s[0] == a && s[1] == b && s[2] == c && s[3] == d && s[4] == e && s[5] == f
    ensures s == [a, b, c, d, e, f]
  {
  }
}
