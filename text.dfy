/**
 * Python string operations used by the scripts, written out over `seq<char>`:
 * `str.isspace`, `str.strip`, `str.startswith`, the `in` substring test,
 * `str.replace`, `str.split`, the `{n:02d}` format and code-point ordering.
 */
module Text {

  /** Python's `str.isspace()` (which is also what `\s` and `strip()` use). */
  predicate IsSpace(c: char)
  {
    ('\t' <= c <= '\r') || ('\U{1C}' <= c <= '\U{1F}') || c == ' ' || c == '\U{85}' || c == '\U{A0}'
    || c == '\U{1680}' || ('\U{2000}' <= c <= '\U{200A}') || c == '\U{2028}' || c == '\U{2029}'
    || c == '\U{202F}' || c == '\U{205F}' || c == '\U{3000}'
  }

  /** ASCII decimal digit. */
  predicate IsDigit(c: char)
  {
    '0' <= c <= '9'
  }

  /** `s` begins with `p` (Python `s.startswith(p)`). */
  predicate StartsWith(s: string, p: string)
  {
    |p| <= |s| && s[..|p|] == p
  }

  /** `t` occurs in `s` at position `i`. */
  predicate OccursAt(s: string, t: string, i: int)
  {
    0 <= i && i + |t| <= |s| && s[i..i + |t|] == t
  }

  /** Python's `t in s` for strings. */
  predicate Contains(s: string, t: string)
  {
    exists i | 0 <= i <= |s| - |t| :: OccursAt(s, t, i)
  }

  /** A bold marker `**` starts at `i`. */
  predicate BoldAt(s: string, i: int)
  {
    0 <= i < |s| - 1 && s[i] == '*' && s[i + 1] == '*'
  }

  /** No two adjacent asterisks, i.e. `"**" not in s`. */
  predicate NoBoldMarker(s: string)
  {
    forall i | 0 <= i < |s| - 1 :: !BoldAt(s, i)
  }

  /** Neither end of `s` is whitespace: what `strip()` leaves. */
  predicate Stripped(s: string)
  {
    |s| == 0 || (!IsSpace(s[0]) && !IsSpace(s[|s| - 1]))
  }

  // ---------------------------------------------------------------- strip

  /** Length of the run of whitespace starting at `i` (what a greedy `\s*` takes). */
  function SpaceRun(s: string, i: nat): (n: nat)
    requires i <= |s|
    ensures i + n <= |s|
    decreases |s| - i
  {
    if i < |s| && IsSpace(s[i]) then 1 + SpaceRun(s, i + 1) else 0
  }

  /** Python `s.lstrip()`. */
  function TrimStart(s: string): (r: string)
    ensures |r| <= |s|
  {
    if |s| > 0 && IsSpace(s[0]) then TrimStart(s[1..]) else s
  }

  /** Python `s.rstrip()`. */
  function TrimEnd(s: string): (r: string)
    ensures |r| <= |s|
  {
    if |s| > 0 && IsSpace(s[|s| - 1]) then TrimEnd(s[..|s| - 1]) else s
  }

  /** Python `s.strip()`. */
  function Strip(s: string): (r: string)
    ensures |r| <= |s|
  {
    TrimEnd(TrimStart(s))
  }

  /** `lstrip()` stops at a character that is not whitespace. */
  lemma {:induction false} TrimStartFirst(s: string)
    ensures |TrimStart(s)| > 0 ==> !IsSpace(TrimStart(s)[0])
  {
    if |s| > 0 && IsSpace(s[0]) {
      TrimStartFirst(s[1..]);
    }
  }

  /** `rstrip()` stops at a character that is not whitespace. */
  lemma {:induction false} TrimEndLast(s: string)
    ensures |TrimEnd(s)| > 0 ==> !IsSpace(TrimEnd(s)[|TrimEnd(s)| - 1])
  {
    if |s| > 0 && IsSpace(s[|s| - 1]) {
      TrimEndLast(s[..|s| - 1]);
    }
  }

  /** `strip()` leaves no whitespace at either end. */
  lemma StripStripped(s: string)
    ensures Stripped(Strip(s))
  {
    var a := TrimStart(s);
    TrimStartFirst(s);
    TrimEndLast(a);
    TrimEndChars(a);
  }

  /** What `lstrip()` leaves is a suffix of its input. */
  lemma {:induction false} TrimStartChars(s: string)
    ensures forall k :: 0 <= k < |TrimStart(s)| ==> TrimStart(s)[k] == s[|s| - |TrimStart(s)| + k]
  {
    if |s| > 0 && IsSpace(s[0]) {
      var t := s[1..];
      TrimStartChars(t);
      var r := TrimStart(t);
      assert TrimStart(s) == r;
      forall k | 0 <= k < |r| ensures r[k] == s[|s| - |r| + k] {
        assert r[k] == t[|t| - |r| + k];
      }
    }
  }

  /** What `rstrip()` leaves is a prefix of its input. */
  lemma {:induction false} TrimEndChars(s: string)
    ensures forall k :: 0 <= k < |TrimEnd(s)| ==> TrimEnd(s)[k] == s[k]
  {
    if |s| > 0 && IsSpace(s[|s| - 1]) {
      TrimEndChars(s[..|s| - 1]);
    }
  }

  /** Python `s.strip() in s`. */
  lemma StripContained(s: string)
    ensures Contains(s, Strip(s))
  {
    var a := TrimStart(s);
    var r := TrimEnd(a);
    var i := |s| - |a|;
    TrimStartChars(s);
    TrimEndChars(a);
    assert s[i..i + |r|] == r by {
      forall k | 0 <= k < |r| ensures s[i..i + |r|][k] == r[k] {
        assert r[k] == a[k];
      }
    }
    assert OccursAt(s, r, i);
  }

  /** A string with no whitespace at either end is its own `strip()`. */
  lemma StrippedStrip(s: string)
    requires Stripped(s)
    ensures Strip(s) == s
  {
    assert TrimStart(s) == s;
    assert TrimEnd(s) == s;
  }

  /** `lstrip()` drops exactly the run of whitespace at the start. */
  lemma {:induction false} TrimStartRun(s: string, i: nat)
    requires i <= |s|
    ensures |TrimStart(s[i..])| == |s| - i - SpaceRun(s, i)
    decreases |s| - i
  {
    if i < |s| && IsSpace(s[i]) {
      assert s[i..][0] == s[i];
      assert s[i..][1..] == s[i + 1..];
      TrimStartRun(s, i + 1);
    } else if i < |s| {
      assert s[i..][0] == s[i];
    }
  }

  /** `lstrip()` drops exactly the leading run of whitespace. */
  lemma TrimStartLength(s: string)
    ensures |TrimStart(s)| == |s| - SpaceRun(s, 0)
  {
    TrimStartRun(s, 0);
    assert s[0..] == s;
  }

  /** `rstrip()` keeps the first character when it is not whitespace. */
  lemma {:induction false} TrimEndKeepsFirst(s: string)
    requires |s| > 0 && !IsSpace(s[0])
    ensures |TrimEnd(s)| > 0 && TrimEnd(s)[0] == s[0]
    decreases |s|
  {
    if IsSpace(s[|s| - 1]) {
      TrimEndKeepsFirst(s[..|s| - 1]);
    }
  }

  /** Python `s.lstrip(chars)`. */
  function TrimStartIn(s: string, chars: set<char>): (r: string)
    ensures |r| <= |s|
    ensures |r| > 0 ==> r[0] !in chars
  {
    if |s| > 0 && s[0] in chars then TrimStartIn(s[1..], chars) else s
  }

  /** Python `s.rstrip(chars)`. */
  function TrimEndIn(s: string, chars: set<char>): (r: string)
    ensures |r| <= |s|
    ensures |r| > 0 ==> r[|r| - 1] !in chars
  {
    if |s| > 0 && s[|s| - 1] in chars then TrimEndIn(s[..|s| - 1], chars) else s
  }

  /** What `rstrip(chars)` leaves is a prefix of its input. */
  lemma {:induction false} TrimEndInChars(s: string, chars: set<char>)
    ensures forall k :: 0 <= k < |TrimEndIn(s, chars)| ==> TrimEndIn(s, chars)[k] == s[k]
  {
    if |s| > 0 && s[|s| - 1] in chars {
      TrimEndInChars(s[..|s| - 1], chars);
    }
  }

  /** What `lstrip(chars)` leaves is a suffix of its input. */
  lemma {:induction false} TrimStartInChars(s: string, chars: set<char>)
    ensures forall k :: 0 <= k < |TrimStartIn(s, chars)| ==>
      TrimStartIn(s, chars)[k] == s[|s| - |TrimStartIn(s, chars)| + k]
  {
    if |s| > 0 && s[0] in chars {
      TrimStartInChars(s[1..], chars);
    }
  }

  /** Python `s.strip(chars)` for a literal character set. */
  function StripChars(s: string, chars: set<char>): (r: string)
    ensures |r| == 0 || (r[0] !in chars && r[|r| - 1] !in chars)
  {
    var a := TrimStartIn(s, chars);
    TrimEndInChars(a, chars);
    TrimEndIn(a, chars)
  }

  /** Python `s.strip(chars) in s`. */
  lemma StripCharsContained(s: string, chars: set<char>)
    ensures Contains(s, StripChars(s, chars))
  {
    var a := TrimStartIn(s, chars);
    var r := TrimEndIn(a, chars);
    var i := |s| - |a|;
    TrimStartInChars(s, chars);
    TrimEndInChars(a, chars);
    assert s[i..i + |r|] == r by {
      forall k | 0 <= k < |r| ensures s[i..i + |r|][k] == r[k] {
        assert r[k] == a[k];
      }
    }
    assert OccursAt(s, r, i);
  }

  // ---------------------------------------------------------------- substrings

  /** A string lacking one of the characters of `p` does not contain `p`. */
  lemma MissingCharNotContained(s: string, p: string, c: char)
    requires c in p && c !in s
    ensures !Contains(s, p)
  {
    var k :| 0 <= k < |p| && p[k] == c;
    forall i | 0 <= i <= |s| - |p| ensures !OccursAt(s, p, i) {
      assert s[i..i + |p|][k] == s[i + k];
    }
  }

  /** A substring of a substring is a substring. */
  lemma ContainsTransitive(s: string, m: string, t: string)
    requires Contains(s, m) && Contains(m, t)
    ensures Contains(s, t)
  {
    var i :| 0 <= i <= |s| - |m| && OccursAt(s, m, i);
    var j :| 0 <= j <= |m| - |t| && OccursAt(m, t, j);
    assert forall k :: 0 <= k < |t| ==> t[k] == m[j + k] == s[i + j + k];
    assert s[i + j..i + j + |t|] == t;
    assert OccursAt(s, t, i + j);
  }

  /** Appending a character that `t` does not contain creates no occurrence of `t`. */
  lemma ContainsAppendChar(s: string, c: char, t: string)
    requires c !in t && Contains(s + [c], t)
    ensures Contains(s, t)
  {
    var i :| 0 <= i <= |s| + 1 - |t| && OccursAt(s + [c], t, i);
    if |t| == 0 {
      assert OccursAt(s, t, 0);
      return;
    }
    assert t[|t| - 1] == (s + [c])[i + |t| - 1];
    assert t[|t| - 1] in t;
    assert i + |t| <= |s|;
    assert (s + [c])[i..i + |t|] == s[i..i + |t|];
    assert OccursAt(s, t, i);
  }

  // ---------------------------------------------------------------- replace

  /** Python `s.replace(pat, rep)`: non-overlapping occurrences, left to right. */
  function ReplaceAll(s: string, pat: string, rep: string): (r: string)
    requires |pat| > 0
    decreases |s|
  {
    if |s| < |pat| then s
    else if s[..|pat|] == pat then rep + ReplaceAll(s[|pat|..], pat, rep)
    else [s[0]] + ReplaceAll(s[1..], pat, rep)
  }

  /** Without an occurrence of `pat`, `replace` changes nothing. */
  lemma {:induction false} ReplaceAbsent(s: string, pat: string, rep: string)
    requires |pat| > 0 && !Contains(s, pat)
    ensures ReplaceAll(s, pat, rep) == s
    decreases |s|
  {
    if |s| >= |pat| {
      assert !OccursAt(s, pat, 0);
      if !Contains(s[1..], pat) {
        ReplaceAbsent(s[1..], pat, rep);
      } else {
        var i :| 0 <= i <= |s[1..]| - |pat| && OccursAt(s[1..], pat, i);
        assert s[i + 1..i + 1 + |pat|] == s[1..][i..i + |pat|];
        assert OccursAt(s, pat, i + 1);
      }
    }
  }

  /**
   * Until the first replacement, the result agrees with the input: every prefix
   * of the result is a prefix of the input or holds a character of `rep`.
   */
  lemma {:induction false} ReplacePrefix(s: string, pat: string, rep: string, k: nat)
    requires |pat| > 0 && |rep| > 0 && k <= |ReplaceAll(s, pat, rep)|
    ensures (k <= |s| && ReplaceAll(s, pat, rep)[..k] == s[..k])
         || (exists j :: 0 <= j < k && ReplaceAll(s, pat, rep)[j] in rep)
    decreases |s|
  {
    var r := ReplaceAll(s, pat, rep);
    if |s| < |pat| || k == 0 {
    } else if s[..|pat|] == pat {
      assert r[0] == rep[0];
    } else {
      var r' := ReplaceAll(s[1..], pat, rep);
      assert r == [s[0]] + r';
      ReplacePrefix(s[1..], pat, rep, k - 1);
      if k - 1 <= |s[1..]| && r'[..k - 1] == s[1..][..k - 1] {
        assert r[..k] == [s[0]] + r'[..k - 1];
        assert s[..k] == [s[0]] + s[1..][..k - 1];
      } else {
        var j :| 0 <= j < k - 1 && r'[j] in rep;
        assert r[j + 1] == r'[j];
      }
    }
  }

  /** An occurrence in `a + t` that does not start inside `a` lies in `t`. */
  lemma ContainsPastPrefix(a: string, t: string, p: string)
    requires Contains(a + t, p)
    requires forall i :: 0 <= i < |a| ==> !OccursAt(a + t, p, i)
    ensures Contains(t, p)
  {
    var i :| 0 <= i <= |a + t| - |p| && OccursAt(a + t, p, i);
    assert (a + t)[i..i + |p|] == t[i - |a|..i - |a| + |p|];
    assert OccursAt(t, p, i - |a|);
  }

  /** An occurrence of `p` cannot begin on a character that `p` does not contain. */
  lemma NoOccurrenceAtForeignChar(s: string, p: string, i: int)
    requires |p| > 0 && 0 <= i < |s| && s[i] !in p
    ensures !OccursAt(s, p, i)
  {
    assert p[0] in p;
    if i + |p| <= |s| {
      assert s[i..i + |p|][0] == s[i];
    }
  }

  /**
   * `replace(pat, rep)` leaves no occurrence of `p` when `p` is `pat` itself or
   * absent from the input, provided `p` shares no character with `rep`.
   */
  lemma {:induction false} ReplaceLeavesNoOccurrence(s: string, pat: string, rep: string, p: string)
    requires |pat| > 0 && |rep| > 0 && |p| > 0
    requires forall c :: c in rep ==> c !in p
    requires p == pat || !Contains(s, p)
    ensures !Contains(ReplaceAll(s, pat, rep), p)
    decreases |s|
  {
    var r := ReplaceAll(s, pat, rep);
    if |s| < |pat| {
    } else if s[..|pat|] == pat {
      var tail := s[|pat|..];
      if p != pat && Contains(tail, p) {
        assert Contains(s, tail) by { assert OccursAt(s, tail, |pat|); }
        ContainsTransitive(s, tail, p);
      }
      ReplaceLeavesNoOccurrence(tail, pat, rep, p);
      var r' := ReplaceAll(tail, pat, rep);
      assert r == rep + r';
      forall i | 0 <= i < |rep| ensures !OccursAt(rep + r', p, i) {
        assert (rep + r')[i] == rep[i] && rep[i] in rep;
        NoOccurrenceAtForeignChar(rep + r', p, i);
      }
      if Contains(r, p) {
        ContainsPastPrefix(rep, r', p);
      }
    } else {
      var tail := s[1..];
      if p != pat && Contains(tail, p) {
        assert Contains(s, tail) by { assert OccursAt(s, tail, 1); }
        ContainsTransitive(s, tail, p);
      }
      ReplaceLeavesNoOccurrence(tail, pat, rep, p);
      var r' := ReplaceAll(tail, pat, rep);
      assert r == [s[0]] + r';
      FirstOccurrenceImpossible(s, pat, rep, p);
      if Contains(r, p) {
        ContainsPastPrefix([s[0]], r', p);
      }
    }
  }

  /** Helper for the case where `s` does not start with `pat`: no occurrence at 0. */
  lemma FirstOccurrenceImpossible(s: string, pat: string, rep: string, p: string)
    requires |pat| > 0 && |rep| > 0 && |p| > 0
    requires |s| >= |pat| && s[..|pat|] != pat
    requires forall c :: c in rep ==> c !in p
    requires p == pat || !Contains(s, p)
    ensures !OccursAt([s[0]] + ReplaceAll(s[1..], pat, rep), p, 0)
  {
    var r' := ReplaceAll(s[1..], pat, rep);
    if p != pat {
      assert !OccursAt(s, p, 0);
    }
    if |p| <= 1 + |r'| {
      ReplacePrefix(s[1..], pat, rep, |p| - 1);
      FirstCharsAgree(s, r', p, rep);
    }
  }

  /**
   * Past a first character it shares with `s`, `[s[0]] + r'` agrees with `s[1..]`
   * up to the first character from `rep`; so `p` is at its start only if at the
   * start of `s`.
   */
  lemma FirstCharsAgree(s: string, r': string, p: string, rep: string)
    requires |s| > 0 && 1 <= |p| <= 1 + |r'| && !OccursAt(s, p, 0)
    requires forall c :: c in rep ==> c !in p
    requires (|p| - 1 <= |s[1..]| && r'[..|p| - 1] == s[1..][..|p| - 1])
          || (exists j :: 0 <= j < |p| - 1 && r'[j] in rep)
    ensures !OccursAt([s[0]] + r', p, 0)
  {
    if |p| - 1 <= |s[1..]| && r'[..|p| - 1] == s[1..][..|p| - 1] {
      SamePrefixOccurrence(s, r', p);
    } else {
      var j :| 0 <= j < |p| - 1 && r'[j] in rep;
      ForeignCharAt([s[0]] + r', p, j + 1, rep);
    }
  }

  /** A string that agrees with `s` on the first `|p|` characters has `p` at 0 only if `s` does. */
  lemma SamePrefixOccurrence(s: string, r': string, p: string)
    requires |s| > 0 && 1 <= |p| <= |s| && |p| - 1 <= |r'|
    requires r'[..|p| - 1] == s[1..][..|p| - 1]
    ensures OccursAt([s[0]] + r', p, 0) ==> OccursAt(s, p, 0)
  {
    var r := [s[0]] + r';
    assert r[..|p|] == [s[0]] + r'[..|p| - 1];
    assert s[..|p|] == [s[0]] + s[1..][..|p| - 1];
  }

  /** `p` cannot occur over a character it does not contain. */
  lemma ForeignCharAt(r: string, p: string, k: nat, rep: string)
    requires k < |p| <= |r| && r[k] in rep
    requires forall c :: c in rep ==> c !in p
    ensures !OccursAt(r, p, 0)
  {
    assert r[..|p|][k] == r[k] && r[k] !in p;
    assert p[k] in p;
    assert r[..|p|] != p;
  }

  /** With a non-asterisk first character, `replace("**", "")` keeps that character first. */
  lemma RemoveBoldKeepsFirst(s: string)
    requires |s| > 0 && s[0] != '*'
    ensures |ReplaceAll(s, "**", "")| > 0 && ReplaceAll(s, "**", "")[0] == s[0]
  {
  }

  /** `s.replace("**", "")` leaves no `"**"`: removal never makes a new pair. */
  lemma {:induction false} RemoveBoldLeavesNone(s: string)
    ensures NoBoldMarker(ReplaceAll(s, "**", ""))
    decreases |s|
  {
    var r := ReplaceAll(s, "**", "");
    if |s| < 2 {
    } else if s[..2] == "**" {
      RemoveBoldLeavesNone(s[2..]);
      assert r == ReplaceAll(s[2..], "**", "");
    } else {
      var r' := ReplaceAll(s[1..], "**", "");
      assert r == [s[0]] + r';
      RemoveBoldLeavesNone(s[1..]);
      if s[0] == '*' {
        assert s[1] != '*' by { assert s[..2] == [s[0], s[1]]; }
        RemoveBoldKeepsFirst(s[1..]);
      }
      forall i | 0 <= i < |r| - 1 ensures !BoldAt(r, i) {
        if i > 0 {
          assert r[i] == r'[i - 1] && r[i + 1] == r'[i];
          assert !BoldAt(r', i - 1);
        } else {
          assert r[0] == s[0] && r[1] == r'[0];
        }
      }
    }
  }

  /** `NoBoldMarker` is Python's `"**" not in s`. */
  lemma NoBoldMarkerMeansAbsent(s: string)
    ensures NoBoldMarker(s) <==> !Contains(s, "**")
  {
    if !NoBoldMarker(s) {
      var i :| 0 <= i < |s| - 1 && BoldAt(s, i);
      assert s[i..i + 2] == [s[i], s[i + 1]];
      assert OccursAt(s, "**", i);
    }
    if Contains(s, "**") {
      var i :| 0 <= i <= |s| - 2 && OccursAt(s, "**", i);
      assert s[i] == s[i..i + 2][0];
      assert s[i + 1] == s[i..i + 2][1];
      assert BoldAt(s, i);
    }
  }

  /** Every substring of a string without `"**"` is without `"**"`. */
  lemma NoBoldMarkerInfix(s: string, t: string)
    requires NoBoldMarker(s) && Contains(s, t)
    ensures NoBoldMarker(t)
  {
    var k :| 0 <= k <= |s| - |t| && OccursAt(s, t, k);
    forall i | 0 <= i < |t| - 1 ensures !BoldAt(t, i) {
      assert t[i] == s[k + i] && t[i + 1] == s[k + i + 1];
      assert !BoldAt(s, k + i);
    }
  }

  // ---------------------------------------------------------------- split

  /** Python `s.split(d)` for a one-character separator. */
  function Split(s: string, d: char): (r: seq<string>)
    ensures |r| >= 1
  {
    if s == [] then [""]
    else if s[0] == d then [""] + Split(s[1..], d)
    else
      var t := Split(s[1..], d);
      [[s[0]] + t[0]] + t[1..]
  }

  /** Python `d.join(parts)` for a one-character separator. */
  function Join(parts: seq<string>, d: char): string
  {
    if parts == [] then ""
    else if |parts| == 1 then parts[0]
    else parts[0] + [d] + Join(parts[1..], d)
  }

  /** Splitting loses nothing: joining the pieces back gives the input. */
  lemma {:induction false} JoinSplit(s: string, d: char)
    ensures Join(Split(s, d), d) == s
  {
    if s == [] {
    } else if s[0] == d {
      JoinSplit(s[1..], d);
    } else {
      var t := Split(s[1..], d);
      JoinSplit(s[1..], d);
      if |t| == 1 {
      } else {
        assert ([[s[0]] + t[0]] + t[1..])[1..] == t[1..];
        assert Join(t, d) == t[0] + [d] + Join(t[1..], d);
      }
    }
  }

  /** A piece without the separator splits to itself. */
  lemma {:induction false} SplitNoSeparator(s: string, d: char)
    requires d !in s
    ensures Split(s, d) == [s]
  {
    if |s| > 0 {
      SplitNoSeparator(s[1..], d);
      assert s == [s[0]] + s[1..];
    }
  }

  /** Splitting at a first separator after a separator-free piece yields that piece first. */
  lemma {:induction false} SplitAfterPiece(p: string, d: char, x: string)
    requires d !in p
    ensures Split(p + [d] + x, d) == [p] + Split(x, d)
  {
    var s := p + [d] + x;
    if |p| == 0 {
      assert s == [d] + x;
      assert s[1..] == x;
    } else {
      assert s[1..] == p[1..] + [d] + x;
      SplitAfterPiece(p[1..], d, x);
      assert p == [p[0]] + p[1..];
    }
  }

  /** Joining separator-free pieces and splitting again gives the pieces back. */
  lemma {:induction false} SplitJoin(parts: seq<string>, d: char)
    requires |parts| >= 1
    requires forall k :: 0 <= k < |parts| ==> d !in parts[k]
    ensures Split(Join(parts, d), d) == parts
  {
    if |parts| == 1 {
      SplitNoSeparator(parts[0], d);
    } else {
      SplitJoin(parts[1..], d);
      SplitAfterPiece(parts[0], d, Join(parts[1..], d));
      assert parts == [parts[0]] + parts[1..];
    }
  }

  // ---------------------------------------------------------------- numbers

  /** The digit character for `d < 10`. */
  function DigitChar(d: nat): (c: char)
    requires d < 10
    ensures IsDigit(c) && c as int - '0' as int == d
  {
    ('0' as int + d) as char
  }

  predicate AllDigits(s: string)
  {
    forall i :: 0 <= i < |s| ==> IsDigit(s[i])
  }

  /** The number a string of decimal digits denotes. */
  function DigitsValue(s: string): nat
    requires AllDigits(s)
  {
    if |s| == 0 then 0
    else DigitsValue(s[..|s| - 1]) * 10 + (s[|s| - 1] as int - '0' as int)
  }

  /** Python `str(n)` for a non-negative integer. */
  function Decimal(n: nat): (r: string)
    ensures 1 <= |r| && AllDigits(r)
    ensures |r| == 1 <==> n < 10
  {
    if n < 10 then [DigitChar(n)] else Decimal(n / 10) + [DigitChar(n % 10)]
  }

  /** `Decimal` is inverted by `DigitsValue`, so distinct numbers print differently. */
  lemma {:induction false} DecimalRoundTrip(n: nat)
    ensures DigitsValue(Decimal(n)) == n
  {
    if n >= 10 {
      var r := Decimal(n);
      assert r[..|r| - 1] == Decimal(n / 10);
      DecimalRoundTrip(n / 10);
    }
  }

  /** Python `f"{n:02d}"`: decimal, zero-padded to at least two digits. */
  function Pad2(n: nat): (r: string)
    ensures |r| >= 2 && AllDigits(r)
    ensures n >= 10 ==> r == Decimal(n)
    ensures n < 10 ==> r == "0" + Decimal(n)
  {
    DecimalDigits(n);
    PadWith(Decimal, n)
  }

  /**
   * `Pad2` with `decimal` printing the number (always `Decimal`; taking it as a
   * parameter keeps the digit arithmetic out of the reasoning about identifiers).
   */
  function PadWith(decimal: nat -> string, n: nat): string
  {
    var d := decimal(n);
    if |d| < 2 then "0" + d else d
  }

  lemma DecimalDigits(n: nat)
    ensures 1 <= |Decimal(n)| && AllDigits(Decimal(n))
    ensures |Decimal(n)| == 1 <==> n < 10
  {
  }

  /** Zero padding does not change the number the digits spell. */
  lemma Pad2Value(n: nat)
    ensures DigitsValue(Pad2(n)) == n
  {
    var d := Decimal(n);
    DecimalDigits(n);
    DecimalRoundTrip(n);
    if |d| < 2 {
      LeadingZero(d);
    }
  }

  /** A leading zero does not change the number the digits spell. */
  lemma {:induction false} LeadingZero(d: string)
    requires AllDigits(d)
    ensures AllDigits("0" + d) && DigitsValue("0" + d) == DigitsValue(d)
  {
    if |d| > 0 {
      var e := d[..|d| - 1];
      assert ("0" + d)[..|d|] == "0" + e;
      LeadingZero(e);
    }
  }

  // ---------------------------------------------------------------- ordering

  /** Python's `a <= b` on strings: lexicographic order of code points. */
  predicate StrLe(a: string, b: string)
  {
    |a| == 0 || (|b| > 0 && (a[0] < b[0] || (a[0] == b[0] && StrLe(a[1..], b[1..]))))
  }

  lemma {:induction false} StrLeTotal(a: string, b: string)
    ensures StrLe(a, b) || StrLe(b, a)
  {
    if |a| > 0 && |b| > 0 && a[0] == b[0] {
      StrLeTotal(a[1..], b[1..]);
    }
  }

  lemma {:induction false} StrLeTransitive(a: string, b: string, c: string)
    requires StrLe(a, b) && StrLe(b, c)
    ensures StrLe(a, c)
  {
    if |a| > 0 && |b| > 0 && |c| > 0 && a[0] == b[0] == c[0] {
      StrLeTransitive(a[1..], b[1..], c[1..]);
    }
  }

  lemma {:induction false} StrLeAntisymmetric(a: string, b: string)
    requires StrLe(a, b) && StrLe(b, a)
    ensures a == b
  {
    if |a| > 0 {
      StrLeAntisymmetric(a[1..], b[1..]);
      assert a == [a[0]] + a[1..];
      assert b == [b[0]] + b[1..];
    }
  }
}
