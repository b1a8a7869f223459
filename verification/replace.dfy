/** Literal search-and-replace as the masking scripts use it.
    `text.replace(new RegExp(escapeRegExp(original), flags), masked)` with flags `'g'` or
    `'gi'` replaces every leftmost, non-overlapping occurrence of `original`; `'i'` makes
    the comparison case-insensitive. None of the replacement strings contains `$`, so
    the replacement is inserted literally. */
module Replace {
  import opened Strings

  /** One `{ original, masked }` entry of a masking table. */
  datatype Mapping = Mapping(original: string, masked: string)

  /** Global replacement of `p` by `r`, scanning left to right. */
  function ReplaceAllBy(s: string, p: string, r: string, ci: bool): (t: string)
    requires |p| > 0
    decreases |s|
  {
    if |s| == 0 then ""
    else if StartsWithBy(s, p, ci) then r + ReplaceAllBy(s[|p|..], p, r, ci)
    else [s[0]] + ReplaceAllBy(s[1..], p, r, ci)
  }

  /** Case-sensitive global replacement (`'g'`). */
  function ReplaceAll(s: string, p: string, r: string): (t: string)
    requires |p| > 0
  {
    ReplaceAllBy(s, p, r, false)
  }

  /** `s.replace(p, r)` with a string pattern: only the first occurrence is replaced. */
  function ReplaceFirst(s: string, p: string, r: string): (t: string)
    requires |p| > 0
    decreases |s|
  {
    if |s| == 0 then ""
    else if StartsWith(s, p) then r + s[|p|..]
    else [s[0]] + ReplaceFirst(s[1..], p, r)
  }

  /** Applies one table entry; an entry with an empty original changes nothing. */
  function ApplyMapping(s: string, m: Mapping, ci: bool): string {
    if |m.original| == 0 then s else ReplaceAllBy(s, m.original, m.masked, ci)
  }

  /** `maskText`: the table entries are applied one after the other, in table order. */
  function ApplyMappings(s: string, ms: seq<Mapping>, ci: bool): string
    decreases |ms|
  {
    if |ms| == 0 then s else ApplyMappings(ApplyMapping(s, ms[0], ci), ms[1..], ci)
  }

  // ---------------------------------------------------------------------------
  // Properties of a single replacement
  // ---------------------------------------------------------------------------

  /** Text in which the pattern does not occur is left unchanged. */
  lemma {:induction false} ReplaceAllAbsent(s: string, p: string, r: string, ci: bool)
    requires |p| > 0 && !OccursBy(s, p, ci)
    ensures ReplaceAllBy(s, p, r, ci) == s
    decreases |s|
  {
    if |s| > 0 {
      ReplaceAllAbsent(s[1..], p, r, ci);
      assert s == [s[0]] + s[1..];
    }
  }

  /** Replacing a pattern by itself changes nothing. */
  lemma {:induction false} ReplaceAllSelf(s: string, p: string)
    requires |p| > 0
    ensures ReplaceAll(s, p, p) == s
    decreases |s|
  {
    if |s| > 0 {
      if StartsWith(s, p) {
        StartsWithSpec(s, p);
        ReplaceAllSelf(s[|p|..], p);
        assert s == s[..|p|] + s[|p|..];
      } else {
        ReplaceAllSelf(s[1..], p);
        assert s == [s[0]] + s[1..];
      }
    }
  }

  /** After a replacement whose text cannot start or complete the pattern, the pattern
      no longer occurs: no character of `r` can begin `p`, and the first character of
      `r` can continue no partial match of `p`. */
  lemma {:induction false} ReplaceAllRemoves(s: string, p: string, r: string, ci: bool)
    requires |p| > 0 && |r| > 0
    requires forall j :: 0 <= j < |r| ==> !CharEq(r[j], p[0], ci)
    requires forall j :: 0 <= j < |p| ==> !CharEq(r[0], p[j], ci)
    ensures !OccursBy(ReplaceAllBy(s, p, r, ci), p, ci)
    decreases |s|
  {
    if |s| > 0 {
      ReplaceAllRemoves(s[1..], p, r, ci);
      if StartsWithBy(s, p, ci) {
        ReplaceAllRemoves(s[|p|..], p, r, ci);
        NoStartInside(r, ReplaceAllBy(s[|p|..], p, r, ci), p, ci);
      } else {
        var o' := ReplaceAllBy(s[1..], p, r, ci);
        var o := [s[0]] + o';
        assert o[1..] == o';
        if StartsWithBy(o, p, ci) {
          ContinuedMatch(s[1..], p, r, ci, 1);
          assert false;
        }
      }
    }
  }

  /** A nonempty replacement text sharing no character with `w` cannot be part of a
      prefix `w` of the result: that prefix was already a prefix of the original. */
  lemma {:induction false} PrefixBeforeReplacement(t: string, p: string, r: string, ci: bool, w: string)
    requires |p| > 0 && |r| > 0
    requires forall j :: 0 <= j < |w| ==> CharAbsent(w[j], r, ci)
    requires StartsWithBy(ReplaceAllBy(t, p, r, ci), w, ci)
    ensures StartsWithBy(t, w, ci)
    decreases |w|
  {
    if |w| > 0 {
      var o := ReplaceAllBy(t, p, r, ci);
      assert |t| > 0;
      if !StartsWithBy(t, p, ci) {
        var o' := ReplaceAllBy(t[1..], p, r, ci);
        assert o[1..] == o';
        PrefixBeforeReplacement(t[1..], p, r, ci, w[1..]);
      }
    }
  }

  /** A pattern that does not occur in the text, and whose characters the
      replacement text lacks, does not occur after the replacement either. */
  lemma {:induction false} ReplaceAllKeepsAbsent(s: string, p: string, r: string, ci: bool, q: string)
    requires |p| > 0 && |r| > 0
    requires forall j :: 0 <= j < |q| ==> CharAbsent(q[j], r, ci)
    requires !OccursBy(s, q, ci)
    ensures !OccursBy(ReplaceAllBy(s, p, r, ci), q, ci)
    decreases |s|
  {
    assert |q| > 0;
    if |s| > 0 {
      if StartsWithBy(s, p, ci) {
        SuffixAbsent(s, q, ci, |p|);
        ReplaceAllKeepsAbsent(s[|p|..], p, r, ci, q);
        forall j | 0 <= j < |r| ensures !CharEq(r[j], q[0], ci) {
          CharAbsentAt(q[0], r, ci, j);
        }
        NoStartInside(r, ReplaceAllBy(s[|p|..], p, r, ci), q, ci);
      } else {
        ReplaceAllKeepsAbsent(s[1..], p, r, ci, q);
        var o' := ReplaceAllBy(s[1..], p, r, ci);
        var o := [s[0]] + o';
        assert o[1..] == o';
        if StartsWithBy(o, q, ci) {
          PrefixBeforeReplacement(s[1..], p, r, ci, q[1..]);
        }
      }
    }
  }

  /** A pattern absent from a text is absent from each of its suffixes. */
  lemma {:induction false} SuffixAbsent(s: string, q: string, ci: bool, k: nat)
    requires k <= |s| && !OccursBy(s, q, ci)
    ensures !OccursBy(s[k..], q, ci)
    decreases k
  {
    if k > 0 {
      SuffixAbsent(s[1..], q, ci, k - 1);
      assert s[1..][k - 1..] == s[k..];
    }
  }

  /** A prefix `a` none of whose characters can begin `p` adds no occurrence. */
  lemma {:induction false} NoStartInside(a: string, b: string, p: string, ci: bool)
    requires |p| > 0
    requires forall j :: 0 <= j < |a| ==> !CharEq(a[j], p[0], ci)
    requires !OccursBy(b, p, ci)
    ensures !OccursBy(a + b, p, ci)
    decreases |a|
  {
    if |a| > 0 {
      assert (a + b)[1..] == a[1..] + b;
      NoStartInside(a[1..], b, p, ci);
    } else {
      assert a + b == b;
    }
  }

  /** If the replaced text starts with the tail `p[m..]` of the pattern, so does the
      original text: a replacement's first character cannot continue a match. */
  lemma {:induction false} ContinuedMatch(t: string, p: string, r: string, ci: bool, m: nat)
    requires 1 <= m <= |p| && |r| > 0
    requires forall j :: 0 <= j < |p| ==> !CharEq(r[0], p[j], ci)
    requires StartsWithBy(ReplaceAllBy(t, p, r, ci), p[m..], ci)
    ensures StartsWithBy(t, p[m..], ci)
    decreases |p| - m
  {
    if m < |p| {
      var o := ReplaceAllBy(t, p, r, ci);
      assert |o| > 0;
      if StartsWithBy(t, p, ci) {
        assert false;
      } else {
        assert o[1..] == ReplaceAllBy(t[1..], p, r, ci);
        assert p[m..][1..] == p[m + 1..];
        ContinuedMatch(t[1..], p, r, ci, m + 1);
      }
    }
  }

  /** An occurrence of a text containing `p` is an occurrence of `p`. */
  lemma {:induction false} OccursInfix(s: string, a: string, p: string, b: string, ci: bool)
    requires OccursBy(s, a + p + b, ci)
    ensures OccursBy(s, p, ci)
    decreases |s|
  {
    if StartsWithBy(s, a + p + b, ci) {
      StartsInfix(s, a, p, b, ci);
    } else {
      OccursInfix(s[1..], a, p, b, ci);
    }
  }

  lemma {:induction false} StartsInfix(s: string, a: string, p: string, b: string, ci: bool)
    requires StartsWithBy(s, a + p + b, ci)
    ensures OccursBy(s, p, ci)
    decreases |a|
  {
    if |a| == 0 {
      assert a + p + b == p + b;
      StartsPrefix(s, p, b, ci);
    } else {
      assert (a + p + b)[1..] == a[1..] + p + b;
      StartsInfix(s[1..], a[1..], p, b, ci);
    }
  }

  lemma {:induction false} StartsPrefix(s: string, p: string, b: string, ci: bool)
    requires StartsWithBy(s, p + b, ci)
    ensures StartsWithBy(s, p, ci)
    decreases |p|
  {
    if |p| > 0 {
      assert (p + b)[1..] == p[1..] + b;
      StartsPrefix(s[1..], p[1..], b, ci);
    }
  }

  // ---------------------------------------------------------------------------
  // First-occurrence replacement
  // ---------------------------------------------------------------------------

  /** `s.replace(p, r)` changes nothing when `p` does not occur. */
  lemma {:induction false} ReplaceFirstAbsent(s: string, p: string, r: string)
    requires |p| > 0 && !Contains(s, p)
    ensures ReplaceFirst(s, p, r) == s
    decreases |s|
  {
    if |s| > 0 {
      ReplaceFirstAbsent(s[1..], p, r);
      assert s == [s[0]] + s[1..];
    }
  }

  /** When `p` occurs, `s.replace(p, r)` splices `r` over the leftmost occurrence. */
  lemma {:induction false} ReplaceFirstSplice(s: string, p: string, r: string)
    requires |p| > 0 && Contains(s, p)
    ensures 0 <= IndexOf(s, p)
    ensures ReplaceFirst(s, p, r) == s[..IndexOf(s, p)] + r + s[IndexOf(s, p) + |p|..]
    decreases |s|
  {
    if StartsWith(s, p) {
      assert s[..0] + r + s[|p|..] == r + s[|p|..];
    } else {
      assert |s| > 0 && Contains(s[1..], p);
      assert ReplaceFirst(s, p, r) == [s[0]] + ReplaceFirst(s[1..], p, r);
      var i := IndexOf(s[1..], p);
      ReplaceFirstSplice(s[1..], p, r);
      assert IndexOf(s, p) == i + 1;
      assert s[..i + 1] == [s[0]] + s[1..][..i];
      assert s[i + 1 + |p|..] == s[1..][i + |p|..];
    }
  }

  // ---------------------------------------------------------------------------
  // Tables
  // ---------------------------------------------------------------------------

  /** Masking with the concatenation of two tables is masking with one, then the other. */
  lemma {:induction false} ApplyMappingsAppend(s: string, ms1: seq<Mapping>, ms2: seq<Mapping>, ci: bool)
    ensures ApplyMappings(s, ms1 + ms2, ci) == ApplyMappings(ApplyMappings(s, ms1, ci), ms2, ci)
    decreases |ms1|
  {
    if |ms1| == 0 {
      assert ms1 + ms2 == ms2;
    } else {
      assert (ms1 + ms2)[1..] == ms1[1..] + ms2;
      ApplyMappingsAppend(ApplyMapping(s, ms1[0], ci), ms1[1..], ms2, ci);
    }
  }

  /** A table none of whose entries changes the text leaves it unchanged. */
  lemma {:induction false} ApplyMappingsKeep(s: string, ms: seq<Mapping>, ci: bool)
    requires forall i :: 0 <= i < |ms| ==> ApplyMapping(s, ms[i], ci) == s
    ensures ApplyMappings(s, ms, ci) == s
    decreases |ms|
  {
    if |ms| > 0 {
      assert forall i :: 0 <= i < |ms| - 1 ==> ms[1..][i] == ms[i + 1];
      ApplyMappingsKeep(s, ms[1..], ci);
    }
  }

  /** An entry whose original does not occur in the text changes nothing. */
  lemma ApplyMappingAbsent(s: string, m: Mapping, ci: bool)
    requires !OccursBy(s, m.original, ci)
    ensures ApplyMapping(s, m, ci) == s
  {
    if |m.original| > 0 { ReplaceAllAbsent(s, m.original, m.masked, ci); }
  }

  // ---------------------------------------------------------------------------
  // Cheap absence tests for concrete texts
  // ---------------------------------------------------------------------------

  /** No character of `s` equals `c` under `CharEq`. */
  predicate CharAbsent(c: char, s: string, ci: bool)
    decreases |s|
  {
    |s| == 0 || (!CharEq(s[0], c, ci) && CharAbsent(c, s[1..], ci))
  }

  lemma {:induction false} CharAbsentAt(c: char, s: string, ci: bool, k: nat)
    requires CharAbsent(c, s, ci) && k < |s|
    ensures !CharEq(s[k], c, ci)
    decreases k
  {
    if k > 0 { CharAbsentAt(c, s[1..], ci, k - 1); }
  }

  lemma {:induction false} StartsWithByAt(s: string, p: string, ci: bool, k: nat)
    requires StartsWithBy(s, p, ci) && k < |p|
    ensures k < |s| && CharEq(s[k], p[k], ci)
    decreases k
  {
    if k > 0 { StartsWithByAt(s[1..], p[1..], ci, k - 1); }
  }

  /** A character absent from both halves is absent from their concatenation. */
  lemma {:induction false} CharAbsentAppend(c: char, a: string, b: string, ci: bool)
    requires CharAbsent(c, a, ci) && CharAbsent(c, b, ci)
    ensures CharAbsent(c, a + b, ci)
    decreases |a|
  {
    if |a| > 0 {
      assert (a + b)[1..] == a[1..] + b;
      CharAbsentAppend(c, a[1..], b, ci);
    } else {
      assert a + b == b;
    }
  }

  /** A pattern with a character that the text lacks does not occur in it. */
  lemma {:induction false} ForeignCharAbsent(s: string, p: string, ci: bool, k: nat)
    requires k < |p| && CharAbsent(p[k], s, ci)
    ensures !OccursBy(s, p, ci)
    decreases |s|
  {
    if StartsWithBy(s, p, ci) {
      StartsWithByAt(s, p, ci, k);
      CharAbsentAt(p[k], s, ci, k);
    }
    if |s| > 0 { ForeignCharAbsent(s[1..], p, ci, k); }
  }

  /** A pattern longer than the text does not occur in it. */
  lemma {:induction false} LongPatternAbsent(s: string, p: string, ci: bool)
    requires |s| < |p|
    ensures !OccursBy(s, p, ci)
    decreases |s|
  {
    if |s| > 0 { LongPatternAbsent(s[1..], p, ci); }
  }

  // ---------------------------------------------------------------------------
  // Regular-expression escaping
  // ---------------------------------------------------------------------------

  /** The characters `escapeRegExp` protects: `. * + ? ^ $ { } ( ) | [ ] \`. */
  predicate IsRegExpSpecial(c: char) {
    c in {'.', '*', '+', '?', '^', '$', '{', '}', '(', ')', '|', '[', ']', '\\'}
  }

  /** `escapeRegExp`: each special character gets a backslash in front; every other
      character is kept. */
  function EscapeRegExp(s: string): (r: string)
    ensures |r| >= |s|
    ensures (forall i :: 0 <= i < |s| ==> !IsRegExpSpecial(s[i])) ==> r == s
    decreases |s|
  {
    if |s| == 0 then ""
    else if IsRegExpSpecial(s[0]) then ['\\', s[0]] + EscapeRegExp(s[1..])
    else [s[0]] + EscapeRegExp(s[1..])
  }

  /** Reading an escaped pattern back: a backslash stands for the character after it. */
  function UnescapeRegExp(s: string): (r: string)
    decreases |s|
  {
    if |s| == 0 then ""
    else if s[0] == '\\' && |s| > 1 then [s[1]] + UnescapeRegExp(s[2..])
    else [s[0]] + UnescapeRegExp(s[1..])
  }

  /** The escaped pattern denotes the original text: unescaping gives it back. */
  lemma {:induction false} UnescapeEscape(s: string)
    ensures UnescapeRegExp(EscapeRegExp(s)) == s
    decreases |s|
  {
    if |s| > 0 {
      UnescapeEscape(s[1..]);
      var e := EscapeRegExp(s[1..]);
      if IsRegExpSpecial(s[0]) {
        assert (['\\', s[0]] + e)[2..] == e;
      } else {
        assert ([s[0]] + e)[1..] == e;
      }
    }
  }
}
