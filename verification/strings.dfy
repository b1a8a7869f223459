/** JavaScript and Python string primitives that the rest of the model is built on.
    Strings are sequences of characters. Case mapping is ASCII-only, and `trim` uses
    the whitespace set defined by `IsWs`. */
module Strings {
  import opened Wrappers

  // ---------------------------------------------------------------------------
  // Characters
  // ---------------------------------------------------------------------------

  predicate IsDigit(c: char) { '0' <= c <= '9' }
  predicate IsAsciiUpper(c: char) { 'A' <= c <= 'Z' }
  predicate IsAsciiLower(c: char) { 'a' <= c <= 'z' }
  predicate IsAsciiLetter(c: char) { IsAsciiUpper(c) || IsAsciiLower(c) }

  /** `c.toLowerCase()` restricted to ASCII: A-Z become a-z, everything else is kept. */
  function LowerChar(c: char): (r: char)
    ensures !IsAsciiUpper(r)
    ensures IsAsciiUpper(c) ==> r as int == c as int + 32
    ensures !IsAsciiUpper(c) ==> r == c
  {
    if IsAsciiUpper(c) then (c as int + 32) as char else c
  }

  /** `c.toUpperCase()` restricted to ASCII. */
  function UpperChar(c: char): (r: char)
    ensures !IsAsciiLower(r)
    ensures IsAsciiLower(c) ==> r as int + 32 == c as int
    ensures !IsAsciiLower(c) ==> r == c
  {
    if IsAsciiLower(c) then (c as int - 32) as char else c
  }

  function Lower(s: string): (r: string)
    ensures |r| == |s|
    ensures forall i :: 0 <= i < |s| ==> r[i] == LowerChar(s[i])
  {
    seq(|s|, i requires 0 <= i < |s| => LowerChar(s[i]))
  }

  function Upper(s: string): (r: string)
    ensures |r| == |s|
    ensures forall i :: 0 <= i < |s| ==> r[i] == UpperChar(s[i])
  {
    seq(|s|, i requires 0 <= i < |s| => UpperChar(s[i]))
  }

  lemma LowerIdempotent(s: string)
    ensures Lower(Lower(s)) == Lower(s)
  {
  }

  lemma LowerAppend(a: string, b: string)
    ensures Lower(a + b) == Lower(a) + Lower(b)
  {
  }

  /** Characters removed by JavaScript's `trim`: the ASCII spaces and line breaks,
      NO-BREAK SPACE, the line and paragraph separators, IDEOGRAPHIC SPACE and the BOM. */
  predicate IsWs(c: char) {
    c == ' ' || c == '\t' || c == '\n' || c == '\r' || c == '\U{000B}' || c == '\U{000C}'
    || c == '\U{00A0}' || c == '\U{2028}' || c == '\U{2029}' || c == '\U{3000}' || c == '\U{FEFF}'
  }

  // ---------------------------------------------------------------------------
  // Trimming
  // ---------------------------------------------------------------------------

  function TrimStart(s: string): (r: string)
    ensures |r| <= |s| && r == s[|s| - |r|..]
    ensures |r| > 0 ==> !IsWs(r[0])
    ensures forall i :: 0 <= i < |s| - |r| ==> IsWs(s[i])
    decreases |s|
  {
    if |s| > 0 && IsWs(s[0]) then TrimStart(s[1..]) else s
  }

  function TrimEnd(s: string): (r: string)
    ensures |r| <= |s| && r == s[..|r|]
    ensures |r| > 0 ==> !IsWs(r[|r| - 1])
    ensures forall i :: |r| <= i < |s| ==> IsWs(s[i])
    decreases |s|
  {
    if |s| > 0 && IsWs(s[|s| - 1]) then TrimEnd(s[..|s| - 1]) else s
  }

  /** `s.trim()`. */
  function Trim(s: string): (r: string)
    ensures |r| <= |s|
    ensures |r| > 0 ==> !IsWs(r[0]) && !IsWs(r[|r| - 1])
  {
    TrimEnd(TrimStart(s))
  }

  /** Every character is whitespace: what `!s.trim()` tests. */
  predicate IsBlank(s: string) {
    forall i :: 0 <= i < |s| ==> IsWs(s[i])
  }

  /** A trimmed string is empty exactly when every character is whitespace. */
  lemma TrimEmptyIff(s: string)
    ensures Trim(s) == "" <==> IsBlank(s)
  {
    if IsBlank(s) {
      TrimStartAllWs(s);
    } else {
      var i :| 0 <= i < |s| && !IsWs(s[i]);
      TrimStartNotBlank(s, i);
      TrimEndNotEmpty(TrimStart(s));
    }
  }

  lemma TrimStartNotBlank(s: string, i: nat)
    requires i < |s| && !IsWs(s[i])
    ensures |TrimStart(s)| > 0
  {
    var t := TrimStart(s);
    assert |s| - |t| <= i;
  }

  lemma TrimEndNotEmpty(t: string)
    requires |t| > 0 && !IsWs(t[0])
    ensures |TrimEnd(t)| > 0
  {
  }

  lemma {:induction false} TrimStartAllWs(s: string)
    requires forall i :: 0 <= i < |s| ==> IsWs(s[i])
    ensures TrimStart(s) == ""
    decreases |s|
  {
    if |s| > 0 { TrimStartAllWs(s[1..]); }
  }

  /** Trimming twice is trimming once. */
  lemma TrimIdempotent(s: string)
    ensures Trim(Trim(s)) == Trim(s)
  {
    var r := Trim(s);
    assert TrimStart(r) == r;
    assert TrimEnd(r) == r;
  }

  /** A string that neither starts nor ends with whitespace is its own trim. */
  lemma TrimNoWs(s: string)
    requires |s| > 0 ==> !IsWs(s[0]) && !IsWs(s[|s| - 1])
    ensures Trim(s) == s
  {
  }

  // ---------------------------------------------------------------------------
  // Prefixes, suffixes and substrings
  // ---------------------------------------------------------------------------

  /** Character equality, case-insensitive (ASCII folding) when `ci` holds. */
  predicate CharEq(a: char, b: char, ci: bool) {
    if ci then LowerChar(a) == LowerChar(b) else a == b
  }

  /** `s` begins with `p`, comparing characters with `CharEq`. */
  predicate StartsWithBy(s: string, p: string, ci: bool): (b: bool)
    ensures b ==> |p| <= |s|
    decreases |p|
  {
    |p| == 0 || (|s| > 0 && CharEq(s[0], p[0], ci) && StartsWithBy(s[1..], p[1..], ci))
  }

  /** `p` occurs somewhere in `s`, comparing characters with `CharEq`. */
  predicate OccursBy(s: string, p: string, ci: bool)
    decreases |s|
  {
    StartsWithBy(s, p, ci) || (|s| > 0 && OccursBy(s[1..], p, ci))
  }

  /** `s.startsWith(p)`. */
  predicate StartsWith(s: string, p: string) { StartsWithBy(s, p, false) }

  /** `s.includes(p)`. */
  predicate Contains(s: string, p: string) { OccursBy(s, p, false) }

  /** `s.endsWith(p)`. */
  predicate EndsWith(s: string, p: string) {
    |p| <= |s| && s[|s| - |p|..] == p
  }

  /** The recursive prefix test agrees with slicing. */
  lemma {:induction false} StartsWithSpec(s: string, p: string)
    ensures StartsWith(s, p) <==> |p| <= |s| && s[..|p|] == p
    decreases |p|
  {
    if |p| > 0 && |s| > 0 {
      StartsWithSpec(s[1..], p[1..]);
      if |p| <= |s| && s[..|p|] == p {
        assert s[1..][..|p| - 1] == p[1..];
      }
      if StartsWith(s, p) {
        assert s[..|p|] == [s[0]] + s[1..][..|p| - 1];
      }
    }
  }

  /** A string starts with whatever was put in front of it. */
  lemma StartsWithAppend(p: string, x: string)
    ensures StartsWith(p + x, p)
  {
    StartsWithSpec(p + x, p);
    assert (p + x)[..|p|] == p;
  }

  /** The case-insensitive prefix test compares lower-cased slices. */
  lemma {:induction false} StartsWithCiSpec(s: string, p: string)
    ensures StartsWithBy(s, p, true) <==> |p| <= |s| && Lower(s[..|p|]) == Lower(p)
    decreases |p|
  {
    if |p| > 0 && |s| > 0 {
      StartsWithCiSpec(s[1..], p[1..]);
      if |p| <= |s| && Lower(s[..|p|]) == Lower(p) {
        assert Lower(s[..|p|])[0] == Lower(p)[0];
        assert Lower(s[1..][..|p| - 1]) == Lower(p[1..]) by {
          forall k | 0 <= k < |p| - 1
            ensures Lower(s[1..][..|p| - 1])[k] == Lower(p[1..])[k]
          {
            assert Lower(s[..|p|])[k + 1] == Lower(p)[k + 1];
          }
        }
      }
      if StartsWithBy(s, p, true) {
        assert Lower(s[..|p|]) == Lower(p) by {
          forall k | 0 <= k < |p| ensures Lower(s[..|p|])[k] == Lower(p)[k] {
            if k > 0 {
              assert Lower(s[1..][..|p| - 1])[k - 1] == Lower(p[1..])[k - 1];
            }
          }
        }
      }
    }
  }

  /** `p` occurs in `s` at position `i`. */
  predicate OccursAt(s: string, p: string, i: int) {
    0 <= i && i + |p| <= |s| && s[i..i + |p|] == p
  }

  /** The recursive substring test agrees with the positional definition. */
  lemma {:induction false} ContainsSpec(s: string, p: string)
    ensures Contains(s, p) <==> exists i :: OccursAt(s, p, i)
    decreases |s|
  {
    StartsWithSpec(s, p);
    if |s| > 0 {
      ContainsSpec(s[1..], p);
      if StartsWith(s, p) {
        assert s[0..|p|] == s[..|p|];
        assert OccursAt(s, p, 0);
      }
      if Contains(s[1..], p) {
        var i :| OccursAt(s[1..], p, i);
        assert s[i + 1..i + 1 + |p|] == s[1..][i..i + |p|];
        assert OccursAt(s, p, i + 1);
      }
      if exists i :: OccursAt(s, p, i) {
        var i :| OccursAt(s, p, i);
        if i > 0 {
          assert s[1..][i - 1..i - 1 + |p|] == s[i..i + |p|];
          assert OccursAt(s[1..], p, i - 1);
        } else {
          assert s[..|p|] == s[0..|p|];
        }
      }
    } else {
      if Contains(s, p) {
        assert OccursAt(s, p, 0);
      }
      if exists i :: OccursAt(s, p, i) {
        var i :| OccursAt(s, p, i);
        assert i == 0 && |p| == 0;
      }
    }
  }

  /** The empty string occurs in every string. */
  lemma ContainsEmpty(s: string)
    ensures Contains(s, "")
  {
  }

  /** A string contains itself. */
  lemma ContainsSelf(s: string)
    ensures Contains(s, s)
  {
    StartsWithSpec(s, s);
  }

  /** Substring containment is preserved by extending the text on either side. */
  lemma ContainsInfix(a: string, p: string, b: string)
    ensures Contains(a + p + b, p)
  {
    ContainsSpec(a + p + b, p);
    assert OccursAt(a + p + b, p, |a|);
  }

  /** `s.indexOf(p)`: the first position where `p` occurs, or -1. */
  function IndexOf(s: string, p: string): (i: int)
    ensures i >= 0 <==> Contains(s, p)
    ensures -1 <= i && (i >= 0 ==> i + |p| <= |s|)
    decreases |s|
  {
    if StartsWith(s, p) then 0
    else if |s| == 0 then -1
    else
      var k := IndexOf(s[1..], p);
      if k < 0 then -1 else k + 1
  }

  /** `indexOf` finds the leftmost occurrence, and -1 exactly when there is none. */
  lemma {:induction false} IndexOfSpec(s: string, p: string)
    ensures IndexOf(s, p) >= 0 ==> OccursAt(s, p, IndexOf(s, p))
    ensures forall j :: 0 <= j < IndexOf(s, p) ==> !OccursAt(s, p, j)
    decreases |s|
  {
    StartsWithSpec(s, p);
    if StartsWith(s, p) {
      assert s[0..|p|] == s[..|p|];
    } else if |s| > 0 {
      IndexOfSpec(s[1..], p);
      var k := IndexOf(s[1..], p);
      if k >= 0 {
        assert s[k + 1..k + 1 + |p|] == s[1..][k..k + |p|];
      }
      forall j | 0 <= j < IndexOf(s, p) ensures !OccursAt(s, p, j) {
        if j > 0 {
          assert s[j..j + |p|] == s[1..][j - 1..j - 1 + |p|];
          assert !OccursAt(s[1..], p, j - 1);
        } else {
          assert s[0..|p|] == s[..|p|];
        }
      }
    }
  }

  /** Case-insensitive occurrence is occurrence of the lower-cased pattern in the
      lower-cased text, which is how `a.toLowerCase().includes(q)` is written. */
  lemma {:induction false} OccursCiSpec(s: string, p: string)
    ensures OccursBy(s, p, true) <==> Contains(Lower(s), Lower(p))
    decreases |s|
  {
    StartsWithCiSpec(s, p);
    StartsWithSpec(Lower(s), Lower(p));
    if |p| <= |s| {
      assert Lower(s)[..|p|] == Lower(s[..|p|]);
    }
    if |s| > 0 {
      OccursCiSpec(s[1..], p);
      assert Lower(s)[1..] == Lower(s[1..]);
    }
  }

  // ---------------------------------------------------------------------------
  // Splitting and joining
  // ---------------------------------------------------------------------------

  /** `s.split(sep)` for a one-character separator: never empty, and no part
      contains the separator. */
  function Split(s: string, sep: char): (parts: seq<string>)
    ensures |parts| >= 1
    ensures forall i :: 0 <= i < |parts| ==> sep !in parts[i]
    decreases |s|
  {
    if |s| == 0 then [""]
    else
      var rest := Split(s[1..], sep);
      if s[0] == sep then [""] + rest
      else [[s[0]] + rest[0]] + rest[1..]
  }

  /** `parts.join(sep)`. */
  function Join(parts: seq<string>, sep: string): (r: string)
    decreases |parts|
  {
    if |parts| == 0 then ""
    else if |parts| == 1 then parts[0]
    else parts[0] + sep + Join(parts[1..], sep)
  }

  /** Joining the parts of a split gives back the original text. */
  lemma {:induction false} JoinSplit(s: string, sep: char)
    ensures Join(Split(s, sep), [sep]) == s
    decreases |s|
  {
    if |s| > 0 {
      JoinSplit(s[1..], sep);
      var rest := Split(s[1..], sep);
      if s[0] == sep {
        assert Split(s, sep) == [""] + rest;
        assert ([""] + rest)[1..] == rest;
      } else {
        var parts := Split(s, sep);
        assert parts == [[s[0]] + rest[0]] + rest[1..];
        if |rest| == 1 {
          assert s == [s[0]] + s[1..];
        } else {
          assert parts[1..] == rest[1..];
          assert Join(rest, [sep]) == rest[0] + [sep] + Join(rest[1..], [sep]);
          assert s == [s[0]] + s[1..];
        }
      }
    }
  }

  /** Splitting a join whose parts avoid the separator gives back the parts. */
  lemma {:induction false} SplitJoin(parts: seq<string>, sep: char)
    requires |parts| >= 1
    requires forall i :: 0 <= i < |parts| ==> sep !in parts[i]
    ensures Split(Join(parts, [sep]), sep) == parts
    decreases |parts|, |parts[0]|
  {
    if |parts| == 1 {
      SplitNoSep(parts[0], sep);
    } else if |parts[0]| == 0 {
      SplitJoin(parts[1..], sep);
      var s := Join(parts, [sep]);
      assert s == [sep] + Join(parts[1..], [sep]);
      assert s[1..] == Join(parts[1..], [sep]);
      assert parts == [""] + parts[1..];
    } else {
      var tail := [parts[0][1..]] + parts[1..];
      assert sep !in tail[0];
      assert forall i :: 1 <= i < |tail| ==> tail[i] == parts[i];
      SplitJoin(tail, sep);
      var s := Join(parts, [sep]);
      assert tail[1..] == parts[1..];
      assert Join(tail, [sep]) == parts[0][1..] + [sep] + Join(parts[1..], [sep]);
      assert s == [parts[0][0]] + Join(tail, [sep]);
      assert s[1..] == Join(tail, [sep]);
      assert parts[0] == [parts[0][0]] + parts[0][1..];
    }
  }

  /** The last part of a split (`s.split(sep).pop()`) is the whole text when the
      separator does not occur, and otherwise the text after its last occurrence. */
  lemma {:induction false} SplitLast(s: string, sep: char)
    ensures sep in s <==> |Split(s, sep)| >= 2
    ensures sep !in s ==> Split(s, sep)[|Split(s, sep)| - 1] == s
    ensures sep in s ==> EndsWith(s, [sep] + Split(s, sep)[|Split(s, sep)| - 1])
    decreases |s|
  {
    if |s| > 0 {
      SplitLast(s[1..], sep);
      var rest := Split(s[1..], sep);
      var p := Split(s, sep);
      assert s == [s[0]] + s[1..];
      if s[0] == sep {
        assert p == [""] + rest;
        assert p[|p| - 1] == rest[|rest| - 1];
      } else {
        assert p == [[s[0]] + rest[0]] + rest[1..];
        if |rest| >= 2 {
          assert p[|p| - 1] == rest[|rest| - 1];
        }
      }
    }
  }

  /** A text without the separator splits into itself alone. */
  lemma {:induction false} SplitNoSep(s: string, sep: char)
    requires sep !in s
    ensures Split(s, sep) == [s]
    decreases |s|
  {
    if |s| > 0 {
      SplitNoSep(s[1..], sep);
      assert s == [s[0]] + s[1..];
    }
  }

  // ---------------------------------------------------------------------------
  // Numbers
  // ---------------------------------------------------------------------------

  function DigitChar(d: nat): (c: char)
    requires d < 10
    ensures IsDigit(c)
  {
    ('0' as int + d) as char
  }

  function DigitValue(c: char): (d: nat)
    requires IsDigit(c)
    ensures d < 10 && DigitChar(d) == c
  {
    c as int - '0' as int
  }

  predicate AllDigits(s: string) {
    forall i :: 0 <= i < |s| ==> IsDigit(s[i])
  }

  /** `String(n)` for a non-negative integer. */
  function NatToString(n: nat): (r: string)
    ensures |r| >= 1 && AllDigits(r)
    ensures n >= 10 <==> |r| >= 2
    ensures r[0] != '0' || n == 0
    decreases n
  {
    if n < 10 then [DigitChar(n)] else NatToString(n / 10) + [DigitChar(n % 10)]
  }

  /** The value of a string of decimal digits. */
  function DigitsValue(s: string): (v: nat)
    requires AllDigits(s)
    decreases |s|
  {
    if |s| == 0 then 0 else DigitsValue(s[..|s| - 1]) * 10 + DigitValue(s[|s| - 1])
  }

  /** Decimal printing and digit reading are inverse. */
  lemma {:induction false} DigitsValueOfNatToString(n: nat)
    ensures DigitsValue(NatToString(n)) == n
    decreases n
  {
    if n >= 10 {
      DigitsValueOfNatToString(n / 10);
      var s := NatToString(n);
      assert s[..|s| - 1] == NatToString(n / 10);
    }
  }

  /** The longest prefix of decimal digits. */
  function LeadingDigits(s: string): (r: string)
    ensures AllDigits(r) && |r| <= |s| && r == s[..|r|]
    ensures |r| < |s| ==> !IsDigit(s[|r|])
    decreases |s|
  {
    if |s| > 0 && IsDigit(s[0]) then [s[0]] + LeadingDigits(s[1..]) else ""
  }

  /** The leading digits of a digit block followed by a non-digit are that block. */
  lemma {:induction false} LeadingDigitsAppend(a: string, b: string)
    requires AllDigits(a) && (|b| == 0 || !IsDigit(b[0]))
    ensures LeadingDigits(a + b) == a
    decreases |a|
  {
    if |a| > 0 {
      assert (a + b)[1..] == a[1..] + b;
      LeadingDigitsAppend(a[1..], b);
    } else {
      assert a + b == b;
    }
  }

  predicate IsHexDigit(c: char) {
    IsDigit(c) || 'a' <= c <= 'f' || 'A' <= c <= 'F'
  }

  function HexDigitValue(c: char): (d: nat)
    requires IsHexDigit(c)
    ensures d < 16
    ensures IsDigit(c) ==> d == DigitValue(c)
  {
    if IsDigit(c) then DigitValue(c)
    else if 'a' <= c <= 'f' then c as int - 'a' as int + 10
    else c as int - 'A' as int + 10
  }

  predicate AllHexDigits(s: string) {
    forall i :: 0 <= i < |s| ==> IsHexDigit(s[i])
  }

  /** The value of a string of hexadecimal digits. */
  function HexValue(s: string): (v: nat)
    requires AllHexDigits(s)
    decreases |s|
  {
    if |s| == 0 then 0 else HexValue(s[..|s| - 1]) * 16 + HexDigitValue(s[|s| - 1])
  }

  /** The longest prefix of hexadecimal digits. */
  function LeadingHexDigits(s: string): (r: string)
    ensures AllHexDigits(r) && |r| <= |s| && r == s[..|r|]
    ensures |r| < |s| ==> !IsHexDigit(s[|r|])
    decreases |s|
  {
    if |s| > 0 && IsHexDigit(s[0]) then [s[0]] + LeadingHexDigits(s[1..]) else ""
  }

  /** `0x` or `0X`, which makes a radix-less `parseInt` read hexadecimal. */
  predicate HasHexPrefix(u: string) {
    |u| >= 2 && u[0] == '0' && (u[1] == 'x' || u[1] == 'X')
  }

  /** The digits `parseInt` reads after the sign, and whether they are hexadecimal:
      after a `0x`/`0X` prefix the longest run of hexadecimal digits, otherwise the
      longest run of decimal digits. */
  function Numeral(u: string): (r: (bool, string))
    ensures r.0 <==> HasHexPrefix(u)
    ensures r.0 ==> AllHexDigits(r.1) && |r.1| <= |u| - 2 && r.1 == u[2..2 + |r.1|]
    ensures !r.0 ==> AllDigits(r.1) && |r.1| <= |u| && r.1 == u[..|r.1|]
  {
    if HasHexPrefix(u) then (true, LeadingHexDigits(u[2..])) else (false, LeadingDigits(u))
  }

  /** `parseInt(s)` without a radix, as every call site in the source writes it:
      leading whitespace is skipped, an optional sign is read, then a `0x`/`0X` prefix
      selects radix 16, and the longest run of digits of the radix is read; `None`
      stands for `NaN`. A prefix with no hexadecimal digit after it is `NaN`. */
  function ParseInt(s: string): (r: Option<int>)
    ensures r.None? <==> Numeral(SkipSign(TrimStart(s))).1 == ""
    ensures r.Some? && !HasHexPrefix(SkipSign(TrimStart(s))) ==>
              r.value == Signed(TrimStart(s), DigitsValue(LeadingDigits(SkipSign(TrimStart(s)))))
  {
    var t := TrimStart(s);
    var n := Numeral(SkipSign(t));
    if n.1 == "" then None
    else Some(Signed(t, if n.0 then HexValue(n.1) else DigitsValue(n.1)))
  }

  /** A value negated when the text starts with a minus sign. */
  function Signed(t: string, v: nat): int {
    var x: int := v;
    if |t| > 0 && t[0] == '-' then -x else x
  }

  function SkipSign(t: string): (r: string)
    ensures |r| <= |t|
    ensures |t| > 0 && (t[0] == '-' || t[0] == '+') ==> r == t[1..]
    ensures !(|t| > 0 && (t[0] == '-' || t[0] == '+')) ==> r == t
  {
    if |t| > 0 && (t[0] == '-' || t[0] == '+') then t[1..] else t
  }

  /** Digits alone parse to their value; in particular `parseInt(String(n)) == n`. */
  lemma ParseIntDigits(s: string)
    requires |s| > 0 && AllDigits(s)
    ensures ParseInt(s) == Some(DigitsValue(s))
  {
    assert !IsWs(s[0]);
    assert TrimStart(s) == s;
    assert SkipSign(s) == s;
    assert !HasHexPrefix(s) by { if |s| >= 2 { assert IsDigit(s[1]); } }
    LeadingDigitsAll(s);
  }

  /** `0x` followed by hexadecimal digits parses to their hexadecimal value. */
  lemma ParseIntHex(d: string)
    requires |d| > 0 && AllHexDigits(d)
    ensures ParseInt("0x" + d) == Some(HexValue(d))
  {
    var s := "0x" + d;
    assert s[0] == '0' && s[1] == 'x' && s[2..] == d;
    assert !IsWs(s[0]);
    assert TrimStart(s) == s;
    assert SkipSign(s) == s;
    assert HasHexPrefix(s);
    LeadingHexDigitsAll(d);
  }

  /** A text that starts with neither whitespace, a sign nor a digit is `NaN`. */
  lemma ParseIntNoDigits(s: string)
    requires |s| > 0 && !IsWs(s[0]) && !IsDigit(s[0]) && s[0] != '-' && s[0] != '+'
    ensures ParseInt(s) == None
  {
    assert TrimStart(s) == s;
    assert SkipSign(s) == s;
    assert !HasHexPrefix(s);
  }

  lemma {:induction false} LeadingHexDigitsAll(s: string)
    requires AllHexDigits(s)
    ensures LeadingHexDigits(s) == s
    decreases |s|
  {
    if |s| > 0 { LeadingHexDigitsAll(s[1..]); }
  }

  /** `parseInt("0x1A")` is 26, not 0. */
  lemma ParseIntHexExample()
    ensures ParseInt("0x" + "1A") == Some(26)
  {
    ParseIntHex("1A");
    HexPair("1A");
  }

  /** `parseInt("0x10")` is 16. */
  lemma ParseIntHexSixteen()
    ensures ParseInt("0x" + "10") == Some(16)
  {
    ParseIntHex("10");
    HexPair("10");
  }

  /** A bare `0x` prefix is `NaN`. */
  lemma ParseIntHexBare()
    ensures ParseInt("0x") == None
  {
    var z := "0x";
    assert !IsWs(z[0]) && TrimStart(z) == z && SkipSign(z) == z;
    assert HasHexPrefix(z) && z[2..] == "";
  }

  lemma HexPair(d: string)
    requires |d| == 2 && AllHexDigits(d)
    ensures HexValue(d) == HexDigitValue(d[0]) * 16 + HexDigitValue(d[1])
  {
    assert HexValue(d[..1]) == HexDigitValue(d[0]) by { assert d[..1][..0] == []; }
  }

  lemma {:induction false} LeadingDigitsAll(s: string)
    requires AllDigits(s)
    ensures LeadingDigits(s) == s
    decreases |s|
  {
    if |s| > 0 { LeadingDigitsAll(s[1..]); }
  }

  lemma ParseIntOfNatToString(n: nat)
    ensures ParseInt(NatToString(n)) == Some(n)
  {
    ParseIntDigits(NatToString(n));
    DigitsValueOfNatToString(n);
  }

  /** `${n}` for an integer: a minus sign before the digits of a negative number. */
  function IntToString(n: int): (r: string)
    ensures |r| >= 1
    ensures n >= 0 ==> AllDigits(r)
    ensures n < 0 ==> r[0] == '-' && AllDigits(r[1..])
  {
    if n >= 0 then NatToString(n) else "-" + NatToString(-n)
  }

  /** `parseInt` reads back every integer written by `${n}`. */
  lemma ParseIntOfIntToString(n: int)
    ensures ParseInt(IntToString(n)) == Some(n)
  {
    if n >= 0 {
      ParseIntOfNatToString(n);
    } else {
      var d := NatToString(-n);
      var s := "-" + d;
      assert !IsWs(s[0]);
      assert TrimStart(s) == s;
      assert SkipSign(s) == d;
      assert !HasHexPrefix(d) by { if |d| >= 2 { assert IsDigit(d[1]); } }
      LeadingDigitsAll(d);
      DigitsValueOfNatToString(-n);
    }
  }

  /** `s.padStart(n, c)`. */
  function PadStart(s: string, n: nat, c: char): (r: string)
    ensures |r| == if |s| >= n then |s| else n
    ensures EndsWith(r, s)
    ensures forall i :: 0 <= i < |r| - |s| ==> r[i] == c
  {
    if |s| >= n then s else seq(n - |s|, _ => c) + s
  }

  /** `String(n).padStart(2, '0')`: at least two digits, never truncated. */
  function Pad2(n: nat): (r: string)
    ensures AllDigits(r)
    ensures n < 10 ==> r == ['0', DigitChar(n)]
    ensures n >= 10 ==> r == NatToString(n)
  {
    PadStart(NatToString(n), 2, '0')
  }

  /** `String(n).padStart(3, '0')`. */
  function Pad3(n: nat): (r: string)
    ensures AllDigits(r) && |r| >= 3
    ensures n >= 100 ==> r == NatToString(n)
  {
    var s := NatToString(n);
    assert n >= 100 ==> |s| >= 3 by {
      if n >= 100 { assert NatToString(n / 10) == s[..|s| - 1]; }
    }
    PadStart(s, 3, '0')
  }

  /** Leading zeros do not change the value of a digit string. */
  lemma {:induction false} LeadingZerosValue(z: nat, s: string)
    requires AllDigits(s)
    ensures AllDigits(seq(z, _ => '0') + s)
    ensures DigitsValue(seq(z, _ => '0') + s) == DigitsValue(s)
    decreases |s|, z
  {
    var zs := seq(z, _ => '0');
    if |s| > 0 {
      LeadingZerosValue(z, s[..|s| - 1]);
      assert (zs + s)[..|zs + s| - 1] == zs + s[..|s| - 1];
    } else if z > 0 {
      LeadingZerosValue(z - 1, s);
      var shorter := seq(z - 1, _ => '0');
      assert s == [];
      assert shorter + s == shorter;
      assert zs[..z - 1] == shorter;
      assert zs + s == zs;
      assert zs[z - 1] == '0';
      assert DigitsValue(zs) == DigitsValue(shorter) * 10 + DigitValue('0');
    }
  }

  /** Reading the padded number gives the number back, so distinct numbers pad to
      distinct strings. */
  lemma Pad3Value(n: nat)
    ensures DigitsValue(Pad3(n)) == n
  {
    var s := NatToString(n);
    DigitsValueOfNatToString(n);
    if |s| < 3 {
      LeadingZerosValue(3 - |s|, s);
    }
  }

  /** Distinct numbers pad to distinct strings. */
  lemma Pad3Injective(m: nat, n: nat)
    requires Pad3(m) == Pad3(n)
    ensures m == n
  {
    Pad3Value(m);
    Pad3Value(n);
  }
}
