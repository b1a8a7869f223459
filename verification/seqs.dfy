/** Generic sequence operations mirroring JavaScript array idioms. */
module Seqs {

  predicate NoDup<T(==)>(s: seq<T>) {
    forall i, j :: 0 <= i < j < |s| ==> s[i] != s[j]
  }

  /** Without repeats, the last element does not occur before it. */
  lemma NoDupSnoc<T>(s: seq<T>)
    requires |s| > 0
    ensures NoDup(s) ==> NoDup(s[..|s| - 1]) && s[|s| - 1] !in s[..|s| - 1]
  {
    assert forall i :: 0 <= i < |s| - 1 ==> s[..|s| - 1][i] == s[i];
  }

  /** A non-empty sequence is its front followed by its last element. */
  lemma SnocSplit<T>(s: seq<T>)
    requires |s| > 0
    ensures s[..|s| - 1] + [s[|s| - 1]] == s
  {
  }

  lemma AppendAssoc<T>(a: seq<T>, b: seq<T>, c: seq<T>)
    ensures a + b + c == a + (b + c)
  {
  }

  /** `r` is obtained from `s` by deleting elements (order is kept). */
  predicate IsSubseq<T(==)>(r: seq<T>, s: seq<T>)
    decreases |s|
  {
    |r| <= |s| &&
    (|r| == 0 || (if r[|r| - 1] == s[|s| - 1] then IsSubseq(r[..|r| - 1], s[..|s| - 1])
                  else IsSubseq(r, s[..|s| - 1])))
  }

  lemma {:induction false} SubseqElements<T>(r: seq<T>, s: seq<T>)
    requires IsSubseq(r, s)
    ensures forall x :: x in r ==> x in s
    decreases |s|
  {
    if |r| > 0 {
      if r[|r| - 1] == s[|s| - 1] {
        SubseqElements(r[..|r| - 1], s[..|s| - 1]);
        assert r == r[..|r| - 1] + [r[|r| - 1]];
      } else {
        SubseqElements(r, s[..|s| - 1]);
      }
    }
  }

  lemma {:induction false} SubseqRefl<T>(s: seq<T>)
    ensures IsSubseq(s, s)
    decreases |s|
  {
    if |s| > 0 { SubseqRefl(s[..|s| - 1]); }
  }

  /** `s.filter(f)`: the elements satisfying `f`, in order. */
  function Filter<T>(f: T -> bool, s: seq<T>): (r: seq<T>)
    ensures |r| <= |s|
    ensures forall i :: 0 <= i < |r| ==> f(r[i])
    ensures forall i :: 0 <= i < |r| ==> r[i] in s
    ensures forall i :: 0 <= i < |s| && f(s[i]) ==> s[i] in r
    decreases |s|
  {
    if |s| == 0 then []
    else
      var init := Filter(f, s[..|s| - 1]);
      assert s == s[..|s| - 1] + [s[|s| - 1]];
      if f(s[|s| - 1]) then init + [s[|s| - 1]] else init
  }

  lemma FilterOne<T>(f: T -> bool, x: T)
    ensures Filter(f, [x]) == if f(x) then [x] else []
  {
    assert [x][..0] == [];
  }

  /** An element is kept exactly when it occurs and passes the test. */
  lemma FilterMember<T>(f: T -> bool, s: seq<T>, x: T)
    ensures x in Filter(f, s) <==> x in s && f(x)
  {
    var r := Filter(f, s);
    if x in r {
      var i :| 0 <= i < |r| && r[i] == x;
    }
    if x in s && f(x) {
      var i :| 0 <= i < |s| && s[i] == x;
    }
  }

  lemma {:induction false} FilterIsSubseq<T>(f: T -> bool, s: seq<T>)
    ensures IsSubseq(Filter(f, s), s)
    decreases |s|
  {
    if |s| > 0 {
      var init := Filter(f, s[..|s| - 1]);
      FilterIsSubseq(f, s[..|s| - 1]);
      if f(s[|s| - 1]) {
        assert (init + [s[|s| - 1]])[..|init|] == init;
      }
    }
  }

  /** Filtering keeps everything exactly when every element passes. */
  lemma {:induction false} FilterAll<T>(f: T -> bool, s: seq<T>)
    requires forall i :: 0 <= i < |s| ==> f(s[i])
    ensures Filter(f, s) == s
    decreases |s|
  {
    if |s| > 0 {
      FilterAll(f, s[..|s| - 1]);
      assert s == s[..|s| - 1] + [s[|s| - 1]];
    }
  }

  /** Filtering with a predicate that holds of nothing gives the empty list. */
  lemma {:induction false} FilterNone<T>(f: T -> bool, s: seq<T>)
    requires forall i :: 0 <= i < |s| ==> !f(s[i])
    ensures Filter(f, s) == []
    decreases |s|
  {
    if |s| > 0 { FilterNone(f, s[..|s| - 1]); }
  }

  /** Number of elements satisfying `f`. */
  function CountIf<T>(f: T -> bool, s: seq<T>): (n: nat)
    ensures n <= |s|
    decreases |s|
  {
    if |s| == 0 then 0 else CountIf(f, s[..|s| - 1]) + (if f(s[|s| - 1]) then 1 else 0)
  }

  lemma {:induction false} FilterLength<T>(f: T -> bool, s: seq<T>)
    ensures |Filter(f, s)| == CountIf(f, s)
    decreases |s|
  {
    if |s| > 0 { FilterLength(f, s[..|s| - 1]); }
  }

  /** Two tests that agree on every element count alike. */
  lemma {:induction false} CountIfCongruent<T>(f: T -> bool, g: T -> bool, s: seq<T>)
    requires forall i :: 0 <= i < |s| ==> f(s[i]) == g(s[i])
    ensures CountIf(f, s) == CountIf(g, s)
    decreases |s|
  {
    if |s| > 0 {
      CountIfCongruent(f, g, s[..|s| - 1]);
    }
  }

  /** Every element satisfies `f` exactly when all of them are counted. */
  lemma {:induction false} CountIfAll<T>(f: T -> bool, s: seq<T>)
    ensures CountIf(f, s) == |s| <==> forall i :: 0 <= i < |s| ==> f(s[i])
    decreases |s|
  {
    if |s| > 0 {
      var init := s[..|s| - 1];
      CountIfAll(f, init);
      assert forall i :: 0 <= i < |init| ==> init[i] == s[i];
    }
  }

  /** `s.every(f)`, read from the last element backwards. */
  predicate All<T>(f: T -> bool, s: seq<T>)
    decreases |s|
  {
    |s| == 0 || (All(f, s[..|s| - 1]) && f(s[|s| - 1]))
  }

  lemma {:induction false} AllIff<T>(f: T -> bool, s: seq<T>)
    ensures All(f, s) <==> forall i :: 0 <= i < |s| ==> f(s[i])
    decreases |s|
  {
    if |s| > 0 {
      var init := s[..|s| - 1];
      AllIff(f, init);
      assert forall i :: 0 <= i < |init| ==> init[i] == s[i];
    }
  }

  /** `list.filter((_, j) => j !== i)`: drops position `i`; an out-of-range index drops nothing. */
  function RemoveAt<T>(s: seq<T>, i: int): (r: seq<T>)
    ensures 0 <= i < |s| ==> |r| == |s| - 1
    ensures 0 <= i < |s| ==> forall j :: 0 <= j < i ==> r[j] == s[j]
    ensures 0 <= i < |s| ==> forall j :: i <= j < |r| ==> r[j] == s[j + 1]
    ensures !(0 <= i < |s|) ==> r == s
  {
    if 0 <= i < |s| then s[..i] + s[i + 1..] else s
  }

  /** `list[i] = x` for an index inside the list. */
  function SetAt<T>(s: seq<T>, i: nat, x: T): (r: seq<T>)
    requires i < |s|
    ensures |r| == |s| && r[i] == x
    ensures forall j :: 0 <= j < |s| && j != i ==> r[j] == s[j]
  {
    s[i := x]
  }

  /** `list.splice(i, 0, x)`: an index past the end appends. */
  function InsertAt<T>(s: seq<T>, i: nat, x: T): (r: seq<T>)
    ensures |r| == |s| + 1
    ensures r[if i <= |s| then i else |s|] == x
    ensures forall j :: 0 <= j < |s| && j < i ==> r[j] == s[j]
    ensures forall j :: i <= j < |s| ==> r[j + 1] == s[j]
  {
    var k := if i <= |s| then i else |s|;
    s[..k] + [x] + s[k..]
  }

  /** Distinct elements in order of first occurrence (`Array.from(new Set(s))`). */
  function Dedup<T(==)>(s: seq<T>): (r: seq<T>)
    ensures NoDup(r)
    ensures forall i :: 0 <= i < |r| ==> r[i] in s
    ensures forall i :: 0 <= i < |s| ==> s[i] in r
    ensures |r| <= |s|
    decreases |s|
  {
    if |s| == 0 then []
    else
      var init := Dedup(s[..|s| - 1]);
      assert s == s[..|s| - 1] + [s[|s| - 1]];
      if s[|s| - 1] in init then init else init + [s[|s| - 1]]
  }

  /** `r` lists elements of `c` in the order of their first occurrence: an element
      listed before another has already occurred in `c` wherever the other occurs. */
  predicate FirstSeenOrder<T(==)>(r: seq<T>, c: seq<T>) {
    forall i, j, k :: 0 <= i < j < |r| && 0 <= k < |c| && c[k] == r[j] ==> r[i] in c[..k]
  }

  /** The deduplicated list keeps first occurrences in order. */
  lemma {:induction false} DedupFirstSeen<T>(s: seq<T>)
    ensures FirstSeenOrder(Dedup(s), s)
    decreases |s|
  {
    if |s| > 0 {
      var n := |s|;
      var pre := s[..n - 1];
      var init := Dedup(pre);
      DedupFirstSeen(pre);
      var r := Dedup(s);
      assert s == pre + [s[n - 1]];
      assert r == if s[n - 1] in init then init else init + [s[n - 1]];
      forall i, j, k | 0 <= i < j < |r| && 0 <= k < |s| && s[k] == r[j] ensures r[i] in s[..k] {
        assert r[i] == init[i];
        assert r[i] in pre;
        if k < n - 1 {
          assert pre[k] == s[k];
          assert pre[..k] == s[..k];
          assert s[k] in init;
          assert j < |init| && r[j] == init[j];
        } else {
          assert s[..k] == pre;
        }
      }
    }
  }

  /** Filtering a list in first-seen order keeps it in first-seen order. */
  lemma {:induction false} FilterFirstSeen<T>(f: T -> bool, d: seq<T>, c: seq<T>)
    requires FirstSeenOrder(d, c)
    ensures FirstSeenOrder(Filter(f, d), c)
    decreases |d|
  {
    if |d| > 0 {
      var init := d[..|d| - 1];
      var x := d[|d| - 1];
      assert forall i :: 0 <= i < |init| ==> init[i] == d[i];
      FilterFirstSeen(f, init, c);
      var r := Filter(f, d);
      var ri := Filter(f, init);
      assert r == if f(x) then ri + [x] else ri;
      forall i, j, k | 0 <= i < j < |r| && 0 <= k < |c| && c[k] == r[j] ensures r[i] in c[..k] {
        assert r[i] == ri[i] && r[i] in init;
        var i' :| 0 <= i' < |init| && init[i'] == r[i];
        if j == |ri| {
          assert r[j] == d[|init|];
        } else {
          assert r[j] == ri[j];
        }
      }
    }
  }

  /** One more element extends the deduplicated list when it is new. */
  lemma DedupSnoc<T>(s: seq<T>, x: T)
    ensures Dedup(s + [x]) == if x in Dedup(s) then Dedup(s) else Dedup(s) + [x]
  {
    assert (s + [x])[..|s|] == s;
  }

  lemma SnocKeepsPrefix<T>(s: seq<T>, x: T, k: nat)
    requires k <= |s|
    ensures (if x in s then s else s + [x])[..k] == s[..k]
  {
    assert (s + [x])[..k] == s[..k];
  }

  /** First-seen order is stable: extending the input only extends the result. */
  lemma {:induction false} DedupPrefix<T>(s: seq<T>, t: seq<T>)
    ensures |Dedup(s)| <= |Dedup(s + t)|
    ensures Dedup(s + t)[..|Dedup(s)|] == Dedup(s)
    decreases |t|
  {
    if |t| == 0 {
      assert s + t == s;
    } else {
      var t' := t[..|t| - 1];
      var x := t[|t| - 1];
      DedupPrefix(s, t');
      assert t == t' + [x];
      assert s + t == (s + t') + [x];
      DedupSnoc(s + t', x);
      SnocKeepsPrefix(Dedup(s + t'), x, |Dedup(s)|);
    }
  }

  /** A list without duplicates is its own de-duplication. */
  lemma {:induction false} DedupNoDup<T>(s: seq<T>)
    requires NoDup(s)
    ensures Dedup(s) == s
    decreases |s|
  {
    if |s| > 0 {
      var init := s[..|s| - 1];
      DedupNoDup(init);
      assert s == init + [s[|s| - 1]];
    }
  }

  /** De-duplication is idempotent. */
  lemma DedupIdempotent<T>(s: seq<T>)
    ensures Dedup(Dedup(s)) == Dedup(s)
  {
    DedupNoDup(Dedup(s));
  }

  /** Sum of a list of naturals. */
  function Sum(s: seq<nat>): (n: nat)
    decreases |s|
  {
    if |s| == 0 then 0 else Sum(s[..|s| - 1]) + s[|s| - 1]
  }

  lemma {:induction false} SumAppend(a: seq<nat>, b: seq<nat>)
    ensures Sum(a + b) == Sum(a) + Sum(b)
    decreases |b|
  {
    if |b| > 0 {
      SumAppend(a, b[..|b| - 1]);
      assert (a + b)[..|a + b| - 1] == a + b[..|b| - 1];
    } else {
      assert a + b == a;
    }
  }

  /** `f` applied to every element, in order. */
  function MapNat<T>(f: T -> nat, s: seq<T>): (r: seq<nat>)
    ensures |r| == |s|
    ensures forall i :: 0 <= i < |s| ==> r[i] == f(s[i])
  {
    seq(|s|, i requires 0 <= i < |s| => f(s[i]))
  }

  /** Summing the amounts of a list adds the last one to those of the others. */
  lemma SumMapSnoc<T>(f: T -> nat, s: seq<T>)
    requires |s| > 0
    ensures Sum(MapNat(f, s)) == Sum(MapNat(f, s[..|s| - 1])) + f(s[|s| - 1])
  {
    assert MapNat(f, s)[..|s| - 1] == MapNat(f, s[..|s| - 1]);
  }

  /** The amounts add up to zero exactly when every one of them is zero. */
  lemma {:induction false} SumMapZero<T>(f: T -> nat, s: seq<T>)
    ensures Sum(MapNat(f, s)) == 0 <==> forall i :: 0 <= i < |s| ==> f(s[i]) == 0
    decreases |s|
  {
    if |s| > 0 {
      var init := s[..|s| - 1];
      SumMapSnoc(f, s);
      SumMapZero(f, init);
      assert forall i :: 0 <= i < |init| ==> init[i] == s[i];
    }
  }

  /** No single amount exceeds the sum. */
  lemma {:induction false} SumMapBound<T>(f: T -> nat, s: seq<T>)
    ensures forall i :: 0 <= i < |s| ==> f(s[i]) <= Sum(MapNat(f, s))
    decreases |s|
  {
    if |s| > 0 {
      var init := s[..|s| - 1];
      SumMapSnoc(f, s);
      SumMapBound(f, init);
      assert forall i :: 0 <= i < |init| ==> init[i] == s[i];
    }
  }

  /** Summing the amounts of a list adds the first one to those of the others. */
  lemma SumMapCons<T>(f: T -> nat, s: seq<T>)
    requires |s| > 0
    ensures Sum(MapNat(f, s)) == f(s[0]) + Sum(MapNat(f, s[1..]))
  {
    assert MapNat(f, s) == [f(s[0])] + MapNat(f, s[1..]);
    SumAppend([f(s[0])], MapNat(f, s[1..]));
    assert [f(s[0])][..0] == [];
  }

  /** Two amounts that agree on every element sum alike. */
  lemma {:induction false} SumMapCongruent<T>(f: T -> nat, g: T -> nat, s: seq<T>)
    requires forall i :: 0 <= i < |s| ==> f(s[i]) == g(s[i])
    ensures Sum(MapNat(f, s)) == Sum(MapNat(g, s))
    decreases |s|
  {
    if |s| > 0 {
      var init := s[..|s| - 1];
      SumMapSnoc(f, s);
      SumMapSnoc(g, s);
      assert forall i :: 0 <= i < |init| ==> init[i] == s[i];
      SumMapCongruent(f, g, init);
    }
  }

  /** Amounts that add up pointwise add up in total. */
  lemma {:induction false} SumMapAdd<T>(f: T -> nat, g: T -> nat, h: T -> nat, s: seq<T>)
    requires forall i :: 0 <= i < |s| ==> f(s[i]) + g(s[i]) == h(s[i])
    ensures Sum(MapNat(f, s)) + Sum(MapNat(g, s)) == Sum(MapNat(h, s))
    decreases |s|
  {
    if |s| > 0 {
      var init := s[..|s| - 1];
      SumMapSnoc(f, s);
      SumMapSnoc(g, s);
      SumMapSnoc(h, s);
      assert forall i :: 0 <= i < |init| ==> init[i] == s[i];
      SumMapAdd(f, g, h, init);
    }
  }

  /** A `slice` bound: negative values count from the end, and every value is clamped
      to `[0, len]`. */
  function SliceBound(k: int, len: nat): (b: nat)
    ensures b <= len
    ensures 0 <= k <= len ==> b == k
  {
    if k < 0 then (if len + k < 0 then 0 else len + k) else if k > len then len else k
  }

  /** `s.slice(start, end)`. */
  function Slice<T>(s: seq<T>, start: int, end: int): (r: seq<T>)
    ensures |r| <= |s|
    ensures 0 <= start <= end <= |s| ==> r == s[start..end]
    ensures 0 <= start && 0 <= end - start ==> |r| <= end - start
    ensures 0 <= start <= end ==>
              r == s[(if start <= |s| then start else |s|)..(if end <= |s| then end else |s|)]
  {
    var a := SliceBound(start, |s|);
    var b := SliceBound(end, |s|);
    if a < b then s[a..b] else []
  }
  /** `list.splice(i, 1)`: the start is normalised like a `slice` bound (a negative
      index counts from the end), and a start at the end removes nothing. */
  function SpliceRemove<T>(s: seq<T>, i: int): (r: seq<T>)
    ensures SliceBound(i, |s|) < |s| ==> r == RemoveAt(s, SliceBound(i, |s|))
    ensures SliceBound(i, |s|) == |s| ==> r == s
  {
    RemoveAt(s, SliceBound(i, |s|))
  }

  /** `list.splice(i, 0, x)` with the start normalised like a `slice` bound. */
  function SpliceInsert<T>(s: seq<T>, i: int, x: T): (r: seq<T>)
    ensures |r| == |s| + 1
    ensures r == s[..SliceBound(i, |s|)] + [x] + s[SliceBound(i, |s|)..]
  {
    InsertAt(s, SliceBound(i, |s|), x)
  }

  /** `const [x] = list.splice(from, 1); list.splice(to, 0, x)` for an index `from`
      inside the list. */
  function MoveItem<T>(s: seq<T>, from: nat, to: int): (r: seq<T>)
    requires from < |s|
    ensures |r| == |s|
    ensures r[SliceBound(to, |s| - 1)] == s[from]
  {
    SpliceInsert(RemoveAt(s, from), to, s[from])
  }

  /** Moving an element is a permutation. */
  lemma MoveItemPermutes<T>(s: seq<T>, from: nat, to: int)
    requires from < |s|
    ensures multiset(MoveItem(s, from, to)) == multiset(s)
  {
    var rest := RemoveAt(s, from);
    var k := SliceBound(to, |rest|);
    assert s == s[..from] + [s[from]] + s[from + 1..];
    assert rest == s[..from] + s[from + 1..];
    assert rest == rest[..k] + rest[k..];
    calc {
      multiset(MoveItem(s, from, to));
      multiset(rest[..k] + [s[from]] + rest[k..]);
      multiset(rest[..k]) + multiset([s[from]]) + multiset(rest[k..]);
      multiset(rest) + multiset([s[from]]);
      multiset(s[..from]) + multiset(s[from + 1..]) + multiset([s[from]]);
      multiset(s);
    }
  }

  /** Moving an element back to where it came from restores the list. */
  lemma MoveItemBack<T>(s: seq<T>, from: nat, to: nat)
    requires from < |s| && to < |s|
    ensures MoveItem(MoveItem(s, from, to), to, from) == s
  {
    var x := s[from];
    var rest := RemoveAt(s, from);
    var r := MoveItem(s, from, to);
    assert r == rest[..to] + [x] + rest[to..];
    RemoveInserted(rest, to, x);
    assert MoveItem(r, to, from) == rest[..from] + [x] + rest[from..];
    InsertRemoved(s, from);
  }

  /** Removing what was just inserted gives the list back. */
  lemma RemoveInserted<T>(t: seq<T>, i: nat, x: T)
    requires i <= |t|
    ensures RemoveAt(t[..i] + [x] + t[i..], i) == t
  {
    var u := t[..i] + [x] + t[i..];
    assert u[..i] == t[..i];
    assert u[i + 1..] == t[i..];
  }

  /** Inserting a removed element where it was gives the list back. */
  lemma InsertRemoved<T>(s: seq<T>, i: nat)
    requires i < |s|
    ensures RemoveAt(s, i)[..i] + [s[i]] + RemoveAt(s, i)[i..] == s
  {
    var rest := s[..i] + s[i + 1..];
    assert rest[..i] == s[..i];
    assert rest[i..] == s[i + 1..];
  }

  /** Moving an element one place towards the front swaps it with its predecessor. */
  lemma MoveItemUp<T>(s: seq<T>, i: nat)
    requires 0 < i < |s|
    ensures MoveItem(s, i, i - 1) == s[..i - 1] + [s[i], s[i - 1]] + s[i + 1..]
  {
    var rest := RemoveAt(s, i);
    assert rest == s[..i] + s[i + 1..];
    assert rest[..i - 1] == s[..i - 1];
    assert rest[i - 1..] == [s[i - 1]] + s[i + 1..];
  }

  /** Moving an element one place towards the end swaps it with its successor. */
  lemma MoveItemDown<T>(s: seq<T>, i: nat)
    requires i + 1 < |s|
    ensures MoveItem(s, i, i + 1) == s[..i] + [s[i + 1], s[i]] + s[i + 2..]
  {
    var rest := RemoveAt(s, i);
    assert rest == s[..i] + s[i + 1..];
    assert rest[..i + 1] == s[..i] + [s[i + 1]];
    assert rest[i + 1..] == s[i + 2..];
  }

  /** `s.findIndex(f)`: the position of the first element satisfying `f`, or -1. */
  function FindIndex<T>(f: T -> bool, s: seq<T>): (r: int)
    ensures -1 <= r < |s|
    ensures r >= 0 ==> f(s[r]) && forall j :: 0 <= j < r ==> !f(s[j])
    ensures r == -1 <==> forall j :: 0 <= j < |s| ==> !f(s[j])
    decreases |s|
  {
    if |s| == 0 then -1
    else if f(s[0]) then 0
    else
      var k := FindIndex(f, s[1..]);
      if k == -1 then -1 else k + 1
  }

  /** Some element is counted exactly when some element satisfies `f`. */
  lemma {:induction false} CountIfPositive<T>(f: T -> bool, s: seq<T>)
    ensures CountIf(f, s) > 0 <==> exists i :: 0 <= i < |s| && f(s[i])
    decreases |s|
  {
    if |s| > 0 {
      var init := s[..|s| - 1];
      CountIfPositive(f, init);
      assert forall i :: 0 <= i < |init| ==> init[i] == s[i];
    }
  }

  /** Filtering distributes over concatenation. */
  lemma {:induction false} FilterAppend<T>(f: T -> bool, a: seq<T>, b: seq<T>)
    ensures Filter(f, a + b) == Filter(f, a) + Filter(f, b)
    decreases |b|
  {
    if |b| == 0 {
      assert a + b == a;
    } else {
      var b' := b[..|b| - 1];
      FilterAppend(f, a, b');
      assert (a + b)[..|a + b| - 1] == a + b';
      assert (a + b)[|a + b| - 1] == b[|b| - 1];
    }
  }

  /** Filtering a list without duplicates gives one without duplicates. */
  lemma {:induction false} FilterNoDup<T>(f: T -> bool, s: seq<T>)
    requires NoDup(s)
    ensures NoDup(Filter(f, s))
    decreases |s|
  {
    if |s| > 0 {
      var init := s[..|s| - 1];
      assert NoDup(init);
      FilterNoDup(f, init);
      assert s[|s| - 1] !in init;
    }
  }

  /** Dropping the last element of a subsequence keeps it a subsequence. */
  lemma {:induction false} SubseqDropLast<T>(r: seq<T>, s: seq<T>)
    requires IsSubseq(r, s) && |r| > 0
    ensures IsSubseq(r[..|r| - 1], s)
    decreases |s|, 1
  {
    var r' := r[..|r| - 1];
    if r[|r| - 1] != s[|s| - 1] {
      SubseqDropLast(r, s[..|s| - 1]);
    }
    SubseqExtend(r', s);
  }

  /** Every prefix of a subsequence is a subsequence. */
  lemma {:induction false} SubseqTake<T>(r: seq<T>, s: seq<T>, k: nat)
    requires IsSubseq(r, s) && k <= |r|
    ensures IsSubseq(r[..k], s)
    decreases |r| - k
  {
    if k < |r| {
      SubseqDropLast(r, s);
      SubseqTake(r[..|r| - 1], s, k);
      assert r[..|r| - 1][..k] == r[..k];
    } else {
      assert r[..k] == r;
    }
  }

  /** A subsequence of all but the last element is a subsequence of the whole. */
  lemma {:induction false} SubseqExtend<T>(r: seq<T>, s: seq<T>)
    requires |s| > 0 && IsSubseq(r, s[..|s| - 1])
    ensures IsSubseq(r, s)
    decreases |s|, 0
  {
    if |r| > 0 && r[|r| - 1] == s[|s| - 1] {
      SubseqDropLast(r, s[..|s| - 1]);
    }
  }
}
