/** First-seen label assignment, the loop the demo-data scripts use to build their
    masking tables: walk the keys in order and give each key not yet in the table
    the label of a running counter, then advance the counter. The labels every
    caller passes are non-empty, so the scripts' `!mapping[key]` test is the same as
    the key not being in the table yet. */
module FirstSeen {
  import opened Seqs

  /** The table and the final counter. */
  function Assign(keys: seq<string>, labelOf: nat -> string): (r: (map<string, string>, nat))
    ensures r.1 == |Dedup(keys)|
    ensures forall k :: k in r.0 <==> k in keys
    decreases |keys|
  {
    if |keys| == 0 then (map[], 0)
    else
      var init := keys[..|keys| - 1];
      var k := keys[|keys| - 1];
      assert keys == init + [k];
      var r := Assign(init, labelOf);
      if k in r.0 then r else (r.0[k := labelOf(r.1)], r.1 + 1)
  }

  /** The `i`-th key of `d` has label `i` in `m`. */
  predicate LabelsByPosition(m: map<string, string>, d: seq<string>, labelOf: nat -> string) {
    forall i :: 0 <= i < |d| ==> d[i] in m && m[d[i]] == labelOf(i)
  }

  /** The `i`-th distinct key, in order of first appearance, gets label `i`. */
  lemma {:induction false} AssignLabels(keys: seq<string>, labelOf: nat -> string)
    ensures LabelsByPosition(Assign(keys, labelOf).0, Dedup(keys), labelOf)
    decreases |keys|
  {
    if |keys| > 0 {
      var init := keys[..|keys| - 1];
      var k := keys[|keys| - 1];
      assert keys == init + [k];
      AssignLabels(init, labelOf);
      var d := Dedup(init);
      DedupSnoc(init, k);
      var r := Assign(init, labelOf);
      if k !in d {
        LabelsExtend(r.0, d, k, labelOf);
      }
    }
  }

  lemma LabelsExtend(m: map<string, string>, d: seq<string>, k: string, labelOf: nat -> string)
    requires LabelsByPosition(m, d, labelOf) && k !in d
    ensures LabelsByPosition(m[k := labelOf(|d|)], d + [k], labelOf)
  {
    var m' := m[k := labelOf(|d|)];
    var d' := d + [k];
    forall i | 0 <= i < |d'| ensures d'[i] in m' && m'[d'[i]] == labelOf(i) {
      if i < |d| {
        assert d'[i] == d[i] && d[i] != k;
      }
    }
  }

  /** Each key gets the label of its position among the distinct keys, in order of
      first appearance. */
  lemma {:induction false} AssignPosition(keys: seq<string>, labelOf: nat -> string, k: string)
    requires k in keys
    ensures exists i :: 0 <= i < |Dedup(keys)| && Dedup(keys)[i] == k && Assign(keys, labelOf).0[k] == labelOf(i)
  {
    var d := Dedup(keys);
    var j :| 0 <= j < |keys| && keys[j] == k;
    assert keys[j] in d;
    var i :| 0 <= i < |d| && d[i] == k;
    AssignLabels(keys, labelOf);
    assert Assign(keys, labelOf).0[d[i]] == labelOf(i);
  }

  /** Labels that differ for different positions give different keys different
      labels. */
  lemma AssignInjective(keys: seq<string>, labelOf: nat -> string)
    requires forall i: nat, j: nat :: i != j ==> labelOf(i) != labelOf(j)
    ensures forall d, e :: d in Assign(keys, labelOf).0 && e in Assign(keys, labelOf).0 && d != e ==>
              Assign(keys, labelOf).0[d] != Assign(keys, labelOf).0[e]
  {
    var m := Assign(keys, labelOf).0;
    forall d, e | d in m && e in m && d != e ensures m[d] != m[e] {
      AssignPosition(keys, labelOf, d);
      AssignPosition(keys, labelOf, e);
      var i :| 0 <= i < |Dedup(keys)| && Dedup(keys)[i] == d && m[d] == labelOf(i);
      var j :| 0 <= j < |Dedup(keys)| && Dedup(keys)[j] == e && m[e] == labelOf(j);
      assert i != j;
    }
  }

  /** Keys that are already distinct are labelled by their own positions. */
  lemma AssignDistinct(keys: seq<string>, labelOf: nat -> string)
    requires NoDup(keys)
    ensures Assign(keys, labelOf).1 == |keys|
    ensures forall i :: 0 <= i < |keys| ==> Assign(keys, labelOf).0[keys[i]] == labelOf(i)
  {
    DedupNoDup(keys);
    AssignLabels(keys, labelOf);
  }
}
