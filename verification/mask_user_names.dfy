/** The contributor masking of doc/demo-version/mask-user-names.js, the earlier
    and narrower script: only the `userName` and `userId` of the contribution files
    are collected and replaced, every distinct value in order of first appearance
    gets a label, and a contribution file is written when one of its fields was
    hit. The script builds the `k`-th label (counting from 1) from the character
    code 64 + k, which is a capital letter only up to the 26th name; the model
    keeps that label as written and uses the labels of mask-all-names.js (A … Z,
    AA, AB, …) for the run. */
module MaskUserNames {
  import opened Wrappers
  import opened Strings
  import opened Seqs
  import opened DemoData
  import opened FirstSeen
  import opened MaskNames

  /** The contribution lists of the drawing folders; `None` is a folder whose
      file is missing or does not parse (the error is reported and skipped). */
  type ContributionFiles = seq<Option<seq<Contribution>>>

  function FileNames(f: Option<seq<Contribution>>): seq<string> {
    if f.None? then [] else Gather(f.value, ContributionNames)
  }

  /** The distinct user names and ids, in order of first appearance. Names that
      are already masked are collected too. */
  function UserNamesOf(files: ContributionFiles): (r: seq<string>)
    ensures NoDup(r)
    ensures forall n :: n in r <==> exists i :: 0 <= i < |files| && n in FileNames(files[i])
    ensures FirstSeenOrder(r, Gather(files, FileNames))
  {
    var all := Gather(files, FileNames);
    var r := Dedup(all);
    DedupFirstSeen(all);
    forall n | n in all ensures n in r {
      var k :| 0 <= k < |all| && all[k] == n;
    }
    r
  }

  /** The label the script writes for the name at position `i` (from 0):
      `String.fromCharCode(64 + index)` with `index` counting from 1. */
  function AsWrittenLabel(i: nat): string {
    MaskedPrefix + [FromCharCode(64 + (i + 1))]
  }

  /** The 27th name is labelled 作業者[ — the character after Z — and the 28th
      作業者\, so from there on the labels are no longer letters. */
  lemma AsWrittenLabelPastZ()
    ensures AsWrittenLabel(26) == MaskedPrefix + "["
    ensures !IsAsciiUpper(AsWrittenLabel(26)[|MaskedPrefix|])
  {
    assert FromCharCode(91) == '[';
  }

  /** In a run over data with more than 26 distinct contributors, the as-written
      table gives the 27th of them the label 作業者[. */
  lemma {:induction false} AsWrittenTableLabelsBracket(files: ContributionFiles)
    requires |UserNamesOf(files)| > 26
    ensures Assign(UserNamesOf(files), AsWrittenLabel).0[UserNamesOf(files)[26]] == MaskedPrefix + "["
  {
    AssignDistinct(UserNamesOf(files), AsWrittenLabel);
    AsWrittenLabelPastZ();
  }

  /** The table of the run: the labels of mask-all-names.js. */
  function UserTable(files: ContributionFiles): map<string, string> {
    NameMapping(UserNamesOf(files))
  }

  /** 作業者 followed by one or two capital letters. */
  predicate LetterLabel(v: string) {
    |MaskedPrefix| < |v| <= |MaskedPrefix| + 2 && v[..|MaskedPrefix|] == MaskedPrefix
    && forall k :: |MaskedPrefix| <= k < |v| ==> IsAsciiUpper(v[k])
  }

  lemma MaskedLabelLetters(i: nat)
    requires i < 702
    ensures LetterLabel(MaskedLabel(i))
  {
    LabelLetters(i);
    var v := MaskedLabel(i);
    assert v[..|MaskedPrefix|] == MaskedPrefix;
    forall k | |MaskedPrefix| <= k < |v| ensures IsAsciiUpper(v[k]) {
      assert v[k] == Label(i)[k - |MaskedPrefix|];
    }
  }

  /** With at most 702 contributors the table maps exactly the contributors, each
      to 作業者 and one or two capital letters. */
  lemma {:induction false} UserTableLetters(files: ContributionFiles)
    requires |UserNamesOf(files)| <= 702
    ensures forall n :: n in UserTable(files) <==> n in UserNamesOf(files)
    ensures forall n :: n in UserTable(files) ==> LetterLabel(UserTable(files)[n])
  {
    var names := UserNamesOf(files);
    var m := UserTable(files);
    NameMappingSpec(names);
    forall n | n in m ensures LetterLabel(m[n]) {
      var i :| 0 <= i < |names| && names[i] == n;
      MaskedLabelLetters(i);
    }
  }

  /** Different contributors get different labels. */
  lemma UserTableInjective(files: ContributionFiles)
    requires |UserNamesOf(files)| <= LabelBound
    ensures forall n, n' :: n in UserTable(files) && n' in UserTable(files) && n != n' ==>
              UserTable(files)[n] != UserTable(files)[n']
  {
    NameMappingInjective(UserNamesOf(files));
  }

  /** A contribution file that parses and names a user the table replaces. */
  function FileHit(m: map<string, string>): Option<seq<Contribution>> -> bool {
    (f: Option<seq<Contribution>>) => f.Some? && ContributionsHit(f.value, m)
  }

  /** The update of every file: the masked lists and how many files were
      written. */
  function MaskFiles(files: ContributionFiles, m: map<string, string>): (r: (ContributionFiles, nat))
    ensures |r.0| == |files|
    ensures forall i :: 0 <= i < |files| ==> (r.0[i].Some? <==> files[i].Some?)
    ensures forall i :: 0 <= i < |files| && files[i].Some? ==> r.0[i].value == MaskContributions(files[i].value, m).0
    ensures r.1 == CountIf(FileHit(m), files)
    decreases |files|
  {
    if |files| == 0 then ([], 0)
    else
      var init := files[..|files| - 1];
      var f := files[|files| - 1];
      assert files == init + [f];
      var rest := MaskFiles(init, m);
      if f.None? then (rest.0 + [f], rest.1)
      else
        var masked := MaskContributions(f.value, m);
        (rest.0 + [Some(masked.0)], rest.1 + (if masked.1 then 1 else 0))
  }

  /** The table numbering the collected names with `labelOf`: `AsWrittenLabel` is
      the script's, `MaskedLabel` the corrected one (then it is `UserTable`). */
  function LabelTable(files: ContributionFiles, labelOf: nat -> string): map<string, string> {
    Assign(UserNamesOf(files), labelOf).0
  }

  /** The script, with the label of the `i`-th name as a parameter: `None` when the
      `work-instructions` directory cannot be listed (it stops there); otherwise
      the files and the number written. */
  function MaskUserNamesRun(files: Option<ContributionFiles>, labelOf: nat -> string): (r: Option<(ContributionFiles, nat)>)
    ensures r.None? <==> files.None?
    ensures r.Some? ==> |r.value.0| == |files.value|
    ensures r.Some? ==> forall i :: 0 <= i < |files.value| && files.value[i].Some? ==>
              r.value.0[i].Some? && r.value.0[i].value == MaskContributions(files.value[i].value, LabelTable(files.value, labelOf)).0
    ensures r.Some? ==> r.value.1 == CountIf(FileHit(LabelTable(files.value, labelOf)), files.value)
  {
    if files.None? then None else Some(MaskFiles(files.value, LabelTable(files.value, labelOf)))
  }

  /** The script's run writes 作業者[ as the user name of every contribution by
      the 27th distinct contributor. */
  lemma {:induction false} AsWrittenRunWritesBracket(files: ContributionFiles, i: nat, j: nat)
    requires |UserNamesOf(files)| > 26
    requires i < |files| && files[i].Some? && j < |files[i].value|
    requires files[i].value[j].userName == Some(UserNamesOf(files)[26])
    ensures MaskUserNamesRun(Some(files), AsWrittenLabel).value.0[i].value[j].userName == Some(MaskedPrefix + "[")
  {
    var names := UserNamesOf(files);
    var m := LabelTable(files, AsWrittenLabel);
    AsWrittenTableLabelsBracket(files);
    UserNamesNonEmpty(files, 26);
    assert names[26] in m && m[names[26]] == MaskedPrefix + "[";
    assert MaskContributions(files[i].value, m).0[j] == MaskContribution(files[i].value[j], m);
  }

  /** Only non-empty names are collected. */
  lemma UserNamesNonEmpty(files: ContributionFiles, k: nat)
    requires k < |UserNamesOf(files)|
    ensures UserNamesOf(files)[k] != ""
  {
    var n := UserNamesOf(files)[k];
    var i :| 0 <= i < |files| && n in FileNames(files[i]);
    var cs := files[i].value;
    var j :| 0 <= j < |cs| && n in ContributionNames(cs[j]);
  }

  /** After the run every non-empty user name and id is a label of the table,
      with the script's labels as with the corrected ones: both begin with
      作業者. */
  lemma {:induction false} MaskUserNamesRunMasksAll(files: ContributionFiles, labelOf: nat -> string, i: nat, j: nat)
    requires forall k: nat :: StartsWith(labelOf(k), MaskedPrefix)
    requires i < |files| && files[i].Some? && j < |files[i].value|
    ensures var c := MaskUserNamesRun(Some(files), labelOf).value.0[i].value[j];
            CleanField(c.userName) && CleanField(c.userId)
  {
    var m := LabelTable(files, labelOf);
    var names := UserNamesOf(files);
    AssignDistinct(names, labelOf);
    var c := files[i].value[j];
    assert forall n :: n in ContributionNames(c) ==> n in FileNames(files[i]);
    assert MaskContributions(files[i].value, m).0[j] == MaskContribution(c, m);
    if Truthy(c.userName) {
      assert c.userName.value in names;
      var k :| 0 <= k < |names| && names[k] == c.userName.value;
      assert m[c.userName.value] == labelOf(k);
    }
    if Truthy(c.userId) {
      assert c.userId.value in names;
      var k :| 0 <= k < |names| && names[k] == c.userId.value;
      assert m[c.userId.value] == labelOf(k);
    }
  }
}
