/** The two scripts that give drawings a display number
    (doc/demo-version/add-display-drawing-number.js and
    doc/demo-version/add-display-drawing-all.js). The first sets the fixed numbers
    of the four drawings of the television companies, overwriting what is there;
    the second numbers every other drawing of the search index `DRW-001`,
    `DRW-002`, ... in index order, and never overwrites a number already set. */
module DisplayNumbers {
  import opened Wrappers
  import opened Strings
  import opened Seqs
  import opened DemoData
  import opened MaskCategory

  /** The four drawings with a fixed display number, in the scripts' order. */
  const FixedNumbers: seq<string> := ["91260506-2", "SW-25P5-040", "SW-25P5-050", "119-151"]

  /** `DISPLAY_DRAWING_MAP`, also the `EXISTING_MAPPINGS` the second script skips. */
  const FixedDisplay: map<string, string> :=
    map["91260506-2" := "TV-001", "SW-25P5-040" := "WBS-001", "SW-25P5-050" := "WBS-002", "119-151" := "WBS-003"]

  /** The display number of the drawing a folder holds, if the table has one. */
  function TableEdit(m: map<string, string>, apply: (string, Instruction) -> Edit): string -> Instruction -> Edit {
    (folder: string) => (inst: Instruction) =>
      if FolderNumber(folder) in m then apply(m[FolderNumber(folder)], inst) else Kept
  }

  // ---------------------------------------------------------------------------
  // add-display-drawing-number.js
  // ---------------------------------------------------------------------------

  /** The instruction edit: whenever there is `metadata`, the number is set and the
      file written, even when it already holds that number. */
  function SetDisplay(display: string, inst: Instruction): (r: Edit)
    ensures !r.Thrown?
    ensures r.Changed? <==> inst.metadata.Some?
    ensures r.Changed? ==> r.inst == inst.(metadata := Some(inst.metadata.value.(display := Some(display))))
  {
    if inst.metadata.Some? then Changed(inst.(metadata := Some(inst.metadata.value.(display := Some(display)))))
    else Kept
  }

  /** The search-index step: every entry whose drawing is in the table gets the
      table's number; the file is written when at least one entry matched. */
  function SetIndex(entries: seq<IndexEntry>): (r: (seq<IndexEntry>, bool))
    ensures |r.0| == |entries|
    ensures forall i :: 0 <= i < |entries| ==>
              r.0[i] == (if entries[i].drawingNumber in FixedDisplay
                         then entries[i].(display := Some(FixedDisplay[entries[i].drawingNumber]))
                         else entries[i])
    ensures r.1 <==> exists i :: 0 <= i < |entries| && entries[i].drawingNumber in FixedDisplay
    decreases |entries|
  {
    if |entries| == 0 then ([], false)
    else
      var init := entries[..|entries| - 1];
      var e := entries[|entries| - 1];
      assert forall i :: 0 <= i < |init| ==> init[i] == entries[i];
      var r := SetIndex(init);
      if e.drawingNumber in FixedDisplay then (r.0 + [e.(display := Some(FixedDisplay[e.drawingNumber]))], true)
      else (r.0 + [e], r.1)
  }

  /** What a run leaves: the search index (when it was read), whether it was
      written, the instruction pass, and the count of files written. */
  datatype DisplayRun = DisplayRun(index: Option<seq<IndexEntry>>, indexWritten: bool, instructions: Pass, changed: nat)

  /** The folder holds a parsed instruction file with `metadata`. */
  function HasMetadataFile(files: Files): string -> bool {
    (k: string) => k in files && files[k].Some? && files[k].value.metadata.Some?
  }

  /** A folder of a drawing in the table is written exactly when the table's
      edit of its parsed file changes it. */
  lemma TableEditWrites(files: Files, m: map<string, string>, apply: (string, Instruction) -> Edit, f: string)
    requires FolderNumber(f) in m
    ensures Writes(files, TableEdit(m, apply))(f) == (f in files && files[f].Some? && apply(m[FolderNumber(f)], files[f].value).Changed?)
  {
  }

  /** The fixed pass writes exactly the fixed folders whose file has `metadata`. */
  lemma FixedWrites(files: Files)
    ensures RunPass(files, FoldersOf(FixedNumbers), TableEdit(FixedDisplay, SetDisplay)).written
              == CountIf(HasMetadataFile(files), FoldersOf(FixedNumbers))
  {
    var folders := FoldersOf(FixedNumbers);
    var edit := TableEdit(FixedDisplay, SetDisplay);
    FixedNumbersDistinct();
    forall i | 0 <= i < |folders| ensures Writes(files, edit)(folders[i]) == HasMetadataFile(files)(folders[i]) {
      FolderNumberOfPrefixed(FixedNumbers[i]);
      FixedNumbersInTable(i);
      TableEditWrites(files, FixedDisplay, SetDisplay, folders[i]);
    }
    CountIfCongruent(Writes(files, edit), HasMetadataFile(files), folders);
  }

  /** The first script. `index` is the parsed search index, `None` when it is
      missing or does not parse (both are caught). */
  function AddFixedDisplay(files: Files, index: Option<seq<IndexEntry>>): (r: DisplayRun)
    ensures r.changed == r.instructions.written + (if r.indexWritten then 1 else 0)
    ensures r.instructions.files.Keys == files.Keys
    ensures forall f :: f in files && f !in FoldersOf(FixedNumbers) ==> r.instructions.files[f] == files[f]
    ensures index.None? ==> r.index.None? && !r.indexWritten
    ensures index.Some? ==> r.index == Some(SetIndex(index.value).0) && r.indexWritten == SetIndex(index.value).1
    ensures r.instructions.written == CountIf(HasMetadataFile(files), FoldersOf(FixedNumbers))
  {
    FixedWrites(files);
    var pass := RunPass(files, FoldersOf(FixedNumbers), TableEdit(FixedDisplay, SetDisplay));
    if index.None? then DisplayRun(None, false, pass, pass.written)
    else
      var updated := SetIndex(index.value);
      DisplayRun(Some(updated.0), updated.1, pass, pass.written + (if updated.1 then 1 else 0))
  }

  /** Every parsed instruction file of a fixed drawing with `metadata` ends with
      that drawing's fixed number. */
  lemma FixedDisplaySet(files: Files, index: Option<seq<IndexEntry>>, k: nat)
    requires k < |FixedNumbers|
    requires DrawingFolder(FixedNumbers[k]) in files && files[DrawingFolder(FixedNumbers[k])].Some?
    requires files[DrawingFolder(FixedNumbers[k])].value.metadata.Some?
    ensures var f := AddFixedDisplay(files, index).instructions.files[DrawingFolder(FixedNumbers[k])];
            f.Some? && f.value.metadata.Some? && f.value.metadata.value.display == Some(FixedDisplay[FixedNumbers[k]])
  {
    var n := FixedNumbers[k];
    var folders := FoldersOf(FixedNumbers);
    assert NoDup(FixedNumbers) by { FixedNumbersDistinct(); }
    FolderNumberOfPrefixed(n);
    assert n in FixedDisplay by { FixedNumbersInTable(k); }
    var f := folders[k];
    var edit := TableEdit(FixedDisplay, SetDisplay);
    var pass := RunPass(files, folders, edit);
    assert AddFixedDisplay(files, index).instructions == pass;
    assert f in folders;
    assert pass.files[f] == Visited(files[f], edit(f));
    assert edit(f)(files[f].value) == SetDisplay(FixedDisplay[n], files[f].value);
  }

  lemma FixedNumbersDistinct()
    ensures NoDup(FixedNumbers)
  {
    assert FixedNumbers[1][9] != FixedNumbers[2][9];
  }

  lemma FixedNumbersInTable(k: nat)
    requires k < |FixedNumbers|
    ensures FixedNumbers[k] in FixedDisplay
  {
  }

  // ---------------------------------------------------------------------------
  // add-display-drawing-all.js
  // ---------------------------------------------------------------------------

  /** The entries to number: those whose drawing has no fixed number, in index
      order. */
  function Targets(entries: seq<IndexEntry>): (r: seq<IndexEntry>)
    ensures forall e :: e in r <==> e in entries && Unfixed(e)
    ensures IsSubseq(r, entries) && |r| == CountIf(Unfixed, entries)
  {
    FilterIsSubseq(Unfixed, entries);
    FilterLength(Unfixed, entries);
    Filter(Unfixed, entries)
  }

  predicate Unfixed(e: IndexEntry) {
    e.drawingNumber !in FixedDisplay
  }

  /** No drawing is listed twice. */
  predicate DistinctNumbers(entries: seq<IndexEntry>) {
    forall i, j :: 0 <= i < j < |entries| ==> entries[i].drawingNumber != entries[j].drawingNumber
  }

  /** `newMappings`: the `i`-th target's drawing gets `DRW-` and `i + 1` in three
      digits; a drawing listed twice keeps its last number. */
  function NewMappings(targets: seq<IndexEntry>): (m: map<string, string>)
    ensures forall d :: d in m <==> exists i :: 0 <= i < |targets| && targets[i].drawingNumber == d
    ensures |targets| > 0 ==> m[targets[|targets| - 1].drawingNumber] == DrawingLabel(|targets| - 1)
    decreases |targets|
  {
    if |targets| == 0 then map[]
    else
      var init := targets[..|targets| - 1];
      var t := targets[|targets| - 1];
      assert targets == init + [t];
      KeysSnoc(NewMappings(init), init, t, DrawingLabel(|init|), NewMappings(init)[t.drawingNumber := DrawingLabel(|init|)], targets);
      NewMappings(init)[t.drawingNumber := DrawingLabel(|init|)]
  }

  lemma KeysSnoc(prev: map<string, string>, init: seq<IndexEntry>, t: IndexEntry, x: string, m: map<string, string>, s: seq<IndexEntry>)
    requires forall d :: d in prev <==> exists i :: 0 <= i < |init| && init[i].drawingNumber == d
    requires m == prev[t.drawingNumber := x] && s == init + [t]
    ensures forall d :: d in m <==> exists i :: 0 <= i < |s| && s[i].drawingNumber == d
  {
    forall d ensures d in m <==> exists i :: 0 <= i < |s| && s[i].drawingNumber == d {
      if d in m {
        if d == t.drawingNumber {
          assert s[|init|].drawingNumber == d;
        } else {
          var i :| 0 <= i < |init| && init[i].drawingNumber == d;
          assert s[i] == init[i];
        }
      }
      if exists i :: 0 <= i < |s| && s[i].drawingNumber == d {
        var i :| 0 <= i < |s| && s[i].drawingNumber == d;
        if i < |init| {
          assert init[i] == s[i];
        }
      }
    }
  }

  /** When no drawing is listed twice, the `i`-th target gets number `i + 1`. */
  lemma {:induction false} NewMappingsDistinct(targets: seq<IndexEntry>)
    requires DistinctNumbers(targets)
    ensures forall i :: 0 <= i < |targets| ==> NewMappings(targets)[targets[i].drawingNumber] == DrawingLabel(i)
    decreases |targets|
  {
    if |targets| > 0 {
      var init := targets[..|targets| - 1];
      var t := targets[|targets| - 1];
      assert forall i :: 0 <= i < |init| ==> init[i] == targets[i];
      NewMappingsDistinct(init);
      forall i | 0 <= i < |init|
        ensures NewMappings(targets)[targets[i].drawingNumber] == DrawingLabel(i)
      {
        assert init[i].drawingNumber != t.drawingNumber;
      }
    }
  }

  /** The new table never touches a drawing with a fixed number, and gives the
      drawings of an index without repeats the numbers 1, 2, ... in order. */
  lemma NewMappingsSpec(entries: seq<IndexEntry>)
    ensures forall d :: d in NewMappings(Targets(entries)) ==> d !in FixedDisplay
    ensures forall d :: d in NewMappings(Targets(entries)) <==> d !in FixedDisplay && exists e :: e in entries && e.drawingNumber == d
  {
    var ts := Targets(entries);
    forall d | d !in FixedDisplay && exists e :: e in entries && e.drawingNumber == d
      ensures d in NewMappings(ts)
    {
      var e :| e in entries && e.drawingNumber == d;
      assert e in ts;
    }
  }

  /** Fill one entry: only an entry without a display number gets one. */
  function FillEntry(e: IndexEntry, m: map<string, string>): IndexEntry {
    if e.drawingNumber in m && !Truthy(e.display) then e.(display := Some(m[e.drawingNumber])) else e
  }

  /** The search-index step: an existing display number is never overwritten, and
      the file is written exactly when some entry got a number. */
  function FillIndex(entries: seq<IndexEntry>, m: map<string, string>): (r: (seq<IndexEntry>, bool))
    ensures IndexFilled(entries, m, r)
    decreases |entries|
  {
    if |entries| == 0 then ([], false)
    else
      var init := entries[..|entries| - 1];
      var e := entries[|entries| - 1];
      assert entries == init + [e];
      var r := FillIndex(init, m);
      IndexFilledSnoc(init, e, m, r);
      (r.0 + [FillEntry(e, m)], r.1 || (e.drawingNumber in m && !Truthy(e.display)))
  }

  /** What the search-index step promises of its result `r` for `entries`. */
  predicate IndexFilled(entries: seq<IndexEntry>, m: map<string, string>, r: (seq<IndexEntry>, bool)) {
    && |r.0| == |entries|
    && (forall i :: 0 <= i < |entries| ==> r.0[i] == entries[i].(display := r.0[i].display))
    && (forall i :: 0 <= i < |entries| && Truthy(entries[i].display) ==> r.0[i] == entries[i])
    && (forall i :: 0 <= i < |entries| && !Truthy(entries[i].display) && entries[i].drawingNumber in m ==>
          r.0[i].display == Some(m[entries[i].drawingNumber]))
    && (r.1 <==> exists i :: 0 <= i < |entries| && entries[i].drawingNumber in m && !Truthy(entries[i].display))
    && (!r.1 ==> r.0 == entries)
  }

  lemma IndexFilledSnoc(init: seq<IndexEntry>, e: IndexEntry, m: map<string, string>, r: (seq<IndexEntry>, bool))
    requires IndexFilled(init, m, r)
    ensures IndexFilled(init + [e], m, (r.0 + [FillEntry(e, m)], r.1 || (e.drawingNumber in m && !Truthy(e.display))))
  {
    var entries := init + [e];
    assert forall i :: 0 <= i < |init| ==> entries[i] == init[i];
    assert entries[|init|] == e;
  }

  /** The instruction edit: a number is set only when `metadata` has none. */
  function FillDisplay(display: string, inst: Instruction): (r: Edit)
    ensures !r.Thrown?
    ensures r.Changed? <==> inst.metadata.Some? && !Truthy(inst.metadata.value.display)
    ensures r.Changed? ==> r.inst == inst.(metadata := Some(inst.metadata.value.(display := Some(display))))
  {
    if inst.metadata.Some? && !Truthy(inst.metadata.value.display) then
      Changed(inst.(metadata := Some(inst.metadata.value.(display := Some(display)))))
    else Kept
  }

  /** The folders the instruction step visits: one per distinct drawing of the
      index, in index order, for the drawings the table numbers. */
  function NumberedFolders(entries: seq<IndexEntry>, m: map<string, string>): seq<string> {
    Filter((f: string) => FolderNumber(f) in m, FoldersOf(Dedup(IndexNumbers(entries))))
  }

  /** The drawing numbers of the index, in index order. */
  function IndexNumbers(entries: seq<IndexEntry>): (r: seq<string>)
    ensures |r| == |entries| && forall i :: 0 <= i < |entries| ==> r[i] == entries[i].drawingNumber
  {
    seq(|entries|, i requires 0 <= i < |entries| => entries[i].drawingNumber)
  }

  /** The folder holds a parsed instruction file with `metadata` but no display
      number. */
  function NeedsDisplayFile(files: Files): string -> bool {
    (k: string) => k in files && files[k].Some? && files[k].value.metadata.Some? && !Truthy(files[k].value.metadata.value.display)
  }

  /** The second script's result for an index that was read: the index is filled
      from the new table, each numbered folder's file ends as `FillDisplay` left
      it, and the files written are the numbered folders whose file has
      `metadata` without a number. */
  predicate AllFilled(files: Files, entries: seq<IndexEntry>, r: DisplayRun) {
    var m := NewMappings(Targets(entries));
    var folders := NumberedFolders(entries, m);
    r.index == Some(FillIndex(entries, m).0) && r.indexWritten == FillIndex(entries, m).1
    && r.instructions.files.Keys == files.Keys
    && (forall f :: f in files && f in folders ==> r.instructions.files[f] == Visited(files[f], TableEdit(m, FillDisplay)(f)))
    && r.instructions.written == CountIf(NeedsDisplayFile(files), folders)
  }

  /** The numbered folders are distinct and each belongs to a drawing of the
      table; the pass writes exactly those whose file needs a number. */
  lemma NumberedWrites(files: Files, entries: seq<IndexEntry>, m: map<string, string>)
    ensures NoDup(NumberedFolders(entries, m))
    ensures forall f :: f in NumberedFolders(entries, m) ==> FolderNumber(f) in m
    ensures RunPass(files, NumberedFolders(entries, m), TableEdit(m, FillDisplay)).written
              == CountIf(NeedsDisplayFile(files), NumberedFolders(entries, m))
  {
    var numbers := Dedup(IndexNumbers(entries));
    var keep := (f: string) => FolderNumber(f) in m;
    var folders := NumberedFolders(entries, m);
    assert folders == Filter(keep, FoldersOf(numbers));
    FilterNoDup(keep, FoldersOf(numbers));
    var edit := TableEdit(m, FillDisplay);
    forall i | 0 <= i < |folders| ensures Writes(files, edit)(folders[i]) == NeedsDisplayFile(files)(folders[i]) {
      assert keep(folders[i]);
      TableEditWrites(files, m, FillDisplay, folders[i]);
    }
    CountIfCongruent(Writes(files, edit), NeedsDisplayFile(files), folders);
  }

  /** The second script; nothing happens when the search index is missing
      (`index` is `None`). */
  function AddDisplayAll(files: Files, index: Option<seq<IndexEntry>>): (r: DisplayRun)
    ensures index.None? ==> r == DisplayRun(None, false, Pass(files, 0, 0), 0)
    ensures r.changed == r.instructions.written + (if r.indexWritten then 1 else 0)
    ensures r.instructions.files.Keys == files.Keys
    ensures index.Some? ==> AllFilled(files, index.value, r)
  {
    if index.None? then DisplayRun(None, false, Pass(files, 0, 0), 0)
    else
      var m := NewMappings(Targets(index.value));
      NumberedWrites(files, index.value, m);
      var fill := FillIndex(index.value, m);
      var pass := RunPass(files, NumberedFolders(index.value, m), TableEdit(m, FillDisplay));
      DisplayRun(Some(fill.0), fill.1, pass, pass.written + (if fill.1 then 1 else 0))
  }

  /** No run of the second script removes or replaces a display number an
      instruction file already had. */
  lemma AddDisplayAllKeepsNumbers(files: Files, index: Option<seq<IndexEntry>>, f: string)
    requires f in files && files[f].Some? && files[f].value.metadata.Some? && Truthy(files[f].value.metadata.value.display)
    ensures AddDisplayAll(files, index).instructions.files[f] == files[f]
  {
    if index.Some? {
      var m := NewMappings(Targets(index.value));
      var edit := TableEdit(m, FillDisplay);
      assert AddDisplayAll(files, index).instructions == RunPass(files, NumberedFolders(index.value, m), edit);
      if FolderNumber(f) in m {
        TableEditWrites(files, m, FillDisplay, f);
      }
      assert !Writes(files, edit)(f);
    }
  }
}
