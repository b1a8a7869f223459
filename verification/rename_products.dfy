/** The product renaming for the television shoot
    (doc/demo-version/rename-products-for-tv.js): in the products of the two
    television companies, in the search-index entries of their four drawings and in
    those drawings' instruction files, "レール" becomes "リング" and "フレーム"
    becomes "ブラケット". Everything else is left alone, and a file is written only
    when something in it changed. */
module RenameProducts {
  import opened Wrappers
  import opened Strings
  import opened Seqs
  import opened Replace
  import opened DemoData

  const TargetCompanies: seq<string> := SkipCompanies

  const TargetDrawings: seq<string> := ["91260506-2", "SW-25P5-040", "SW-25P5-050", "119-151"]

  const Rail: string := "レール"
  const Ring: string := "リング"
  const Frame: string := "フレーム"
  const Bracket: string := "ブラケット"

  const ProductRenaming: seq<Mapping> := [Mapping(Rail, Ring), Mapping(Frame, Bracket)]

  /** `renameText`: the table in order, each entry a case-sensitive replace-all.
      Neither "レール" nor "フレーム" survives, and a text mentioning neither name is
      kept. */
  function RenameText(text: string): (r: string)
    ensures !Contains(r, Rail) && !Contains(r, Frame)
    ensures !Contains(text, Rail) && !Contains(text, Frame) ==> r == text
  {
    RenamingRemovesRail(text);
    RenamingRemovesFrame(text);
    RenamingKeepsAbsent(text);
    ApplyMappings(text, ProductRenaming, false)
  }

  /** The renaming table leaves a text mentioning neither name as it is. */
  lemma {:induction false} RenamingKeepsAbsent(text: string)
    ensures !Contains(text, Rail) && !Contains(text, Frame) ==> ApplyMappings(text, ProductRenaming, false) == text
  {
    if !Contains(text, Rail) && !Contains(text, Frame) {
      ApplyMappingAbsent(text, ProductRenaming[0], false);
      ApplyMappingAbsent(text, ProductRenaming[1], false);
      ApplyMappingsKeep(text, ProductRenaming, false);
    }
  }

  /** No "レール" is left after the renaming table: the first entry removes it, and
      "ブラケット" shares no character with it, so the second entry cannot bring it
      back. */
  lemma {:induction false} RenamingRemovesRail(text: string)
    ensures !Contains(ApplyMappings(text, ProductRenaming, false), Rail)
  {
    var t1 := ApplyMapping(text, ProductRenaming[0], false);
    var m1 := Mapping(Frame, Bracket);
    assert ProductRenaming[1..] == [m1];
    assert [m1][1..] == [];
    var t2 := ApplyMapping(t1, m1, false);
    assert ApplyMappings(t2, [], false) == t2;
    assert ApplyMappings(t1, [m1], false) == t2;
    assert ApplyMappings(text, ProductRenaming, false) == ApplyMappings(t1, [m1], false);
    assert t1 == ReplaceAllBy(text, Rail, Ring, false);
    ReplaceAllRemoves(text, Rail, Ring, false);
    assert CharAbsent(Rail[0], Bracket, false) && CharAbsent(Rail[1], Bracket, false) && CharAbsent(Rail[2], Bracket, false);
    ReplaceAllKeepsAbsent(t1, Frame, Bracket, false, Rail);
  }

  /** No "フレーム" is left after the renaming table. */
  lemma {:induction false} RenamingRemovesFrame(text: string)
    ensures !Contains(ApplyMappings(text, ProductRenaming, false), Frame)
  {
    var t1 := ApplyMapping(text, ProductRenaming[0], false);
    var m1 := Mapping(Frame, Bracket);
    assert ProductRenaming[1..] == [m1];
    assert [m1][1..] == [];
    var t2 := ApplyMapping(t1, m1, false);
    assert ApplyMappings(t2, [], false) == t2;
    assert ApplyMappings(t1, [m1], false) == t2;
    assert ApplyMappings(text, ProductRenaming, false) == ApplyMappings(t1, [m1], false);
    assert t2 == ReplaceAllBy(t1, Frame, Bracket, false);
    ReplaceAllRemoves(t1, Frame, Bracket, false);
  }

  // ---------------------------------------------------------------------------
  // companies.json
  // ---------------------------------------------------------------------------

  /** A product whose name, category or description is missing makes
      `renameText` throw. */
  predicate Incomplete(p: Product) {
    p.name.None? || p.category.None? || p.description.None?
  }

  function RenameProduct(p: Product): (r: Product)
    requires !Incomplete(p)
    ensures r.drawings == p.drawings
    ensures r.name == Some(RenameText(p.name.value)) && r.category == Some(RenameText(p.category.value))
            && r.description == Some(RenameText(p.description.value))
  {
    p.(name := Some(RenameText(p.name.value)), category := Some(RenameText(p.category.value)),
       description := Some(RenameText(p.description.value)))
  }

  /** The products of a target company, or `None` when one of them throws. */
  function RenameProducts(ps: seq<Product>): (r: Option<seq<Product>>)
    ensures r.None? <==> exists i :: 0 <= i < |ps| && Incomplete(ps[i])
    ensures r.Some? ==> |r.value| == |ps| && forall i :: 0 <= i < |ps| ==> r.value[i] == RenameProduct(ps[i])
    decreases |ps|
  {
    if |ps| == 0 then Some([])
    else
      var init := ps[..|ps| - 1];
      var p := ps[|ps| - 1];
      assert forall i :: 0 <= i < |init| ==> init[i] == ps[i];
      var rest := RenameProducts(init);
      if rest.None? || Incomplete(p) then None else Some(rest.value + [RenameProduct(p)])
  }

  /** The renamed company list, or `None` when the script's `try` catches an
      error (then nothing is written). */
  function RenameCompanies(companies: seq<Company>): (r: Option<seq<Company>>)
    ensures r.None? <==> exists i, j :: 0 <= i < |companies| && companies[i].id in TargetCompanies
                                        && 0 <= j < |companies[i].products| && Incomplete(companies[i].products[j])
    ensures r.Some? ==> |r.value| == |companies|
    ensures r.Some? ==> forall i :: 0 <= i < |companies| ==>
              r.value[i].id == companies[i].id && (companies[i].id !in TargetCompanies ==> r.value[i] == companies[i])
    ensures r.Some? ==> forall i :: 0 <= i < |companies| && companies[i].id in TargetCompanies ==>
              RenameProducts(companies[i].products) == Some(r.value[i].products)
              && r.value[i] == companies[i].(products := r.value[i].products)
    decreases |companies|
  {
    if |companies| == 0 then Some([])
    else
      var init := companies[..|companies| - 1];
      var c := companies[|companies| - 1];
      assert forall i :: 0 <= i < |init| ==> init[i] == companies[i];
      var rest := RenameCompanies(init);
      if rest.None? then None
      else if c.id !in TargetCompanies then Some(rest.value + [c])
      else
        var ps := RenameProducts(c.products);
        if ps.None? then None else Some(rest.value + [c.(products := ps.value)])
  }

  /** What one JSON file's processing reports: failure, or success and whether the
      file changed (and was written). */
  datatype FileResult<T> = Failed | Processed(value: T, changed: bool)

  /** `processCompaniesJson`. The file is written exactly when the renamed list
      differs from the original. */
  function ProcessCompanies(companies: seq<Company>): (r: FileResult<seq<Company>>)
    ensures r.Processed? ==> (r.changed <==> r.value != companies)
    ensures r.Failed? <==> RenameCompanies(companies).None?
    ensures r.Processed? ==> Some(r.value) == RenameCompanies(companies)
  {
    var renamed := RenameCompanies(companies);
    if renamed.None? then Failed else Processed(renamed.value, renamed.value != companies)
  }

  // ---------------------------------------------------------------------------
  // search-index.json
  // ---------------------------------------------------------------------------

  predicate EntryIncomplete(e: IndexEntry) {
    e.productName.None? || e.title.None? || e.category.None?
  }

  function RenameEntry(e: IndexEntry): (r: IndexEntry)
    requires !EntryIncomplete(e)
    ensures r.drawingNumber == e.drawingNumber && r.display == e.display
    ensures r.productName == Some(RenameText(e.productName.value)) && r.title == Some(RenameText(e.title.value))
            && r.category == Some(RenameText(e.category.value))
  {
    e.(productName := Some(RenameText(e.productName.value)), title := Some(RenameText(e.title.value)),
       category := Some(RenameText(e.category.value)))
  }

  /** The renamed entries: entries of other drawings are copied; a target entry
      missing one of the three fields throws. */
  function RenameEntries(entries: seq<IndexEntry>): (r: Option<seq<IndexEntry>>)
    ensures r.None? <==> exists i :: 0 <= i < |entries| && entries[i].drawingNumber in TargetDrawings && EntryIncomplete(entries[i])
    ensures r.Some? ==> |r.value| == |entries|
    ensures r.Some? ==> forall i :: 0 <= i < |entries| ==>
              r.value[i].drawingNumber == entries[i].drawingNumber && r.value[i].display == entries[i].display
              && (entries[i].drawingNumber !in TargetDrawings ==> r.value[i] == entries[i])
    ensures r.Some? ==> forall i :: 0 <= i < |entries| && entries[i].drawingNumber in TargetDrawings ==>
              !EntryIncomplete(entries[i]) && r.value[i] == RenameEntry(entries[i])
    decreases |entries|
  {
    if |entries| == 0 then Some([])
    else
      var init := entries[..|entries| - 1];
      var e := entries[|entries| - 1];
      assert forall i :: 0 <= i < |init| ==> init[i] == entries[i];
      var rest := RenameEntries(init);
      if rest.None? then None
      else if e.drawingNumber !in TargetDrawings then Some(rest.value + [e])
      else if EntryIncomplete(e) then None
      else Some(rest.value + [RenameEntry(e)])
  }

  /** `processSearchIndex`. */
  function ProcessIndex(entries: seq<IndexEntry>): (r: FileResult<seq<IndexEntry>>)
    ensures r.Processed? ==> (r.changed <==> r.value != entries)
    ensures r.Failed? <==> RenameEntries(entries).None?
    ensures r.Processed? ==> Some(r.value) == RenameEntries(entries)
  {
    var renamed := RenameEntries(entries);
    if renamed.None? then Failed else Processed(renamed.value, renamed.value != entries)
  }

  // ---------------------------------------------------------------------------
  // instruction.json
  // ---------------------------------------------------------------------------

  /** Rename a field when it is truthy. */
  function RenameField(f: Field): (r: Field)
    ensures !Truthy(f) ==> r == f
    ensures Truthy(f) ==> r == Some(RenameText(f.value))
    ensures r.Some? <==> f.Some?
  {
    if Truthy(f) then Some(RenameText(f.value)) else f
  }

  /** The edit of one instruction file: only `metadata.title` and
      `overview.description` are renamed, and the file is written exactly when one
      of them changed. */
  function EditInstruction(inst: Instruction): (r: Edit)
    ensures !r.Thrown?
    ensures r.Changed? ==> r.inst != inst
    ensures r.Changed? ==> (r.inst.metadata.Some? <==> inst.metadata.Some?)
    ensures r.Changed? && inst.metadata.Some? ==>
              r.inst.metadata.value == inst.metadata.value.(title := RenameField(inst.metadata.value.title))
    ensures r.Changed? ==> (r.inst.overview.Some? <==> inst.overview.Some?)
    ensures r.Changed? && inst.overview.Some? ==>
              r.inst.overview.value == Overview(RenameField(inst.overview.value.description))
    ensures r.Kept? ==> (inst.metadata.None? || RenameField(inst.metadata.value.title) == inst.metadata.value.title)
                        && (inst.overview.None? || RenameField(inst.overview.value.description) == inst.overview.value.description)
  {
    var meta := if inst.metadata.Some? then Some(inst.metadata.value.(title := RenameField(inst.metadata.value.title))) else None;
    var overview := if inst.overview.Some? then Some(Overview(RenameField(inst.overview.value.description))) else None;
    var edited := Instruction(meta, overview);
    if edited == inst then Kept else Changed(edited)
  }

  function TargetFolders(): seq<string> {
    FoldersOf(TargetDrawings)
  }

  /** The same edit for every target folder. */
  function Edits(): string -> Instruction -> Edit {
    (f: string) => EditInstruction
  }

  /** `processInstructionFiles`: nothing when the directory is missing, else the
      target drawings' files in order, each visited once. */
  function ProcessInstructions(files: Files, dirExists: bool): (r: Pass)
    ensures r.files.Keys == files.Keys
    ensures r.written <= r.parsed
    ensures forall f :: f in files && f !in TargetFolders() ==> r.files[f] == files[f]
    ensures !dirExists ==> r == Pass(files, 0, 0)
    ensures dirExists ==> forall f :: f in files && f in TargetFolders() ==> r.files[f] == Visited(files[f], EditInstruction)
    ensures dirExists ==> r.parsed == CountIf(Parses(files, Edits()), TargetFolders())
    ensures dirExists ==> r.written == CountIf(Writes(files, Edits()), TargetFolders())
  {
    if !dirExists then Pass(files, 0, 0)
    else
      assert NoDup(TargetDrawings);
      RunPass(files, TargetFolders(), Edits())
  }

  datatype Output = Output(companies: FileResult<seq<Company>>, index: FileResult<seq<IndexEntry>>,
                           instructions: Pass, totalChanged: nat)

  function ChangedCount<T>(r: FileResult<T>): nat {
    if r.Processed? && r.changed then 1 else 0
  }

  /** The script: the three steps and the number of files written. */
  function RenameProductsForTv(companies: seq<Company>, index: seq<IndexEntry>, files: Files, dirExists: bool): (r: Output)
    ensures r.totalChanged == ChangedCount(r.companies) + ChangedCount(r.index) + r.instructions.written
    ensures r.instructions.written <= r.instructions.parsed
    ensures r.totalChanged ==
              (if RenameCompanies(companies).Some? && RenameCompanies(companies).value != companies then 1 else 0)
              + (if RenameEntries(index).Some? && RenameEntries(index).value != index then 1 else 0)
              + (if dirExists then CountIf(Writes(files, Edits()), TargetFolders()) else 0)
  {
    var r1 := ProcessCompanies(companies);
    var r2 := ProcessIndex(index);
    var r3 := ProcessInstructions(files, dirExists);
    Output(r1, r2, r3, ChangedCount(r1) + ChangedCount(r2) + r3.written)
  }

  /** Neither old product name occurs in the text. */
  predicate NoProductName(text: string) {
    !Contains(text, Rail) && !Contains(text, Frame)
  }

  /** After a run whose two JSON steps succeed, no product of a television company
      and no entry of a target drawing mentions "レール" or "フレーム" in a renamed
      field, and everything outside the targets is as it was. */
  lemma {:induction false} RunRemovesOldNames(companies: seq<Company>, index: seq<IndexEntry>, files: Files, dirExists: bool)
    ensures var r := RenameProductsForTv(companies, index, files, dirExists);
            r.companies.Processed? ==>
              |r.companies.value| == |companies|
              && forall i, j :: 0 <= i < |companies| && companies[i].id in TargetCompanies
                                && 0 <= j < |r.companies.value[i].products| ==>
                   var p := r.companies.value[i].products[j];
                   p.name.Some? && NoProductName(p.name.value)
                   && p.category.Some? && NoProductName(p.category.value)
                   && p.description.Some? && NoProductName(p.description.value)
    ensures var r := RenameProductsForTv(companies, index, files, dirExists);
            r.index.Processed? ==>
              |r.index.value| == |index|
              && forall i :: 0 <= i < |index| ==>
                   if index[i].drawingNumber in TargetDrawings then
                     var e := r.index.value[i];
                     e.productName.Some? && NoProductName(e.productName.value)
                     && e.title.Some? && NoProductName(e.title.value)
                     && e.category.Some? && NoProductName(e.category.value)
                   else r.index.value[i] == index[i]
  {
    var r := RenameProductsForTv(companies, index, files, dirExists);
    if r.companies.Processed? {
      var rc := RenameCompanies(companies).value;
      assert r.companies.value == rc;
      forall i, j | 0 <= i < |companies| && companies[i].id in TargetCompanies && 0 <= j < |rc[i].products|
        ensures var p := rc[i].products[j];
                p.name.Some? && NoProductName(p.name.value)
                && p.category.Some? && NoProductName(p.category.value)
                && p.description.Some? && NoProductName(p.description.value)
      {
        assert RenameProducts(companies[i].products) == Some(rc[i].products);
        assert rc[i].products[j] == RenameProduct(companies[i].products[j]);
      }
    }
  }

  /** The target folders are distinct, so the count of written instruction files
      is at most four and the whole run writes at most six files. */
  lemma TotalChangedBound(companies: seq<Company>, index: seq<IndexEntry>, files: Files, dirExists: bool)
    ensures RenameProductsForTv(companies, index, files, dirExists).totalChanged <= 2 + |TargetDrawings|
  {
    assert NoDup(TargetDrawings);
  }
}
