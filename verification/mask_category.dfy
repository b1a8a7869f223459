/** The category and display-number masking of the demo data
    (doc/demo-version/mask-category-and-drawing.js). Product categories of every
    company except the two television companies are replaced by generic category
    names, assigned in order of first appearance and cycling through the list; each
    of their drawings gets a display number `DRW-001`, `DRW-002`, ... The drawing
    folders themselves keep their names. */
module MaskCategory {
  import opened Wrappers
  import opened Strings
  import opened Seqs
  import opened Replace
  import opened DemoData
  import opened FirstSeen

  const GenericCategories: seq<string> := [
    "シャフト部品", "ギア部品", "ハウジング", "ベアリング部品",
    "プレート部品", "ブロック", "スリーブ", "カラー部品",
    "フランジ部品", "カバー部品", "ケース", "ボディ部品",
    "サポート", "ホルダー", "アダプター", "ジョイント",
    "コネクタ", "マウント", "ブラケット部品", "フレーム部品",
    "ベース部品", "プーリー", "スプロケット", "カップリング",
    "リテーナ部品", "スペーサー", "ワッシャー", "ブッシュ",
    "ピン部品", "ローラー", "ガイド部品", "レール部品",
    "クランプ", "チャック", "コレット", "アーバー"]

  /** The label of the `i`-th new category: the list, cycled. */
  function CategoryLabel(i: nat): (r: string)
    ensures r in GenericCategories
  {
    GenericCategories[i % |GenericCategories|]
  }

  /** The display number of the `i`-th new drawing, counting from 1. */
  function DrawingLabel(i: nat): string {
    DrawingPrefix + Pad3(i + 1)
  }

  const DrawingPrefix: string := "DRW-"

  /** Different positions get different display numbers. */
  lemma DrawingLabelInjective(i: nat, j: nat)
    requires DrawingLabel(i) == DrawingLabel(j)
    ensures i == j
  {
    var a := Pad3(i + 1);
    var b := Pad3(j + 1);
    SamePrefixTail(DrawingPrefix, a, b);
    Pad3Injective(i + 1, j + 1);
  }

  // ---------------------------------------------------------------------------
  // The two tables
  // ---------------------------------------------------------------------------

  /** The categories the products give (`if (product.category)`), in order. */
  function CategoriesOf(products: seq<Product>): (r: seq<string>)
    ensures forall c :: c in r <==> exists p :: p in products && Truthy(p.category) && p.category.value == c
    decreases |products|
  {
    if |products| == 0 then []
    else
      var init := products[..|products| - 1];
      var p := products[|products| - 1];
      assert products == init + [p];
      CategoriesOf(init) + (if Truthy(p.category) then [p.category.value] else [])
  }

  /** The categories of two runs of products are those of the first run followed by those of the second. */
  lemma {:induction false} CategoriesOfAppend(a: seq<Product>, b: seq<Product>)
    ensures CategoriesOf(a + b) == CategoriesOf(a) + CategoriesOf(b)
    decreases |b|
  {
    if |b| == 0 {
      assert a + b == a;
    } else {
      var b' := b[..|b| - 1];
      CategoriesOfAppend(a, b');
      assert (a + b)[..|a + b| - 1] == a + b';
      assert (a + b)[|a + b| - 1] == b[|b| - 1];
    }
  }

  /** One product contributes its category when it is truthy, and nothing otherwise. */
  lemma CategoriesOfOne(p: Product)
    ensures CategoriesOf([p]) == (if Truthy(p.category) then [p.category.value] else [])
  {
    assert [p][..0] == [];
  }

  /** The category keys, in the order the script meets them. */
  function CategoryKeys(companies: seq<Company>): seq<string> {
    CategoriesOf(ProductsOf(companies, false))
  }

  /** The drawing keys, in the order the script meets them. */
  function DrawingKeys(companies: seq<Company>): seq<string> {
    DrawingsOf(ProductsOf(companies, false))
  }

  /** `categoryMapping`. */
  function CategoryMapping(companies: seq<Company>): map<string, string> {
    Assign(CategoryKeys(companies), CategoryLabel).0
  }

  /** `drawingMapping`. */
  function DrawingMapping(companies: seq<Company>): map<string, string> {
    Assign(DrawingKeys(companies), DrawingLabel).0
  }

  /** The category table covers exactly the categories of the products of the
      companies not skipped, and the `i`-th distinct one (in order) gets the
      `i mod 36`-th generic name. */
  lemma CategoryMappingSpec(companies: seq<Company>)
    ensures forall c :: c in CategoryMapping(companies) <==>
              exists co, p :: co in companies && co.id !in SkipCompanies && p in co.products
                              && Truthy(p.category) && p.category.value == c
    ensures forall i :: 0 <= i < |Dedup(CategoryKeys(companies))| ==>
              CategoryMapping(companies)[Dedup(CategoryKeys(companies))[i]] == GenericCategories[i % 36]
  {
    var keys := CategoryKeys(companies);
    AssignLabels(keys, CategoryLabel);
    forall i | 0 <= i < |Dedup(keys)| ensures CategoryMapping(companies)[Dedup(keys)[i]] == GenericCategories[i % 36] {
      assert CategoryMapping(companies)[Dedup(keys)[i]] == CategoryLabel(i);
    }
  }

  /** The drawing table covers exactly the drawings of the products of the companies
      not skipped; the `i`-th distinct one gets `DRW-` and `i + 1` in three digits,
      and no two drawings share a display number. */
  lemma DrawingMappingSpec(companies: seq<Company>)
    ensures forall d :: d in DrawingMapping(companies) <==>
              exists co, p :: co in companies && co.id !in SkipCompanies && p in co.products && d in p.drawings
    ensures forall i :: 0 <= i < |Dedup(DrawingKeys(companies))| ==>
              DrawingMapping(companies)[Dedup(DrawingKeys(companies))[i]] == DrawingPrefix + Pad3(i + 1)
    ensures forall d, e :: d in DrawingMapping(companies) && e in DrawingMapping(companies) && d != e ==>
              DrawingMapping(companies)[d] != DrawingMapping(companies)[e]
  {
    var keys := DrawingKeys(companies);
    var m := DrawingMapping(companies);
    AssignLabels(keys, DrawingLabel);
    forall i | 0 <= i < |Dedup(keys)| ensures m[Dedup(keys)[i]] == DrawingPrefix + Pad3(i + 1) {
      assert m[Dedup(keys)[i]] == DrawingLabel(i);
    }
    forall i: nat, j: nat | i != j ensures DrawingLabel(i) != DrawingLabel(j) {
      if DrawingLabel(i) == DrawingLabel(j) {
        DrawingLabelInjective(i, j);
      }
    }
    AssignInjective(keys, DrawingLabel);
  }

  // ---------------------------------------------------------------------------
  // companies.json and search-index.json
  // ---------------------------------------------------------------------------

  /** The companies with their categories masked; skipped companies are copied. */
  function MaskCompanies(companies: seq<Company>, cm: map<string, string>): (r: seq<Company>)
    ensures |r| == |companies|
    ensures forall i :: 0 <= i < |r| ==> r[i].id == companies[i].id && |r[i].products| == |companies[i].products|
    ensures forall i :: 0 <= i < |r| && companies[i].id in SkipCompanies ==> r[i] == companies[i]
    ensures forall i, j :: 0 <= i < |r| && 0 <= j < |r[i].products| ==>
              var p := companies[i].products[j];
              r[i].products[j] == p.(category := r[i].products[j].category)
    ensures forall i, j :: 0 <= i < |r| && 0 <= j < |r[i].products| && companies[i].id !in SkipCompanies ==>
              r[i].products[j].category == MapField(companies[i].products[j].category, cm)
  {
    seq(|companies|, i requires 0 <= i < |companies| =>
      var c := companies[i];
      if c.id in SkipCompanies then c
      else c.(products := seq(|c.products|, j requires 0 <= j < |c.products| =>
                var p := c.products[j];
                p.(category := MapField(p.category, cm)))))
  }

  /** With the table built from the same companies, every category of a company not
      skipped becomes its table entry, which is a generic name, and one that was
      absent or empty stays so. */
  lemma MaskedCategoriesGeneric(companies: seq<Company>, i: nat, j: nat)
    requires i < |companies| && j < |companies[i].products| && companies[i].id !in SkipCompanies
    ensures var before := companies[i].products[j].category;
            Truthy(before) ==>
              (before.value in CategoryMapping(companies)
               && MaskCompanies(companies, CategoryMapping(companies))[i].products[j].category == Some(CategoryMapping(companies)[before.value]))
    ensures var p := MaskCompanies(companies, CategoryMapping(companies))[i].products[j];
            Truthy(companies[i].products[j].category) ==> p.category.Some? && p.category.value in GenericCategories
    ensures var p := MaskCompanies(companies, CategoryMapping(companies))[i].products[j];
            !Truthy(companies[i].products[j].category) ==> p.category == companies[i].products[j].category
  {
    var co := companies[i];
    var p := co.products[j];
    var keys := CategoryKeys(companies);
    if Truthy(p.category) {
      assert p.category.value in CategoryMapping(companies);
      AssignPosition(keys, CategoryLabel, p.category.value);
    }
  }

  /** One search-index entry: entries of skipped drawings are copied; the others get
      their category masked and, when their drawing has one, a display number. */
  function MaskEntry(e: IndexEntry, skip: set<string>, cm: map<string, string>, dm: map<string, string>): (r: IndexEntry)
    ensures e.drawingNumber in skip ==> r == e
    ensures r.drawingNumber == e.drawingNumber && r.productName == e.productName && r.title == e.title
    ensures e.drawingNumber !in skip && e.drawingNumber in dm ==> r.display == Some(dm[e.drawingNumber])
    ensures e.drawingNumber !in dm ==> r.display == e.display
    ensures !Truthy(e.category) ==> r.category == e.category
    ensures e.drawingNumber !in skip ==> r.category == MapField(e.category, cm)
  {
    if e.drawingNumber in skip then e
    else
      e.(category := MapField(e.category, cm),
         display := if e.drawingNumber in dm then Some(dm[e.drawingNumber]) else e.display)
  }

  /** `search-index.json`: each entry is masked on its own, with the skip set and
      both tables built from the companies. */
  function MaskIndex(entries: seq<IndexEntry>, companies: seq<Company>): (r: seq<IndexEntry>)
    ensures |r| == |entries|
    ensures forall i :: 0 <= i < |r| && entries[i].drawingNumber in SkipDrawings(companies) ==> r[i] == entries[i]
    ensures forall i :: 0 <= i < |r| ==>
              r[i] == entries[i].(category := r[i].category, display := r[i].display)
    ensures forall i :: 0 <= i < |r| && entries[i].drawingNumber !in SkipDrawings(companies) ==>
              r[i].category == MapField(entries[i].category, CategoryMapping(companies))
    ensures forall i :: 0 <= i < |r| && entries[i].drawingNumber !in SkipDrawings(companies) ==>
              r[i].display == (if entries[i].drawingNumber in DrawingMapping(companies)
                               then Some(DrawingMapping(companies)[entries[i].drawingNumber]) else entries[i].display)
  {
    var skip := SkipDrawings(companies);
    var cm := CategoryMapping(companies);
    var dm := DrawingMapping(companies);
    seq(|entries|, i requires 0 <= i < |entries| => MaskEntry(entries[i], skip, cm, dm))
  }

  /** Entries of drawings of the television companies are never changed, and every
      other entry of a drawing listed by another company's product gets that
      drawing's display number. */
  lemma MaskIndexSkips(entries: seq<IndexEntry>, companies: seq<Company>, i: nat)
    requires i < |entries|
    ensures (exists c, p :: c in companies && c.id in SkipCompanies && p in c.products && entries[i].drawingNumber in p.drawings) ==>
              MaskIndex(entries, companies)[i] == entries[i]
    ensures entries[i].drawingNumber !in SkipDrawings(companies) && entries[i].drawingNumber in DrawingMapping(companies) ==>
              MaskIndex(entries, companies)[i].display == Some(DrawingMapping(companies)[entries[i].drawingNumber])
  {
  }

  // ---------------------------------------------------------------------------
  // instruction.json
  // ---------------------------------------------------------------------------

  /** The folders the script opens: `drawing-` folders whose drawing is not
      skipped, in listing order. */
  function EditedFolders(listing: seq<string>, skip: set<string>): (r: seq<string>)
    ensures forall f :: f in r <==> f in listing && StartsWith(f, FolderPrefix) && FolderNumber(f) !in skip
  {
    Filter((f: string) => StartsWith(f, FolderPrefix) && FolderNumber(f) !in skip, listing)
  }

  /** Replace the first occurrence of the number when the text mentions it. */
  function ReplaceNumber(f: Field, number: string, display: string): Field {
    if Truthy(f) && Contains(f.value, number) then Some(ReplaceFirstJs(f.value, number, display)) else f
  }

  /** The category of the metadata is one the table maps. */
  predicate CategoryMapped(inst: Instruction, cm: map<string, string>) {
    inst.metadata.Some? && Truthy(inst.metadata.value.category) && inst.metadata.value.category.value in cm
  }

  /** The edit of one instruction file. Setting the display number on a file
      without `metadata` throws, and the file is not written. A mapped category
      marks the file changed even when its label is the category itself. */
  function EditInstruction(number: string, cm: map<string, string>, dm: map<string, string>, inst: Instruction): (r: Edit)
    ensures r.Thrown? <==> number in dm && inst.metadata.None?
    ensures r.Changed? <==> inst.metadata.Some? && (number in dm || CategoryMapped(inst, cm))
    ensures r.Changed? ==> r.inst.metadata.Some? && inst.metadata.Some?
    ensures r.Changed? ==> r.inst.metadata.value.productName == inst.metadata.value.productName
    ensures r.Changed? ==> r.inst.metadata.value.category == MapField(inst.metadata.value.category, cm)
    ensures r.Changed? && number !in dm ==>
              r.inst == inst.(metadata := Some(inst.metadata.value.(category := MapField(inst.metadata.value.category, cm))))
  {
    if inst.metadata.None? then
      if number in dm then Thrown else Kept
    else
      var meta := inst.metadata.value;
      var category := MapField(meta.category, cm);
      if number !in dm then
        if CategoryMapped(inst, cm) then Changed(inst.(metadata := Some(meta.(category := category))))
        else Kept
      else
        var display := dm[number];
        var overview := if inst.overview.Some? && inst.overview.value.description.Some? then
            Some(Overview(ReplaceNumber(inst.overview.value.description, number, display)))
          else inst.overview;
        Changed(Instruction(Some(meta.(category := category, display := Some(display),
                                       title := ReplaceNumber(meta.title, number, display))),
                            overview))
  }

  /** A title that mentions the drawing number differs from the old one only in
      its first occurrence, which becomes the display number; other titles are
      kept. */
  lemma EditTitleFirstOccurrence(number: string, cm: map<string, string>, dm: map<string, string>, inst: Instruction)
    requires inst.metadata.Some? && number in dm
    ensures EditInstruction(number, cm, dm, inst).Changed?
    ensures var m := EditInstruction(number, cm, dm, inst).inst.metadata.value;
            m.display == Some(dm[number]) && m.title == ReplaceNumber(inst.metadata.value.title, number, dm[number])
  {
  }

  /** Likewise for the overview's description. */
  lemma EditDescriptionFirstOccurrence(number: string, cm: map<string, string>, dm: map<string, string>, inst: Instruction)
    requires inst.metadata.Some? && number in dm && inst.overview.Some?
    ensures EditInstruction(number, cm, dm, inst).inst.overview ==
              Some(Overview(ReplaceNumber(inst.overview.value.description, number, dm[number])))
  {
  }

  /** Only the first occurrence of the number is replaced: text before and after
      it is kept. */
  lemma ReplaceNumberSplice(f: Field, number: string, display: string)
    requires Truthy(f) && Contains(f.value, number)
    ensures 0 <= IndexOf(f.value, number)
    ensures ReplaceNumber(f, number, display) ==
              Some(f.value[..IndexOf(f.value, number)] + display + f.value[IndexOf(f.value, number) + |number|..])
  {
    ReplaceFirstJsSplice(f.value, number, display);
  }

  /** A field that does not mention the number, or is empty, is kept. */
  lemma ReplaceNumberAbsent(f: Field, number: string, display: string)
    requires !Truthy(f) || !Contains(f.value, number)
    ensures ReplaceNumber(f, number, display) == f
  {
  }

  /** The per-folder edit the pass applies. */
  function FolderEdit(cm: map<string, string>, dm: map<string, string>): string -> Instruction -> Edit {
    (folder: string) => (inst: Instruction) => EditInstruction(FolderNumber(folder), cm, dm, inst)
  }

  predicate HasMetadata(f: Option<Instruction>) {
    f.Some? && f.value.metadata.Some?
  }

  /** A visited file with metadata keeps it, and its category becomes the
      table's entry for the old one whether or not the file is written. */
  lemma VisitedCategory(cm: map<string, string>, dm: map<string, string>, folder: string, f: Option<Instruction>)
    requires HasMetadata(f)
    ensures HasMetadata(Visited(f, FolderEdit(cm, dm)(folder)))
    ensures Visited(f, FolderEdit(cm, dm)(folder)).value.metadata.value.category == MapField(f.value.metadata.value.category, cm)
  {
    var e := EditInstruction(FolderNumber(folder), cm, dm, f.value);
    assert FolderEdit(cm, dm)(folder)(f.value) == e;
  }

  /** The instruction pass: when the work-instructions directory exists, each
      edited folder's file is edited; the count is the files written. */
  function MaskInstructions(files: Files, listing: Option<seq<string>>, companies: seq<Company>): (r: Pass)
    ensures listing.None? ==> r == Pass(files, 0, 0)
    ensures r.files.Keys == files.Keys
    ensures listing.Some? ==> forall f :: f in files && (!StartsWith(f, FolderPrefix) || FolderNumber(f) in SkipDrawings(companies)) ==>
              r.files[f] == files[f]
    ensures listing.Some? && NoDup(listing.value) ==>
              var folders := EditedFolders(listing.value, SkipDrawings(companies));
              var edit := FolderEdit(CategoryMapping(companies), DrawingMapping(companies));
              (forall f :: f in files && f in folders ==> r.files[f] == Visited(files[f], edit(f)))
              && r.parsed == CountIf(Parses(files, edit), folders)
              && r.written == CountIf(Writes(files, edit), folders)
  {
    if listing.None? then Pass(files, 0, 0)
    else
      var folders := EditedFolders(listing.value, SkipDrawings(companies));
      assert NoDup(listing.value) ==> NoDup(folders) by {
        if NoDup(listing.value) {
          FilterNoDup((f: string) => StartsWith(f, FolderPrefix) && FolderNumber(f) !in SkipDrawings(companies), listing.value);
        }
      }
      RunPass(files, folders, FolderEdit(CategoryMapping(companies), DrawingMapping(companies)))
  }

  /** Each edited file with metadata ends with the table's entry for its old
      category, whether or not it is written. */
  lemma MaskInstructionsCategory(files: Files, listing: seq<string>, companies: seq<Company>, f: string)
    requires NoDup(listing) && f in files && f in EditedFolders(listing, SkipDrawings(companies)) && HasMetadata(files[f])
    ensures HasMetadata(MaskInstructions(files, Some(listing), companies).files[f])
    ensures MaskInstructions(files, Some(listing), companies).files[f].value.metadata.value.category
              == MapField(files[f].value.metadata.value.category, CategoryMapping(companies))
  {
    VisitedCategory(CategoryMapping(companies), DrawingMapping(companies), f, files[f]);
  }

  /** The outputs of the script: both JSON files are always rewritten. */
  datatype Output = Output(companies: seq<Company>, index: seq<IndexEntry>, instructions: Pass)

  /** Every product of a company not skipped has its category replaced by its
      table entry. */
  predicate CompanyCategoriesMasked(before: seq<Company>, after: seq<Company>, cm: map<string, string>) {
    |after| == |before|
    && forall i :: 0 <= i < |before| && before[i].id !in SkipCompanies ==>
         |after[i].products| == |before[i].products|
         && forall j :: 0 <= j < |before[i].products| ==>
              after[i].products[j].category == MapField(before[i].products[j].category, cm)
  }

  /** Every entry of a drawing not skipped has its category replaced by its table
      entry. */
  predicate EntryCategoriesMasked(before: seq<IndexEntry>, after: seq<IndexEntry>, skip: set<string>, cm: map<string, string>) {
    |after| == |before|
    && forall k :: 0 <= k < |before| && before[k].drawingNumber !in skip ==>
         after[k].category == MapField(before[k].category, cm)
  }

  /** The script: companies.json, search-index.json and the instruction files, all
      masked with the tables built once from companies.json. */
  function MaskCategoryAndDrawing(companies: seq<Company>, index: seq<IndexEntry>, files: Files, listing: Option<seq<string>>): (r: Output)
    ensures CompanyCategoriesMasked(companies, r.companies, CategoryMapping(companies))
    ensures EntryCategoriesMasked(index, r.index, SkipDrawings(companies), CategoryMapping(companies))
    ensures r.instructions.files.Keys == files.Keys
  {
    Output(MaskCompanies(companies, CategoryMapping(companies)), MaskIndex(index, companies),
           MaskInstructions(files, listing, companies))
  }

  /** The same category gets the same generic name everywhere: a product of a
      company not skipped, an entry of a drawing not skipped and an edited
      instruction file that all carry category `c` end with one label. */
  lemma {:induction false} MaskedConsistently(companies: seq<Company>, index: seq<IndexEntry>, files: Files, listing: seq<string>,
                                             i: nat, j: nat, k: nat, f: string)
    requires i < |companies| && j < |companies[i].products| && companies[i].id !in SkipCompanies
    requires Truthy(companies[i].products[j].category)
    requires k < |index| && index[k].drawingNumber !in SkipDrawings(companies)
    requires index[k].category == companies[i].products[j].category
    requires NoDup(listing) && f in files && f in EditedFolders(listing, SkipDrawings(companies))
    requires HasMetadata(files[f])
    requires files[f].value.metadata.value.category == companies[i].products[j].category
    ensures HasMetadata(MaskCategoryAndDrawing(companies, index, files, Some(listing)).instructions.files[f])
    ensures var r := MaskCategoryAndDrawing(companies, index, files, Some(listing));
            var masked := r.companies[i].products[j].category;
            masked.Some? && masked.value in GenericCategories
            && r.index[k].category == masked
            && r.instructions.files[f].value.metadata.value.category == masked
  {
    MaskedCategoriesGeneric(companies, i, j);
    MaskInstructionsCategory(files, listing, companies, f);
  }
}
