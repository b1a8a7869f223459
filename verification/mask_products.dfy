/** The product-name masking of the demo data (doc/demo-version/mask-product-names.js).
    Product names of every company except the two television companies are
    replaced by generic part names, assigned in order of first appearance and
    cycling through the list. A description is replaced only when it is exactly one
    of those names. The search index and the instruction files of the drawings
    that are not skipped follow the same table. */
module MaskProducts {
  import opened Wrappers
  import opened Strings
  import opened Seqs
  import opened DemoData
  import opened FirstSeen

  const GenericParts: seq<string> := [
    "部品ユニットA", "部品ユニットB", "部品ユニットC", "部品ユニットD",
    "パーツセットE", "パーツセットF", "パーツセットG", "パーツセットH",
    "コンポーネントI", "コンポーネントJ", "コンポーネントK", "コンポーネントL",
    "アッセンブリM", "アッセンブリN", "アッセンブリO", "アッセンブリP",
    "機構部品Q", "機構部品R", "機構部品S", "機構部品T",
    "加工品U", "加工品V", "加工品W", "加工品X",
    "構成部品Y", "構成部品Z", "構成部品AA", "構成部品AB",
    "モジュールAC", "モジュールAD", "モジュールAE", "モジュールAF",
    "エレメントAG", "エレメントAH", "エレメントAI", "エレメントAJ",
    "ユニットAK", "ユニットAL", "ユニットAM", "ユニットAN",
    "パートAO", "パートAP", "パートAQ", "パートAR",
    "部材AS", "部材AT", "部材AU", "部材AV",
    "製作品AW", "製作品AX", "製作品AY", "製作品AZ",
    "加工部品BA", "加工部品BB", "加工部品BC", "加工部品BD",
    "機械部品BE", "機械部品BF", "機械部品BG", "機械部品BH",
    "精密部品BI", "精密部品BJ", "精密部品BK", "精密部品BL",
    "金属部品BM", "金属部品BN", "金属部品BO", "金属部品BP",
    "特注品BQ", "特注品BR", "特注品BS", "特注品BT",
    "試作品BU", "試作品BV", "試作品BW", "試作品BX",
    "サンプルBY", "サンプルBZ", "サンプルCA", "サンプルCB"]

  /** The label of the `i`-th new product name: the list, cycled. */
  function PartLabel(i: nat): (r: string)
    ensures r in GenericParts
  {
    GenericParts[i % |GenericParts|]
  }

  /** The names the products give (`if (product.name)`), in order. */
  function NamesOf(products: seq<Product>): (r: seq<string>)
    ensures forall n :: n in r <==> exists p :: p in products && Truthy(p.name) && p.name.value == n
    decreases |products|
  {
    if |products| == 0 then []
    else
      var init := products[..|products| - 1];
      var p := products[|products| - 1];
      assert products == init + [p];
      NamesOf(init) + (if Truthy(p.name) then [p.name.value] else [])
  }

  /** The names of two runs of products are those of the first run followed by those of the second. */
  lemma {:induction false} NamesOfAppend(a: seq<Product>, b: seq<Product>)
    ensures NamesOf(a + b) == NamesOf(a) + NamesOf(b)
    decreases |b|
  {
    if |b| == 0 {
      assert a + b == a;
    } else {
      var b' := b[..|b| - 1];
      NamesOfAppend(a, b');
      assert (a + b)[..|a + b| - 1] == a + b';
      assert (a + b)[|a + b| - 1] == b[|b| - 1];
    }
  }

  /** One product contributes its name when it is truthy, and nothing otherwise. */
  lemma NamesOfOne(p: Product)
    ensures NamesOf([p]) == (if Truthy(p.name) then [p.name.value] else [])
  {
    assert [p][..0] == [];
  }

  function NameKeys(companies: seq<Company>): seq<string> {
    NamesOf(ProductsOf(companies, false))
  }

  /** `productNameMapping`. */
  function NameMapping(companies: seq<Company>): map<string, string> {
    Assign(NameKeys(companies), PartLabel).0
  }

  /** The table covers exactly the product names of the companies not skipped, and
      the `i`-th distinct one gets the `i mod 80`-th generic name. */
  lemma {:induction false} NameMappingSpec(companies: seq<Company>)
    ensures forall n :: n in NameMapping(companies) <==>
              exists co, p :: co in companies && co.id !in SkipCompanies && p in co.products && Truthy(p.name) && p.name.value == n
    ensures forall i :: 0 <= i < |Dedup(NameKeys(companies))| ==>
              NameMapping(companies)[Dedup(NameKeys(companies))[i]] == GenericParts[i % 80]
    ensures forall n :: n in NameMapping(companies) ==> NameMapping(companies)[n] in GenericParts
  {
    var keys := NameKeys(companies);
    AssignLabels(keys, PartLabel);
    forall i | 0 <= i < |Dedup(keys)| ensures NameMapping(companies)[Dedup(keys)[i]] == GenericParts[i % 80] {
      assert NameMapping(companies)[Dedup(keys)[i]] == PartLabel(i);
    }
    forall n | n in NameMapping(companies) ensures NameMapping(companies)[n] in GenericParts {
      AssignPosition(keys, PartLabel, n);
    }
  }

  // ---------------------------------------------------------------------------
  // companies.json
  // ---------------------------------------------------------------------------

  function MaskProduct(p: Product, m: map<string, string>): Product {
    p.(name := MapField(p.name, m), description := MapField(p.description, m))
  }

  /** In every company not skipped, each product's name and description become
      their table entries when they have one. */
  predicate NamesMasked(before: seq<Company>, after: seq<Company>, m: map<string, string>) {
    |after| == |before|
    && forall i :: 0 <= i < |before| && before[i].id !in SkipCompanies ==>
         |after[i].products| == |before[i].products|
         && forall j :: 0 <= j < |before[i].products| ==>
              after[i].products[j].name == MapField(before[i].products[j].name, m)
              && after[i].products[j].description == MapField(before[i].products[j].description, m)
  }

  /** The companies with product names masked; skipped companies are copied. Only
      names and descriptions change, and a description changes only when it is
      exactly a name of the table. */
  function MaskCompanies(companies: seq<Company>, m: map<string, string>): (r: seq<Company>)
    ensures |r| == |companies|
    ensures forall i :: 0 <= i < |r| ==> r[i].id == companies[i].id && |r[i].products| == |companies[i].products|
    ensures forall i :: 0 <= i < |r| && companies[i].id in SkipCompanies ==> r[i] == companies[i]
    ensures forall i, j :: 0 <= i < |r| && 0 <= j < |r[i].products| ==>
              var p := companies[i].products[j];
              var q := r[i].products[j];
              q.category == p.category && q.drawings == p.drawings
              && (q.description != p.description ==> Truthy(p.description) && p.description.value in m && q.description == Some(m[p.description.value]))
              && (q.name != p.name ==> Truthy(p.name) && p.name.value in m && q.name == Some(m[p.name.value]))
    ensures NamesMasked(companies, r, m)
  {
    seq(|companies|, i requires 0 <= i < |companies| =>
      var c := companies[i];
      if c.id in SkipCompanies then c
      else c.(products := seq(|c.products|, j requires 0 <= j < |c.products| => MaskProduct(c.products[j], m))))
  }

  /** With the table built from the same companies, every product name of a company
      not skipped becomes a generic part name. */
  lemma MaskedNamesGeneric(companies: seq<Company>, i: nat, j: nat)
    requires i < |companies| && j < |companies[i].products| && companies[i].id !in SkipCompanies
    requires Truthy(companies[i].products[j].name)
    ensures var q := MaskCompanies(companies, NameMapping(companies))[i].products[j];
            q.name.Some? && q.name.value in GenericParts
  {
    NameMappingSpec(companies);
    var p := companies[i].products[j];
    assert p in ProductsOf(companies, false);
    assert p.name.value in NameMapping(companies);
  }

  // ---------------------------------------------------------------------------
  // search-index.json and instruction.json
  // ---------------------------------------------------------------------------

  /** One search-index entry: entries of skipped drawings are copied, the others
      get their product name masked. */
  function MaskEntry(e: IndexEntry, skip: set<string>, m: map<string, string>): (r: IndexEntry)
    ensures e.drawingNumber in skip ==> r == e
    ensures r == e.(productName := r.productName)
    ensures e.drawingNumber !in skip ==> r.productName == MapField(e.productName, m)
  {
    if e.drawingNumber in skip then e else e.(productName := MapField(e.productName, m))
  }

  /** The instruction folders the loop over the index visits: one per entry not
      skipped, repeated when an entry repeats. */
  function EntryFolders(entries: seq<IndexEntry>, skip: set<string>): (r: seq<string>)
    ensures forall f :: f in r <==> exists e :: e in entries && e.drawingNumber !in skip && f == DrawingFolder(e.drawingNumber)
    decreases |entries|
  {
    if |entries| == 0 then []
    else
      var init := entries[..|entries| - 1];
      var e := entries[|entries| - 1];
      assert entries == init + [e];
      EntryFolders(init, skip) + (if e.drawingNumber in skip then [] else [DrawingFolder(e.drawingNumber)])
  }

  /** The folders visited for two runs of entries are those of the first run followed by those of the second, repeats kept. */
  lemma {:induction false} EntryFoldersAppend(a: seq<IndexEntry>, b: seq<IndexEntry>, skip: set<string>)
    ensures EntryFolders(a + b, skip) == EntryFolders(a, skip) + EntryFolders(b, skip)
    decreases |b|
  {
    if |b| == 0 {
      assert a + b == a;
    } else {
      var b' := b[..|b| - 1];
      EntryFoldersAppend(a, b', skip);
      assert (a + b)[..|a + b| - 1] == a + b';
      assert (a + b)[|a + b| - 1] == b[|b| - 1];
    }
  }

  /** One entry contributes its folder unless its drawing is skipped. */
  lemma EntryFoldersOne(e: IndexEntry, skip: set<string>)
    ensures EntryFolders([e], skip) == (if e.drawingNumber in skip then [] else [DrawingFolder(e.drawingNumber)])
  {
    assert [e][..0] == [];
  }

  /** The edit of one instruction file: only `metadata.productName` is looked at,
      and the file is written whenever it is in the table. */
  function EditProductName(m: map<string, string>, inst: Instruction): (r: Edit)
    ensures !r.Thrown?
    ensures r.Changed? <==> inst.metadata.Some? && Truthy(inst.metadata.value.productName) && inst.metadata.value.productName.value in m
    ensures r.Changed? ==>
              (r.inst.overview == inst.overview && r.inst.metadata.Some?
               && r.inst.metadata.value == inst.metadata.value.(productName := Some(m[inst.metadata.value.productName.value])))
  {
    if inst.metadata.Some? && Truthy(inst.metadata.value.productName) && inst.metadata.value.productName.value in m then
      var meta := inst.metadata.value;
      Changed(inst.(metadata := Some(meta.(productName := Some(m[meta.productName.value])))))
    else Kept
  }

  function ProductEdit(m: map<string, string>): string -> Instruction -> Edit {
    (folder: string) => (inst: Instruction) => EditProductName(m, inst)
  }

  datatype Output = Output(companies: seq<Company>, index: seq<IndexEntry>, instructions: Pass)

  /** Entries of skipped drawings are kept; in the others only the product name
      changes, to its table entry when it has one. */
  predicate EntriesMasked(before: seq<IndexEntry>, after: seq<IndexEntry>, skip: set<string>, m: map<string, string>) {
    |after| == |before|
    && (forall i :: 0 <= i < |before| && before[i].drawingNumber in skip ==> after[i] == before[i])
    && (forall i :: 0 <= i < |before| && before[i].drawingNumber !in skip ==>
          after[i] == before[i].(productName := MapField(before[i].productName, m)))
  }

  /** Each visited folder's file ends as its edit made it, and the written count
      is the number of visited folders whose file the edit writes. */
  predicate ProductPassDone(files: Files, folders: seq<string>, m: map<string, string>, r: Pass) {
    r.files.Keys == files.Keys
    && (forall f :: f in files && f in folders ==> r.files[f] == Visited(files[f], ProductEdit(m)(f)))
    && r.written == CountIf(Writes(files, ProductEdit(m)), folders)
  }

  /** The script: companies.json and search-index.json are always rewritten; an
      instruction file is written when its product name is in the table. Files of
      skipped drawings are never visited. */
  function MaskProductNames(companies: seq<Company>, index: seq<IndexEntry>, files: Files): (r: Output)
    ensures r.instructions.files.Keys == files.Keys
    ensures NamesMasked(companies, r.companies, NameMapping(companies))
    ensures EntriesMasked(index, r.index, SkipDrawings(companies), NameMapping(companies))
    ensures NoDup(EntryFolders(index, SkipDrawings(companies))) ==>
              ProductPassDone(files, EntryFolders(index, SkipDrawings(companies)), NameMapping(companies), r.instructions)
  {
    var m := NameMapping(companies);
    var skip := SkipDrawings(companies);
    Output(MaskCompanies(companies, m),
           seq(|index|, i requires 0 <= i < |index| => MaskEntry(index[i], skip, m)),
           RunPass(files, EntryFolders(index, skip), ProductEdit(m)))
  }

  /** The same product name gets the same generic part everywhere: a product of a
      company not skipped, an entry of a drawing not skipped and a visited
      instruction file that carry one name all end with one part name. */
  lemma {:induction false} MaskedNamesConsistently(companies: seq<Company>, index: seq<IndexEntry>, files: Files,
                                                  i: nat, j: nat, k: nat, f: string)
    requires i < |companies| && j < |companies[i].products| && companies[i].id !in SkipCompanies
    requires Truthy(companies[i].products[j].name)
    requires k < |index| && index[k].drawingNumber !in SkipDrawings(companies)
    requires index[k].productName == companies[i].products[j].name
    requires NoDup(EntryFolders(index, SkipDrawings(companies))) && f in files && f in EntryFolders(index, SkipDrawings(companies))
    requires files[f].Some? && files[f].value.metadata.Some?
    requires files[f].value.metadata.value.productName == companies[i].products[j].name
    ensures var r := MaskProductNames(companies, index, files);
            var masked := r.companies[i].products[j].name;
            masked.Some? && masked.value in GenericParts
            && r.index[k].productName == masked
            && r.instructions.files[f] == Some(files[f].value.(metadata := Some(files[f].value.metadata.value.(productName := masked))))
  {
    MaskedNamesGeneric(companies, i, j);
    NameMappingSpec(companies);
    var m := NameMapping(companies);
    assert ProductEdit(m)(f)(files[f].value) == EditProductName(m, files[f].value);
  }

  /** An instruction file no entry of a drawing outside the skipped set points to
      is left as it was. */
  lemma SkippedFilesUntouched(companies: seq<Company>, index: seq<IndexEntry>, files: Files, f: string)
    requires f in files
    requires forall e :: e in index && f == DrawingFolder(e.drawingNumber) ==> e.drawingNumber in SkipDrawings(companies)
    ensures MaskProductNames(companies, index, files).instructions.files[f] == files[f]
  {
    assert f !in EntryFolders(index, SkipDrawings(companies));
  }
}
