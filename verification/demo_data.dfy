/** The demo-data records the demo-version scripts edit (`companies.json`,
    `search-index.json` and the `instruction.json` of each drawing), reduced to the
    fields those scripts read or write. A string field that may be missing or null is
    an `Option`; JavaScript treats a missing field and the empty string alike as
    false. */
module DemoData {
  import opened Wrappers
  import opened Strings
  import opened Seqs
  import opened Replace

  type Field = Option<string>

  /** A field a JavaScript `if (x)` accepts. */
  predicate Truthy(f: Field) {
    f.Some? && f.value != ""
  }

  /** `if (x && mapping[x]) x = mapping[x]`: the mapping's labels are never empty,
      so a key lookup stands for the truthiness test. */
  function MapField(f: Field, m: map<string, string>): (r: Field)
    ensures r != f ==> Truthy(f) && f.value in m && r == Some(m[f.value])
    ensures Truthy(f) && f.value in m ==> r == Some(m[f.value])
  {
    if Truthy(f) && f.value in m then Some(m[f.value]) else f
  }

  datatype Product = Product(name: Field, category: Field, description: Field, drawings: seq<string>)

  datatype Company = Company(id: string, products: seq<Product>)

  /** One entry of `search-index.json`'s `drawings` list. */
  datatype IndexEntry = IndexEntry(drawingNumber: string, productName: Field, title: Field,
                                   category: Field, display: Field)

  datatype Metadata = Metadata(title: Field, category: Field, productName: Field, display: Field)

  datatype Overview = Overview(description: Field)

  datatype Instruction = Instruction(metadata: Option<Metadata>, overview: Option<Overview>)

  /** The two companies prepared for the television shoot, which most scripts skip. */
  const SkipCompanies: seq<string> := ["tvtokyo", "wbs"]

  /** The products of the skipped companies (`skipped`) or of all the others, in
      order. */
  function ProductsOf(companies: seq<Company>, skipped: bool): (r: seq<Product>)
    ensures forall p :: p in r <==> exists c :: c in companies && (c.id in SkipCompanies) == skipped && p in c.products
    decreases |companies|
  {
    if |companies| == 0 then []
    else
      var init := companies[..|companies| - 1];
      var c := companies[|companies| - 1];
      assert companies == init + [c];
      ProductsOf(init, skipped) + (if (c.id in SkipCompanies) == skipped then c.products else [])
  }

  /** The drawing numbers the products list, in order. */
  function DrawingsOf(products: seq<Product>): (r: seq<string>)
    ensures forall d :: d in r <==> exists p :: p in products && d in p.drawings
    decreases |products|
  {
    if |products| == 0 then []
    else
      var init := products[..|products| - 1];
      var p := products[|products| - 1];
      assert products == init + [p];
      DrawingsOf(init) + p.drawings
  }

  /** Collecting over two runs of companies gives the first run's products followed by the second's. */
  lemma {:induction false} ProductsOfAppend(a: seq<Company>, b: seq<Company>, skipped: bool)
    ensures ProductsOf(a + b, skipped) == ProductsOf(a, skipped) + ProductsOf(b, skipped)
    decreases |b|
  {
    if |b| == 0 {
      assert a + b == a;
    } else {
      var b' := b[..|b| - 1];
      ProductsOfAppend(a, b', skipped);
      assert (a + b)[..|a + b| - 1] == a + b';
      assert (a + b)[|a + b| - 1] == b[|b| - 1];
    }
  }

  /** One company contributes its own products, in their order, when it is on the chosen side. */
  lemma ProductsOfOne(c: Company, skipped: bool)
    ensures ProductsOf([c], skipped) == (if (c.id in SkipCompanies) == skipped then c.products else [])
  {
    assert [c][..0] == [];
  }

  /** The drawings of two runs of products are those of the first run followed by those of the second. */
  lemma {:induction false} DrawingsOfAppend(a: seq<Product>, b: seq<Product>)
    ensures DrawingsOf(a + b) == DrawingsOf(a) + DrawingsOf(b)
    decreases |b|
  {
    if |b| == 0 {
      assert a + b == a;
    } else {
      var b' := b[..|b| - 1];
      DrawingsOfAppend(a, b');
      assert (a + b)[..|a + b| - 1] == a + b';
      assert (a + b)[|a + b| - 1] == b[|b| - 1];
    }
  }

  /** One product contributes its drawing list as it is, repeats included. */
  lemma DrawingsOfOne(p: Product)
    ensures DrawingsOf([p]) == p.drawings
  {
    assert [p][..0] == [];
  }

  /** `skipDrawings`: exactly the drawings some product of a skipped company
      lists. */
  function SkipDrawings(companies: seq<Company>): (r: set<string>)
    ensures forall d :: d in r <==>
              exists c, p :: c in companies && c.id in SkipCompanies && p in c.products && d in p.drawings
  {
    set d | d in DrawingsOf(ProductsOf(companies, true))
  }

  /** `s.replace(p, r)` with a string pattern: the first occurrence only; an empty
      pattern matches at the start. */
  function ReplaceFirstJs(s: string, p: string, r: string): string {
    if |p| == 0 then r + s else ReplaceFirst(s, p, r)
  }

  /** Only the first occurrence is replaced: the text before it and after it is kept
      as it was. */
  lemma ReplaceFirstJsSplice(s: string, p: string, r: string)
    requires Contains(s, p)
    ensures 0 <= IndexOf(s, p)
    ensures ReplaceFirstJs(s, p, r) == s[..IndexOf(s, p)] + r + s[IndexOf(s, p) + |p|..]
  {
    if |p| == 0 {
      assert StartsWith(s, p);
      assert s[..0] + r + s[0..] == r + s;
    } else {
      ReplaceFirstSplice(s, p, r);
    }
  }

  // ---------------------------------------------------------------------------
  // Drawing folders
  // ---------------------------------------------------------------------------

  const FolderPrefix: string := "drawing-"

  /** The folder of a drawing under `work-instructions`. */
  function DrawingFolder(number: string): string {
    FolderPrefix + number
  }

  /** `folder.replace('drawing-', '')`. */
  function FolderNumber(folder: string): string {
    ReplaceFirstJs(folder, FolderPrefix, "")
  }

  /** Removing the first occurrence of a prefix gives back what followed it. */
  lemma StripPrefix(p: string, x: string)
    ensures ReplaceFirstJs(p + x, p, "") == x
  {
    var f := p + x;
    assert StartsWith(f, p) by {
      StartsWithSpec(f, p);
      assert f[..|p|] == p;
    }
    assert IndexOf(f, p) == 0;
    ReplaceFirstJsSplice(f, p, "");
    assert f[|p|..] == x;
  }

  /** A drawing's folder gives back the drawing number. */
  lemma FolderNumberOfPrefixed(n: string)
    ensures FolderNumber(DrawingFolder(n)) == n
  {
    StripPrefix(FolderPrefix, n);
  }

  lemma SamePrefixTail(p: string, a: string, b: string)
    requires p + a == p + b
    ensures a == b
  {
    assert a == (p + a)[|p|..];
    assert b == (p + b)[|p|..];
  }

  /** The folders of a list of drawings, in order; distinct drawings have distinct
      folders. */
  function FoldersOf(numbers: seq<string>): (r: seq<string>)
    ensures |r| == |numbers|
    ensures forall i :: 0 <= i < |r| ==> r[i] == DrawingFolder(numbers[i])
    ensures NoDup(numbers) ==> NoDup(r)
  {
    var r := seq(|numbers|, i requires 0 <= i < |numbers| => DrawingFolder(numbers[i]));
    forall i, j | 0 <= i < j < |r| && r[i] == r[j] ensures numbers[i] == numbers[j] {
      SamePrefixTail(FolderPrefix, numbers[i], numbers[j]);
    }
    r
  }

  /** A folder of the list belongs to one of its drawings. */
  lemma InFoldersOf(numbers: seq<string>, f: string)
    requires f in FoldersOf(numbers)
    ensures FolderNumber(f) in numbers
  {
    var i :| 0 <= i < |numbers| && FoldersOf(numbers)[i] == f;
    FolderNumberOfPrefixed(numbers[i]);
  }

  // ---------------------------------------------------------------------------
  // The instruction.json pass
  // ---------------------------------------------------------------------------

  /** The `instruction.json` files by drawing folder name; `None` is a file that
      does not parse. A folder without the file is not a key. */
  type Files = map<string, Option<Instruction>>

  /** What a script's edit of one parsed file does: throw (caught, nothing
      written), leave it alone, or write the edited record. */
  datatype Edit = Thrown | Kept | Changed(inst: Instruction)

  datatype Pass = Pass(files: Files, parsed: nat, written: nat)

  /** The file after its visit. */
  function Visited(f: Option<Instruction>, edit: Instruction -> Edit): Option<Instruction> {
    if f.Some? && edit(f.value).Changed? then Some(edit(f.value).inst) else f
  }

  /** A visit that parses the file and does not throw. */
  function Parses(files: Files, edit: string -> Instruction -> Edit): string -> bool {
    (k: string) => k in files && files[k].Some? && !edit(k)(files[k].value).Thrown?
  }

  /** A visit that writes the file. */
  function Writes(files: Files, edit: string -> Instruction -> Edit): string -> bool {
    (k: string) => k in files && files[k].Some? && edit(k)(files[k].value).Changed?
  }

  /** The loop over the folders: each existing file is parsed, edited, and written
      back only when the edit changed it; a file that does not parse or whose edit
      throws is left as it is. Files not visited are untouched, and for distinct
      folders each visited file ends as its own edit made it. */
  function RunPass(files: Files, folders: seq<string>, edit: string -> Instruction -> Edit): (r: Pass)
    ensures r.files.Keys == files.Keys
    ensures forall k :: k in files && k !in folders ==> r.files[k] == files[k]
    ensures forall k :: k in files && !Writes(files, edit)(k) ==> r.files[k] == files[k]
    ensures NoDup(folders) ==> forall k :: k in files && k in folders ==> r.files[k] == Visited(files[k], edit(k))
    ensures NoDup(folders) ==> r.parsed == CountIf(Parses(files, edit), folders)
    ensures NoDup(folders) ==> r.written == CountIf(Writes(files, edit), folders)
    ensures r.written <= r.parsed
    decreases |folders|
  {
    if |folders| == 0 then Pass(files, 0, 0)
    else
      var init := folders[..|folders| - 1];
      var k := folders[|folders| - 1];
      assert folders == init + [k];
      var r := RunPass(files, init, edit);
      if k !in r.files || r.files[k].None? then r
      else
        match edit(k)(r.files[k].value)
        case Thrown => r
        case Kept => r.(parsed := r.parsed + 1)
        case Changed(inst) => Pass(r.files[k := Some(inst)], r.parsed + 1, r.written + 1)
  }
}
