/** The client side of registering new drawings (src/app/admin/drawings/new/page.tsx):
    the suggested keywords and title, the form's own validation before it posts, the
    machine-type checkboxes that edit a comma-separated text, and removing a drawing
    from the batch. The machine types of a drawing are held as that text. */
module NewDrawing {
  import opened Wrappers
  import opened Strings
  import opened Seqs
  import opened Catalog
  import Loaders
  import EditForm
  import DrawingUtils

  datatype CompanyKind = ExistingCompany | NewCompany

  /** The company of a drawing: an existing one chosen from the list, or a new one
      with a typed id. */
  datatype CompanyChoice = CompanyChoice(kind: CompanyKind, id: Option<string>, name: string)

  datatype ProductChoice = ProductChoice(name: string, category: string)

  datatype DrawingForm = DrawingForm(
    drawingNumber: string,
    title: string,
    company: CompanyChoice,
    product: ProductChoice,
    difficulty: string,
    estimatedTime: string,
    machineType: string,
    keywords: string)

  // ---------------------------------------------------------------------------
  // Comma-separated text
  // ---------------------------------------------------------------------------

  /** An entry that survives a round trip through a comma-separated text. */
  predicate IsListEntry(s: string) {
    s != "" && EditForm.IsTrimmed(s) && ',' !in s
  }

  /** Splitting on ',', trimming and dropping empties undoes a `join(',')` of such
      entries. */
  lemma ParseCommaJoined(xs: seq<string>)
    requires forall i :: 0 <= i < |xs| ==> IsListEntry(xs[i])
    ensures EditForm.ParseList(Join(xs, ",")) == xs
  {
    if |xs| == 0 {
      EditForm.ParseEmptyText();
    } else {
      SplitJoin(xs, ',');
      assert Split(Join(xs, ","), ',') == xs;
      TrimAllEntries(xs);
      FilterAll(EditForm.IsNonEmpty, xs);
      assert EditForm.ParseList(Join(xs, ",")) == Filter(EditForm.IsNonEmpty, EditForm.TrimAll(xs));
    }
  }

  /** Trimming leaves such entries alone. */
  lemma TrimAllEntries(xs: seq<string>)
    requires forall i :: 0 <= i < |xs| ==> IsListEntry(xs[i])
    ensures EditForm.TrimAll(xs) == xs
  {
    forall i | 0 <= i < |xs| ensures Trim(xs[i]) == xs[i] {
      TrimNoWs(xs[i]);
    }
  }

  /** What a parsed text holds is again a list of such entries. */
  lemma ParsedEntries(text: string)
    ensures forall i :: 0 <= i < |EditForm.ParseList(text)| ==> IsListEntry(EditForm.ParseList(text)[i])
  {
    EditForm.ParseListEntries(text);
  }

  // ---------------------------------------------------------------------------
  // Machine-type checkboxes
  // ---------------------------------------------------------------------------

  /** The five checkboxes, in order. */
  const CheckboxMachines: seq<string> := ["マシニング", "ターニング", "横中", "ラジアル", "フライス"]

  /** A box is ticked when its machine is among the parsed machine types. */
  predicate IsChecked(machineType: string, machine: string) {
    machine in EditForm.ParseList(machineType)
  }

  /** A checkbox change: ticking appends the machine, clearing removes every copy,
      and the list is stored back joined with ','. Reading the stored text back
      gives the changed list. */
  function CheckboxChange(machineType: string, machine: string, checked: bool): (r: string)
    ensures IsListEntry(machine) ==>
              EditForm.ParseList(r) == EditForm.ToggleMachine(EditForm.ParseList(machineType), machine, checked)
  {
    var next := EditForm.ToggleMachine(EditForm.ParseList(machineType), machine, checked);
    ToggledReadsBack(machineType, machine, checked);
    Join(next, ",")
  }

  lemma ToggledReadsBack(machineType: string, machine: string, checked: bool)
    ensures var next := EditForm.ToggleMachine(EditForm.ParseList(machineType), machine, checked);
            IsListEntry(machine) ==> EditForm.ParseList(Join(next, ",")) == next
  {
    if IsListEntry(machine) {
      ParsedEntries(machineType);
      ToggledEntries(EditForm.ParseList(machineType), machine, checked);
      ParseCommaJoined(EditForm.ToggleMachine(EditForm.ParseList(machineType), machine, checked));
    }
  }

  lemma ToggledEntries(types: seq<string>, machine: string, checked: bool)
    requires forall i :: 0 <= i < |types| ==> IsListEntry(types[i])
    requires IsListEntry(machine)
    ensures var next := EditForm.ToggleMachine(types, machine, checked);
            forall i :: 0 <= i < |next| ==> IsListEntry(next[i])
  {
    var next := EditForm.ToggleMachine(types, machine, checked);
    assert forall i :: 0 <= i < |next| ==> next[i] in types || next[i] == machine;
  }

  /** The toggled machine is in the list exactly when it was ticked; every other
      machine is in it exactly when it was before. */
  lemma ToggleMembership(types: seq<string>, machine: string, checked: bool, other: string)
    requires other != machine
    ensures machine in EditForm.ToggleMachine(types, machine, checked) <==> checked
    ensures other in EditForm.ToggleMachine(types, machine, checked) <==> other in types
  {
    var next := EditForm.ToggleMachine(types, machine, checked);
    if !checked && other in types {
      var i :| 0 <= i < |types| && types[i] == other;
      assert types[i] in next;
    }
  }

  /** After a change the box shows the new state, and every other box keeps its
      state. */
  lemma CheckboxShowsChange(machineType: string, machine: string, checked: bool, other: string)
    requires IsListEntry(machine) && other != machine
    ensures IsChecked(CheckboxChange(machineType, machine, checked), machine) == checked
    ensures IsChecked(CheckboxChange(machineType, machine, checked), other) == IsChecked(machineType, other)
  {
    ToggleMembership(EditForm.ParseList(machineType), machine, checked, other);
  }

  lemma CheckboxMachinesAreEntries(k: nat)
    requires k < |CheckboxMachines|
    ensures IsListEntry(CheckboxMachines[k])
  {
  }

  // ---------------------------------------------------------------------------
  // Suggested keywords and title
  // ---------------------------------------------------------------------------

  /** The text shown when nothing can be suggested; the apply button ignores it. */
  const KeywordPlaceholder: string := "カテゴリ,製品名,会社名略称,機械種別"

  /** The company's keyword: for an existing company with an id, the short name of
      the listed company with that id (nothing when it is unlisted or has no short
      name); otherwise the typed name. */
  function CompanyKeyword(d: DrawingForm, companies: seq<Company>): (r: seq<string>)
    ensures |r| <= 1
    ensures forall i :: 0 <= i < |r| ==> r[i] != ""
    ensures d.company.kind == NewCompany ==> r == (if d.company.name != "" then [d.company.name] else [])
  {
    if d.company.kind == ExistingCompany && d.company.id.Some? && d.company.id.value != "" then
      match Loaders.CompanyById(companies, d.company.id.value)
      case None => []
      case Some(c) => if c.shortName != "" then [c.shortName] else []
    else if d.company.name != "" then [d.company.name]
    else []
  }

  function Present(s: string): (r: seq<string>)
    ensures r == [] <==> s == ""
  {
    if s != "" then [s] else []
  }

  /** `generateAutoKeywords` before joining: category, product name, company, then the
      ticked machine types. */
  function AutoKeywordList(d: DrawingForm, companies: seq<Company>): (r: seq<string>)
    ensures forall i :: 0 <= i < |r| ==> r[i] != ""
  {
    var machines := if d.machineType != "" then EditForm.ParseList(d.machineType) else [];
    var head := Present(d.product.category) + Present(d.product.name);
    var pre := head + CompanyKeyword(d, companies);
    NoEmptyAppend(Present(d.product.category), Present(d.product.name));
    NoEmptyAppend(head, CompanyKeyword(d, companies));
    NoEmptyAppend(pre, machines);
    pre + machines
  }

  lemma NoEmptyAppend(a: seq<string>, b: seq<string>)
    requires forall i :: 0 <= i < |a| ==> a[i] != ""
    requires forall i :: 0 <= i < |b| ==> b[i] != ""
    ensures forall i :: 0 <= i < |a + b| ==> (a + b)[i] != ""
  {
  }

  /** `generateAutoKeywords`: the list joined with ',', or the placeholder. */
  function AutoKeywords(d: DrawingForm, companies: seq<Company>): (r: string)
    ensures AutoKeywordList(d, companies) == [] ==> r == KeywordPlaceholder
  {
    var ks := AutoKeywordList(d, companies);
    if |ks| > 0 then Join(ks, ",") else KeywordPlaceholder
  }

  /** The suggestion starts with the category and product name when they are set,
      and ends with the ticked machines; reading it back as a comma list gives the
      suggested keywords when those are plain entries. */
  lemma AutoKeywordsShape(d: DrawingForm, companies: seq<Company>)
    ensures var ks := AutoKeywordList(d, companies);
            var machines := EditForm.ParseList(d.machineType);
            |ks| >= |machines| && ks[|ks| - |machines|..] == machines &&
            (d.product.category != "" ==> ks[0] == d.product.category) &&
            (d.product.category != "" && d.product.name != "" ==> ks[1] == d.product.name)
    ensures (forall i :: 0 <= i < |AutoKeywordList(d, companies)| ==> IsListEntry(AutoKeywordList(d, companies)[i])) &&
            AutoKeywordList(d, companies) != [] ==>
              EditForm.ParseList(AutoKeywords(d, companies)) == AutoKeywordList(d, companies)
  {
    var ks := AutoKeywordList(d, companies);
    var machines := EditForm.ParseList(d.machineType);
    if d.machineType == "" {
      EditForm.ParseEmptyText();
    }
    var head := Present(d.product.category) + Present(d.product.name);
    var pre := head + CompanyKeyword(d, companies);
    assert ks == pre + machines;
    assert ks[|ks| - |machines|..] == machines;
    if d.product.category != "" {
      assert ks[0] == head[0];
      if d.product.name != "" {
        assert head == [d.product.category, d.product.name];
        assert ks[1] == head[1];
      }
    }
    if (forall i :: 0 <= i < |ks| ==> IsListEntry(ks[i])) && ks != [] {
      ParseCommaJoined(ks);
    }
  }

  /** The company keyword of an existing company comes from the company list, never
      from the typed name. */
  lemma ExistingCompanyUsesShortName(d: DrawingForm, companies: seq<Company>)
    requires d.company.kind == ExistingCompany && d.company.id.Some? && d.company.id.value != ""
    ensures CompanyKeyword(d, companies) != [] <==>
              Loaders.CompanyById(companies, d.company.id.value).Some? &&
              Loaders.CompanyById(companies, d.company.id.value).value.shortName != ""
    ensures CompanyKeyword(d, companies) != [] ==>
              CompanyKeyword(d, companies) == [Loaders.CompanyById(companies, d.company.id.value).value.shortName]
  {
  }

  /** The apply button is enabled only when category, product name and company name
      are all set. */
  predicate ApplyKeywordsEnabled(d: DrawingForm) {
    d.product.category != "" && d.product.name != "" && d.company.name != ""
  }

  /** The apply button: when enabled, the suggestion replaces the keywords unless it
      is the placeholder text. What it writes is the suggested list, category first,
      joined with ','. */
  function ApplyAutoKeywords(d: DrawingForm, companies: seq<Company>): (r: DrawingForm)
    ensures !ApplyKeywordsEnabled(d) || AutoKeywords(d, companies) == KeywordPlaceholder ==> r == d
    ensures r.(keywords := d.keywords) == d
    ensures ApplyKeywordsEnabled(d) && AutoKeywords(d, companies) != KeywordPlaceholder ==>
              r.keywords == Join(AutoKeywordList(d, companies), ",") && StartsWith(r.keywords, d.product.category)
  {
    var auto := AutoKeywords(d, companies);
    EnabledSuggests(d, companies);
    if ApplyKeywordsEnabled(d) && auto != KeywordPlaceholder then d.(keywords := auto) else d
  }

  /** With the button enabled the suggestion is the joined list, which starts with the
      category. */
  lemma EnabledSuggests(d: DrawingForm, companies: seq<Company>)
    ensures ApplyKeywordsEnabled(d) ==>
              AutoKeywords(d, companies) == Join(AutoKeywordList(d, companies), ",") &&
              StartsWith(AutoKeywords(d, companies), d.product.category)
  {
    if ApplyKeywordsEnabled(d) {
      var ks := AutoKeywordList(d, companies);
      AutoKeywordsShape(d, companies);
      assert ks[0] == d.product.category;
      JoinStartsWithFirst(ks, ",");
    }
  }

  /** A join starts with its first part. */
  lemma JoinStartsWithFirst(parts: seq<string>, sep: string)
    requires |parts| >= 1
    ensures StartsWith(Join(parts, sep), parts[0])
  {
    var j := Join(parts, sep);
    if |parts| > 1 {
      assert j == parts[0] + (sep + Join(parts[1..], sep));
    }
    StartsWithSpec(j, parts[0]);
    assert j[..|parts[0]|] == parts[0];
  }

  /** With nothing to suggest the keywords stay as typed. */
  lemma NothingToSuggest(d: DrawingForm, companies: seq<Company>)
    requires d.product.category == "" && d.product.name == "" && d.machineType == ""
    requires d.company.kind == NewCompany && d.company.name == ""
    ensures ApplyAutoKeywords(d, companies) == d
  {
  }

  /** The suggested title `category（name）加工手順`, offered only when both parts are
      set. */
  function AutoTitle(p: ProductChoice): (r: Option<string>)
    ensures r.Some? <==> p.category != "" && p.name != ""
    ensures r.Some? ==> StartsWith(r.value, p.category) && EndsWith(r.value, "加工手順")
  {
    if p.category != "" && p.name != "" then
      var t := p.category + "（" + p.name + "）加工手順";
      StartsWithSpec(t, p.category);
      assert t[|t| - 4..] == "加工手順";
      Some(t)
    else None
  }

  /** The title button: with category and product name set, the title becomes
      `category（name）加工手順`; otherwise nothing changes. Only the title changes. */
  function ApplyAutoTitle(d: DrawingForm): (r: DrawingForm)
    ensures !(d.product.category != "" && d.product.name != "") ==> r == d
    ensures d.product.category != "" && d.product.name != "" ==>
              r.title == d.product.category + "（" + d.product.name + "）加工手順"
    ensures r == d.(title := r.title)
  {
    match AutoTitle(d.product)
    case None => d
    case Some(t) => d.(title := t)
  }

  // ---------------------------------------------------------------------------
  // Removing a drawing from the batch
  // ---------------------------------------------------------------------------

  /** `removeDrawing`: drops the entry at `index` unless it is the only one. */
  function RemoveDrawing(ds: seq<DrawingForm>, index: int): (r: seq<DrawingForm>)
    ensures |ds| <= 1 ==> r == ds
    ensures |ds| > 1 && 0 <= index < |ds| ==> r == ds[..index] + ds[index + 1..]
    ensures |ds| > 1 && !(0 <= index < |ds|) ==> r == ds
  {
    if |ds| > 1 then RemoveAt(ds, index) else ds
  }

  /** The batch never becomes empty, and removes at most one entry. */
  lemma RemoveKeepsOne(ds: seq<DrawingForm>, index: int)
    requires |ds| >= 1
    ensures 1 <= |RemoveDrawing(ds, index)| <= |ds|
    ensures |RemoveDrawing(ds, index)| >= |ds| - 1
  {
  }

  // ---------------------------------------------------------------------------
  // Validation
  // ---------------------------------------------------------------------------

  /** The checks `validateForm` runs on each drawing, in order. */
  datatype FormError =
    | NumberRequired | TitleRequired | CompanyRequired | CompanyIdRequired
    | CompanyIdFormat | CompanyIdTaken | ProductRequired | CategoryRequired

  const FormChecks: seq<FormError> :=
    [NumberRequired, TitleRequired, CompanyRequired, CompanyIdRequired,
     CompanyIdFormat, CompanyIdTaken, ProductRequired, CategoryRequired]

  /** `/^[a-z0-9-]+$/`. */
  predicate IsCompanyIdFormat(id: string) {
    |id| > 0 && DrawingUtils.AllIdChars(id)
  }

  /** The typed id of a new company, "" when absent. */
  function TypedId(d: DrawingForm): string {
    if d.company.id.Some? then d.company.id.value else ""
  }

  /** Whether check `e` fails for drawing `d`, given the non-empty ids of the listed
      companies. The id is required after trimming, but its format is checked on the
      id as typed. */
  predicate FailsCheck(d: DrawingForm, existingIds: seq<string>, e: FormError) {
    match e
    case NumberRequired => IsBlank(d.drawingNumber)
    case TitleRequired => IsBlank(d.title)
    case CompanyRequired => IsBlank(d.company.name)
    case CompanyIdRequired => d.company.kind == NewCompany && IsBlank(TypedId(d))
    case CompanyIdFormat => d.company.kind == NewCompany && !IsBlank(TypedId(d)) && !IsCompanyIdFormat(TypedId(d))
    case CompanyIdTaken => d.company.kind == NewCompany && !IsBlank(TypedId(d)) && TypedId(d) in existingIds
    case ProductRequired => IsBlank(d.product.name)
    case CategoryRequired => IsBlank(d.product.category)
  }

  function FailsFor(d: DrawingForm, existingIds: seq<string>): FormError -> bool {
    (e: FormError) => FailsCheck(d, existingIds, e)
  }

  function CheckPosition(e: FormError): (k: nat)
    ensures k < |FormChecks| && FormChecks[k] == e
  {
    match e
    case NumberRequired => 0
    case TitleRequired => 1
    case CompanyRequired => 2
    case CompanyIdRequired => 3
    case CompanyIdFormat => 4
    case CompanyIdTaken => 5
    case ProductRequired => 6
    case CategoryRequired => 7
  }

  /** The errors of one drawing, in the order of the checks. */
  function DrawingErrors(d: DrawingForm, existingIds: seq<string>): (r: seq<FormError>)
    ensures forall e :: e in r <==> FailsCheck(d, existingIds, e)
    ensures IsSubseq(r, FormChecks)
  {
    var r := Filter(FailsFor(d, existingIds), FormChecks);
    forall e | FailsCheck(d, existingIds, e) ensures e in r {
      var k := CheckPosition(e);
      assert FailsFor(d, existingIds)(FormChecks[k]);
    }
    FilterIsSubseq(FailsFor(d, existingIds), FormChecks);
    r
  }

  /** A drawing the form lets through, stated without the checks. */
  predicate Registrable(d: DrawingForm, existingIds: seq<string>) {
    !IsBlank(d.drawingNumber) && !IsBlank(d.title) && !IsBlank(d.company.name)
    && !IsBlank(d.product.name) && !IsBlank(d.product.category)
    && (d.company.kind == NewCompany ==> IsCompanyIdFormat(TypedId(d)) && TypedId(d) !in existingIds)
  }

  lemma DrawingErrorsIff(d: DrawingForm, existingIds: seq<string>)
    ensures DrawingErrors(d, existingIds) == [] <==> Registrable(d, existingIds)
  {
    var r := DrawingErrors(d, existingIds);
    var id := TypedId(d);
    if d.company.kind == NewCompany && IsCompanyIdFormat(id) {
      assert !IsWs(id[0]);
    }
    if Registrable(d, existingIds) {
      assert forall e :: !FailsCheck(d, existingIds, e);
      assert forall e :: e !in r;
      assert r == [];
    }
    if r == [] {
      forall e | e in FormChecks ensures !FailsCheck(d, existingIds, e) {
        assert e !in r;
      }
      assert !FailsCheck(d, existingIds, FormChecks[0]) && !FailsCheck(d, existingIds, FormChecks[1]);
      assert !FailsCheck(d, existingIds, FormChecks[2]) && !FailsCheck(d, existingIds, FormChecks[3]);
      assert !FailsCheck(d, existingIds, FormChecks[4]) && !FailsCheck(d, existingIds, FormChecks[5]);
      assert !FailsCheck(d, existingIds, FormChecks[6]) && !FailsCheck(d, existingIds, FormChecks[7]);
    }
  }

  /** An error of the whole form: the drawing's position and the failed check. */
  datatype IndexedError = IndexedError(index: nat, error: FormError)

  /** The ids of the listed companies, without empty ones. */
  function ExistingIds(companies: seq<Company>): (r: seq<string>)
    ensures forall x :: x in r <==> x != "" && exists i :: 0 <= i < |companies| && companies[i].id == x
  {
    var ids := seq(|companies|, i requires 0 <= i < |companies| => companies[i].id);
    var r := Filter(EditForm.IsNonEmpty, ids);
    forall x | x != "" && (exists i :: 0 <= i < |companies| && companies[i].id == x) ensures x in r {
      var i :| 0 <= i < |companies| && companies[i].id == x;
      assert ids[i] == x;
    }
    forall x | x in r ensures x != "" && exists i :: 0 <= i < |companies| && companies[i].id == x {
      var k :| 0 <= k < |r| && r[k] == x;
      var i :| 0 <= i < |ids| && ids[i] == x;
      assert companies[i].id == x;
    }
    r
  }

  /** `validateForm`: the errors of every drawing, drawing by drawing. */
  function ValidateForm(ds: seq<DrawingForm>, existingIds: seq<string>): (r: seq<IndexedError>)
    ensures forall i :: 0 <= i < |r| ==> r[i].index < |ds|
    ensures forall i, j :: 0 <= i < j < |r| ==> r[i].index <= r[j].index
    decreases |ds|
  {
    if |ds| == 0 then []
    else
      var n := |ds| - 1;
      ValidateForm(ds[..n], existingIds) + Tagged(n, DrawingErrors(ds[n], existingIds))
  }

  function Tagged(n: nat, errs: seq<FormError>): (r: seq<IndexedError>)
    ensures forall x :: x in r <==> x.index == n && x.error in errs
  {
    var r := seq(|errs|, k requires 0 <= k < |errs| => IndexedError(n, errs[k]));
    forall x: IndexedError | x.index == n && x.error in errs ensures x in r {
      var k :| 0 <= k < |errs| && errs[k] == x.error;
      assert r[k] == x;
    }
    r
  }

  /** The form reports an error for exactly the drawings and checks that fail. */
  lemma {:induction false} ValidateFormMembers(ds: seq<DrawingForm>, existingIds: seq<string>)
    ensures forall x :: x in ValidateForm(ds, existingIds) <==> x.index < |ds| && FailsCheck(ds[x.index], existingIds, x.error)
    decreases |ds|
  {
    if |ds| > 0 {
      var n := |ds| - 1;
      ValidateFormMembers(ds[..n], existingIds);
      assert forall i :: 0 <= i < n ==> ds[..n][i] == ds[i];
    }
  }

  /** The form posts exactly when every drawing is registrable. */
  lemma ValidateFormIff(ds: seq<DrawingForm>, existingIds: seq<string>)
    ensures ValidateForm(ds, existingIds) == [] <==> forall i :: 0 <= i < |ds| ==> Registrable(ds[i], existingIds)
  {
    var r := ValidateForm(ds, existingIds);
    ValidateFormMembers(ds, existingIds);
    if r != [] {
      assert r[0] in r;
      DrawingErrorsIff(ds[r[0].index], existingIds);
      assert r[0].error in DrawingErrors(ds[r[0].index], existingIds);
    } else {
      forall i | 0 <= i < |ds| ensures Registrable(ds[i], existingIds) {
        DrawingErrorsIff(ds[i], existingIds);
        var errs := DrawingErrors(ds[i], existingIds);
        forall e ensures e !in errs {
          assert IndexedError(i, e) !in r;
        }
        assert errs == [];
      }
    }
  }

  /** The message text of an error: `図番 <position>: <reason>`. */
  function ErrorMessage(ds: seq<DrawingForm>, x: IndexedError): (m: string)
    requires x.index < |ds|
    ensures StartsWith(m, "図番 " + NatToString(x.index + 1) + ": ")
  {
    var prefix := "図番 " + NatToString(x.index + 1) + ": ";
    var reason := match x.error
      case NumberRequired => "図番は必須です"
      case TitleRequired => "タイトルは必須です"
      case CompanyRequired => "会社名は必須です"
      case CompanyIdRequired => "新規会社の場合、会社IDは必須です"
      case CompanyIdFormat => "会社IDは英数字とハイフンのみ使用可能です"
      case CompanyIdTaken => "会社ID「" + TypedId(ds[x.index]) + "」は既に使用されています"
      case ProductRequired => "製品名は必須です"
      case CategoryRequired => "カテゴリは必須です";
    StartsWithSpec(prefix + reason, prefix);
    prefix + reason
  }
}
