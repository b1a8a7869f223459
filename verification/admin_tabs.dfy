/** Three tabs of the drawing editor: the per-machine step list
    (src/components/admin/MachineTypeTab.tsx), the basic information with its company
    and product selects (src/components/admin/BasicInfoTab.tsx) and the list of user
    contributions (src/components/admin/ContributionsTab.tsx). A machine tab always
    passes its English machine key to the step handlers of `EditForm`. */
module AdminTabs {
  import opened Wrappers
  import opened Strings
  import opened Seqs
  import opened WorkSteps
  import opened Catalog
  import Loaders
  import EditForm

  // ---------------------------------------------------------------------------
  // Machine tab
  // ---------------------------------------------------------------------------

  /** The tab has its own list: the machine map exists and holds the key (an empty
      list is still a list, since an empty array is truthy). */
  predicate HasOwnList(form: EditForm.FormData, machine: string) {
    form.workStepsByMachine.Some? && machine in form.workStepsByMachine.value
  }

  /** `getWorkSteps`: `workStepsByMachine?.[machineType] || workSteps || []`. */
  function TabSteps(form: EditForm.FormData, machine: string): (r: seq<Step>)
    ensures HasOwnList(form, machine) ==> r == form.workStepsByMachine.value[machine]
    ensures !HasOwnList(form, machine) ==> r == form.workSteps
  {
    if HasOwnList(form, machine) then form.workStepsByMachine.value[machine] else form.workSteps
  }

  /** The rows a tab shows are the list its handlers edit, unless the machine map
      exists without the tab's key while legacy steps exist: then the tab shows the
      legacy steps and its buttons edit the machine's (empty) list. */
  lemma TabMatchesHandlers(form: EditForm.FormData, machine: string)
    requires machine != ""
    ensures TabSteps(form, machine) == EditForm.TargetSteps(form, machine) <==>
              (form.workStepsByMachine.None? || machine in form.workStepsByMachine.value || form.workSteps == [])
  {
  }

  /** The "no steps yet" message shows exactly when the tab has no rows. */
  predicate ShowsEmptyState(form: EditForm.FormData, machine: string) {
    |TabSteps(form, machine)| == 0
  }

  lemma EmptyStateIff(form: EditForm.FormData, machine: string)
    ensures ShowsEmptyState(form, machine) <==>
              (if HasOwnList(form, machine) then form.workStepsByMachine.value[machine] == [] else form.workSteps == [])
  {
  }

  /** The target index of the move-up and move-down buttons of row `index`, when the
      button is offered. */
  function MoveUpTarget(index: nat): (t: Option<nat>)
    ensures t.Some? <==> index > 0
    ensures t.Some? ==> t.value + 1 == index
  {
    if index > 0 then Some(index - 1) else None
  }

  function MoveDownTarget(rows: nat, index: nat): (t: Option<nat>)
    ensures t.Some? <==> index + 1 < rows
    ensures t.Some? ==> t.value == index + 1
  {
    if index + 1 < rows then Some(index + 1) else None
  }

  /** Moving a row up and then moving it down again (or down and then up) targets the
      row it started from; only a one-row list offers neither button. */
  lemma MoveTargetsInverse(rows: nat, index: nat)
    requires index < rows
    ensures MoveUpTarget(index).Some? ==> MoveDownTarget(rows, MoveUpTarget(index).value) == Some(index)
    ensures MoveDownTarget(rows, index).Some? ==> MoveUpTarget(MoveDownTarget(rows, index).value) == Some(index)
    ensures MoveUpTarget(index).None? && MoveDownTarget(rows, index).None? <==> rows == 1
  {
  }

  /** Every button of a row passes indices inside the list it edits, so the update,
      delete and move handlers are called within their ranges; a move swaps the row
      with its neighbour and renumbers the list. */
  lemma MoveUpSwaps(form: EditForm.FormData, machine: string, index: nat)
    requires machine != "" && TabSteps(form, machine) == EditForm.TargetSteps(form, machine)
    requires index < |TabSteps(form, machine)| && MoveUpTarget(index).Some?
    ensures index < |EditForm.TargetSteps(form, machine)|
    ensures var before := Contents(EditForm.TargetSteps(form, machine));
            var now := EditForm.TargetSteps(EditForm.MoveWorkStep(Some(form), index, index - 1, machine).value, machine);
            Numbered(now) && Contents(now) == before[..index - 1] + [before[index], before[index - 1]] + before[index + 1..]
  {
    var steps := EditForm.TargetSteps(form, machine);
    ContentsMove(steps, index, index - 1);
    MoveItemUp(Contents(steps), index);
    RenumberContents(MoveItem(steps, index, index - 1));
  }

  lemma MoveDownSwaps(form: EditForm.FormData, machine: string, index: nat)
    requires machine != "" && TabSteps(form, machine) == EditForm.TargetSteps(form, machine)
    requires MoveDownTarget(|TabSteps(form, machine)|, index).Some?
    ensures index + 1 < |EditForm.TargetSteps(form, machine)|
    ensures var before := Contents(EditForm.TargetSteps(form, machine));
            var now := EditForm.TargetSteps(EditForm.MoveWorkStep(Some(form), index, index + 1, machine).value, machine);
            Numbered(now) && Contents(now) == before[..index] + [before[index + 1], before[index]] + before[index + 2..]
  {
    var steps := EditForm.TargetSteps(form, machine);
    ContentsMove(steps, index, index + 1);
    MoveItemDown(Contents(steps), index);
    RenumberContents(MoveItem(steps, index, index + 1));
  }

  lemma RenumberContents(steps: seq<Step>)
    ensures Contents(Renumber(steps)) == Contents(steps) && Numbered(Renumber(steps))
  {
  }

  // ---------------------------------------------------------------------------
  // Basic information: company and product
  // ---------------------------------------------------------------------------

  datatype CompanyRef = CompanyRef(id: string, name: string)

  /** The part of the edit form the company and product selects change. */
  datatype Selection = Selection(company: CompanyRef, product: Product)

  const NoProduct: Product := Product("", "", "")

  /** The company select: a known id sets the company and clears the product; an id
      not in the list (the "choose a company" option) changes nothing. */
  function SelectCompany(companies: seq<Company>, sel: Option<Selection>, id: string): (r: Option<Selection>)
    ensures r.Some? <==> sel.Some?
    ensures Loaders.CompanyById(companies, id).None? ==> r == sel
  {
    match Loaders.CompanyById(companies, id)
    case None => sel
    case Some(c) => if sel.None? then None else Some(Selection(CompanyRef(c.id, c.name), NoProduct))
  }

  /** The product options: the products of the selected company, none when the
      selected id is unknown. */
  function ProductOptions(companies: seq<Company>, sel: Selection): (r: seq<Product>)
    ensures Loaders.CompanyById(companies, sel.company.id).None? ==> r == []
  {
    match Loaders.CompanyById(companies, sel.company.id)
    case None => []
    case Some(c) => c.products
  }

  /** The product select: a product of the selected company with the id replaces the
      product; anything else changes nothing. */
  function SelectProduct(companies: seq<Company>, sel: Option<Selection>, id: string): (r: Option<Selection>)
    ensures r.Some? <==> sel.Some?
    ensures sel.Some? && Loaders.CompanyById(companies, sel.value.company.id).None? ==> r == sel
  {
    if sel.None? then None
    else
      match Loaders.CompanyById(companies, sel.value.company.id)
      case None => sel
      case Some(c) =>
        match Loaders.ProductById(c, id)
        case None => sel
        case Some(p) => Some(sel.value.(product := p))
  }

  /** Choosing a company and then one of the listed products leaves that company
      selected with that product; its options are exactly its products. */
  lemma SelectCompanyThenProduct(companies: seq<Company>, sel: Selection, id: string, k: nat)
    requires Loaders.CompanyById(companies, id).Some?
    requires k < |Loaders.CompanyById(companies, id).value.products|
    requires forall i, j :: 0 <= i < j < |Loaders.CompanyById(companies, id).value.products| ==>
               Loaders.CompanyById(companies, id).value.products[i].id != Loaders.CompanyById(companies, id).value.products[j].id
    ensures var c := Loaders.CompanyById(companies, id).value;
            var s1 := SelectCompany(companies, Some(sel), id).value;
            s1.company == CompanyRef(id, c.name) && s1.product == NoProduct &&
            ProductOptions(companies, s1) == c.products &&
            SelectProduct(companies, Some(s1), c.products[k].id) == Some(s1.(product := c.products[k]))
  {
    var c := Loaders.CompanyById(companies, id).value;
    var s1 := SelectCompany(companies, Some(sel), id).value;
    assert Loaders.CompanyById(companies, s1.company.id) == Some(c);
    var ps := c.products;
    var p := Loaders.ProductById(c, ps[k].id).value;
    var m :| 0 <= m < |ps| && ps[m] == p && forall j :: 0 <= j < m ==> ps[j].id != ps[k].id;
    assert m == k;
  }

  /** Any id the selects do not know leaves the selection as it was. */
  lemma UnknownIdsChangeNothing(companies: seq<Company>, sel: Selection, id: string)
    requires forall i :: 0 <= i < |companies| ==> companies[i].id != id
    ensures SelectCompany(companies, Some(sel), id) == Some(sel)
    ensures (forall p :: p in ProductOptions(companies, sel) ==> p.id != id) ==>
              SelectProduct(companies, Some(sel), id) == Some(sel)
  {
    if c :| Loaders.CompanyById(companies, sel.company.id) == Some(c) {
      assert ProductOptions(companies, sel) == c.products;
    }
  }

  // ---------------------------------------------------------------------------
  // Basic information: keyword and tool fields, pending overview uploads
  // ---------------------------------------------------------------------------

  /** The text shown in the keyword and tool fields: the list joined with ", ". */
  function ListText(items: seq<string>): string {
    Join(items, ", ")
  }

  /** Typing the shown text back in gives the same list, for lists of trimmed,
      non-empty, comma-free entries. */
  lemma ListTextRoundTrip(items: seq<string>)
    requires forall i :: 0 <= i < |items| ==> items[i] != "" && EditForm.IsTrimmed(items[i]) && ',' !in items[i]
    ensures EditForm.ParseList(ListText(items)) == items
  {
    EditForm.ParseJoinRoundTrip(items);
  }

  datatype PendingUpload = PendingUpload(stepNumber: string, fileName: string)

  function IsOverviewUpload(u: PendingUpload): bool {
    u.stepNumber == "0"
  }

  /** The uploads listed under the overview images: those for step "0", in order. */
  function PendingOverview(uploads: seq<PendingUpload>): (r: seq<PendingUpload>)
    ensures forall i :: 0 <= i < |r| ==> r[i].stepNumber == "0"
    ensures forall u :: u in uploads && u.stepNumber == "0" <==> u in r
    ensures IsSubseq(r, uploads)
    ensures |r| == CountIf(IsOverviewUpload, uploads)
  {
    FilterIsSubseq(IsOverviewUpload, uploads);
    FilterLength(IsOverviewUpload, uploads);
    Filter(IsOverviewUpload, uploads)
  }

  // ---------------------------------------------------------------------------
  // Contributions
  // ---------------------------------------------------------------------------

  function IsActive(c: Contribution): bool {
    c.status == Active
  }

  /** The contributions the tab lists: the active ones, in order. */
  function ActiveContributions(all: seq<Contribution>): (r: seq<Contribution>)
    ensures forall i :: 0 <= i < |r| ==> r[i].status == Active
    ensures forall c :: c in all && c.status == Active <==> c in r
    ensures IsSubseq(r, all)
    ensures |r| == CountIf(IsActive, all)
  {
    FilterIsSubseq(IsActive, all);
    FilterLength(IsActive, all);
    Filter(IsActive, all)
  }

  /** The header count: every contribution, listed or not (`|| 0` when none were
      loaded). */
  function HeaderCount(data: Option<seq<Contribution>>): (n: nat)
    ensures data.None? ==> n == 0
  {
    if data.None? then 0 else |data.value|
  }

  lemma HeaderCountsAll(all: seq<Contribution>)
    ensures HeaderCount(Some(all)) >= |ActiveContributions(all)|
    ensures HeaderCount(Some(all)) == |ActiveContributions(all)| <==> forall i :: 0 <= i < |all| ==> all[i].status == Active
  {
    FilterLength(IsActive, all);
    CountIfAll(IsActive, all);
  }

  function SameId(id: string): Contribution -> bool {
    (c: Contribution) => c.id == id
  }

  /** The index handed to the merge handler: the position in the full list of the
      first contribution with the listed one's id. */
  function OriginalIndex(all: seq<Contribution>, c: Contribution): (i: int)
    ensures -1 <= i < |all|
    ensures i >= 0 ==> all[i].id == c.id && forall j :: 0 <= j < i ==> all[j].id != c.id
  {
    FindIndex(SameId(c.id), all)
  }

  /** For every listed contribution the merge handler gets a valid index; with
      distinct ids it is the contribution's own position. */
  lemma OriginalIndexOfListed(all: seq<Contribution>, k: nat)
    requires k < |all| && all[k].status == Active
    ensures 0 <= OriginalIndex(all, all[k]) <= k
    ensures (forall i, j :: 0 <= i < j < |all| ==> all[i].id != all[j].id) ==> OriginalIndex(all, all[k]) == k
  {
    var i := OriginalIndex(all, all[k]);
    assert SameId(all[k].id)(all[k]);
  }

  function IsImageFile(f: ContributionFile): bool {
    f.fileType == "image"
  }

  function SamePath(path: string): ContributionFile -> bool {
    (f: ContributionFile) => f.filePath == path
  }

  /** The images the lightbox receives: the contribution's image files, in order. */
  function LightboxImages(c: Contribution): (r: seq<ContributionFile>)
    ensures forall i :: 0 <= i < |r| ==> r[i].fileType == "image"
    ensures forall f :: f in c.files && f.fileType == "image" <==> f in r
    ensures IsSubseq(r, c.files)
    ensures |r| == CountIf(IsImageFile, c.files)
  {
    FilterIsSubseq(IsImageFile, c.files);
    FilterLength(IsImageFile, c.files);
    Filter(IsImageFile, c.files)
  }

  /** The lightbox starts at the first image with the clicked file's path. */
  function LightboxStart(c: Contribution, clicked: ContributionFile): (i: int)
    ensures -1 <= i < |LightboxImages(c)|
    ensures i >= 0 ==> LightboxImages(c)[i].filePath == clicked.filePath
  {
    FindIndex(SamePath(clicked.filePath), LightboxImages(c))
  }

  /** Clicking one of the contribution's images opens the lightbox on an image with
      the same path, the clicked one itself when the paths are distinct. */
  lemma LightboxOpensOnClicked(c: Contribution, k: nat)
    requires k < |LightboxImages(c)|
    ensures 0 <= LightboxStart(c, LightboxImages(c)[k]) <= k
    ensures (forall i, j :: 0 <= i < j < |LightboxImages(c)| ==> LightboxImages(c)[i].filePath != LightboxImages(c)[j].filePath) ==>
              LightboxImages(c)[LightboxStart(c, LightboxImages(c)[k])] == LightboxImages(c)[k]
  {
    var imgs := LightboxImages(c);
    assert SamePath(imgs[k].filePath)(imgs[k]);
  }
}
