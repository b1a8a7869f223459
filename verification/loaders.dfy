/** The client-side loaders of the search index and the company list
    (src/lib/searchLoader.ts, src/lib/companyLoader.ts): the fallback values used
    when loading fails, and the first-match lookups by id or drawing number. The
    fetch itself is a parameter: `Failed` stands for a network error, a non-OK
    status or a body that is not JSON. */
module Loaders {
  import opened Wrappers
  import opened Seqs
  import opened Catalog

  datatype Fetched<T> = Failed | Loaded(body: T)

  // ---------------------------------------------------------------------------
  // Search index
  // ---------------------------------------------------------------------------

  /** `search-index.json`; `drawings` may be missing from a malformed body. The
      `lastUpdated` time stamp is not modelled. */
  datatype SearchIndex = SearchIndex(drawings: Option<seq<DrawingItem>>, totalCount: nat, version: string)

  /** The index `loadSearchIndex` returns when loading fails. */
  const FallbackIndex: SearchIndex := SearchIndex(Some([]), 0, "1.0")

  /** `loadSearchIndex`: the fetched index, or the empty fallback. */
  function LoadSearchIndex(fetched: Fetched<SearchIndex>): (r: SearchIndex)
    ensures fetched.Failed? ==> r.drawings == Some([]) && r.totalCount == 0 && r.version == "1.0"
    ensures fetched.Loaded? ==> r == fetched.body
  {
    if fetched.Failed? then FallbackIndex else fetched.body
  }

  function NumberIs(drawingNumber: string): DrawingItem -> bool {
    (d: DrawingItem) => d.drawingNumber == drawingNumber
  }

  /** `getDrawingSearchItem`: nothing without a drawing list, otherwise the first
      entry with the drawing number. */
  function DrawingSearchItem(index: SearchIndex, drawingNumber: string): (r: Option<DrawingItem>)
    ensures index.drawings.None? ==> r.None?
    ensures index.drawings.Some? ==>
              (r.None? <==> forall i :: 0 <= i < |index.drawings.value| ==> index.drawings.value[i].drawingNumber != drawingNumber)
    ensures r.Some? ==> r.value.drawingNumber == drawingNumber && r.value in index.drawings.value
    ensures r.Some? ==> exists i :: (0 <= i < |index.drawings.value| && index.drawings.value[i] == r.value &&
              forall j :: 0 <= j < i ==> index.drawings.value[j].drawingNumber != drawingNumber)
  {
    if index.drawings.None? then None
    else
      var ds := index.drawings.value;
      var i := FindIndex(NumberIs(drawingNumber), ds);
      if i < 0 then None else Some(ds[i])
  }

  /** Nothing is ever found in the fallback index. */
  lemma FallbackFindsNothing(drawingNumber: string)
    ensures DrawingSearchItem(LoadSearchIndex(Failed), drawingNumber).None?
  {
  }

  /** In an index whose drawing numbers are distinct, every entry is found by its own
      number. */
  lemma DrawingFoundByNumber(index: SearchIndex, i: nat)
    requires index.drawings.Some? && i < |index.drawings.value|
    requires forall j, k :: 0 <= j < k < |index.drawings.value| ==>
               index.drawings.value[j].drawingNumber != index.drawings.value[k].drawingNumber
    ensures DrawingSearchItem(index, index.drawings.value[i].drawingNumber) == Some(index.drawings.value[i])
  {
    var ds := index.drawings.value;
    var r := DrawingSearchItem(index, ds[i].drawingNumber);
    var k :| 0 <= k < |ds| && ds[k] == r.value && forall j :: 0 <= j < k ==> ds[j].drawingNumber != ds[i].drawingNumber;
    assert k == i;
  }

  // ---------------------------------------------------------------------------
  // Companies
  // ---------------------------------------------------------------------------

  /** The body of the companies endpoint; `companies` may be missing. */
  datatype CompaniesBody = CompaniesBody(companies: Option<seq<Company>>)

  /** `loadCompanies`: the fetched list, or the empty list when loading fails or the
      body holds none. */
  function LoadCompanies(fetched: Fetched<CompaniesBody>): (r: seq<Company>)
    ensures fetched.Loaded? && fetched.body.companies.Some? ==> r == fetched.body.companies.value
    ensures !(fetched.Loaded? && fetched.body.companies.Some?) ==> r == []
  {
    if fetched.Loaded? && fetched.body.companies.Some? then fetched.body.companies.value else []
  }

  function CompanyIdIs(id: string): Company -> bool {
    (c: Company) => c.id == id
  }

  function ProductIdIs(id: string): Product -> bool {
    (p: Product) => p.id == id
  }

  /** `getCompanyById`: the first company with the id. */
  function CompanyById(companies: seq<Company>, id: string): (r: Option<Company>)
    ensures r.None? <==> forall i :: 0 <= i < |companies| ==> companies[i].id != id
    ensures r.Some? ==> r.value.id == id && r.value in companies
    ensures r.Some? ==> exists i :: (0 <= i < |companies| && companies[i] == r.value &&
              forall j :: 0 <= j < i ==> companies[j].id != id)
  {
    var i := FindIndex(CompanyIdIs(id), companies);
    if i < 0 then None else Some(companies[i])
  }

  /** `getProductById`: the first product of the company with the id. */
  function ProductById(company: Company, id: string): (r: Option<Product>)
    ensures r.None? <==> forall i :: 0 <= i < |company.products| ==> company.products[i].id != id
    ensures r.Some? ==> r.value.id == id && r.value in company.products
    ensures r.Some? ==> exists i :: (0 <= i < |company.products| && company.products[i] == r.value &&
              forall j :: 0 <= j < i ==> company.products[j].id != id)
  {
    var i := FindIndex(ProductIdIs(id), company.products);
    if i < 0 then None else Some(company.products[i])
  }

  /** When the loaded company list has distinct ids, every company is found by its
      own id; when loading failed, no company is found. */
  lemma CompanyFoundById(companies: seq<Company>, i: nat)
    requires i < |companies|
    requires forall j, k :: 0 <= j < k < |companies| ==> companies[j].id != companies[k].id
    ensures CompanyById(companies, companies[i].id) == Some(companies[i])
    ensures CompanyById(LoadCompanies(Failed), companies[i].id).None?
  {
    var r := CompanyById(companies, companies[i].id);
    var k :| 0 <= k < |companies| && companies[k] == r.value && forall j :: 0 <= j < k ==> companies[j].id != companies[i].id;
    assert k == i;
  }
}
