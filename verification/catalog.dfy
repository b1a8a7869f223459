/** The records the application reads from its JSON data files: companies with their
    products (companies.json), the drawings of the search index (search-index.json)
    and the contributions users add to a drawing (contributions.json). Only the
    fields some modelled operation reads or writes are kept. An optional string field
    that the source tests for truthiness is a plain string here, with "" standing for
    an absent value. */
module Catalog {
  import opened Wrappers

  datatype Product = Product(id: string, name: string, category: string)

  datatype Company = Company(id: string, name: string, shortName: string, products: seq<Product>)

  /** One entry of `search-index.json`. */
  datatype DrawingItem = DrawingItem(
    drawingNumber: string,
    title: string,
    companyId: string,
    companyName: string,
    productId: string,
    productName: string,
    category: string,
    keywords: seq<string>,
    displayDrawingNumber: Option<string>)

  datatype ContributionStatus = Active | Merged | Archived

  datatype ContributionFile = ContributionFile(filePath: string, fileType: string)

  /** One entry of a drawing's `contributions.json`. */
  datatype Contribution = Contribution(
    id: string,
    userId: string,
    userName: string,
    status: ContributionStatus,
    text: string,
    files: seq<ContributionFile>)
}
