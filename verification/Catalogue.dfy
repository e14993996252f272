/** What automation reads about the store: products, variants and their resolved costs. */
module Catalogue {
  import opened Prelude

  /** A variant's cost after the source hierarchy was applied; `landed` includes shipping when it is known. */
  datatype Cost = Cost(amount: Option<int>, landed: Option<int>, currency: Option<string>, shippingKnown: bool)

  /** Prices and costs are whole minor units. */
  datatype Variant = Variant(
    id: string,
    price: Option<int>,
    currency: string,
    unitCost: Option<int>,
    cost: Cost,
    tracked: Option<bool>,
    quantity: Option<int>)

  datatype ProductStatus = Active | Draft | Archived | OtherStatus(name: string)

  datatype Product = Product(
    id: string,
    status: ProductStatus,
    tags: seq<string>,
    vendor: string,
    totalInventory: Option<int>,
    variants: seq<Variant>)
}
