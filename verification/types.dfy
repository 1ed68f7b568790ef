/**
 Records shared by the search API, the store and the product list. Their
 TypeScript declarations (`types/interface.ts`) are not part of this model:
 only the fields the modelled code reads are named, and everything else an
 object may carry is kept as an uninterpreted list of fields.
 */
module Types {
  import opened Js

  /** A field of an object the modelled code passes along without reading. */
  datatype Field = Field(name: string, value: string)

  /** One entry of the shopper's view history (`QueryContextInput.userViewHistory`). */
  datatype ViewedProduct = ViewedProduct(fields: seq<Field>)

  /** `QueryContextInput`: the personalisation context sent with a search. */
  datatype QueryContext = QueryContext(
    customerGroup: Option<string>,
    userViewHistory: Option<seq<ViewedProduct>>,
    otherFields: seq<Field>)

  /** `context?.customerGroup ?? ''` */
  function CustomerGroupOf(context: Option<QueryContext>): string
  {
    match context
    case None => ""
    case Some(c) => OrElse(c.customerGroup, "")
  }

  /** `PromoTileResponse`: a merchandising tile read from the promo-tile document. */
  datatype PromoTile = PromoTile(
    path: Option<string>,
    destination: Option<string>,
    image: Option<string>,
    position: Option<string>,
    otherFields: seq<Field>)
}
