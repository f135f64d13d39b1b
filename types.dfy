/** The record shapes of the storefront (types.ts). They carry no behaviour. */
module Types {
  import opened Wrappers

  datatype TireCategory = Summer | AllSeason | Winter | Performance | OffRoad

  /** A value of the `specifications` record as `Object.entries` yields it.
      `Absent` is an optional key left `undefined`; `Null` an explicit `null`. */
  datatype SpecValue = Absent | Null | Text(text: string) | Number(number: int) | Flag(flag: bool)

  /** One `[key, value]` pair of `Object.entries(product.specifications)`, in the
      record's own key order. */
  datatype SpecEntry = SpecEntry(key: string, value: SpecValue)

  datatype Product = Product(
    id: string,
    name: string,
    brand: string,
    sku: Option<string>,
    descriptionShort: string,
    descriptionLong: Option<string>,
    price: real,
    originalPrice: Option<real>,
    imageUrl: string,
    images: Option<seq<string>>,
    category: TireCategory,
    tags: Option<seq<string>>,
    rating: real,
    reviewCount: int,
    specifications: seq<SpecEntry>)

  datatype Review = Review(
    id: string,
    productId: string,
    customerName: string,
    date: string,
    rating: real,
    comment: string,
    verifiedPurchase: Option<bool>)

  /** The contact form. `address` is optional in the record type, but the quote
      page always holds a string for it (initially empty). */
  datatype ContactDetails = ContactDetails(fullName: string, email: string, phone: string, address: string)

  datatype QuoteItem = QuoteItem(product: Product, quantity: int)

  /** A call made into the quote store (hooks/useQuote). The store itself is not
      part of this model: the pages are modelled by the calls they make. */
  datatype QuoteCall =
    | AddItem(product: Product, quantity: int)
    | RemoveItem(productId: string)
    | UpdateItemQuantity(productId: string, newQuantity: int)
    | ClearQuote
}
