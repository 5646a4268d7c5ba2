/** The records the site stores and passes around (src/types.ts and the calculator's own
    interfaces). Dates are whole timestamps; a missing contact field is the empty string. */
module Types {
  import opened Wrappers

  /** A JavaScript object with string keys and string values, as its entries in insertion
      order (`Object.entries`). */
  type Specs = seq<(string, string)>

  /** A catalog entry. */
  datatype Product = Product(
    id: string,
    name: string,
    description: string,
    rating: real,
    image: string,
    category: string,
    features: seq<string>,
    specifications: Specs,
    images: seq<string>)

  /** The weak reference to a catalog entry that the calculator keeps (`ProductType`). */
  datatype ProductRef = ProductRef(id: string, name: string, category: string)

  /** The calculator's state (`CalculatorData`): sizes in whole centimetres. */
  datatype QuoteConfig = QuoteConfig(
    width: int,
    height: int,
    windowType: string,
    material: string,
    glazingType: string,
    additionalFeatures: seq<string>,
    quantity: int,
    selectedProduct: Option<ProductRef>)

  /** The calculator data embedded in a request: the configuration plus its area text. */
  datatype CalculatorSnapshot = CalculatorSnapshot(config: QuoteConfig, area: string)

  /** A customer request as the admin panel sees it. */
  datatype CustomerRequest = CustomerRequest(
    id: string,
    name: string,
    email: string,
    phone: string,
    message: string,
    date: int,
    status: string,
    calculatorData: Option<CalculatorSnapshot>)

  /** The contact part of a request form. */
  datatype ContactFields = ContactFields(name: string, phone: string, email: string, message: string)

  /** The four statuses the request type admits. */
  predicate IsStatus(s: string)
  {
    s == "new" || s == "processing" || s == "completed" || s == "rejected"
  }
}
