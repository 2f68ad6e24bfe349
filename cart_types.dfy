/**
 * The cart as the client store, the cart actions and the cart collection
 * see it: order lines, the cart with its prices and checkout fields, and
 * the product catalogue the stock checks read.
 */
module CartTypes {
  import opened Base

  type ProductId = string
  type UserId = string

  /**
   * An order line as the cart holds it. Prices are carried, never computed
   * here; quantities are whatever the client put in.
   */
  datatype CartItem = CartItem(
    clientId: string,
    product: ProductId,
    name: string,
    slug: string,
    category: string,
    image: string,
    price: real,
    color: string,
    size: string,
    quantity: int,
    countInStock: int)

  /** A shipping address is an object: any value present is truthy. */
  datatype ShippingAddress = ShippingAddress(fields: map<string, string>)

  datatype Cart = Cart(
    items: seq<CartItem>,
    itemsPrice: real,
    taxPrice: Option<real>,
    shippingPrice: Option<real>,
    totalPrice: real,
    shippingAddress: Option<ShippingAddress>,
    paymentMethod: Option<string>,
    deliveryDateIndex: Option<int>)

  /** `initialState`: no lines, zero prices, no checkout fields. */
  const InitialCart: Cart := Cart([], 0.0, None, None, 0.0, None, None, None)

  /** What `calcDeliveryDateAndPrice` is given and what its result spreads into the cart. */
  datatype PriceInput = PriceInput(items: seq<CartItem>, shippingAddress: Option<ShippingAddress>, deliveryDateIndex: Option<int>)

  datatype Pricing = Pricing(
    itemsPrice: real,
    taxPrice: Option<real>,
    shippingPrice: Option<real>,
    totalPrice: real,
    deliveryDateIndex: Option<int>)

  /** `{ ...cart, ...pricing }` */
  function WithPricing(c: Cart, p: Pricing): Cart
  {
    c.(itemsPrice := p.itemsPrice, taxPrice := p.taxPrice, shippingPrice := p.shippingPrice,
       totalPrice := p.totalPrice, deliveryDateIndex := p.deliveryDateIndex)
  }

  /** Line identity in the client store: the same product in the same color and size. */
  predicate SameLine(a: CartItem, b: CartItem)
  {
    a.product == b.product && a.color == b.color && a.size == b.size
  }

  /** The fields of a product document the cart checks read. */
  datatype CatalogProduct = CatalogProduct(
    name: string,
    slug: string,
    price: real,
    isPublished: bool,
    availableStock: int,
    countInStock: int)

  type Catalog = map<ProductId, CatalogProduct>
}
