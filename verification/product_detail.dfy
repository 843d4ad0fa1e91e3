/**
 * The product detail page: `transformProduct` from a backend record to the
 * page's view model, the cart line that "Add to cart" builds, and the guard on
 * size clicks. `parseFloat` and the clock are parameters: `parseFloat` maps
 * the raw text to a number (`None` for `NaN`) and `now` is the current time.
 */
module ProductDetailPage {
  import opened Wrappers
  import opened Dedup
  import opened Catalog
  import Cart

  /** The page's `Product` view model. */
  datatype Product = Product(
    id: int,
    name: string,
    price: Option<real>,
    image: Option<string>,
    description: string,
    category: Option<string>,
    tags: seq<string>,
    link: string,
    variants: seq<ProductVariant>,
    variantType: VariantType,
    sizes: seq<string>,
    status: Option<Status>)

  /** `new Date(offerEnd) > new Date()`: false for a null or invalid date. */
  predicate OfferInFuture(offerEnd: Option<int>, now: int) {
    offerEnd.Some? && offerEnd.value > now
  }

  /**
   * The badge: "New in" for a new product or a running offer, otherwise
   * "50% Discount" when the parsed discount reaches 50 (a `NaN` never does),
   * otherwise none.
   */
  function DetailStatus(isNew: bool, offerEnd: Option<int>, now: int, discount: Option<real>): (r: Option<Status>)
    ensures r == Some(NewIn) <==> isNew || OfferInFuture(offerEnd, now)
    ensures r == Some(FiftyPercentDiscount) <==>
      !isNew && !OfferInFuture(offerEnd, now) && discount.Some? && discount.value >= 50.0
    ensures r != Some(LimitedEdition) && r != Some(SoldOut)
  {
    if isNew || OfferInFuture(offerEnd, now) then Some(NewIn)
    else if discount.Some? && discount.value >= 50.0 then Some(FiftyPercentDiscount)
    else None
  }

  /** One variant per variation; the detail page names it after its color. */
  function ColorVariant(v: RawVariation): ProductVariant {
    ProductVariant(v.id, Some(v.color), v.image, v.color, SizeNames(v))
  }

  /** `transformProduct` of the detail page. */
  function TransformProduct(data: RawProduct, parseFloat: string -> Option<real>, now: int): (p: Product)
    ensures |p.variants| == |data.variation|
    ensures NoDuplicates(p.sizes)
    ensures forall x :: x in p.sizes <==> x in AllSizeNames(data.variation)
    ensures p.image.Some? <==> |data.images| > 0
    ensures p.status == Some(NewIn) <==> data.isNew || OfferInFuture(data.offerEnd, now)
  {
    Product(
      data.id,
      data.name,
      parseFloat(data.price),
      First(data.images),
      data.shortDescription,
      First(data.category),
      data.tag,
      ProductDetailLink,
      seq(|data.variation|, i requires 0 <= i < |data.variation| => ColorVariant(data.variation[i])),
      ColorVariants,
      DistinctSizes(data.variation),
      DetailStatus(data.isNew, data.offerEnd, now, parseFloat(data.discount)))
  }

  /** The fields copied or fixed by the transformation. */
  lemma TransformProductFields(data: RawProduct, parseFloat: string -> Option<real>, now: int)
    ensures var p := TransformProduct(data, parseFloat, now);
      && p.id == data.id && p.name == data.name && p.price == parseFloat(data.price)
      && (p.image.Some? <==> |data.images| > 0) && (p.image.Some? ==> p.image.value == data.images[0])
      && (p.category.Some? <==> |data.category| > 0) && (p.category.Some? ==> p.category.value == data.category[0])
      && p.tags == data.tag && p.description == data.shortDescription
      && p.link == "/product-detail/" && p.variantType == ColorVariants
  {
  }

  /**
   * Exactly one variant per variation, in order; each keeps the variation's
   * id and image, is named after its color and lists its size names.
   */
  lemma TransformProductVariants(data: RawProduct, parseFloat: string -> Option<real>, now: int)
    ensures var p := TransformProduct(data, parseFloat, now);
      && |p.variants| == |data.variation|
      && forall i :: 0 <= i < |data.variation| ==>
           && p.variants[i].id == data.variation[i].id
           && p.variants[i].featuredImage == data.variation[i].image
           && p.variants[i].name == Some(data.variation[i].color)
           && p.variants[i].color == data.variation[i].color
           && |p.variants[i].sizes| == |data.variation[i].size|
           && forall j :: 0 <= j < |data.variation[i].size| ==> p.variants[i].sizes[j] == data.variation[i].size[j].name
  {
  }

  /** `sizes` is duplicate-free, covers exactly the variations' size names, in first-appearance order. */
  lemma TransformProductSizes(data: RawProduct, parseFloat: string -> Option<real>, now: int)
    ensures var p := TransformProduct(data, parseFloat, now);
      && NoDuplicates(p.sizes)
      && (forall x :: x in p.sizes <==>
            exists i, j :: 0 <= i < |data.variation| && 0 <= j < |data.variation[i].size| && data.variation[i].size[j].name == x)
      && (forall a, b :: 0 <= a < b < |p.sizes| ==>
            FirstIndex(AllSizeNames(data.variation), p.sizes[a]) < FirstIndex(AllSizeNames(data.variation), p.sizes[b]))
  {
    DistinctSizesSpec(data.variation);
  }

  /** The cart line `handleAddToCart` builds from the shown product and the page's selections. */
  function CartItemFor(product: Product, sizeSelected: string, qualitySelected: int): (item: Cart.CartItem)
    ensures item.id == product.id && item.name == product.name
    ensures item.price == product.price && item.image == product.image
    ensures item.quantity == qualitySelected
    ensures item.sizes == Some([sizeSelected])
  {
    Cart.CartItem(product.id, product.name, product.price, product.image, qualitySelected, Some([sizeSelected]))
  }

  /**
   * `handleAddToCart`: build the line and hand it to the cart's `addToCart`.
   * The product ends up in the cart, and a product not yet in it is appended
   * as a line of one unit whatever quantity was selected.
   */
  function HandleAddToCart(cart: seq<Cart.CartItem>, product: Product, sizeSelected: string, qualitySelected: int)
    : (r: seq<Cart.CartItem>)
    ensures |r| == |cart| || |r| == |cart| + 1
    ensures Cart.HasId(r, product.id)
    ensures !Cart.HasId(cart, product.id) ==> r == cart + [CartItemFor(product, sizeSelected, 1)]
  {
    Cart.AddToCart(cart, CartItemFor(product, sizeSelected, qualitySelected))
  }

  /**
   * The quantity chosen on the page never reaches the cart: one click adds
   * exactly one unit. A product already in the cart keeps its earlier size
   * selection; a new one gets a line of quantity 1 holding the selected size.
   */
  lemma AddToCartIgnoresSelectedQuantity(cart: seq<Cart.CartItem>, product: Product, sizeSelected: string, qualitySelected: int)
    requires Cart.UniqueIds(cart)
    ensures Cart.TotalUnits(HandleAddToCart(cart, product, sizeSelected, qualitySelected)) == Cart.TotalUnits(cart) + 1
    ensures forall k :: 0 <= k < |cart| && cart[k].id == product.id ==>
      HandleAddToCart(cart, product, sizeSelected, qualitySelected)[k].sizes == cart[k].sizes
    ensures !Cart.HasId(cart, product.id) ==>
      var r := HandleAddToCart(cart, product, sizeSelected, qualitySelected);
      r[|cart|].quantity == 1 && r[|cart|].sizes == Some([sizeSelected])
  {
    var item := CartItemFor(product, sizeSelected, qualitySelected);
    Cart.AddToCartTotalUnits(cart, item);
    forall k | 0 <= k < |cart| && cart[k].id == product.id
      ensures HandleAddToCart(cart, product, sizeSelected, qualitySelected)[k].sizes == cart[k].sizes
    {
      Cart.AddToCartMerges(cart, item, k);
    }
    if !Cart.HasId(cart, product.id) {
      Cart.AddToCartAppends(cart, item);
    }
  }

  /** A click on a size in `renderSizeList`: ignored when the size is not in stock. */
  function ClickSize(inStock: seq<string>, sizeSelected: string, size: string): (r: string)
    ensures size !in inStock ==> r == sizeSelected
    ensures size in inStock ==> r == size
  {
    if size !in inStock then sizeSelected else size
  }

  /**
   * The page state the size buttons use: the shown product (`None` until a
   * fetch succeeds), the `sizes` state that decides what is in stock, and the
   * selected size.
   */
  datatype PageState = PageState(product: Option<Product>, sizes: seq<string>, sizeSelected: string)

  /** The state before the product arrives: no product, no sizes, nothing selected. */
  const InitialPageState: PageState := PageState(None, [], "")

  /**
   * A successful fetch: the transformed product is shown and the `sizes`
   * state is set from its `sizes` (`|| []` only replaces an absent list, and
   * the transformation always builds one).
   */
  function Loaded(state: PageState, product: Product): (next: PageState)
    ensures next.product == Some(product) && next.sizes == product.sizes
    ensures next.sizeSelected == state.sizeSelected
  {
    state.(product := Some(product), sizes := product.sizes)
  }

  /** A click on a size button. */
  function Click(state: PageState, size: string): (next: PageState)
    ensures next.product == state.product && next.sizes == state.sizes
    ensures size !in state.sizes ==> next.sizeSelected == state.sizeSelected
    ensures size in state.sizes ==> next.sizeSelected == size
  {
    state.(sizeSelected := ClickSize(state.sizes, state.sizeSelected, size))
  }

  /**
   * Once a product is loaded, the buttons the page renders are its own sizes
   * and each of them is in the `sizes` state, so every click selects its size.
   */
  lemma ClickRenderedSizeSelects(state: PageState, data: RawProduct, parseFloat: string -> Option<real>, now: int, k: nat)
    requires k < |TransformProduct(data, parseFloat, now).sizes|
    ensures var loaded := Loaded(state, TransformProduct(data, parseFloat, now));
      Click(loaded, loaded.product.value.sizes[k]).sizeSelected == TransformProduct(data, parseFloat, now).sizes[k]
  {
  }

  /**
   * The initial, empty `sizes` state rejects every size. The page renders no
   * size button before a product is loaded (the size list is only drawn once
   * the product has sizes), so this guard is never reached from that state;
   * the lemma states what the state itself decides.
   */
  lemma ClickBeforeLoadIgnored(size: string)
    ensures Click(InitialPageState, size) == InitialPageState
  {
  }
}
