/**
 * The collection page: `transformProduct` and `transformProducts` from the
 * backend's product list to product cards. `toNumber` is the conversion
 * JavaScript applies to `data.discount` in `data.discount >= 50` (`None` for `NaN`).
 */
module PageCollection {
  import opened Wrappers
  import opened Dedup
  import opened Catalog
  import ProductDetailPage

  /** The page's `Product` view model; `price` and `image` hold the raw fields. */
  datatype Product = Product(
    id: int,
    name: string,
    price: string,
    image: seq<string>,
    description: string,
    category: Option<string>,
    tags: seq<string>,
    link: string,
    variants: seq<ProductVariant>,
    variantType: VariantType,
    sizes: seq<string>,
    status: Option<Status>)

  /** The badge: "New in" for a new product, otherwise "50% Discount" from a discount of 50 or more. */
  function CollectionStatus(isNew: bool, discount: Option<real>): (r: Option<Status>)
    ensures r == Some(NewIn) <==> isNew
    ensures r == Some(FiftyPercentDiscount) <==> !isNew && discount.Some? && discount.value >= 50.0
    ensures r != Some(LimitedEdition) && r != Some(SoldOut)
  {
    if isNew then Some(NewIn)
    else if discount.Some? && discount.value >= 50.0 then Some(FiftyPercentDiscount)
    else None
  }

  /** One variant per variation; the collection page takes the variation's own `name`. */
  function NamedVariant(v: RawVariation): ProductVariant {
    ProductVariant(v.id, v.name, v.image, v.color, SizeNames(v))
  }

  /** `transformProduct` of the collection page. */
  function TransformProduct(data: RawProduct, toNumber: string -> Option<real>): (p: Product)
    ensures |p.variants| == |data.variation|
    ensures NoDuplicates(p.sizes)
    ensures forall x :: x in p.sizes <==> x in AllSizeNames(data.variation)
    ensures p.status == Some(NewIn) <==> data.isNew
  {
    Product(
      data.id,
      data.name,
      data.price,
      data.images,
      data.shortDescription,
      First(data.category),
      data.tag,
      ProductDetailLink,
      seq(|data.variation|, i requires 0 <= i < |data.variation| => NamedVariant(data.variation[i])),
      ColorVariants,
      DistinctSizes(data.variation),
      CollectionStatus(data.isNew, toNumber(data.discount)))
  }

  /** `products.map(transformProduct)`: same length, element by element. */
  function TransformProducts(products: seq<RawProduct>, toNumber: string -> Option<real>): (r: seq<Product>)
    ensures |r| == |products|
    ensures forall i :: 0 <= i < |products| ==> r[i] == TransformProduct(products[i], toNumber)
  {
    if |products| == 0 then []
    else [TransformProduct(products[0], toNumber)] + TransformProducts(products[1..], toNumber)
  }

  /** Copied and fixed fields: no parsing of the price, and the whole `images` list as `image`. */
  lemma TransformProductFields(data: RawProduct, toNumber: string -> Option<real>)
    ensures var p := TransformProduct(data, toNumber);
      && p.id == data.id && p.name == data.name && p.price == data.price && p.image == data.images
      && (p.category.Some? <==> |data.category| > 0) && (p.category.Some? ==> p.category.value == data.category[0])
      && p.tags == data.tag && p.description == data.shortDescription
      && p.link == "/product-detail/" && p.variantType == ColorVariants
  {
  }

  /** One variant per variation, in order, keeping its id and image and named by its `name` field. */
  lemma TransformProductVariants(data: RawProduct, toNumber: string -> Option<real>)
    ensures var p := TransformProduct(data, toNumber);
      && |p.variants| == |data.variation|
      && forall i :: 0 <= i < |data.variation| ==>
           && p.variants[i].id == data.variation[i].id
           && p.variants[i].featuredImage == data.variation[i].image
           && p.variants[i].name == data.variation[i].name
           && p.variants[i].color == data.variation[i].color
           && |p.variants[i].sizes| == |data.variation[i].size|
           && forall j :: 0 <= j < |data.variation[i].size| ==> p.variants[i].sizes[j] == data.variation[i].size[j].name
  {
  }

  /** `sizes` is duplicate-free, covers exactly the variations' size names, in first-appearance order. */
  lemma TransformProductSizes(data: RawProduct, toNumber: string -> Option<real>)
    ensures var p := TransformProduct(data, toNumber);
      && NoDuplicates(p.sizes)
      && (forall x :: x in p.sizes <==>
            exists i, j :: 0 <= i < |data.variation| && 0 <= j < |data.variation[i].size| && data.variation[i].size[j].name == x)
      && (forall a, b :: 0 <= a < b < |p.sizes| ==>
            FirstIndex(AllSizeNames(data.variation), p.sizes[a]) < FirstIndex(AllSizeNames(data.variation), p.sizes[b]))
  {
    DistinctSizesSpec(data.variation);
  }

  /**
   * The two pages build the same size list and the same per-variant sizes and
   * colors; they differ in variant names (color here against `name` there) and,
   * when an offer is running, in the badge: only the detail page reads `offerEnd`.
   * With no running offer and agreeing number conversions, the badges agree.
   */
  lemma PagesAgree(data: RawProduct, toNumber: string -> Option<real>, parseFloat: string -> Option<real>, now: int)
    ensures var c := TransformProduct(data, toNumber);
      var d := ProductDetailPage.TransformProduct(data, parseFloat, now);
      && c.sizes == d.sizes
      && |c.variants| == |d.variants|
      && (forall i :: 0 <= i < |c.variants| ==> c.variants[i] == d.variants[i].(name := data.variation[i].name))
      && ((!ProductDetailPage.OfferInFuture(data.offerEnd, now) && toNumber(data.discount) == parseFloat(data.discount))
          ==> c.status == d.status)
      && (ProductDetailPage.OfferInFuture(data.offerEnd, now) ==> d.status == Some(NewIn))
  {
  }
}
