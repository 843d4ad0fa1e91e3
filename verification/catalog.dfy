/**
 * The product record the storefront receives from the backend (`GET /api/products`
 * and `GET /api/products/{id}`), and the pieces of the view model that the detail
 * page and the collection page share: variants, the status badge and the
 * `flatMap` of size names.
 */
module Catalog {
  import opened Wrappers
  import opened Dedup

  /** One `{name, stock}` entry of a variation's `size` list. */
  datatype RawSize = RawSize(name: string, stock: string)

  /** One element of the record's `variation` list; `id`, `name` and `image` may be missing. */
  datatype RawVariation = RawVariation(
    id: Option<int>,
    name: Option<string>,
    color: string,
    image: Option<string>,
    size: seq<RawSize>)

  /**
   * A backend product record. `price` and `discount` are kept as the raw text
   * of the JSON value; each page converts them its own way. `offerEnd` is a
   * timestamp, `None` when it is null or not a valid date.
   */
  datatype RawProduct = RawProduct(
    id: int,
    name: string,
    price: string,
    images: seq<string>,
    shortDescription: string,
    category: seq<string>,
    tag: seq<string>,
    variation: seq<RawVariation>,
    isNew: bool,
    discount: string,
    offerEnd: Option<int>)

  /** The `ProductVariant` shape both pages build, one per variation. */
  datatype ProductVariant = ProductVariant(
    id: Option<int>,
    name: Option<string>,
    featuredImage: Option<string>,
    color: string,
    sizes: seq<string>)

  /** The four badges a product card may show. */
  datatype Status = NewIn | LimitedEdition | SoldOut | FiftyPercentDiscount

  datatype VariantType = ColorVariants | ImageVariants

  /** The `link` every transformed product carries. */
  const ProductDetailLink: string := "/product-detail/"

  /** The first element of a list (`xs[0]`), `undefined` when it is empty. */
  function First<T>(xs: seq<T>): (r: Option<T>)
    ensures r.None? <==> |xs| == 0
    ensures r.Some? ==> r.value == xs[0]
  {
    if |xs| == 0 then None else Some(xs[0])
  }

  /** `varItem.size.map(size => size.name)`. */
  function SizeNames(v: RawVariation): seq<string> {
    seq(|v.size|, j requires 0 <= j < |v.size| => v.size[j].name)
  }

  /** `variation.flatMap(varItem => varItem.size.map(size => size.name))`. */
  function AllSizeNames(vs: seq<RawVariation>): (r: seq<string>)
    ensures forall i, j :: 0 <= i < |vs| && 0 <= j < |vs[i].size| ==> vs[i].size[j].name in r
  {
    if |vs| == 0 then []
    else
      var rest := AllSizeNames(vs[1..]);
      assert forall i :: 1 <= i < |vs| ==> vs[i] == vs[1..][i - 1];
      assert forall j :: 0 <= j < |vs[0].size| ==> SizeNames(vs[0])[j] == vs[0].size[j].name;
      SizeNames(vs[0]) + rest
  }

  /** A name occurs in the flattened list exactly when some size of some variation carries it. */
  lemma {:induction false} AllSizeNamesMembers(vs: seq<RawVariation>, x: string)
    ensures x in AllSizeNames(vs) <==>
      exists i, j :: 0 <= i < |vs| && 0 <= j < |vs[i].size| && vs[i].size[j].name == x
  {
    if |vs| > 0 {
      AllSizeNamesMembers(vs[1..], x);
      if x in SizeNames(vs[0]) {
        var j :| 0 <= j < |SizeNames(vs[0])| && SizeNames(vs[0])[j] == x;
        assert vs[0].size[j].name == x;
      }
      if exists i, j :: 0 <= i < |vs| && 0 <= j < |vs[i].size| && vs[i].size[j].name == x {
        var i, j :| 0 <= i < |vs| && 0 <= j < |vs[i].size| && vs[i].size[j].name == x;
        if i == 0 {
          assert SizeNames(vs[0])[j] == x;
        } else {
          assert vs[1..][i - 1] == vs[i];
        }
      }
    }
  }

  /** `Array.from(new Set(allSizes))`: the `sizes` list of a transformed product. */
  function DistinctSizes(vs: seq<RawVariation>): (r: seq<string>)
    ensures NoDuplicates(r)
    ensures forall x :: x in r <==> x in AllSizeNames(vs)
  {
    Unique(AllSizeNames(vs))
  }

  /**
   * The size list has no duplicates, holds exactly the size names of all
   * variations, and lists them in the order they first appear when the
   * variations, then their sizes, are read from left to right.
   */
  lemma DistinctSizesSpec(vs: seq<RawVariation>)
    ensures NoDuplicates(DistinctSizes(vs))
    ensures forall x :: x in DistinctSizes(vs) <==>
      exists i, j :: 0 <= i < |vs| && 0 <= j < |vs[i].size| && vs[i].size[j].name == x
    ensures forall a, b :: 0 <= a < b < |DistinctSizes(vs)| ==>
      FirstIndex(AllSizeNames(vs), DistinctSizes(vs)[a]) < FirstIndex(AllSizeNames(vs), DistinctSizes(vs)[b])
  {
    var all := AllSizeNames(vs);
    forall x
      ensures x in DistinctSizes(vs) <==>
        exists i, j :: 0 <= i < |vs| && 0 <= j < |vs[i].size| && vs[i].size[j].name == x
    {
      AllSizeNamesMembers(vs, x);
      if x in all {
        var k :| 0 <= k < |all| && all[k] == x;
      }
    }
    forall a, b | 0 <= a < b < |DistinctSizes(vs)|
      ensures FirstIndex(all, DistinctSizes(vs)[a]) < FirstIndex(all, DistinctSizes(vs)[b])
    {
      UniqueKeepsFirstAppearanceOrder(all, a, b);
    }
  }
}
