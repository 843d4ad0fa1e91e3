/**
 * The product entry form: its state, the updaters its inputs call, and the
 * preparation of the multipart payload on save.
 *
 * `FormData` is the state value React holds. The updaters build a new value
 * from the previous one with spreads, but the variation entries are objects,
 * and a spread of the `variation` array copies references to them. So a
 * variation is a `Variation` object here and `FormData` holds a sequence of
 * references: updaters that replace an entry allocate a fresh object, while
 * `handleColorChange`, `handleVariationImageChange` and the save loop write
 * into an object that the previous state shares.
 */
module ProductForm {
  import opened Wrappers
  import opened Dedup

  /** One `{name, stock}` row of a variation; both are the raw input text. */
  datatype Size = Size(name: string, stock: string)

  /** The key of `Size` an input edits. */
  datatype SizeProperty = SizeName | SizeStock

  /** A browser `File` picked in a file input. */
  datatype File = File(name: string, length: nat)

  /** A date as a timestamp. */
  type Date = int

  /** A top-level scalar field: the initial numbers and flag, then what the inputs stored. */
  datatype Scalar = Text(text: string) | Number(number: int) | Flag(flag: bool)

  /** The top-level scalar fields of `FormData`, one per input `name`. */
  datatype ScalarField = Sku | Name | Price | Discount | New | Rating | SaleCount | ShortDescription | FullDescription

  /** A variation object: a color, its sizes and an optional image file. */
  class Variation {
    var color: string
    var size: seq<Size>
    var image: Option<File>

    constructor (color: string, size: seq<Size>, image: Option<File>)
      ensures this.color == color && this.size == size && this.image == image
    {
      this.color := color;
      this.size := size;
      this.image := image;
    }
  }

  datatype FormData = FormData(
    scalars: map<ScalarField, Scalar>,
    offerEnd: Option<Date>,
    category: seq<string>,
    tag: seq<string>,
    variation: seq<Variation>,
    productImages: Option<seq<File>>)

  /** The component's two pieces of state: the form and the date picker's selection. */
  datatype PageState = PageState(formData: FormData, selectedDate: Option<Date>)

  /** The scalar fields of `initialFormData`. */
  const InitialScalars: map<ScalarField, Scalar> := map[
    Sku := Text("asdf123"), Name := Text(""), Price := Number(0), Discount := Number(0),
    New := Flag(false), Rating := Number(0), SaleCount := Number(0),
    ShortDescription := Text(""), FullDescription := Text("")]

  /** Every scalar field has a value. */
  predicate HasAllScalars(scalars: map<ScalarField, Scalar>) {
    forall f: ScalarField :: f in scalars
  }

  /** The empty size row `handleAddSize` appends and the initial variation holds. */
  const BlankSize: Size := Size("", "")

  /**
   * `initialFormData`: every scalar at its default, no offer end, no
   * categories, tags or product images, and exactly one variation with no
   * color, no image and one blank size row.
   */
  method InitialFormData() returns (f: FormData)
    ensures f.scalars == InitialScalars && HasAllScalars(f.scalars)
    ensures f.offerEnd == None && f.category == [] && f.tag == [] && f.productImages == None
    ensures |f.variation| == 1 && fresh(f.variation[0])
    ensures f.variation[0].color == "" && f.variation[0].size == [BlankSize] && f.variation[0].image == None
  {
    forall field: ScalarField ensures field in InitialScalars {
      match field
      case Sku => case Name => case Price => case Discount => case New =>
      case Rating => case SaleCount => case ShortDescription => case FullDescription =>
    }
    var v := new Variation("", [BlankSize], None);
    f := FormData(InitialScalars, None, [], [], [v], None);
  }

  /**
   * `handleChange`: the input's field receives `value === 'true'` when it is
   * `new` and the raw text otherwise; nothing else changes.
   */
  function HandleChange(prev: FormData, field: ScalarField, value: string): (next: FormData)
    ensures next.scalars.Keys == prev.scalars.Keys + {field}
    ensures field == New ==> next.scalars[field] == Flag(value == "true")
    ensures field != New ==> next.scalars[field] == Text(value)
    ensures forall f :: f in prev.scalars && f != field ==> next.scalars[f] == prev.scalars[f]
    ensures next == prev.(scalars := next.scalars)
    ensures HasAllScalars(prev.scalars) ==> HasAllScalars(next.scalars)
  {
    prev.(scalars := prev.scalars[field := if field == New then Flag(value == "true") else Text(value)])
  }

  /**
   * The fields the form's text and number inputs carry as `name`
   * (`ProductForm.tsx` gives no input the name `sku` or `new`).
   */
  predicate IsInputField(field: ScalarField) {
    field in {Name, Price, Discount, Rating, SaleCount, ShortDescription, FullDescription}
  }

  /**
   * Every input stores its raw text, so a number field such as `price` holds
   * a string after the user edits it.
   */
  lemma InputStoresText(prev: FormData, field: ScalarField, value: string)
    requires IsInputField(field)
    ensures HandleChange(prev, field, value).scalars[field] == Text(value)
  {
  }

  /** `if (x)` on a `string | null`: present and not empty. */
  predicate Truthy(x: Option<string>) {
    x.Some? && x.value != ""
  }

  /** `handleCategorySelection`: a present, non-empty name is appended, duplicates included. */
  function HandleCategorySelection(prev: FormData, selected: Option<string>): (next: FormData)
    ensures Truthy(selected) ==> next == prev.(category := prev.category + [selected.value])
    ensures !Truthy(selected) ==> next == prev
    ensures Truthy(selected) ==> |next.category| == |prev.category| + 1 && next.category[|prev.category|] == selected.value
  {
    if Truthy(selected) then prev.(category := prev.category + [selected.value]) else prev
  }

  /** `handleTagSelection`: a present, non-empty tag is appended, duplicates included. */
  function HandleTagSelection(prev: FormData, selected: Option<string>): (next: FormData)
    ensures Truthy(selected) ==> next == prev.(tag := prev.tag + [selected.value])
    ensures !Truthy(selected) ==> next == prev
    ensures Truthy(selected) ==> |next.tag| == |prev.tag| + 1 && next.tag[|prev.tag|] == selected.value
  {
    if Truthy(selected) then prev.(tag := prev.tag + [selected.value]) else prev
  }

  /** `handleDateChange`: the picker's selection and the form's `offerEnd` become the same date. */
  function HandleDateChange(prev: PageState, date: Option<Date>): (next: PageState)
    ensures next.selectedDate == next.formData.offerEnd == date
    ensures next.formData == prev.formData.(offerEnd := date)
  {
    PageState(prev.formData.(offerEnd := date), date)
  }

  /** `handleMultipleImagesChange`: a non-empty file list replaces `productImages`. */
  function HandleMultipleImagesChange(prev: FormData, files: Option<seq<File>>): (next: FormData)
    ensures files.Some? && |files.value| > 0 ==> next == prev.(productImages := files)
    ensures !(files.Some? && |files.value| > 0) ==> next == prev
  {
    if files.Some? && |files.value| > 0 then prev.(productImages := files) else prev
  }

  /** `{...size, [property]: value}`. */
  function SetProperty(s: Size, property: SizeProperty, value: string): (r: Size)
    ensures property == SizeName ==> r.name == value && r.stock == s.stock
    ensures property == SizeStock ==> r.stock == value && r.name == s.name
  {
    match property
    case SizeName => s.(name := value)
    case SizeStock => s.(stock := value)
  }

  /**
   * `sizes.map((size, index) => index === sizeIndex ? {...size, [property]: value} : size)`:
   * the row at `sizeIndex` is updated, or nothing is when no row has that index.
   */
  function SetSizeProperty(sizes: seq<Size>, sizeIndex: int, property: SizeProperty, value: string): (r: seq<Size>)
    ensures |r| == |sizes|
    ensures 0 <= sizeIndex < |sizes| ==> r == sizes[sizeIndex := SetProperty(sizes[sizeIndex], property, value)]
    ensures !(0 <= sizeIndex < |sizes|) ==> r == sizes
  {
    seq(|sizes|, k requires 0 <= k < |sizes| =>
      if k == sizeIndex then SetProperty(sizes[k], property, value) else sizes[k])
  }

  /**
   * `handleVariationChange`: variation `variationIndex` is replaced by a fresh
   * copy whose size row `sizeIndex` has `property` set; every other variation
   * object, every other field and every length stay as they were.
   */
  method HandleVariationChange(prev: FormData, variationIndex: nat, sizeIndex: int, property: SizeProperty, value: string)
    returns (next: FormData)
    requires variationIndex < |prev.variation|
    ensures |next.variation| == |prev.variation|
    ensures next == prev.(variation := prev.variation[variationIndex := next.variation[variationIndex]])
    ensures fresh(next.variation[variationIndex])
    ensures next.variation[variationIndex].color == prev.variation[variationIndex].color
    ensures next.variation[variationIndex].image == prev.variation[variationIndex].image
    ensures next.variation[variationIndex].size == SetSizeProperty(prev.variation[variationIndex].size, sizeIndex, property, value)
    ensures NoDuplicates(prev.variation) ==> NoDuplicates(next.variation)
  {
    var current := prev.variation[variationIndex];
    var updated := new Variation(current.color, SetSizeProperty(current.size, sizeIndex, property, value), current.image);
    next := prev.(variation := prev.variation[variationIndex := updated]);
  }

  /**
   * `handleAddSize`: variation `variationIndex` is replaced by a fresh copy
   * with one blank row appended; nothing else changes.
   */
  method HandleAddSize(prev: FormData, variationIndex: nat) returns (next: FormData)
    requires variationIndex < |prev.variation|
    ensures |next.variation| == |prev.variation|
    ensures next == prev.(variation := prev.variation[variationIndex := next.variation[variationIndex]])
    ensures fresh(next.variation[variationIndex])
    ensures next.variation[variationIndex].color == prev.variation[variationIndex].color
    ensures next.variation[variationIndex].image == prev.variation[variationIndex].image
    ensures next.variation[variationIndex].size == prev.variation[variationIndex].size + [BlankSize]
    ensures NoDuplicates(prev.variation) ==> NoDuplicates(next.variation)
  {
    var current := prev.variation[variationIndex];
    var updated := new Variation(current.color, current.size + [BlankSize], current.image);
    next := prev.(variation := prev.variation[variationIndex := updated]);
  }

  /**
   * `handleColorChange`: the color is written into the variation object
   * itself, which the previous state shares, so the previous state changes
   * too and the new state holds the very same objects.
   */
  method HandleColorChange(prev: FormData, variationIndex: nat, value: string) returns (next: FormData)
    requires variationIndex < |prev.variation|
    modifies prev.variation[variationIndex]
    ensures next == prev
    ensures prev.variation[variationIndex].color == value
    ensures prev.variation[variationIndex].size == old(prev.variation[variationIndex].size)
    ensures prev.variation[variationIndex].image == old(prev.variation[variationIndex].image)
  {
    prev.variation[variationIndex].color := value;
    next := prev.(variation := prev.variation);
  }

  /**
   * `handleVariationImageChange`: when a file was picked, it is written into
   * the shared variation object in the same way; otherwise nothing happens.
   */
  method HandleVariationImageChange(prev: FormData, variationIndex: nat, file: Option<File>) returns (next: FormData)
    requires file.Some? ==> variationIndex < |prev.variation|
    modifies if file.Some? then {prev.variation[variationIndex]} else {}
    ensures next == prev
    ensures file.Some? ==> prev.variation[variationIndex].image == file
    ensures file.Some? ==> prev.variation[variationIndex].color == old(prev.variation[variationIndex].color)
    ensures file.Some? ==> prev.variation[variationIndex].size == old(prev.variation[variationIndex].size)
  {
    next := prev;
    if file.Some? {
      prev.variation[variationIndex].image := file;
      next := prev.(variation := prev.variation);
    }
  }

  /** A variation as `JSON.stringify` sees it. */
  datatype VariationData = VariationData(color: string, size: seq<Size>, image: Option<File>)

  /** The values a variation object currently holds. */
  function Data(v: Variation): VariationData
    reads v
  {
    VariationData(v.color, v.size, v.image)
  }

  /** The values the variation objects currently hold. */
  function Snapshot(vs: seq<Variation>): (r: seq<VariationData>)
    reads vs
    ensures |r| == |vs|
    ensures forall k :: 0 <= k < |vs| ==> r[k] == Data(vs[k])
  {
    if |vs| == 0 then []
    else [Data(vs[0])] + Snapshot(vs[1..])
  }

  /** The JSON object sent as `product`: the form without `productImages`. */
  datatype Payload = Payload(
    scalars: map<ScalarField, Scalar>,
    offerEnd: Option<Date>,
    category: seq<string>,
    tag: seq<string>,
    variation: seq<VariationData>)

  /** The parts appended to the multipart body, in order. */
  datatype Part = VariationImage(file: File) | ProductImage(file: File) | ProductJson(product: Payload)

  /**
   * One `variationImage` part per variation object that currently has an
   * image, in variation order.
   */
  function VariationImageParts(vs: seq<Variation>): (r: seq<Part>)
    reads vs
    ensures |r| <= |vs|
    ensures forall k :: 0 <= k < |r| ==> r[k].VariationImage?
  {
    if |vs| == 0 then []
    else
      var last := vs[|vs| - 1];
      VariationImageParts(vs[..|vs| - 1]) + (if last.image.Some? then [VariationImage(last.image.value)] else [])
  }

  /** The positions of the variations that currently have an image, in increasing order. */
  ghost function ImageIndices(vs: seq<Variation>): seq<nat>
    reads vs
  {
    if |vs| == 0 then []
    else ImageIndices(vs[..|vs| - 1]) + (if vs[|vs| - 1].image.Some? then [|vs| - 1] else [])
  }

  /**
   * Part `a` of the `variationImage` parts is the image of the `a`-th
   * variation that has one, and every variation with an image is counted.
   */
  lemma {:induction false} ImageIndicesSpec(vs: seq<Variation>)
    ensures |ImageIndices(vs)| == |VariationImageParts(vs)|
    ensures forall a :: 0 <= a < |ImageIndices(vs)| ==>
      var k := ImageIndices(vs)[a];
      k < |vs| && vs[k].image.Some? && VariationImageParts(vs)[a] == VariationImage(vs[k].image.value)
    ensures forall a, b :: 0 <= a < b < |ImageIndices(vs)| ==> ImageIndices(vs)[a] < ImageIndices(vs)[b]
    ensures forall k :: 0 <= k < |vs| && vs[k].image.Some? ==> k in ImageIndices(vs)
  {
    if |vs| > 0 {
      var n := |vs| - 1;
      var prefix := vs[..n];
      ImageIndicesSpec(prefix);
      var pidx := ImageIndices(prefix);
      var tidx := if vs[n].image.Some? then [n] else [];
      var tail := if vs[n].image.Some? then [VariationImage(vs[n].image.value)] else [];
      assert ImageIndices(vs) == pidx + tidx;
      assert VariationImageParts(vs) == VariationImageParts(prefix) + tail;
      assert forall k :: 0 <= k < n ==> prefix[k] == vs[k];
      assert forall a :: 0 <= a < |pidx| ==> pidx[a] < n;
    }
  }

  /**
   * The `variationImage` parts are exactly the images of the variations that
   * have one: every present image has its part, and every part is the image
   * of some variation (the order is `ImageIndicesSpec`).
   */
  lemma VariationImagePartsContent(vs: seq<Variation>)
    ensures forall k :: 0 <= k < |vs| && vs[k].image.Some? ==> VariationImage(vs[k].image.value) in VariationImageParts(vs)
    ensures forall p :: p in VariationImageParts(vs) ==>
      exists k :: 0 <= k < |vs| && vs[k].image.Some? && p == VariationImage(vs[k].image.value)
  {
    var r := VariationImageParts(vs);
    var idx := ImageIndices(vs);
    ImageIndicesSpec(vs);
    forall k | 0 <= k < |vs| && vs[k].image.Some?
      ensures VariationImage(vs[k].image.value) in r
    {
      var a :| 0 <= a < |idx| && idx[a] == k;
      assert r[a] == VariationImage(vs[k].image.value);
    }
    forall p | p in r
      ensures exists k :: 0 <= k < |vs| && vs[k].image.Some? && p == VariationImage(vs[k].image.value)
    {
      var a :| 0 <= a < |r| && r[a] == p;
      assert vs[idx[a]].image.Some? && p == VariationImage(vs[idx[a]].image.value);
    }
  }

  /** One `productImages` part per product image, in order. */
  function ProductImageParts(files: seq<File>): (r: seq<Part>)
    ensures |r| == |files|
    ensures forall k :: 0 <= k < |files| ==> r[k] == ProductImage(files[k])
  {
    if |files| == 0 then [] else ProductImageParts(files[..|files| - 1]) + [ProductImage(files[|files| - 1])]
  }

  /** The variations with their images dropped. */
  function Cleared(vs: seq<VariationData>): (r: seq<VariationData>)
    ensures |r| == |vs|
    ensures forall k :: 0 <= k < |vs| ==> r[k].image.None? && r[k].color == vs[k].color && r[k].size == vs[k].size
  {
    seq(|vs|, k requires 0 <= k < |vs| => vs[k].(image := None))
  }

  /** `const { productImages, ...newObject } = formData`, with the variations as they are now. */
  function PayloadOf(f: FormData, variation: seq<VariationData>): (p: Payload)
    ensures p.scalars == f.scalars && p.offerEnd == f.offerEnd && p.category == f.category && p.tag == f.tag
    ensures p.variation == variation
  {
    Payload(f.scalars, f.offerEnd, f.category, f.tag, variation)
  }

  /**
   * The payload preparation of `handleSave`: each variation image becomes a
   * part and is then cleared in the live variation object, the product images
   * follow, and last the form serialized without `productImages`, in which
   * every variation image is now absent.
   */
  method PreparePayload(formData: FormData) returns (parts: seq<Part>)
    requires NoDuplicates(formData.variation)
    modifies set v | v in formData.variation
    ensures Snapshot(formData.variation) == Cleared(old(Snapshot(formData.variation)))
    ensures parts == old(VariationImageParts(formData.variation))
                     + (if formData.productImages.Some? then ProductImageParts(formData.productImages.value) else [])
                     + [ProductJson(PayloadOf(formData, Cleared(old(Snapshot(formData.variation)))))]
  {
    ghost var before := Snapshot(formData.variation);
    parts := ClearVariationImages(formData.variation);
    ClearedFromImages(before, Snapshot(formData.variation));
    var images := [];
    if formData.productImages.Some? {
      images := AppendProductImages(formData.productImages.value);
    }
    parts := parts + images + [ProductJson(PayloadOf(formData, Snapshot(formData.variation)))];
  }

  /**
   * The `forEach` over the variations: each image becomes a part, in order,
   * and is then cleared in its object; colors and sizes stay.
   */
  method ClearVariationImages(vs: seq<Variation>) returns (parts: seq<Part>)
    requires NoDuplicates(vs)
    modifies set v | v in vs
    ensures parts == old(VariationImageParts(vs))
    ensures forall k :: 0 <= k < |vs| ==> vs[k].image.None?
    ensures forall k :: 0 <= k < |vs| ==> vs[k].color == old(vs[k].color) && vs[k].size == old(vs[k].size)
  {
    parts := [];
    var i := 0;
    while i < |vs|
      invariant 0 <= i <= |vs|
      invariant parts == old(VariationImageParts(vs[..i]))
      invariant forall k :: 0 <= k < |vs| ==> vs[k].color == old(vs[k].color) && vs[k].size == old(vs[k].size)
      invariant forall k :: 0 <= k < i ==> vs[k].image.None?
      invariant forall k :: i <= k < |vs| ==> vs[k].image == old(vs[k].image)
    {
      assert vs[..i + 1][..i] == vs[..i];
      var v := vs[i];
      if v.image.Some? {
        parts := parts + [VariationImage(v.image.value)];
        v.image := None;
      }
      i := i + 1;
    }
    assert vs[..|vs|] == vs;
  }

  lemma ClearedFromImages(before: seq<VariationData>, after: seq<VariationData>)
    requires |after| == |before|
    requires forall k :: 0 <= k < |before| ==>
      after[k].image.None? && after[k].color == before[k].color && after[k].size == before[k].size
    ensures after == Cleared(before)
  {
  }

  /** The `forEach` over the product images: one part per file, in order. */
  method AppendProductImages(files: seq<File>) returns (parts: seq<Part>)
    ensures parts == ProductImageParts(files)
  {
    parts := [];
    var j := 0;
    while j < |files|
      invariant 0 <= j <= |files|
      invariant parts == ProductImageParts(files[..j])
    {
      assert files[..j + 1][..j] == files[..j];
      parts := parts + [ProductImage(files[j])];
      j := j + 1;
    }
    assert files[..|files|] == files;
  }
}
