# Storefront logic of a React/TypeScript e-commerce site

This project models, in Dafny, the sequential logic inside a small React
storefront: the shopping cart kept by `CartProvider`, the two
`transformProduct` functions that turn backend product records into the
product pages' view models, the quantity input's parse-and-clamp, and the
state updaters and save-payload preparation of the product entry form.

- `wrappers.dfy` (`Wrappers`): `Option` and `Result`.
- `dedup.dfy` (`Dedup`): `Array.from(new Set(xs))`. It keeps the distinct
  elements in the order of their first appearance.
- `catalog.dfy` (`Catalog`): the backend product record, the variant shape
  and status badges both pages share, and the `flatMap` of size names.
- `cart.dfy` (`Cart`): `addToCart` as a function from the previous line list
  to the next one, its invariants, runs of additions, and the `useCart` guard.
- `product_detail.dfy` (`ProductDetailPage`): the detail page's
  `transformProduct`, the cart line "Add to cart" builds, and the size-click guard.
- `page_collection.dfy` (`PageCollection`): the collection page's
  `transformProduct` and `transformProducts`, and how the two pages relate.
- `input_number.dfy` (`NcInputNumber`): `Math.max(1, parseInt(v) || 0)`,
  with JavaScript's `parseInt` written out (white space, sign, `0x`, digits).
- `product_form.dfy` (`ProductForm`): the form state and its updaters. A
  variation is a `Variation` object. The form holds references to these
  objects, because spreading the `variation` array copies references.
  `handleColorChange`, `handleVariationImageChange` and the save loop write
  into objects the previous state shares. The copy-and-replace updaters
  allocate fresh objects. These methods state the aliasing through their
  `modifies` and `fresh` clauses.

What the code does, and the model with it:

- `addToCart` adds one unit to an existing line and gives a new line
  quantity 1. The candidate's quantity is never read
  (`Cart.AddAllSpec`, `ProductDetailPage.AddToCartIgnoresSelectedQuantity`).
- The cart has no removal, no absolute quantity update and no price total.
- The detail page keeps a price that `parseFloat` cannot read as `NaN`.
  Here that is `None`.
- A product without images gets `images[0]`, which is `undefined`. Here
  that is `None`.

## Model

| member | source | states |
|---|---|---|
| Dedup.Unique | src/containers/ProductDetailPage/ProductDetailPage.tsx:79 | the de-duplicated list has no repeats, holds only input elements, and keeps every input element |
| Dedup.UniqueKeepsFirstAppearanceOrder | src/containers/ProductDetailPage/ProductDetailPage.tsx:79 | elements come out in the order of their first appearance in the input |
| Catalog.First | src/containers/ProductDetailPage/ProductDetailPage.tsx:64-66 | `xs[0]` is absent exactly for an empty list and is otherwise the first element |
| Catalog.AllSizeNames | src/containers/ProductDetailPage/ProductDetailPage.tsx:78 | every size name of every variation is in the flattened list (both directions: `Catalog.AllSizeNamesMembers`) |
| Catalog.AllSizeNamesMembers | src/containers/ProductDetailPage/ProductDetailPage.tsx:78 | a name is in the flattened size list iff some size of some variation carries it |
| Catalog.DistinctSizes | src/containers/ProductDetailPage/ProductDetailPage.tsx:78-79 | the size list has no repeats and holds exactly the names of the flattened list (order: `Catalog.DistinctSizesSpec`) |
| Catalog.DistinctSizesSpec | src/containers/ProductDetailPage/ProductDetailPage.tsx:78-79 | the size list is duplicate-free, holds exactly the variations' size names, and keeps first-appearance order |
| Cart.Find | src/containers/CartContext.tsx:26 | nothing is found iff no line has the id; otherwise the result is the first line with that id |
| Cart.IncrementMatching | src/containers/CartContext.tsx:28-32 | same length; each line with the id gains one unit, every other line is unchanged |
| Cart.AddToCart | src/containers/CartContext.tsx:24-37 | the list grows by at most one line, existing lines keep their ids and positions, and the id is present afterwards |
| Cart.AddToCartMerges | src/containers/CartContext.tsx:26-32 | for an existing id the length is unchanged, that line gains exactly one unit and keeps its own name, price, image and sizes, and other lines are untouched |
| Cart.AddToCartAppends | src/containers/CartContext.tsx:33-34 | for a new id the result is the old list plus the candidate with quantity exactly 1 |
| Cart.AddToCartKeepsUniqueIds | src/containers/CartContext.tsx:26-34 | unique ids stay unique |
| Cart.AddToCartKeepsPositive | src/containers/CartContext.tsx:28-34 | quantities of at least 1 stay at least 1 |
| Cart.AddToCartTotalUnits | src/containers/CartContext.tsx:28-34 | with unique ids, the total number of units rises by exactly one in either branch |
| Cart.AddToCartQuantityOf | src/containers/CartContext.tsx:28-34 | with unique ids, the candidate's id gains one unit and every other id none |
| Cart.AddAllSpec | src/containers/CartContext.tsx:24-37 | after any run of additions the ids are unique, the total rises by the number of calls, each id gains one unit per call naming it, and each id has at most one line |
| Cart.AddAll | src/containers/CartContext.tsx:24-37 | a run of additions grows the list by at most one line per call, keeps the ids and positions of the existing lines, and leaves every requested id present (units and uniqueness: `Cart.AddAllSpec`) |
| Cart.UseCart | src/containers/CartContext.tsx:47-53 | fails with the provider message iff there is no context, and otherwise returns the context unchanged |
| ProductDetailPage.DetailStatus | src/containers/ProductDetailPage/ProductDetailPage.tsx:81-89 | "New in" iff new or the offer ends in the future; "50% Discount" iff not that and the parsed discount is at least 50; never the other two badges |
| ProductDetailPage.TransformProduct | src/containers/ProductDetailPage/ProductDetailPage.tsx:60-105 | one variant per variation; the sizes have no repeats and are exactly the variations' size names; an image exactly when the record has images; "New in" exactly for a new product or a running offer (field by field: `ProductDetailPage.TransformProductFields`, `TransformProductVariants`, `TransformProductSizes`) |
| ProductDetailPage.TransformProductFields | src/containers/ProductDetailPage/ProductDetailPage.tsx:60-68 | id, name, description and tags are copied; price is the parsed price; image and category are the first elements; link and variant type are fixed |
| ProductDetailPage.TransformProductVariants | src/containers/ProductDetailPage/ProductDetailPage.tsx:70-76 | one variant per variation in order, keeping the variation's id and image (`featuredImage`), named after its color, listing its size names |
| ProductDetailPage.TransformProductSizes | src/containers/ProductDetailPage/ProductDetailPage.tsx:78-79 | the page's sizes are duplicate-free, exactly the variations' size names, in first-appearance order |
| ProductDetailPage.CartItemFor | src/containers/ProductDetailPage/ProductDetailPage.tsx:159-168 | the cart line copies id, name, price and image, takes the selected quantity, and holds the selected size as a one-element list |
| ProductDetailPage.HandleAddToCart | src/containers/ProductDetailPage/ProductDetailPage.tsx:159-169 | the cart grows by at most one line and then holds the product; a product not yet in it is appended as its line with quantity 1, whatever quantity was selected (unit count: `ProductDetailPage.AddToCartIgnoresSelectedQuantity`) |
| ProductDetailPage.AddToCartIgnoresSelectedQuantity | src/containers/ProductDetailPage/ProductDetailPage.tsx:159-169 | one click adds exactly one unit whatever quantity is selected; an existing line keeps its earlier sizes; a new line has quantity 1 and the selected size |
| ProductDetailPage.ClickSize | src/containers/ProductDetailPage/ProductDetailPage.tsx:271-276 | a size that is not in stock leaves the selection unchanged; an in-stock size becomes the selection |
| ProductDetailPage.Loaded | src/containers/ProductDetailPage/ProductDetailPage.tsx:145-148 | a successful fetch shows the transformed product and sets the `sizes` state to its sizes; the selection is kept |
| ProductDetailPage.Click | src/containers/ProductDetailPage/ProductDetailPage.tsx:259-276 | a click on a size outside the `sizes` state keeps the selection; a size in it becomes the selection |
| ProductDetailPage.ClickRenderedSizeSelects | src/containers/ProductDetailPage/ProductDetailPage.tsx:257-276 | after a load, every size button the page renders selects its size when clicked |
| ProductDetailPage.ClickBeforeLoadIgnored | src/containers/ProductDetailPage/ProductDetailPage.tsx:118-123 | the initial empty `sizes` state rejects every size; the page draws no size button before a product with sizes is loaded (lines 235-237), so no click reaches the guard from that state |
| PageCollection.CollectionStatus | src/containers/PageCollection.tsx:59-64 | "New in" iff new; "50% Discount" iff not new and the discount is at least 50; no date check |
| PageCollection.TransformProduct | src/containers/PageCollection.tsx:37-80 | one variant per variation; the sizes have no repeats and are exactly the variations' size names; "New in" exactly for a new product (field by field: `PageCollection.TransformProductFields`, `TransformProductVariants`, `TransformProductSizes`) |
| PageCollection.TransformProducts | src/containers/PageCollection.tsx:94-96 | same length, and element i is the transformation of record i |
| PageCollection.TransformProductFields | src/containers/PageCollection.tsx:38-46 | id, name and the raw price are copied, image is the whole images list, category is the first one, link and variant type are fixed |
| PageCollection.TransformProductVariants | src/containers/PageCollection.tsx:48-54 | one variant per variation in order, keeping the variation's id and image (`featuredImage`), named by the variation's own name field, listing its size names |
| PageCollection.TransformProductSizes | src/containers/PageCollection.tsx:56-57 | the card's sizes are duplicate-free, exactly the variations' size names, in first-appearance order |
| PageCollection.PagesAgree | src/containers/PageCollection.tsx:37-80 | both pages build the same sizes and variants up to the variant name; with no running offer and agreeing number conversions their badges agree; a running offer makes the detail badge "New in" |
| NcInputNumber.TrimStart | src/components/NcInputNumber.tsx:15 | `parseInt` skips exactly the leading white space: the rest is a suffix that starts with no white space |
| NcInputNumber.DigitRun | src/components/NcInputNumber.tsx:15 | the digits read are the longest prefix of digits of the radix |
| NcInputNumber.ParseInt | src/components/NcInputNumber.tsx:15 | a number is found only when the first character after the white space is a sign or a digit (values read: `NcInputNumber.ParseIntReadsDecimal`, `ParseIntReadsDecimalRun`, `ParseIntReadsHex`; NaN cases: `ParseIntNaN`, `ParseIntSignNaN`, `ParseIntHexNaN`) |
| NcInputNumber.Clamp | src/components/NcInputNumber.tsx:15 | the result is at least 1; NaN, zero and negatives give 1; a positive value is kept |
| NcInputNumber.HandleChange | src/components/NcInputNumber.tsx:14-17 | `onChange` is called exactly once per change, with a value of at least 1 |
| NcInputNumber.ParseIntReadsDecimal | src/components/NcInputNumber.tsx:15 | white space, an optional sign, the decimal digits of n and a non-digit tail parse to n or -n |
| NcInputNumber.ParseIntDecimal | src/components/NcInputNumber.tsx:15 | the decimal text of a natural number parses back to it |
| NcInputNumber.ParseIntReadsDecimalRun | src/components/NcInputNumber.tsx:15 | white space, an optional sign, a run of decimal digits with any leading zeros (`"007"` is 7) and a tail that cannot continue it (`"5x"` is 5) parse to the run's value or its negation |
| NcInputNumber.ParseIntNaN | src/components/NcInputNumber.tsx:15 | white space, an optional sign and then nothing or a character that is no digit, no white space and no sign give NaN (a sign followed by those: `NcInputNumber.ParseIntSignNaN`) |
| NcInputNumber.ParseIntSignNaN | src/components/NcInputNumber.tsx:15 | a sign followed by nothing or by a character that is no digit (white space, a second sign: `"+ 1"`, `"--1"`) gives NaN |
| NcInputNumber.ParseIntHexNaN | src/components/NcInputNumber.tsx:15 | `0x` or `0X` with no hexadecimal digit after it gives NaN |
| NcInputNumber.ParseIntReadsHex | src/components/NcInputNumber.tsx:15 | white space, an optional sign, `0x` or `0X`, a run of hexadecimal digits and a tail that starts with no hexadecimal digit parse to the run's base-16 value or its negation |
| NcInputNumber.HandleChangeNaN | src/components/NcInputNumber.tsx:14-17 | text with no number in it makes the field emit exactly 1 |
| NcInputNumber.HandleChangeDecimal | src/components/NcInputNumber.tsx:14-17 | the decimal text of a positive number makes the field emit exactly that number |
| NcInputNumber.ClampIdempotent | src/components/NcInputNumber.tsx:15 | feeding an emitted value back into the field emits the same value |
| ProductForm.InitialFormData | src/components/ProductForm.tsx:37-56 | every scalar at its default, no offer end, categories, tags or product images, and exactly one fresh variation with one blank size |
| ProductForm.HandleChange | src/components/ProductForm.tsx:63-69 | the named field gets `value === 'true'` for `new` and the raw text otherwise; every other field is unchanged |
| ProductForm.InputStoresText | src/components/ProductForm.tsx:63-69 | every field an input carries stores the raw text, numbers included |
| ProductForm.HandleCategorySelection | src/components/ProductForm.tsx:139-146 | a non-empty category is appended at the end, duplicates included; null or "" changes nothing |
| ProductForm.HandleTagSelection | src/components/ProductForm.tsx:148-155 | a non-empty tag is appended at the end, duplicates included; null or "" changes nothing |
| ProductForm.HandleDateChange | src/components/ProductForm.tsx:157-163 | the picker's selection and the form's offer end become the same date; nothing else changes |
| ProductForm.HandleMultipleImagesChange | src/components/ProductForm.tsx:85-94 | a non-empty file list replaces the product images; otherwise nothing changes |
| ProductForm.SetProperty | src/components/ProductForm.tsx:107 | only the edited key of the size row changes |
| ProductForm.SetSizeProperty | src/components/ProductForm.tsx:105-110 | only the row at the size index changes, and only in the edited key; an index with no row changes nothing |
| ProductForm.HandleVariationChange | src/components/ProductForm.tsx:96-120 | only the indexed variation is replaced, by a fresh object that differs only in the edited size row; every other object, field and length is unchanged |
| ProductForm.HandleAddSize | src/components/ProductForm.tsx:123-136 | only the indexed variation is replaced, by a fresh object with one blank size appended |
| ProductForm.HandleColorChange | src/components/ProductForm.tsx:165-175 | the color is written into the shared variation object, so the previous state changes too; size and image stay |
| ProductForm.HandleVariationImageChange | src/components/ProductForm.tsx:71-83 | a picked file is written into the shared variation object; no file changes nothing |
| ProductForm.VariationImageParts | src/components/ProductForm.tsx:181-186 | at most one part per variation, each a variation image |
| ProductForm.ImageIndicesSpec | src/components/ProductForm.tsx:181-186 | part a is the image of the a-th variation that has one, in increasing variation order, and every variation with an image has a part |
| ProductForm.VariationImagePartsContent | src/components/ProductForm.tsx:181-186 | every present variation image has its part, and every part is the image of some variation |
| ProductForm.ProductImageParts | src/components/ProductForm.tsx:188-192 | one product-image part per file, in order |
| ProductForm.Cleared | src/components/ProductForm.tsx:184 | every variation loses its image and keeps its color and sizes |
| ProductForm.PayloadOf | src/components/ProductForm.tsx:194-195 | the serialized product carries every form field except the product images |
| ProductForm.ClearVariationImages | src/components/ProductForm.tsx:181-186 | the parts are the images of the variations as they were, in order; afterwards every variation object has no image and keeps its color and sizes |
| ProductForm.AppendProductImages | src/components/ProductForm.tsx:188-192 | the loop appends exactly the product-image parts, in order |
| ProductForm.PreparePayload | src/components/ProductForm.tsx:180-195 | the body is the variation images, then the product images, then the product with every variation image cleared and without product images; the live variations end up with no image |

## Left out

- Network I/O: the `fetch` calls and their success and failure branches in
  `handleSave`, `fetchProductsbyId` and `fetchProducts`. The form reset after
  a successful save is part of that branch.
- `PageSignUp`, `PayPalButton`, `Prices`, `index.tsx` and the date picker's
  type declaration. They hold rendering, SDK and bootstrap code only.
- JSX rendering, toasts, `useEffect`/`useState` scheduling and StrictMode
  double invocation. React applies each updater to the latest state, and
  the model applies the updaters one after another (`Cart.AddAll`).
- ProductDetailPage.TransformProduct: `parseFloat` is a parameter from text to
  an optional real (`None` for `NaN`). Floating-point parsing is not modelled.
- PageCollection.TransformProduct: the `ToNumber` conversion JavaScript applies
  in `data.discount >= 50` is a parameter in the same way.
- Dates are integer timestamps. A null or invalid `offerEnd` is `None` and is
  never in the future. `new Date(null)` is the epoch, which is never in the
  future either. The clock is the parameter `now`.
- Cart ids are compared as integers. A `NaN` id, which never equals itself, is
  not modelled.
- ProductDetailPage.CartItemFor: takes a loaded product. In the source the
  "Add to cart" button is drawn in every state (ProductDetailPage.tsx:383-385),
  while the shown product is an empty object until a fetch succeeds (line 126)
  and stays empty when the fetch or the transformation fails (lines 154-156).
  A click then builds a line whose id, name, price and image are `undefined`.
  `addToCart` appends it, and a later such click merges into it, since
  `undefined === undefined`. Ids are integers here, so this line is not
  modelled.
- Cart.AddToCartTotalUnits: requires unique ids. With duplicate ids, a merge
  adds one unit to every matching line. `Cart.TotalUnitsIncrement` states that
  case.
- NcInputNumber.ParseInt: values are unbounded integers. Double precision
  (rounding beyond 2^53, `Infinity`) is not modelled.
- NcInputNumber.ClampIdempotent: holds for the model's unbounded integers,
  but in the source only for emitted values below 10^21. From 10^21 on,
  `String(n)` writes exponent notation (`"1e+21"`), which `parseInt` reads
  as 1. It also fails for `Infinity`. `Decimal` covers only the plain
  notation.
- ProductDetailPage.TransformProduct and PageCollection.TransformProduct:
  the record type makes every field present. In the source both throw a
  `TypeError` for a record without `category` or `variation`, or with a
  variation that has no `size`. The detail page also throws for a record
  without `images`. The fetch handlers' `catch` then only logs the error.
  These failures are not modelled.
- Quantities are unbounded integers, so the cart's `+ 1` never overflows.
- ProductForm.HandleChange: it takes one of the scalar keys of `FormData`.
  The inputs that call it carry `name`, `price`, `discount`, `rating`,
  `saleCount`, `shortDescription` and `fullDescription` (`IsInputField`).
  No input carries `sku` or `new`, so the `new` branch is modelled but no
  rendered input reaches it. A `name` outside the keys of `FormData` would
  add a new key, and that is not modelled.
- ProductForm.HandleVariationChange: requires an existing variation index.
  The same holds for `HandleAddSize` and `HandleColorChange`. With a missing
  index the source throws a `TypeError` when it reads the entry.
- ProductForm.HandleVariationImageChange: requires an existing index when a
  file is picked, for the same reason.
- ProductForm.PreparePayload: requires distinct variation objects. The
  initial state and every updater keep the variation objects distinct.
- ProductForm.PayloadOf: JSON serialization is the `Payload` value, not its
  text. `JSON.stringify` writes `"image": null` for a cleared variation and
  leaves the key out for one that never had an image. `None` stands for
  both, so the model does not tell the two apart.
