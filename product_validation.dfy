/**
 * The product validation schema of lib/validation/schemas.ts: the field
 * constraints a product form must meet, checked field by field in schema
 * order and, within a field, in the order the schema adds its tests. Every
 * failed test is reported (validation does not stop at the first error);
 * tests other than `required` skip a value that is absent.
 */
module ProductValidation {
  import opened Wrappers
  import opened Js
  import Gateway

  /** A field of the submitted object: not there, `null`, or a value. */
  datatype Field<T> = Missing | Null | Present(value: T)

  /** An element of the submitted `tags` array. */
  datatype TagValue = TagString(s: string) | TagOther

  /** The object the schema validates; numbers are reals, as JavaScript numbers are. */
  datatype ProductInput = ProductInput(
    name: Field<string>,
    description: Field<string>,
    category: Field<string>,
    subcategory: Field<string>,
    price: Field<real>,
    rating: Field<real>,
    reviews_count: Field<real>,
    in_stock: Field<bool>,
    brand: Field<string>,
    tags: Field<seq<TagValue>>,
    image_url: Field<string>)

  /** The test that failed. */
  datatype Check =
    | Required | MinLength | MaxLength | Positive | Min | Max | Integer
    | TagCount | TagType | NotNullable | Url

  datatype FieldError = FieldError(path: string, check: Check)

  /** The schema's own message for a failed test; None where the validation library supplies its own. */
  function Message(e: FieldError): Option<string> {
    match (e.path, e.check)
    case ("name", Required) => Some("Product name is required")
    case ("name", MinLength) => Some("Name must be at least 3 characters")
    case ("name", MaxLength) => Some("Name must be less than 200 characters")
    case ("description", Required) => Some("Description is required")
    case ("description", MinLength) => Some("Description must be at least 10 characters")
    case ("description", MaxLength) => Some("Description must be less than 1000 characters")
    case ("category", Required) => Some("Category is required")
    case ("subcategory", Required) => Some("Subcategory is required")
    case ("price", Positive) => Some("Price must be a positive number")
    case ("price", Required) => Some("Price is required")
    case ("rating", Min) => Some("Rating must be at least 0")
    case ("rating", Max) => Some("Rating must be at most 5")
    case ("rating", Required) => Some("Rating is required")
    case ("reviews_count", Min) => Some("Reviews count must be at least 0")
    case ("reviews_count", Integer) => Some("Reviews count must be an integer")
    case ("reviews_count", Required) => Some("Reviews count is required")
    case ("in_stock", Required) => Some("Stock status is required")
    case ("brand", Required) => Some("Brand is required")
    case ("tags", TagCount) => Some("At least one tag is required")
    case ("image_url", Url) => Some("Must be a valid URL")
    case _ => None
  }

  function Fail(path: string, check: Check, failed: bool): (r: seq<FieldError>)
    ensures failed <==> r == [FieldError(path, check)]
    ensures !failed <==> r == []
  {
    if failed then [FieldError(path, check)] else []
  }

  /**
   * A required string with optional length bounds: the length tests, added
   * first, look at any present string; `required`, added last, rejects an
   * absent, null or empty value.
   */
  function StringErrors(path: string, f: Field<string>, lo: nat, hi: nat, bounded: bool): (r: seq<FieldError>)
    ensures r == [] <==> f.Present? && f.value != "" && (bounded ==> lo <= |f.value| <= hi)
    ensures !f.Present? ==> r == [FieldError(path, Required)]
    ensures f.Present? && f.value == "" ==> |r| > 0 && r[|r| - 1] == FieldError(path, Required)
    ensures bounded && f.Present? && |f.value| < lo ==> |r| > 0 && r[0] == FieldError(path, MinLength)
    ensures bounded && f.Present? && lo <= |f.value| && |f.value| > hi ==> |r| > 0 && r[0] == FieldError(path, MaxLength)
    ensures bounded && f.Present? && f.value == "" && lo > 0 ==>
              r == [FieldError(path, MinLength), FieldError(path, Required)]
  {
    (if bounded && f.Present? then Fail(path, MinLength, |f.value| < lo) + Fail(path, MaxLength, |f.value| > hi) else [])
    + Fail(path, Required, !f.Present? || f.value == "")
  }

  /** `price`: a required number, strictly positive. */
  function PriceErrors(f: Field<real>): (r: seq<FieldError>)
    ensures r == [] <==> f.Present? && f.value > 0.0
  {
    if !f.Present? then [FieldError("price", Required)]
    else Fail("price", Positive, f.value <= 0.0)
  }

  /** `rating`: a required number between 0 and 5 inclusive. */
  function RatingErrors(f: Field<real>): (r: seq<FieldError>)
    ensures r == [] <==> f.Present? && 0.0 <= f.value <= 5.0
  {
    if !f.Present? then [FieldError("rating", Required)]
    else Fail("rating", Min, f.value < 0.0) + Fail("rating", Max, f.value > 5.0)
  }

  predicate IsInteger(x: real) {
    x.Floor as real == x
  }

  /** `reviews_count`: a required whole number, at least 0. */
  function ReviewsCountErrors(f: Field<real>): (r: seq<FieldError>)
    ensures r == [] <==> f.Present? && f.value >= 0.0 && IsInteger(f.value)
  {
    if !f.Present? then [FieldError("reviews_count", Required)]
    else Fail("reviews_count", Min, f.value < 0.0) + Fail("reviews_count", Integer, !IsInteger(f.value))
  }

  /** The tag array is optional; when there it needs an element, and every element must be a string. */
  function TagErrors(f: Field<seq<TagValue>>): (r: seq<FieldError>)
    ensures r == [] <==> f.Missing? || (f.Present? && |f.value| >= 1 && forall i :: 0 <= i < |f.value| ==> f.value[i].TagString?)
  {
    match f
    case Missing => []
    case Null => [FieldError("tags", NotNullable)]
    case Present(ts) => Fail("tags", TagCount, |ts| < 1) + ElementErrors(ts, 0)
  }

  /** One error per non-string element, at its index. */
  function ElementErrors(ts: seq<TagValue>, from: nat): (r: seq<FieldError>)
    requires from <= |ts|
    ensures r == [] <==> forall i :: from <= i < |ts| ==> ts[i].TagString?
    ensures forall k :: 0 <= k < |r| ==> r[k].check == TagType
    decreases |ts| - from
  {
    if from == |ts| then []
    else
      (if ts[from].TagString? then [] else [FieldError("tags[" + IntToString(from) + "]", TagType)])
      + ElementErrors(ts, from + 1)
  }

  /** The image is optional and may be null; a non-empty string must be a URL. */
  function ImageErrors(f: Field<string>, isUrl: string -> bool): (r: seq<FieldError>)
    ensures r == [] <==> !f.Present? || f.value == "" || isUrl(f.value)
  {
    Fail("image_url", Url, f.Present? && f.value != "" && !isUrl(f.value))
  }

  /** Every failed test of the schema, field by field in schema order; the URL pattern is a parameter. */
  function Validate(p: ProductInput, isUrl: string -> bool): (errors: seq<FieldError>)
    ensures errors == [] <==> MeetsSchema(p, isUrl)
  {
    StringErrors("name", p.name, 3, 200, true)
    + StringErrors("description", p.description, 10, 1000, true)
    + StringErrors("category", p.category, 0, 0, false)
    + StringErrors("subcategory", p.subcategory, 0, 0, false)
    + PriceErrors(p.price)
    + RatingErrors(p.rating)
    + ReviewsCountErrors(p.reviews_count)
    + (if p.in_stock.Present? then [] else [FieldError("in_stock", Required)])
    + StringErrors("brand", p.brand, 0, 0, false)
    + TagErrors(p.tags)
    + ImageErrors(p.image_url, isUrl)
  }

  /** The schema's constraints, stated field by field. */
  predicate MeetsSchema(p: ProductInput, isUrl: string -> bool) {
    && p.name.Present? && 3 <= |p.name.value| <= 200
    && p.description.Present? && 10 <= |p.description.value| <= 1000
    && p.category.Present? && p.category.value != ""
    && p.subcategory.Present? && p.subcategory.value != ""
    && p.price.Present? && p.price.value > 0.0
    && p.rating.Present? && 0.0 <= p.rating.value <= 5.0
    && p.reviews_count.Present? && p.reviews_count.value >= 0.0 && IsInteger(p.reviews_count.value)
    && p.in_stock.Present?
    && p.brand.Present? && p.brand.value != ""
    && (p.tags.Missing? || (p.tags.Present? && |p.tags.value| >= 1 && forall i :: 0 <= i < |p.tags.value| ==> p.tags.value[i].TagString?))
    && (!p.image_url.Present? || p.image_url.value == "" || isUrl(p.image_url.value))
  }

  /** A name of two characters fails only the minimum-length test, with the schema's message. */
  lemma ShortNameRejected(p: ProductInput, isUrl: string -> bool)
    requires MeetsSchema(p, isUrl)
    ensures var q := p.(name := Present("TV"));
      Validate(q, isUrl) == [FieldError("name", MinLength)]
      && Message(Validate(q, isUrl)[0]) == Some("Name must be at least 3 characters")
  {
    var q := p.(name := Present("TV"));
    assert StringErrors("name", q.name, 3, 200, true) == [FieldError("name", MinLength)];
    assert Validate(q, isUrl) == StringErrors("name", q.name, 3, 200, true) + Validate(p.(name := Present("abc")), isUrl) by {
      assert StringErrors("name", Present("abc"), 3, 200, true) == [];
    }
  }

  /** A negative, fractional review count fails both of its tests, in schema order. */
  lemma FractionalNegativeCountRejected(p: ProductInput, isUrl: string -> bool)
    requires MeetsSchema(p, isUrl)
    ensures Validate(p.(reviews_count := Present(-0.5)), isUrl) ==
              [FieldError("reviews_count", Min), FieldError("reviews_count", Integer)]
  {
    var q := p.(reviews_count := Present(-0.5));
    assert (-0.5).Floor == -1;
    assert ReviewsCountErrors(q.reviews_count) == [FieldError("reviews_count", Min), FieldError("reviews_count", Integer)];
  }

  /** A product as stored in the index, submitted with every field present. */
  function AsInput(d: Gateway.Product): ProductInput {
    ProductInput(
      Present(d.name), Present(d.description), Present(d.category), Present(d.subcategory),
      Present(d.price), Present(d.rating), Present(d.reviews_count as real), Present(d.in_stock),
      Present(d.brand), Present(seq(|d.tags|, i requires 0 <= i < |d.tags| => TagString(d.tags[i]))),
      Present(d.image_url))
  }

  /** The mock headphones the gateway serves while the search service is down meet the schema. */
  lemma MockHeadphonesValid(isUrl: string -> bool)
    requires isUrl(Gateway.MockHeadphones.document.image_url)
    ensures Validate(AsInput(Gateway.MockHeadphones.document), isUrl) == []
  {
    var d := Gateway.MockHeadphones.document;
    assert |d.description| == |"High-quality wireless"| + |" headphones with"| + |" active noise cancellation."|;
  }

  /** So does the mock smart watch. */
  lemma MockWatchValid(isUrl: string -> bool)
    requires isUrl(Gateway.MockWatch.document.image_url)
    ensures Validate(AsInput(Gateway.MockWatch.document), isUrl) == []
  {
    var d := Gateway.MockWatch.document;
    assert |d.description| == |"Advanced fitness"| + |" tracking and "| + |"smartphone"| + |" integration."|;
  }
}
