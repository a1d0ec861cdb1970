/**
 * `productSchema`: the product body validator, as a predicate over the five
 * fields of a JSON object and as the list of fields a parse reports as
 * failing. The URL check is the parameter `isUrl`.
 */
module Validation {
  import opened Js

  datatype ProductInput = ProductInput(name: Value, category: Value, price: Value, stock: Value, image: Value)

  /** `z.string().min(1)`. */
  predicate NonEmptyString(v: Value) {
    v.Str? && |v.s| >= 1
  }

  /** `z.number().positive()`. */
  predicate PositiveNumber(v: Value) {
    v.Num? && v.x > 0.0
  }

  /** `z.number().int().nonnegative()`. */
  predicate NonNegativeInteger(v: Value) {
    v.Num? && v.x.Floor as real == v.x && v.x >= 0.0
  }

  /** `z.string().url()`. */
  predicate UrlString(v: Value, isUrl: string -> bool) {
    v.Str? && isUrl(v.s)
  }

  /** The body passes `productSchema`. */
  predicate ProductValid(p: ProductInput, isUrl: string -> bool) {
    && NonEmptyString(p.name)
    && NonEmptyString(p.category)
    && PositiveNumber(p.price)
    && NonNegativeInteger(p.stock)
    && UrlString(p.image, isUrl)
  }

  datatype Field = Name | Category | Price | Stock | Image

  /** The schema's fields, in declaration order. */
  const Fields: seq<Field> := [Name, Category, Price, Stock, Image]

  lemma EveryFieldListed()
    ensures forall f :: f in Fields
  {
    forall f: Field ensures f in Fields {
      match f
      case Name => assert Fields[0] == f;
      case Category => assert Fields[1] == f;
      case Price => assert Fields[2] == f;
      case Stock => assert Fields[3] == f;
      case Image => assert Fields[4] == f;
    }
  }

  /** Field `f` of the body satisfies its rule. */
  predicate Holds(p: ProductInput, isUrl: string -> bool, f: Field) {
    match f
    case Name => NonEmptyString(p.name)
    case Category => NonEmptyString(p.category)
    case Price => PositiveNumber(p.price)
    case Stock => NonNegativeInteger(p.stock)
    case Image => UrlString(p.image, isUrl)
  }

  /** The fields among `fs` that fail their rule, in the order of `fs`. */
  function Failing(p: ProductInput, isUrl: string -> bool, fs: seq<Field>): (r: seq<Field>)
    ensures forall f :: f in r <==> f in fs && !Holds(p, isUrl, f)
    ensures |r| <= |fs|
  {
    if fs == [] then []
    else (if Holds(p, isUrl, fs[0]) then [] else [fs[0]]) + Failing(p, isUrl, fs[1..])
  }

  /** The fields a parse of the body reports, in the schema's field order. */
  function ProductIssues(p: ProductInput, isUrl: string -> bool): (r: seq<Field>)
    ensures forall f :: f in r <==> !Holds(p, isUrl, f)
    ensures |r| <= 5
  {
    EveryFieldListed();
    Failing(p, isUrl, Fields)
  }

  /** A body is accepted exactly when no field is reported. */
  lemma ValidIffNoIssues(p: ProductInput, isUrl: string -> bool)
    ensures ProductValid(p, isUrl) <==> ProductIssues(p, isUrl) == []
  {
    var r := ProductIssues(p, isUrl);
    if r != [] {
      assert !Holds(p, isUrl, r[0]);
    }
    if !ProductValid(p, isUrl) {
      var f: Field :| !Holds(p, isUrl, f);
      assert f in r;
    }
  }

  /** Boundary values: price 0 and a fractional or negative stock are refused; stock 0 is accepted. */
  lemma Boundaries()
    ensures !PositiveNumber(Num(0.0)) && PositiveNumber(Num(0.01))
    ensures NonNegativeInteger(Num(0.0)) && !NonNegativeInteger(Num(1.5)) && !NonNegativeInteger(Num(-1.0))
    ensures !NonEmptyString(Str("")) && !NonEmptyString(Num(1.0))
  {
    assert (1.5).Floor == 1;
  }
}
