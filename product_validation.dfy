/** The product form schema (src/components/product/product-validation-schema.ts) as a validity
    predicate over the submitted values. The values are taken as already cast: a number field
    holds a number, a string field a string; a value of the wrong kind is a type error. */
module ProductValidation {
  import opened Js
  import NameRequired

  /** `string().required()` (also with `.nullable()` before it): a string that is not empty;
      `undefined` and `null` fail. */
  predicate RequiredString(v: Value) {
    v.Str? && v.s != ""
  }

  /** `string().notRequired()`: absent, `null` or any string. */
  predicate OptionalString(v: Value) {
    v.Undefined? || v.Null? || v.Str?
  }

  /** `number().typeError(..).positive(..).required(..)`: a number above zero; NaN is a type error. */
  predicate PositiveNumber(v: Value) {
    v.Num? && v.n > 0.0
  }

  /** `number() ... .positive(..).integer(..).required(..)` */
  predicate PositiveInteger(v: Value) {
    PositiveNumber(v) && v.n.Floor as real == v.n
  }

  /** `number().transform(isNaN ? undefined : v).lessThan(ref('price')).positive().nullable()`:
      absent, NaN and `null` pass; a number must be above zero and below the price. */
  predicate SalePriceRule(sale: Value, price: Value) {
    var cast := if sale.NaN? then Undefined else sale;
    cast.Undefined? || cast.Null? || (cast.Num? && cast.n > 0.0 && price.Num? && cast.n < price.n)
  }

  /** `boolean()`: absent or a boolean. */
  predicate OptionalBoolean(v: Value) {
    v.Undefined? || v.Bool?
  }

  /** `digital_file_input: object().when('is_digital', ..)`: a digital product needs a file
      object with an id (an absent object is replaced by its default, whose id is missing);
      otherwise the object may be absent or `null`, and its `id` and `original` are optional. */
  predicate DigitalFileRule(isDigital: Value, file: Value) {
    if isDigital == Bool(true) then file.Obj? && RequiredString(Get(file, "id"))
    else file.Undefined? || file.Null? || (file.Obj? && OptionalString(Get(file, "id")) && OptionalString(Get(file, "original")))
  }

  /** One element of `variation_options`. */
  predicate VariationValid(o: Value) {
    && o.Obj?
    && PositiveNumber(Get(o, "price"))
    && SalePriceRule(Get(o, "sale_price"), Get(o, "price"))
    && PositiveInteger(Get(o, "quantity"))
    && RequiredString(Get(o, "sku"))
    && OptionalBoolean(Get(o, "is_digital"))
    && DigitalFileRule(Get(o, "is_digital"), Get(o, "digital_file_input"))
  }

  /** `variation_options: array().of(..)`: absent, or an array whose every element is valid. */
  predicate VariationsRule(v: Value) {
    v.Undefined? || (v.Arr? && forall i :: 0 <= i < |v.items| ==> VariationValid(v.items[i]))
  }

  /** The keys the schema looks at. */
  const SchemaKeys: set<string> := {"translations", "sku", "price", "sale_price", "quantity", "unit",
                                    "status", "variation_options", "is_digital", "digital_file_input"}

  predicate ProductValid(values: Record) {
    && NameRequired.NameRequired(Field(values, "translations"))
    && RequiredString(Field(values, "sku"))
    && PositiveNumber(Field(values, "price"))
    && SalePriceRule(Field(values, "sale_price"), Field(values, "price"))
    && PositiveInteger(Field(values, "quantity"))
    && RequiredString(Field(values, "unit"))
    && RequiredString(Field(values, "status"))
    && VariationsRule(Field(values, "variation_options"))
    && OptionalBoolean(Field(values, "is_digital"))
    && DigitalFileRule(Field(values, "is_digital"), Field(values, "digital_file_input"))
  }

  /** What a valid product guarantees: an English or Russian name, a positive price, a sale
      price (when it is a number) strictly between 0 and the price, a positive whole quantity,
      and non-empty sku, unit and status. */
  lemma ValidProductFields(values: Record)
    requires ProductValid(values)
    ensures NameRequired.NameRequired(Field(values, "translations"))
    ensures Field(values, "price").Num? && Field(values, "price").n > 0.0
    ensures Field(values, "sale_price").Num? ==>
      0.0 < Field(values, "sale_price").n < Field(values, "price").n
    ensures Field(values, "quantity").Num? && Field(values, "quantity").n > 0.0
    ensures Field(values, "quantity").n == Field(values, "quantity").n.Floor as real
    ensures Field(values, "sku").Str? && Field(values, "sku").s != ""
    ensures Field(values, "unit").Str? && Field(values, "unit").s != ""
    ensures Field(values, "status").Str? && Field(values, "status").s != ""
  {
  }

  /** A sale price at or above the price is rejected. */
  lemma SalePriceNotBelowPriceRejected(values: Record, sale: real)
    requires Field(values, "price").Num? && sale >= Field(values, "price").n
    ensures !ProductValid(values["sale_price" := Num(sale)])
  {
  }

  /** `a` and `b` agree on every schema field except `sale_price`. */
  predicate AgreeBesidesSalePrice(a: Record, b: Record) {
    && Field(a, "translations") == Field(b, "translations")
    && Field(a, "sku") == Field(b, "sku")
    && Field(a, "price") == Field(b, "price")
    && Field(a, "quantity") == Field(b, "quantity")
    && Field(a, "unit") == Field(b, "unit")
    && Field(a, "status") == Field(b, "status")
    && Field(a, "variation_options") == Field(b, "variation_options")
    && Field(a, "is_digital") == Field(b, "is_digital")
    && Field(a, "digital_file_input") == Field(b, "digital_file_input")
  }

  /** A NaN sale price counts as no sale price, and so does `null`. */
  lemma SalePriceNaNIsAbsent(values: Record)
    ensures ProductValid(values["sale_price" := NaN]) == ProductValid(values - {"sale_price"})
    ensures ProductValid(values["sale_price" := Null]) == ProductValid(values - {"sale_price"})
  {
    var absent := values - {"sale_price"};
    assert AgreeBesidesSalePrice(values["sale_price" := NaN], absent);
    assert AgreeBesidesSalePrice(values["sale_price" := Null], absent);
  }

  /** A whole quantity is required: 2.5 items never pass. */
  lemma FractionalQuantityRejected(values: Record, q: real)
    requires q.Floor as real != q
    ensures !ProductValid(values["quantity" := Num(q)])
  {
  }

  /** Fields outside the schema are ignored. */
  lemma UnknownKeysIgnored(values: Record, key: string, v: Value)
    requires key !in SchemaKeys
    ensures ProductValid(values[key := v]) == ProductValid(values)
  {
    assert forall k :: k in SchemaKeys ==> Field(values[key := v], k) == Field(values, k);
  }

  /** Each variation satisfies the price, sale price, quantity and sku rules on its own; adding
      a valid variation or removing any keeps the product valid. */
  lemma VariationsElementwise(values: Record, items: seq<Value>)
    requires Field(values, "variation_options") == Arr(items)
    ensures ProductValid(values) ==> forall i :: 0 <= i < |items| ==>
      && PositiveNumber(Get(items[i], "price"))
      && SalePriceRule(Get(items[i], "sale_price"), Get(items[i], "price"))
      && PositiveInteger(Get(items[i], "quantity"))
      && RequiredString(Get(items[i], "sku"))
    ensures forall x :: ProductValid(values) && VariationValid(x) ==>
      ProductValid(values["variation_options" := Arr(items + [x])])
    ensures forall i :: 0 <= i < |items| && ProductValid(values) ==>
      ProductValid(values["variation_options" := Arr(items[..i] + items[i + 1..])])
  {
    forall x | ProductValid(values) && VariationValid(x)
      ensures ProductValid(values["variation_options" := Arr(items + [x])])
    {
      var updated := values["variation_options" := Arr(items + [x])];
      assert forall k :: k != "variation_options" ==> Field(updated, k) == Field(values, k);
      assert VariationsRule(Arr(items + [x])) by {
        forall j | 0 <= j < |items + [x]| ensures VariationValid((items + [x])[j]) {
          if j < |items| { assert (items + [x])[j] == items[j]; }
        }
      }
    }
    forall i | 0 <= i < |items| && ProductValid(values)
      ensures ProductValid(values["variation_options" := Arr(items[..i] + items[i + 1..])])
    {
      var rest := items[..i] + items[i + 1..];
      var updated := values["variation_options" := Arr(rest)];
      assert forall k :: k != "variation_options" ==> Field(updated, k) == Field(values, k);
      assert VariationsRule(Arr(rest)) by {
        forall j | 0 <= j < |rest| ensures VariationValid(rest[j]) {
          if j < i { assert rest[j] == items[j]; } else { assert rest[j] == items[j + 1]; }
        }
      }
    }
  }

  /** A digital product is valid only with a file whose id is a non-empty string; a product
      that is not digital may leave the file out or set it to `null`. */
  lemma DigitalFileRequirement(values: Record)
    ensures ProductValid(values) && Field(values, "is_digital") == Bool(true) ==>
      Field(values, "digital_file_input").Obj? && RequiredString(Get(Field(values, "digital_file_input"), "id"))
    ensures Field(values, "is_digital") != Bool(true) ==>
      ProductValid(values["digital_file_input" := Null]) == ProductValid(values - {"digital_file_input"})
  {
    assert forall k :: k != "digital_file_input" ==>
      Field(values["digital_file_input" := Null], k) == Field(values - {"digital_file_input"}, k);
  }
}
