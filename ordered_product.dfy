/** Ordered-product formatting and the translation fallback applied to the products of an order
    (src/utils/format-ordered-product.ts). A call that the source would abort with a TypeError
    (reading a property of `null`/`undefined`, assigning a property of a primitive in strict
    mode, calling `map` on something that is not an array) yields `None`. An array is an object,
    so it takes the assignments; `Js.Arr` has no named properties, so it comes back unchanged. */
module OrderedProduct {
  import opened Js

  /** The value a translated field takes when no translation supplies one. */
  const DefaultTranslateValue: string := ""

  /** The language `applyProductTranslations` and `applyOrderTranslations` use when the
      caller passes none. */
  const DefaultLanguage: string := "en"

  // ---------------------------------------------------------------------------------------
  // formatOrderedProduct

  /** The order-line record built from a cart product. */
  function FormatOrderedProduct(product: Value): Option<Record> {
    if product.Undefined? || product.Null? then None  // `product.id` throws
    else
      var productId := if Truthy(Get(product, "productId")) then Get(product, "productId") else Get(product, "id");
      var line := map[
        "product_id" := productId,
        "order_quantity" := Get(product, "quantity"),
        "unit_price" := Get(product, "price"),
        "subtotal" := Get(product, "itemTotal")];
      Some(if Truthy(Get(product, "variationId")) then line["variation_option_id" := Get(product, "variationId")] else line)
  }

  /** What an order line holds: the product id (preferring a truthy `productId`), the copied
      quantity, price and total, and a variation id exactly when the product has a truthy one. */
  lemma FormatOrderedProductFields(product: Value)
    ensures product.Undefined? || product.Null? <==> FormatOrderedProduct(product).None?
    ensures FormatOrderedProduct(product).Some? ==>
      var line := FormatOrderedProduct(product).value;
      && line.Keys == {"product_id", "order_quantity", "unit_price", "subtotal"}
                      + (if Truthy(Get(product, "variationId")) then {"variation_option_id"} else {})
      && line["product_id"] == (if Truthy(Get(product, "productId")) then Get(product, "productId") else Get(product, "id"))
      && line["order_quantity"] == Get(product, "quantity")
      && line["unit_price"] == Get(product, "price")
      && line["subtotal"] == Get(product, "itemTotal")
      && ("variation_option_id" in line <==> Truthy(Get(product, "variationId")))
      && ("variation_option_id" in line ==> line["variation_option_id"] == Get(product, "variationId"))
  {
  }

  // ---------------------------------------------------------------------------------------
  // applyProductTranslations

  /** The first truthy candidate, or the default translation value when there is none: the
      reference reading of a chain `c0 || c1 || ... || ""`. */
  function FirstTruthy(candidates: seq<Value>): (r: Value)
    ensures Truthy(r) || r == Str(DefaultTranslateValue)
    ensures Truthy(r) ==> r in candidates
  {
    if candidates == [] then Str(DefaultTranslateValue)
    else if Truthy(candidates[0]) then candidates[0]
    else FirstTruthy(candidates[1..])
  }

  /** `product.translations || {}` */
  function Translations(product: Record): Value {
    Or(Field(product, "translations"), Obj(map[]))
  }

  /** The value `applyProductTranslations` assigns to `field` (`name` or `description`). */
  function TranslatedField(translations: Value, language: string, field: string): Value {
    var translation := Get(translations, language);
    var english := Get(Get(translations, "en"), field);
    if Truthy(translation) then
      Or(Get(translation, field), Or(english, Str(DefaultTranslateValue)))
    else
      Or(english, Str(DefaultTranslateValue))
  }

  /** The product object after `applyProductTranslations(product, language)` has assigned its
      `name` and `description`. */
  function Translated(product: Record, language: string): Record {
    var translations := Translations(product);
    product["name" := TranslatedField(translations, language, "name")]
           ["description" := TranslatedField(translations, language, "description")]
  }

  /** Field-by-field fallback: with an entry for the requested language a field is the first
      non-empty of that entry's field, the English field and ""; without one, the first
      non-empty of the English field and "". */
  lemma TranslatedFieldFallback(product: Record, language: string, field: string)
    requires field == "name" || field == "description"
    ensures var translations := Translations(product);
      var english := Get(Get(translations, "en"), field);
      Field(Translated(product, language), field) ==
        if Truthy(Get(translations, language))
        then FirstTruthy([Get(Get(translations, language), field), english])
        else FirstTruthy([english])
  {
    var translations := Translations(product);
    var english := Get(Get(translations, "en"), field);
    assert [english][1..] == [];
    if Truthy(Get(translations, language)) {
      var own := Get(Get(translations, language), field);
      assert [own, english][1..] == [english];
    }
  }

  /** A missing (or otherwise falsy) `translations` behaves as `{}`: both fields become "". */
  lemma MissingTranslationsAsEmpty(product: Record, language: string)
    requires !Truthy(Field(product, "translations"))
    ensures Translations(product) == Obj(map[])
    ensures Field(Translated(product, language), "name") == Str(DefaultTranslateValue)
    ensures Field(Translated(product, language), "description") == Str(DefaultTranslateValue)
  {
  }

  /** Only `name` and `description` change; every other entry of the product is kept. */
  lemma TranslatedKeepsOtherFields(product: Record, language: string)
    ensures Translated(product, language).Keys == product.Keys + {"name", "description"}
    ensures forall k :: k in product && k != "name" && k != "description" ==>
      Translated(product, language)[k] == product[k]
  {
  }

  /** Translating twice is translating once: the result depends only on `translations`, which
      the translation leaves untouched. */
  lemma TranslatedIdempotent(product: Record, language: string)
    ensures Translated(Translated(product, language), language) == Translated(product, language)
  {
    var once := Translated(product, language);
    assert Field(once, "translations") == Field(product, "translations");
  }

  /** Values whose properties can be assigned: objects and arrays. */
  predicate IsObject(v: Value) {
    v.Obj? || v.Arr?
  }

  /** `applyProductTranslations` on any value: only an object (an array among them) can take the
      two assignments; `undefined` and `null` throw on `product.translations`, and a primitive
      throws on the assignment. */
  function ApplyProductTranslations(product: Value, language: Option<string>): Option<Value> {
    if product.Obj? then Some(Obj(Translated(product.fields, language.GetOr(DefaultLanguage))))
    else if product.Arr? then Some(product)
    else None
  }

  /** The translation succeeds exactly on objects; a plain object gets its fields translated in
      the requested language (`en` by default), an array comes back as it was. */
  lemma ApplyProductTranslationsCases(product: Value, language: Option<string>)
    ensures ApplyProductTranslations(product, language).Some? <==> IsObject(product)
    ensures product.Obj? ==>
      ApplyProductTranslations(product, language) == Some(Obj(Translated(product.fields, language.GetOr(DefaultLanguage))))
    ensures product.Arr? ==> ApplyProductTranslations(product, language) == Some(product)
    ensures language.None? ==> ApplyProductTranslations(product, language) == ApplyProductTranslations(product, Some("en"))
  {
  }

  /** A product held by reference, as `applyProductTranslations` receives it: the function
      assigns the fields of its argument and returns that same object. */
  class ProductObject {
    var fields: Record

    constructor (fields: Record)
      ensures this.fields == fields
    {
      this.fields := fields;
    }

    method ApplyTranslations(language: Option<string>) returns (same: ProductObject)
      modifies this
      ensures same == this
      ensures fields == Translated(old(fields), language.GetOr(DefaultLanguage))
    {
      var lang := language.GetOr(DefaultLanguage);
      var translations := Or(Field(fields, "translations"), Obj(map[]));
      var translation := Get(translations, lang);
      if Truthy(translation) {
        fields := fields["name" := Or(Get(translation, "name"), Or(Get(Get(translations, "en"), "name"), Str(DefaultTranslateValue)))];
        fields := fields["description" := Or(Get(translation, "description"), Or(Get(Get(translations, "en"), "description"), Str(DefaultTranslateValue)))];
      } else {
        fields := fields["name" := Or(Get(Get(translations, "en"), "name"), Str(DefaultTranslateValue))];
        fields := fields["description" := Or(Get(Get(translations, "en"), "description"), Str(DefaultTranslateValue))];
      }
      same := this;
    }
  }

  // ---------------------------------------------------------------------------------------
  // applyOrderTranslations

  /** `products.map(p => applyProductTranslations(p, language))`, aborted by the first element
      that is not an object. */
  function TranslateProducts(products: seq<Value>, language: Option<string>): Option<seq<Value>> {
    if products == [] then Some([])
    else
      match ApplyProductTranslations(products[0], language)
      case None => None
      case Some(first) =>
        match TranslateProducts(products[1..], language)
        case None => None
        case Some(rest) => Some([first] + rest)
  }

  /** The order with every product translated; `None` when `order.products.map` throws. */
  function ApplyOrderTranslations(order: Record, language: Option<string>): Option<Record> {
    var products := Field(order, "products");
    if !products.Arr? then None
    else
      match TranslateProducts(products.items, language)
      case None => None
      case Some(translated) => Some(order["products" := Arr(translated)])
  }

  /** Mapping the products succeeds exactly when every product is an object (or an array); the
      result has the same length and element i is product i translated. */
  lemma {:induction false} TranslateProductsElementwise(products: seq<Value>, language: Option<string>)
    ensures TranslateProducts(products, language).Some? <==> forall i :: 0 <= i < |products| ==> IsObject(products[i])
    ensures TranslateProducts(products, language).Some? ==>
      var translated := TranslateProducts(products, language).value;
      && |translated| == |products|
      && (forall i :: 0 <= i < |products| && products[i].Obj? ==>
            translated[i] == Obj(Translated(products[i].fields, language.GetOr(DefaultLanguage))))
      && (forall i :: 0 <= i < |products| && products[i].Arr? ==> translated[i] == products[i])
    decreases |products|
  {
    if products != [] {
      TranslateProductsElementwise(products[1..], language);
      assert forall i :: 1 <= i < |products| ==> products[i] == products[1..][i - 1];
    }
  }

  /** `applyOrderTranslations` keeps every order field except `products`, whose i-th element
      becomes the i-th product translated (in the requested language, `en` by default); it
      fails exactly when `products` is not an array of objects (arrays included). */
  lemma OrderTranslationsShape(order: Record, language: Option<string>)
    ensures ApplyOrderTranslations(order, language).Some? <==>
      Field(order, "products").Arr? &&
      forall i :: 0 <= i < |Field(order, "products").items| ==> IsObject(Field(order, "products").items[i])
    ensures ApplyOrderTranslations(order, language).Some? ==>
      var r := ApplyOrderTranslations(order, language).value;
      var products := Field(order, "products").items;
      && r.Keys == order.Keys
      && (forall k :: k in order && k != "products" ==> r[k] == order[k])
      && r["products"].Arr?
      && |r["products"].items| == |products|
      && (forall i :: 0 <= i < |products| && products[i].Obj? ==>
            r["products"].items[i] == Obj(Translated(products[i].fields, language.GetOr(DefaultLanguage))))
      && (forall i :: 0 <= i < |products| && products[i].Arr? ==> r["products"].items[i] == products[i])
  {
    if Field(order, "products").Arr? {
      TranslateProductsElementwise(Field(order, "products").items, language);
    }
  }
}
