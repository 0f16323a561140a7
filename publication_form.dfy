/** The publication form's submit payload, its default values and the slug suggestion guard
    (src/components/publication/publication-form.tsx). */
module PublicationForm {
  import opened Js
  import opened FormSubmit

  /** `values.slug || slugAutoSuggest` */
  function FinalSlug(values: Record, slugAutoSuggest: string): (slug: Value)
    ensures Truthy(Field(values, "slug")) ==> slug == Field(values, "slug")
    ensures !Truthy(Field(values, "slug")) ==> slug == Str(slugAutoSuggest)
  {
    Or(Field(values, "slug"), Str(slugAutoSuggest))
  }

  /** `{thumbnail: values?.image?.thumbnail, original: values?.image?.original, id: values?.image?.id}` */
  function ImageInput(values: Record): Record {
    var image := Field(values, "image");
    map["thumbnail" := Get(image, "thumbnail"), "original" := Get(image, "original"), "id" := Get(image, "id")]
  }

  /** The form's own entry for its locale: `{title: values.title, description: values.description}`. */
  function LocaleEntry(values: Record): Value {
    Obj(map["title" := Field(values, "title"), "description" := Field(values, "description")])
  }

  /** The `input` object `onSubmit` builds from the form values. */
  function SubmitInput(values: Record, routerLocale: Option<string>, slugAutoSuggest: string): Record {
    Spread(map[], Obj(values))
      ["language" := Language(routerLocale)]
      ["image" := Obj(ImageInput(values))]
      ["translations" := Obj(MergeTranslations(Locale(routerLocale), LocaleEntry(values), Field(values, "translations")))]
      ["slug" := FinalSlug(values, slugAutoSuggest)]
  }

  /** The payload holds the form values with four entries set: the raw router locale as
      `language`, an image reduced to exactly its thumbnail, original and id, the merged
      translations under the fallen-back locale, and the final slug. Nothing else changes. */
  lemma SubmitInputShape(values: Record, routerLocale: Option<string>, slugAutoSuggest: string)
    ensures var input := SubmitInput(values, routerLocale, slugAutoSuggest);
      && input.Keys == values.Keys + {"language", "image", "translations", "slug"}
      && (forall k :: k in values && k !in {"language", "image", "translations", "slug"} ==> input[k] == values[k])
      && input["language"] == Language(routerLocale)
      && input["image"] == Obj(map["thumbnail" := Get(Field(values, "image"), "thumbnail"),
                                   "original" := Get(Field(values, "image"), "original"),
                                   "id" := Get(Field(values, "image"), "id")])
      && input["image"].fields.Keys == {"thumbnail", "original", "id"}
      && input["slug"] == (if Truthy(Field(values, "slug")) then Field(values, "slug") else Str(slugAutoSuggest))
  {
    assert Spread(map[], Obj(values)) == values;
  }

  /** The payload's translations: every caller entry unchanged, only the locale key added, and
      that key holding the form's title and description unless the caller supplied it. */
  lemma SubmitTranslations(values: Record, routerLocale: Option<string>, slugAutoSuggest: string)
    ensures var t := SubmitInput(values, routerLocale, slugAutoSuggest)["translations"];
      var given := Field(values, "translations");
      var locale := Locale(routerLocale);
      && t.Obj?
      && t.fields.Keys == {locale} + (if given.Obj? then given.fields.Keys else {})
      && (given.Obj? ==> forall k :: k in given.fields ==> t.fields[k] == given.fields[k])
      && (!(given.Obj? && locale in given.fields) ==>
            t.fields[locale] == Obj(map["title" := Field(values, "title"), "description" := Field(values, "description")]))
  {
    MergeTranslationsEntries(Locale(routerLocale), LocaleEntry(values), Field(values, "translations"));
  }

  /** What `onSubmit` sends. */
  function OnSubmit(values: Record, routerLocale: Option<string>, slugAutoSuggest: string, initialValues: Value): Submission {
    Dispatch(initialValues, SubmitInput(values, routerLocale, slugAutoSuggest))
  }

  /** Without initial values the payload is created; with them it is updated under their id. */
  lemma OnSubmitDispatch(values: Record, routerLocale: Option<string>, slugAutoSuggest: string, initialValues: Value)
    ensures var input := SubmitInput(values, routerLocale, slugAutoSuggest);
      && (!Truthy(initialValues) ==> OnSubmit(values, routerLocale, slugAutoSuggest, initialValues) == Create(input))
      && (Truthy(initialValues) ==>
            OnSubmit(values, routerLocale, slugAutoSuggest, initialValues) == Update(input["id" := Get(initialValues, "id")]))
  {
    DispatchCases(initialValues, SubmitInput(values, routerLocale, slugAutoSuggest));
  }

  /** `useForm`'s default values: none without initial values, otherwise the initial values with
      `translations` defaulting to `{}`. */
  function DefaultValues(initialValues: Value): Option<Record> {
    if !Truthy(initialValues) then None
    else Some(Spread(map[], initialValues)["translations" := Or(Get(initialValues, "translations"), Obj(map[]))])
  }

  lemma DefaultValuesShape(initialValues: Value)
    ensures DefaultValues(initialValues).None? <==> !Truthy(initialValues)
    ensures initialValues.Obj? ==>
      var d := DefaultValues(initialValues).value;
      && d.Keys == initialValues.fields.Keys + {"translations"}
      && (forall k :: k in initialValues.fields && k != "translations" ==> d[k] == initialValues.fields[k])
      && d["translations"] == (if Truthy(Get(initialValues, "translations")) then Get(initialValues, "translations") else Obj(map[]))
  {
  }

  /** `watch(`translations.${locale}.title`)` */
  function TranslatedTitle(formValues: Record, locale: string): Value {
    Get(Get(Field(formValues, "translations"), locale), "title")
  }

  /** The suggestion after the effect on the translated title has run: replaced by the
      formatted title when the title is non-empty, otherwise kept. */
  function NextSlugSuggest(current: string, translatedTitle: Value, formatSlug: Value -> string): (next: string)
    ensures next != current ==> Truthy(translatedTitle)
    ensures Truthy(translatedTitle) ==> next == formatSlug(translatedTitle)
  {
    if Truthy(translatedTitle) then formatSlug(translatedTitle) else current
  }

  /** An empty or missing title keeps the previous suggestion, so the slug falls back to it. */
  lemma EmptyTitleKeepsSuggestion(values: Record, routerLocale: Option<string>, current: string, formatSlug: Value -> string)
    requires !Truthy(TranslatedTitle(values, Locale(routerLocale)))
    ensures NextSlugSuggest(current, TranslatedTitle(values, Locale(routerLocale)), formatSlug) == current
    ensures !Truthy(Field(values, "slug")) ==>
      SubmitInput(values, routerLocale, NextSlugSuggest(current, TranslatedTitle(values, Locale(routerLocale)), formatSlug))["slug"]
        == Str(current)
  {
  }
}
