/** What the publication and vacancy forms share when they submit: the locale used as the
    translation key, the merge of the locale's own entry under the caller's `translations`, and
    the choice between creating and updating (src/components/publication/publication-form.tsx,
    src/components/vacancy/vacancy-form.tsx). */
module FormSubmit {
  import opened Js

  /** The locale a form falls back to when the router has none. */
  const DefaultLocale: string := "en"

  /** `router?.locale ?? "en"`: the key the form's own translation is stored under. */
  function Locale(routerLocale: Option<string>): (locale: string)
    ensures routerLocale.Some? ==> locale == routerLocale.value
    ensures routerLocale.None? ==> locale == DefaultLocale
  {
    routerLocale.GetOr(DefaultLocale)
  }

  /** `router.locale` as it is put in the payload's `language`: no fallback. */
  function Language(routerLocale: Option<string>): (v: Value)
    ensures routerLocale.Some? <==> v.Str?
    ensures routerLocale.Some? ==> v == Str(routerLocale.value)
    ensures routerLocale.None? ==> v == Undefined
  {
    if routerLocale.Some? then Str(routerLocale.value) else Undefined
  }

  /** `{[locale]: localeEntry, ...given}` */
  function MergeTranslations(locale: string, localeEntry: Value, given: Value): Record {
    Spread(map[locale := localeEntry], given)
  }

  /** The merge keeps every entry of the caller's `translations` unchanged, adds only the
      locale key, and gives the locale the form's own entry unless the caller already has one. */
  lemma MergeTranslationsEntries(locale: string, localeEntry: Value, given: Value)
    ensures var m := MergeTranslations(locale, localeEntry, given);
      && m.Keys == {locale} + (if given.Obj? then given.fields.Keys else {})
      && (given.Obj? ==> forall k :: k in given.fields ==> m[k] == given.fields[k])
      && (given.Obj? && locale in given.fields ==> m[locale] == given.fields[locale])
      && (!(given.Obj? && locale in given.fields) ==> m[locale] == localeEntry)
  {
    var m := MergeTranslations(locale, localeEntry, given);
    assert Field(m, locale) == m[locale];
    assert forall k :: k in m ==> Field(m, k) == m[k];
  }

  /** Which mutation a submission calls, and with what input. */
  datatype Submission = Create(input: Record) | Update(input: Record)

  /** `!initialValues ? create(input) : update({...input, id: initialValues.id})` */
  function Dispatch(initialValues: Value, input: Record): Submission {
    if !Truthy(initialValues) then Create(input)
    else Update(input["id" := Get(initialValues, "id")])
  }

  /** A new record is created exactly when there are no initial values; an update carries the
      same input with `id` taken from the initial values, whatever `id` the input had. */
  lemma DispatchCases(initialValues: Value, input: Record)
    ensures Dispatch(initialValues, input).Create? <==> !Truthy(initialValues)
    ensures Dispatch(initialValues, input).Create? ==> Dispatch(initialValues, input).input == input
    ensures Dispatch(initialValues, input).Update? ==>
      var sent := Dispatch(initialValues, input).input;
      && sent.Keys == input.Keys + {"id"}
      && sent["id"] == Get(initialValues, "id")
      && forall k :: k in input && k != "id" ==> sent[k] == input[k]
  {
  }
}
