/** The vacancy form's submit payload and default values (src/components/vacancy/vacancy-form.tsx). */
module VacancyForm {
  import opened Js
  import opened FormSubmit

  /** The form's own entry for its locale: its title, description and requirements. */
  function LocaleEntry(values: Record): Value {
    Obj(map["title" := Field(values, "title"), "description" := Field(values, "description"),
            "requirements" := Field(values, "requirements")])
  }

  /** The `input` object `onSubmit` builds from the form values. */
  function SubmitInput(values: Record, routerLocale: Option<string>): Record {
    Spread(map[], Obj(values))
      ["language" := Language(routerLocale)]
      ["translations" := Obj(MergeTranslations(Locale(routerLocale), LocaleEntry(values), Field(values, "translations")))]
  }

  /** The payload is the form values with the raw router locale as `language` and the merged
      translations: every caller entry wins (the locale's too), and only the locale key is
      added, holding the form's title, description and requirements. */
  lemma SubmitInputShape(values: Record, routerLocale: Option<string>)
    ensures var input := SubmitInput(values, routerLocale);
      var given := Field(values, "translations");
      var locale := Locale(routerLocale);
      && input.Keys == values.Keys + {"language", "translations"}
      && (forall k :: k in values && k != "language" && k != "translations" ==> input[k] == values[k])
      && input["language"] == Language(routerLocale)
      && input["translations"].Obj?
      && input["translations"].fields.Keys == {locale} + (if given.Obj? then given.fields.Keys else {})
      && (given.Obj? ==> forall k :: k in given.fields ==> input["translations"].fields[k] == given.fields[k])
      && (!(given.Obj? && locale in given.fields) ==>
            input["translations"].fields[locale] ==
              Obj(map["title" := Field(values, "title"), "description" := Field(values, "description"),
                      "requirements" := Field(values, "requirements")]))
  {
    assert Spread(map[], Obj(values)) == values;
    MergeTranslationsEntries(Locale(routerLocale), LocaleEntry(values), Field(values, "translations"));
  }

  /** What `onSubmit` sends. */
  function OnSubmit(values: Record, routerLocale: Option<string>, initialValues: Value): Submission {
    Dispatch(initialValues, SubmitInput(values, routerLocale))
  }

  /** Without initial values the payload is created; with them it is updated under their id. */
  lemma OnSubmitDispatch(values: Record, routerLocale: Option<string>, initialValues: Value)
    ensures !Truthy(initialValues) ==> OnSubmit(values, routerLocale, initialValues) == Create(SubmitInput(values, routerLocale))
    ensures Truthy(initialValues) ==>
      OnSubmit(values, routerLocale, initialValues) == Update(SubmitInput(values, routerLocale)["id" := Get(initialValues, "id")])
  {
    DispatchCases(initialValues, SubmitInput(values, routerLocale));
  }

  /** `useForm`'s default values: none without initial values, otherwise the initial values with
      `translations` defaulting to an entry for the locale with no requirements. */
  function DefaultValues(initialValues: Value, routerLocale: Option<string>): Option<Record> {
    if !Truthy(initialValues) then None
    else
      var empty := Obj(map[Locale(routerLocale) := Obj(map["requirements" := Arr([])])]);
      Some(Spread(map[], initialValues)["translations" := Or(Get(initialValues, "translations"), empty)])
  }

  lemma DefaultValuesShape(initialValues: Value, routerLocale: Option<string>)
    ensures DefaultValues(initialValues, routerLocale).None? <==> !Truthy(initialValues)
    ensures initialValues.Obj? ==>
      var d := DefaultValues(initialValues, routerLocale).value;
      && d.Keys == initialValues.fields.Keys + {"translations"}
      && (forall k :: k in initialValues.fields && k != "translations" ==> d[k] == initialValues.fields[k])
      && (Truthy(Get(initialValues, "translations")) ==> d["translations"] == Get(initialValues, "translations"))
      && (!Truthy(Get(initialValues, "translations")) ==>
            d["translations"] == Obj(map[(if routerLocale.Some? then routerLocale.value else "en") := Obj(map["requirements" := Arr([])])]))
  {
  }
}
