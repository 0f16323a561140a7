/** The category form schema (src/components/category/category-validation-schema.ts): its only
    rule is the `name-required` test on `translations`. */
module CategoryValidation {
  import opened Js
  import NameRequired

  /** A validation failure: the path of the offending value and its message key. */
  datatype ValidationError = ValidationError(path: string, message: string)

  function Validate(values: Record): Option<ValidationError> {
    if NameRequired.NameRequired(Field(values, "translations")) then None
    else Some(ValidationError("translations", NameRequired.Message))
  }

  /** The form is rejected, on `translations` with `form:error-name-required`, exactly when
      neither the English nor the Russian name has a character other than white space. */
  lemma ValidateIff(values: Record)
    ensures var t := Field(values, "translations");
      Validate(values).None? <==>
        || (Get(Get(t, "en"), "name").Str? && !NameRequired.Blank(Get(Get(t, "en"), "name").s))
        || (Get(Get(t, "ru"), "name").Str? && !NameRequired.Blank(Get(Get(t, "ru"), "name").s))
    ensures Validate(values).Some? ==>
      Validate(values).value == ValidationError("translations", "form:error-name-required")
  {
    NameRequired.NameRequiredIff(Field(values, "translations"));
  }
}
