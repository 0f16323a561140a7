/** The `name-required` test that the category and product schemas both attach to their
    `translations` object: an English or a Russian name must be given, and a name made only of
    whitespace does not count. */
module NameRequired {
  import opened Js

  /** The message key the test reports on failure. */
  const Message: string := "form:error-name-required"

  /** The characters `String.prototype.trim` strips: white space and line terminators. */
  predicate IsTrimmed(c: char) {
    c in {'\U{0009}', '\U{000A}', '\U{000B}', '\U{000C}', '\U{000D}', '\U{0020}', '\U{00A0}', '\U{1680}',
          '\U{2000}', '\U{2001}', '\U{2002}', '\U{2003}', '\U{2004}', '\U{2005}', '\U{2006}', '\U{2007}',
          '\U{2008}', '\U{2009}', '\U{200A}', '\U{2028}', '\U{2029}', '\U{202F}', '\U{205F}', '\U{3000}',
          '\U{FEFF}'}
  }

  function TrimStart(s: string): string {
    if s != [] && IsTrimmed(s[0]) then TrimStart(s[1..]) else s
  }

  function TrimEnd(s: string): string {
    if s != [] && IsTrimmed(s[|s| - 1]) then TrimEnd(s[..|s| - 1]) else s
  }

  /** `s.trim()` */
  function Trim(s: string): string {
    TrimEnd(TrimStart(s))
  }

  /** Every character of `s` would be trimmed away. */
  predicate Blank(s: string) {
    forall i :: 0 <= i < |s| ==> IsTrimmed(s[i])
  }

  lemma {:induction false} TrimStartEmptyIffBlank(s: string)
    ensures TrimStart(s) == "" <==> Blank(s)
    ensures TrimStart(s) != "" ==> !IsTrimmed(TrimStart(s)[0])
    decreases |s|
  {
    if s != [] && IsTrimmed(s[0]) {
      TrimStartEmptyIffBlank(s[1..]);
      assert Blank(s) <==> Blank(s[1..]) by {
        assert forall i :: 1 <= i < |s| ==> s[i] == s[1..][i - 1];
        if Blank(s[1..]) {
          forall i | 0 <= i < |s| ensures IsTrimmed(s[i]) {
            if i > 0 { assert s[i] == s[1..][i - 1]; }
          }
        }
      }
    } else if s != [] {
      assert !Blank(s) by { assert !IsTrimmed(s[0]); }
    }
  }

  lemma {:induction false} TrimEndKeepsNonBlankStart(s: string)
    requires s != [] && !IsTrimmed(s[0])
    ensures TrimEnd(s) != ""
    decreases |s|
  {
    if IsTrimmed(s[|s| - 1]) {
      assert |s| > 1;
      assert s[..|s| - 1][0] == s[0];
      TrimEndKeepsNonBlankStart(s[..|s| - 1]);
    }
  }

  /** `s.trim() !== ''` holds exactly when `s` has a character that is not white space. */
  lemma TrimEmptyIffBlank(s: string)
    ensures Trim(s) == "" <==> Blank(s)
  {
    TrimStartEmptyIffBlank(s);
    if TrimStart(s) != "" {
      TrimEndKeepsNonBlankStart(TrimStart(s));
    }
  }

  /** `value?.[locale]?.name && value[locale].name.trim() !== ''` */
  predicate HasName(translations: Value, locale: string) {
    var name := Get(Get(translations, locale), "name");
    Truthy(name) && name.Str? && Trim(name.s) != ""
  }

  /** The test: an `en` or a `ru` name is present and not blank. */
  predicate NameRequired(translations: Value) {
    HasName(translations, "en") || HasName(translations, "ru")
  }

  /** A locale has a name exactly when its `name` is a string that is not all white space. */
  lemma HasNameIff(translations: Value, locale: string)
    ensures HasName(translations, locale) <==>
      Get(Get(translations, locale), "name").Str? && !Blank(Get(Get(translations, locale), "name").s)
  {
    var name := Get(Get(translations, locale), "name");
    if name.Str? {
      TrimEmptyIffBlank(name.s);
      assert name.s == "" ==> Blank(name.s);
    }
  }

  /** Valid iff the English or the Russian name has a character other than white space;
      missing `translations`, locale objects and names all count as absent. */
  lemma NameRequiredIff(translations: Value)
    ensures NameRequired(translations) <==>
      || (Get(Get(translations, "en"), "name").Str? && !Blank(Get(Get(translations, "en"), "name").s))
      || (Get(Get(translations, "ru"), "name").Str? && !Blank(Get(Get(translations, "ru"), "name").s))
    ensures !translations.Obj? ==> !NameRequired(translations)
  {
    HasNameIff(translations, "en");
    HasNameIff(translations, "ru");
  }

  /** A name made only of white space is as good as no name at all. */
  lemma BlankNameIsAbsent(t: Record, locale: string, entry: Record, name: string)
    requires locale == "en" || locale == "ru"
    requires Blank(name)
    ensures NameRequired(Obj(t[locale := Obj(entry["name" := Str(name)])]))
        == NameRequired(Obj(t[locale := Obj(entry - {"name"})]))
  {
    TrimEmptyIffBlank(name);
  }

  /** Swapping the English and Russian entries does not change the verdict. */
  lemma SwapEnRu(t: Record)
    ensures NameRequired(Obj(t["en" := Field(t, "ru")]["ru" := Field(t, "en")])) == NameRequired(Obj(t))
  {
  }

  /** Names under any other locale are ignored. */
  lemma OtherLocalesIgnored(t: Record, locale: string, entry: Value)
    requires locale != "en" && locale != "ru"
    ensures NameRequired(Obj(t[locale := entry])) == NameRequired(Obj(t))
  {
  }
}
