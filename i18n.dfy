/** The choice of the interface language at start-up. */
module I18n {
  import opened Wrappers
  import opened Types

  /** The languages that have translation resources. */
  const Resources: set<string> := {"en", "vi"}

  const DefaultLanguage := "en"

  /** `getInitialLanguage`: `savedLanguage` is the stored preference, if
      any, and `systemLanguage` the language code of the first system
      locale, if there is one. */
  function GetInitialLanguage(savedLanguage: Option<string>, systemLanguage: Option<string>): (lang: string)
    ensures Truthy(savedLanguage) && savedLanguage.value != "system" ==> lang == savedLanguage.value
    ensures !(Truthy(savedLanguage) && savedLanguage.value != "system") ==> lang in Resources
  {
    if Truthy(savedLanguage) && savedLanguage.value != "system" then savedLanguage.value
    else
      var system := if Truthy(systemLanguage) then systemLanguage.value else DefaultLanguage;
      if system in Resources then system else DefaultLanguage
  }

  /** Without a usable saved preference the system language is taken
      exactly when it has resources; anything else gives English. */
  lemma FallsThroughToSystem(savedLanguage: Option<string>, systemLanguage: Option<string>)
    requires savedLanguage.None? || savedLanguage == Some("") || savedLanguage == Some("system")
    ensures var lang := GetInitialLanguage(savedLanguage, systemLanguage);
      && (systemLanguage.Some? && systemLanguage.value in Resources ==> lang == systemLanguage.value)
      && (systemLanguage.None? || systemLanguage.value !in Resources ==> lang == DefaultLanguage)
  {
  }

  /** The result always has resources unless a saved preference names a
      language directly; the source does not check a saved preference
      against the resources. */
  lemma ResultHasResources(savedLanguage: Option<string>, systemLanguage: Option<string>)
    requires savedLanguage.None? || savedLanguage.value in Resources || savedLanguage.value in {"", "system"}
    ensures GetInitialLanguage(savedLanguage, systemLanguage) in Resources
  {
  }

  /** The start-up call passes no saved preference, so the language is the
      system one when that has resources and English otherwise. */
  lemma StartUpLanguage(systemLanguage: Option<string>)
    ensures GetInitialLanguage(None, systemLanguage) == if systemLanguage.Some? && systemLanguage.value in Resources then systemLanguage.value else DefaultLanguage
  {
  }
}
