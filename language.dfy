/** The language manager (`language/Language.ts`): the supported languages,
    a default, and switching the current language, which loads its assets
    through the language pack. Loading is asynchronous and foreign: its
    outcome comes in as an argument, and the calls made of the pack are
    returned in order. `null` and `undefined` are `None`. */
module Language {
  import opened Wrappers
  import opened Seqs
  import opened Strings
  import opened LanguageStore

  /** `sys.Language.CHINESE` and `sys.Language.ENGLISH`. */
  const Chinese := "zh"
  const English := "en"

  /** How the promise `setLanguage` returns settles. */
  datatype Outcome = Resolved | Rejected

  /** A call made of the language pack. */
  datatype PackCall =
    | LoadAssets(bundle: string, lang: string)
    | UpdateLanguage(lang: string)
    | ReleaseAssets(bundle: string, lang: string)

  /** `setLanguage`'s first step: a missing or empty name means the default,
      any other name is lower-cased. */
  function Normalized(defaultLanguage: string, language: Option<string>): (lang: string)
    ensures language.None? || language.value == "" ==> lang == defaultLanguage
    ensures language.Some? && language.value != "" ==>
      (|lang| == |language.value| && forall i :: 0 <= i < |lang| ==> lang[i] == LowerChar(language.value[i]))
  {
    if language.None? || language.value == "" then defaultLanguage else ToLower(language.value)
  }

  /** The language `setLanguage` settles on: the normalised name if it is
      supported, the default otherwise. The result is therefore supported or
      the default; the default itself is never checked against the list. */
  function Chosen(languages: seq<string>, defaultLanguage: string, language: Option<string>): (lang: string)
    ensures lang in languages || lang == defaultLanguage
    ensures Normalized(defaultLanguage, language) in languages ==> lang == Normalized(defaultLanguage, language)
    ensures Normalized(defaultLanguage, language) !in languages ==> lang == defaultLanguage
    ensures defaultLanguage in languages ==> lang in languages
  {
    var lang := Normalized(defaultLanguage, language);
    if IndexOf(languages, lang) < 0 then defaultLanguage else lang
  }

  /** An upper-case request for a supported language picks that language. */
  lemma UpperCaseRequest()
    ensures Chosen([Chinese, English], Chinese, Some("EN")) == English
    ensures Chosen([Chinese, English], Chinese, Some("fr")) == Chinese
    ensures Chosen([Chinese, English], Chinese, Some("")) == Chinese
  {
    assert ToLower("EN") == "en";
    assert ToLower("fr") == "fr";
  }

  class LanguageManager {
    /** `_languages`. */
    var languages: seq<string>
    /** `_defaultLanguage`. */
    var defaultLanguage: string
    /** The static `LanguageData` fields. */
    const data: LanguageData

    /** The field initialisers: Chinese and English, Chinese by default. */
    constructor (shared: LanguageData)
      ensures languages == [Chinese, English] && defaultLanguage == Chinese && data == shared
    {
      languages := [Chinese, English];
      defaultLanguage := Chinese;
      data := shared;
    }

    /** The `languages` setter. */
    method SetLanguages(ls: seq<string>)
      modifies this
      ensures languages == ls && defaultLanguage == old(defaultLanguage)
    {
      languages := ls;
    }

    /** The `default` setter: an empty value stores Chinese. */
    method SetDefault(lang: Option<string>)
      modifies this
      ensures lang.None? || lang.value == "" ==> defaultLanguage == Chinese
      ensures lang.Some? && lang.value != "" ==> defaultLanguage == lang.value
      ensures languages == old(languages)
    {
      if lang.None? || lang.value == "" {
        defaultLanguage := Chinese;
      } else {
        defaultLanguage := lang.value;
      }
    }

    /** `isExist(lang)`. */
    function IsExist(lang: string): (r: bool)
      reads this
      ensures r <==> lang in languages
    {
      IndexOf(languages, lang) > -1
    }

    /** `getNextLang()`: the language after the current one in the list,
      cyclically; an unknown current language gives the first entry, and
      an empty list gives `undefined`. */
    function GetNextLang(): (r: Option<string>)
      reads this, data
      ensures languages == [] <==> r.None?
      ensures r.Some? ==> r.value in languages
      ensures languages != [] && data.current !in languages ==> r == Some(languages[0])
      ensures forall k :: 0 <= k < |languages| && languages[k] == data.current && data.current !in languages[..k] ==>
        r == Some(languages[(k + 1) % |languages|])
      ensures languages != [] && languages[|languages| - 1] == data.current && data.current !in languages[..|languages| - 1] ==>
        r == Some(languages[0])
    {
      if languages == [] then None
      else Some(languages[(IndexOf(languages, data.current) + 1) % |languages|])
    }

    /** `setLanguage(bundleName, language)` once the load started by it has
      settled with `loadOk`. The language is chosen as `Chosen` says; if it and
      the bundle are already current the promise resolves at once. Otherwise
      the pack loads the lower-cased language, and only a successful load
      makes it current, updates the pack and releases the old assets. */
    method SetLanguage(bundleName: string, language: Option<string>, loadOk: bool)
      returns (outcome: Outcome, calls: seq<PackCall>)
      modifies data
      ensures var lang := Chosen(languages, defaultLanguage, language);
        if old(data.bundleName) == bundleName && old(data.current) == lang then
          outcome == Resolved && calls == [] && data.current == old(data.current) && data.bundleName == old(data.bundleName)
        else if loadOk then
          outcome == Resolved && data.current == lang && data.bundleName == bundleName
          && calls == [LoadAssets(bundleName, ToLower(lang)), UpdateLanguage(lang),
                       ReleaseAssets(old(data.bundleName), old(data.current))]
        else
          outcome == Rejected && calls == [LoadAssets(bundleName, ToLower(lang))]
          && data.current == old(data.current) && data.bundleName == old(data.bundleName)
      ensures outcome == Resolved ==>
        data.current == Chosen(languages, defaultLanguage, language) && data.bundleName == bundleName
    {
      var lang := Normalized(defaultLanguage, language);
      var index := IndexOf(languages, lang);
      if index < 0 {
        lang := defaultLanguage;
      }
      if bundleName == data.bundleName && lang == data.current {
        return Resolved, [];
      }
      calls := [LoadAssets(bundleName, ToLower(lang))];
      if !loadOk {
        return Rejected, calls;
      }
      var oldLanguage, oldBundleName := data.current, data.bundleName;
      data.current := lang;
      data.bundleName := bundleName;
      calls := calls + [UpdateLanguage(lang), ReleaseAssets(oldBundleName, oldLanguage)];
      outcome := Resolved;
    }
  }

  /** Asking twice for the same language settles the second time without
      loading anything. */
  method SwitchTwice(bundleName: string, language: Option<string>) returns (second: Outcome, calls: seq<PackCall>)
    ensures second == Resolved && calls == []
  {
    var data := new LanguageData();
    var manager := new LanguageManager(data);
    var first, loads := manager.SetLanguage(bundleName, language, true);
    second, calls := manager.SetLanguage(bundleName, language, false);
  }
}
