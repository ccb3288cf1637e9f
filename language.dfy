/** The language rules of the page (scripts/script.js, lines 4-8, 24-29 and
    68-72): which language the page starts in, which text direction it gets,
    and which language option starts out marked. */
module Language {
  import opened Wrappers

  datatype Direction = Ltr | Rtl

  const DefaultLanguage: string := "en"
  /** The one right-to-left language. */
  const RtlLanguage: string := "ar"

  /** `localStorage.getItem('language') || 'en'`: the stored value, unless
      nothing is stored or the stored value is the (falsy) empty string. */
  function StartupLanguage(stored: Option<string>): (lang: string)
    ensures lang != ""
    ensures stored.Some? && stored.value != "" ==> lang == stored.value
    ensures stored == None || stored == Some("") ==> lang == DefaultLanguage
  {
    match stored
    case Some(v) => if v != "" then v else DefaultLanguage
    case None => DefaultLanguage
  }

  /** `lang === 'ar' ? 'rtl' : 'ltr'`: right-to-left exactly for Arabic. */
  function DirectionOf(lang: string): (d: Direction)
    ensures d == Rtl <==> lang == RtlLanguage
    ensures d == Ltr <==> lang != RtlLanguage
  {
    if lang == RtlLanguage then Rtl else Ltr
  }

  /** Choosing a language option stores its code and reloads; the reloaded
      page starts in that language (the default when the code is empty) and
      is right-to-left exactly when the code is Arabic. */
  lemma ChooseThenReload(code: string)
    ensures StartupLanguage(Some(code)) == (if code == "" then DefaultLanguage else code)
    ensures DirectionOf(StartupLanguage(Some(code))) == Rtl <==> code == RtlLanguage
  {
  }

  /** `document.querySelector('.lang-option[data-lang="…"]')` over the
      options' `data-lang` values: the first option with that code, if any. */
  function FirstOption(options: seq<string>, lang: string): (r: Option<nat>)
    ensures r.Some? ==> r.value < |options| && options[r.value] == lang
    ensures r.Some? ==> forall j :: 0 <= j < r.value ==> options[j] != lang
    ensures r.None? <==> lang !in options
  {
    if options == [] then None
    else if options[0] == lang then Some(0)
    else
      match FirstOption(options[1..], lang)
      case None => None
      case Some(i) => Some(i + 1)
  }

  /** No quote, backslash, line break or NUL: inside `"…"` in a CSS selector
      such a string denotes exactly its own characters. */
  predicate PlainInSelector(code: string) {
    forall k :: 0 <= k < |code| ==>
      code[k] != '"' && code[k] != '\\' && code[k] != '\n' && code[k] != '\r' && code[k] != '\U{000C}' && code[k] != '\0'
  }

  /** The root element's `lang` and `dir` attributes. */
  class DocumentElement {
    var lang: string
    var dir: Direction

    ghost predicate Valid()
      reads this
    {
      dir == DirectionOf(lang)
    }

    /** Lines 4-8: the attributes are set from the stored preference before
        any translation is loaded. */
    constructor (stored: Option<string>)
      ensures Valid()
      ensures lang == StartupLanguage(stored)
    {
      var currentLang := StartupLanguage(stored);
      lang := currentLang;
      dir := if currentLang == RtlLanguage then Rtl else Ltr;
    }

    /** `updatePage()` sets them again from the translation library's
        current language; with that language unchanged nothing changes. */
    method UpdatePage(i18nLanguage: string)
      requires Valid()
      modifies this
      ensures Valid() && lang == i18nLanguage
      ensures old(lang) == i18nLanguage ==> dir == old(dir)
    {
      lang := i18nLanguage;
      dir := if lang == RtlLanguage then Rtl else Ltr;
    }
  }

  /** The `active` classes of the language options. */
  class LanguageOptions {
    const codes: seq<string>
    const active: array<bool>

    constructor (codes: seq<string>)
      ensures this.codes == codes && fresh(active) && active.Length == |codes|
      ensures forall i :: 0 <= i < |codes| ==> !active[i]
    {
      this.codes := codes;
      active := new bool[|codes|](_ => false);
    }

    /** Lines 68-72: mark the first option for `currentLang`, if there is
        one; no other option changes. The code is placed unescaped between
        the quotes of a CSS attribute selector, so it stands for itself only
        when it holds no character CSS treats specially there. */
    method MarkInitial(currentLang: string)
      requires PlainInSelector(currentLang)
      requires active.Length == |codes|
      modifies active
      ensures FirstOption(codes, currentLang).Some? ==> active[FirstOption(codes, currentLang).value]
      ensures forall i :: 0 <= i < |codes| && Some(i) != FirstOption(codes, currentLang) ==> active[i] == old(active[i])
    {
      var initial := FirstOption(codes, currentLang);
      if initial.Some? {
        active[initial.value] := true;
      }
    }
  }
}
