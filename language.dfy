/** The language switch (script.js, initLanguage / toggleLanguage /
    updatePageContent): the current language, its stored copy, the indicator
    label, the two language attributes, and the page's bilingual elements. */
module Language {
  import opened JsValues
  import opened Notification

  /** A page element: its `data-th` and `data-en` attributes and its text. */
  datatype Element = Element(dataTh: Option<string>, dataEn: Option<string>, text: string)

  /** Matched by the selector `[data-th][data-en]`. */
  predicate Bilingual(e: Element) {
    e.dataTh.Some? && e.dataEn.Some?
  }

  /** The attribute `updatePageContent(lang)` reads: `data-th` for "th", `data-en` otherwise. */
  function Choice(e: Element, lang: string): string
    requires Bilingual(e)
  {
    if lang == "th" then e.dataTh.value else e.dataEn.value
  }

  /** One step of the loop: the text becomes the chosen attribute when that is non-empty. */
  function Retext(e: Element, lang: string): (r: Element)
    ensures r.dataTh == e.dataTh && r.dataEn == e.dataEn
    ensures r != e ==> Bilingual(e) && Choice(e, lang) != "" && r.text == Choice(e, lang)
    ensures Bilingual(e) && Choice(e, lang) != "" ==> r.text == Choice(e, lang)
  {
    if Bilingual(e) && Choice(e, lang) != "" then e.(text := Choice(e, lang)) else e
  }

  /** The page after `updatePageContent(lang)`: no attribute changes, an
      element with both attributes and a non-empty chosen text shows that
      text, and every other element is left as it was, never cleared. */
  function Relabel(s: seq<Element>, lang: string): (r: seq<Element>)
    ensures |r| == |s|
    ensures forall k | 0 <= k < |s| :: r[k].dataTh == s[k].dataTh && r[k].dataEn == s[k].dataEn
    ensures forall k | 0 <= k < |s| :: Bilingual(s[k]) && Choice(s[k], lang) != "" ==> r[k].text == Choice(s[k], lang)
    ensures forall k | 0 <= k < |s| :: !(Bilingual(s[k]) && Choice(s[k], lang) != "") ==> r[k] == s[k]
  {
    seq(|s|, k requires 0 <= k < |s| => Retext(s[k], lang))
  }

  /** Both attributes are empty or both are non-empty: then the language last
      applied decides the element's text on its own. */
  predicate Restorable(e: Element) {
    Bilingual(e) ==> (e.dataTh.value == "" <==> e.dataEn.value == "")
  }

  predicate AllRestorable(s: seq<Element>) {
    forall k | 0 <= k < |s| :: Restorable(s[k])
  }

  lemma RetextIdempotent(e: Element, lang: string)
    ensures Retext(Retext(e, lang), lang) == Retext(e, lang)
  {
  }

  lemma RetextLastWins(e: Element, first: string, second: string)
    requires Restorable(e)
    ensures Retext(Retext(e, first), second) == Retext(e, second)
  {
  }

  /** With one attribute empty, switching away and back keeps the other
      language's text: `<p data-th="ไทย" data-en="">X</p>` shown in English
      reads "ไทย" after two toggles. */
  lemma HalfTranslatedElementKeepsOtherText()
    ensures var e := Element(Some("ไทย"), Some(""), "X");
      Retext(e, "en") == e && Retext(Retext(e, "th"), "en").text == "ไทย"
  {
  }

  lemma RelabelLastWins(s: seq<Element>, first: string, second: string)
    requires AllRestorable(s)
    ensures Relabel(Relabel(s, first), second) == Relabel(s, second)
  {
    forall k | 0 <= k < |s|
      ensures Relabel(Relabel(s, first), second)[k] == Relabel(s, second)[k]
    {
      RetextLastWins(s[k], first, second);
    }
  }

  /** Updating twice to the same language is the same as updating once. */
  lemma RelabelIdempotent(s: seq<Element>, lang: string)
    ensures Relabel(Relabel(s, lang), lang) == Relabel(s, lang)
  {
    forall k | 0 <= k < |s|
      ensures Relabel(Relabel(s, lang), lang)[k] == Relabel(s, lang)[k]
    {
      RetextIdempotent(s[k], lang);
    }
  }

  /** `toggleLanguage`: "th" goes to "en", anything else to "th". */
  function Toggled(lang: string): (r: string)
    ensures r in {"th", "en"}
    ensures r == "en" <==> lang == "th"
  {
    if lang == "th" then "en" else "th"
  }

  lemma ToggledTwice(lang: string)
    requires lang in {"th", "en"}
    ensures Toggled(Toggled(lang)) == lang
  {
  }

  /** The indicator names the language one would switch to. */
  function IndicatorFor(lang: string): (r: string)
    ensures r in {"TH", "EN"}
    ensures r == "TH" <==> lang == "en"
  {
    if lang == "en" then "TH" else "EN"
  }

  /** The language `initLanguage` puts on the page: "en" only for "en". */
  function Displayed(lang: string): (r: string)
    ensures r in {"th", "en"}
    ensures r == "en" <==> lang == "en"
  {
    if lang == "en" then "en" else "th"
  }

  /** The confirmation `toggleLanguage` shows, in the new language. */
  function ToggleNotice(lang: string): (r: string)
    ensures r == "Language switched to English" <==> lang == "en"
    ensures r != "Language switched to English" ==> r == "เปลี่ยนภาษาเป็นไทยแล้ว"
  {
    if lang == "en" then "Language switched to English" else "เปลี่ยนภาษาเป็นไทยแล้ว"
  }

  /** `localStorage.getItem('language') || 'th'`. */
  function InitialLang(saved: Option<string>): (r: string)
    ensures saved.Some? && saved.value != "" ==> r == saved.value
    ensures saved.None? || saved.value == "" ==> r == "th"
  {
    if saved.Some? && saved.value != "" then saved.value else "th"
  }

  class Page {
    var currentLang: string
    /** `localStorage['language']`. */
    var stored: Option<string>
    /** The `.lang-text` element's text; `None` when the page has no such element. */
    var indicator: Option<string>
    /** `<html lang>`. */
    var htmlLang: string
    /** `<body data-lang>`, absent until the script sets it. */
    var bodyLang: Option<string>
    var elements: seq<Element>

    /** Everything on the page agrees with `currentLang`. */
    ghost predicate Consistent()
      reads this
    {
      currentLang in {"th", "en"} &&
      htmlLang == currentLang && bodyLang == Some(currentLang) &&
      (indicator.Some? ==> indicator == Some(IndicatorFor(currentLang))) &&
      elements == Relabel(elements, currentLang)
    }

    constructor (saved: Option<string>, indicator: Option<string>, htmlLang: string, elements: seq<Element>)
      ensures currentLang == InitialLang(saved) && stored == saved
      ensures this.indicator == indicator && this.htmlLang == htmlLang && bodyLang == None
      ensures this.elements == elements
    {
      currentLang := InitialLang(saved);
      stored := saved;
      this.indicator := indicator;
      this.htmlLang := htmlLang;
      bodyLang := None;
      this.elements := elements;
    }

    /** `updateLanguageText`: only an existing indicator element is written. */
    method UpdateLanguageText(text: string)
      modifies this
      ensures indicator == if old(indicator).Some? then Some(text) else None
      ensures currentLang == old(currentLang) && stored == old(stored)
      ensures htmlLang == old(htmlLang) && bodyLang == old(bodyLang) && elements == old(elements)
    {
      if indicator.Some? {
        indicator := Some(text);
      }
    }

    /** `updatePageContent(lang)`: the `forEach` over the bilingual elements. */
    method UpdatePageContent(lang: string)
      modifies this
      ensures elements == Relabel(old(elements), lang)
      ensures currentLang == old(currentLang) && stored == old(stored)
      ensures indicator == old(indicator) && htmlLang == old(htmlLang) && bodyLang == old(bodyLang)
    {
      var i := 0;
      while i < |elements|
        invariant 0 <= i <= |elements| == |old(elements)|
        invariant forall k | 0 <= k < i :: elements[k] == Retext(old(elements)[k], lang)
        invariant forall k | i <= k < |elements| :: elements[k] == old(elements)[k]
        invariant currentLang == old(currentLang) && stored == old(stored)
        invariant indicator == old(indicator) && htmlLang == old(htmlLang) && bodyLang == old(bodyLang)
      {
        var e := elements[i];
        if Bilingual(e) {
          var content := if lang == "th" then e.dataTh.value else e.dataEn.value;
          if content != "" {
            elements := elements[i := e.(text := content)];
          }
        }
        i := i + 1;
      }
    }

    /** `initLanguage`: show the page in the stored language ("en", or Thai for
        anything else) and copy `currentLang` onto the body. */
    method InitLanguage()
      modifies this
      ensures currentLang == old(currentLang) && stored == old(stored)
      ensures htmlLang == Displayed(currentLang) && bodyLang == Some(currentLang)
      ensures indicator == if old(indicator).Some? then Some(IndicatorFor(currentLang)) else None
      ensures elements == Relabel(old(elements), Displayed(currentLang))
      ensures currentLang in {"th", "en"} ==> Consistent()
    {
      if currentLang == "en" {
        htmlLang := "en";
        UpdateLanguageText("TH");
        UpdatePageContent("en");
      } else {
        htmlLang := "th";
        UpdateLanguageText("EN");
        UpdatePageContent("th");
      }
      bodyLang := Some(currentLang);
      RelabelIdempotent(old(elements), Displayed(currentLang));
    }

    /** `toggleLanguage`: switch, redraw, confirm, and store the new language. */
    method ToggleLanguage(n: Notifier)
      requires n.Valid()
      modifies this, n
      ensures n.Valid()
      ensures currentLang == Toggled(old(currentLang)) && stored == Some(currentLang)
      ensures htmlLang == currentLang && bodyLang == Some(currentLang)
      ensures indicator == if old(indicator).Some? then Some(IndicatorFor(currentLang)) else None
      ensures elements == Relabel(old(elements), currentLang)
      ensures n.slot == Some(Toast(old(n.nextId), ToggleNotice(currentLang), "info"))
      ensures n.nextId == old(n.nextId) + 1
      ensures Consistent()
    {
      if currentLang == "th" {
        currentLang := "en";
        htmlLang := "en";
        UpdateLanguageText("TH");
        UpdatePageContent("en");
        var _ := n.Show("Language switched to English", "info");
      } else {
        currentLang := "th";
        htmlLang := "th";
        UpdateLanguageText("EN");
        UpdatePageContent("th");
        var _ := n.Show("เปลี่ยนภาษาเป็นไทยแล้ว", "info");
      }
      stored := Some(currentLang);
      bodyLang := Some(currentLang);
      RelabelIdempotent(old(elements), currentLang);
    }

    /** Two clicks on the toggle bring back the language and its stored copy,
        and, from a consistent page whose elements are all restorable, every
        element's text. */
    method ToggleTwice(n: Notifier)
      requires n.Valid()
      modifies this, n
      ensures n.Valid()
      ensures old(currentLang) in {"th", "en"} ==> currentLang == old(currentLang) && stored == Some(old(currentLang))
      ensures old(Consistent()) && AllRestorable(old(elements)) ==>
        currentLang == old(currentLang) && stored == Some(currentLang) &&
        indicator == old(indicator) && htmlLang == old(htmlLang) && bodyLang == old(bodyLang) &&
        elements == old(elements)
    {
      ghost var before := elements;
      ToggleLanguage(n);
      ToggleLanguage(n);
      if AllRestorable(before) {
        RelabelLastWins(before, Toggled(old(currentLang)), currentLang);
      }
    }
  }
}
