/**
 * Title normalisation: ASCII titles are kept, any other title is sent to the
 * translation service (`translate_to_english`), and a failing translation
 * leaves the title as it was. The service is an oracle: `Some(text)` is its
 * English text, `None` stands for the exception it raised.
 */
module Normalize {
  import opened Wrappers

  type Translator = string -> Option<string>

  /** Python's `str.isascii()`: every code point is below 128 (true of ""). */
  predicate IsAscii(s: string)
  {
    forall i :: 0 <= i < |s| ==> s[i] as int < 128
  }

  /** `translate_to_english`: the translation, or the original text when it fails. */
  function TranslateToEnglish(text: string, translate: Translator): (english: string)
  {
    match translate(text)
    case Some(english) => english
    case None => text
  }

  /** The choice made for each title: translate only what is not ASCII. */
  function NormalizeTitle(title: string, translate: Translator): (normalized: string)
  {
    if !IsAscii(title) then TranslateToEnglish(title, translate) else title
  }

  /** The list comprehension over all of a country's titles. */
  function NormalizeTitles(titles: seq<string>, translate: Translator): (r: seq<string>)
    ensures |r| == |titles|
  {
    seq(|titles|, i requires 0 <= i < |titles| => NormalizeTitle(titles[i], translate))
  }

  /**
   * Normalisation keeps the titles in order: each ASCII title is returned
   * as is, each other title becomes its translation, or stays as it was
   * when the service fails.
   */
  lemma NormalizeTitlesPointwise(titles: seq<string>, translate: Translator, i: nat)
    requires i < |titles|
    ensures IsAscii(titles[i]) ==> NormalizeTitles(titles, translate)[i] == titles[i]
    ensures !IsAscii(titles[i]) && translate(titles[i]).Some? ==>
      NormalizeTitles(titles, translate)[i] == translate(titles[i]).value
    ensures translate(titles[i]).None? ==> NormalizeTitles(titles, translate)[i] == titles[i]
  {
  }

  /**
   * The translator is never consulted for an ASCII title: two services that
   * agree on the non-ASCII titles give the same normalised list.
   */
  lemma TranslatorOnlySeesNonAscii(titles: seq<string>, t1: Translator, t2: Translator)
    requires forall i :: 0 <= i < |titles| && !IsAscii(titles[i]) ==> t1(titles[i]) == t2(titles[i])
    ensures NormalizeTitles(titles, t1) == NormalizeTitles(titles, t2)
  {
  }

  /** With every translation failing, or with only ASCII titles, nothing changes. */
  lemma NormalizeWithoutTranslation(titles: seq<string>, translate: Translator)
    requires (forall i :: 0 <= i < |titles| ==> translate(titles[i]).None?)
          || (forall i :: 0 <= i < |titles| ==> IsAscii(titles[i]))
    ensures NormalizeTitles(titles, translate) == titles
  {
  }
}
