/**
 * The navigation labels of a post page in the configured language, with
 * English as the fallback.
 */
module I18n {
  import opened Wrappers

  /** The labels of the previous and next post links. */
  datatype Labels = Labels(previous: string, next: string)

  /** A dictionary from language code to labels. */
  type Dictionary = map<string, Labels>

  const English: string := "en"

  /** The language the blog is configured for: the environment's setting,
      else English. */
  function DefaultLang(configured: Option<string>): (lang: string)
    ensures configured.Some? ==> lang == configured.value
    ensures configured.None? ==> lang == English
  {
    configured.GetOr(English)
  }

  /** `i18n(lang, dict)`: the language's labels, or English's when the
      language has none. English is looked up only in that case, so a
      dictionary without English serves its own languages. */
  function Translate(lang: string, dict: Dictionary): (r: Labels)
    requires lang in dict || English in dict
    ensures lang in dict ==> r == dict[lang]
    ensures lang !in dict ==> r == dict[English]
  {
    if lang in dict then dict[lang] else dict[English]
  }

  /** `checkLangSupport(lang)` against the dictionary the blog ships: the
      language when it has labels there, else English. */
  function CheckLangSupport(lang: string, dictionary: Dictionary): (r: string)
    ensures lang in dictionary <==> r == lang && r in dictionary
    ensures lang !in dictionary ==> r == English
  {
    if lang in dictionary then lang else English
  }

  /** With English in the dictionary, the checked language is always one
      the dictionary has. */
  lemma CheckedIsSupported(lang: string, dictionary: Dictionary)
    requires English in dictionary
    ensures CheckLangSupport(lang, dictionary) in dictionary
  {
  }

  /** Checking twice is checking once. */
  lemma CheckIdempotent(lang: string, dictionary: Dictionary)
    requires English in dictionary
    ensures CheckLangSupport(CheckLangSupport(lang, dictionary), dictionary)
         == CheckLangSupport(lang, dictionary)
  {
  }

  /** The check does not change the labels: an unsupported language falls
      back to English in both. */
  lemma TranslateChecked(lang: string, dictionary: Dictionary)
    requires English in dictionary
    ensures Translate(CheckLangSupport(lang, dictionary), dictionary) == Translate(lang, dictionary)
  {
  }
}
