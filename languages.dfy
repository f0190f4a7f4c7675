/**
 * The ISO 639-1 code to language-name table that the search page and
 * both details pages carry (three identical copies in the source), and
 * `getLanguageName`, which falls back to the upper-cased code.
 */
module Languages {
  import opened Text

  const Names: map<string, string> := map[
    "en" := "English", "es" := "Spanish", "fr" := "French", "de" := "German", "it" := "Italian",
    "pt" := "Portuguese", "ru" := "Russian", "ja" := "Japanese", "ko" := "Korean", "zh" := "Chinese",
    "hi" := "Hindi", "ar" := "Arabic", "nl" := "Dutch", "sv" := "Swedish", "no" := "Norwegian",
    "da" := "Danish", "fi" := "Finnish", "pl" := "Polish", "cs" := "Czech", "hu" := "Hungarian",
    "ro" := "Romanian", "bg" := "Bulgarian", "el" := "Greek", "tr" := "Turkish", "he" := "Hebrew",
    "th" := "Thai", "vi" := "Vietnamese", "id" := "Indonesian", "ms" := "Malay", "tl" := "Tagalog",
    "te" := "Telugu", "ta" := "Tamil", "bn" := "Bengali", "mr" := "Marathi", "gu" := "Gujarati",
    "pa" := "Punjabi", "kn" := "Kannada", "ml" := "Malayalam", "ur" := "Urdu"
  ]

  /** `getLanguageName(code)`: the table's name for a known code, otherwise the code upper-cased. */
  function LanguageName(code: string): (r: string)
    ensures code in Names ==> r == Names[code]
    ensures code !in Names ==> |r| == |code| && r == Upper(code)
  {
    if code in Names then Names[code] else Upper(code)
  }

  /**
   * For a code missing from the table, lower-casing the name gives back the
   * lower-cased code, so matching against the name adds nothing to matching
   * against the code.
   */
  lemma FallbackLowersToCode(code: string)
    requires code !in Names
    ensures Lower(LanguageName(code)) == Lower(code)
  {
    LowerOfUpper(code);
  }
}
