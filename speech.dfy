/** The two speech-model decisions: which language the detector reports, and which model
    size the transcriber loads for that language. The models themselves are external. */
module Speech {
  import opened Wrappers

  /** The language reported by a detection result (a dictionary), "en" when it has no
      "language" entry. */
  function DetectedLanguage(result: map<string, string>): (lang: string)
    ensures "language" in result ==> lang == result["language"]
    ensures "language" !in result ==> lang == "en"
  {
    Get(result, "language", "en")
  }

  /** The transcription model size: the larger model for Persian only. */
  function ModelSize(lang: string): (size: string)
    ensures size == "medium" <==> lang == "fa"
    ensures size == "base" <==> lang != "fa"
  {
    if lang == "fa" then "medium" else "base"
  }

  /** A detection result without a language entry selects English and the base model. */
  lemma SilentDetectionUsesBase(result: map<string, string>)
    requires "language" !in result
    ensures DetectedLanguage(result) == "en"
    ensures ModelSize(DetectedLanguage(result)) == "base"
  {
  }
}
