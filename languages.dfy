/** The target-language tables: a display name and a style instruction per language code. */
module Languages {
  import opened Wrappers
  import opened Chars
  import opened Variants

  /** The `name` and `instructions` entries of a language's configuration (the `code` and
      `form` entries are never read). */
  datatype Profile = Profile(name: string, instructions: string)

  datatype LanguageError = UnknownLanguage(code: string)

  /** `LANGUAGE_CONFIG` of the workflow script. */
  const WorkflowLanguages: map<string, Profile> :=
    map[
      "pt" := Profile("Portuguese (Brazilian)", "Use informal \"você\" form, not \"tu\". Be concise."),
      "es" := Profile("Spanish", "Use informal \"tú\" form. Be concise."),
      "fr" := Profile("French", "Use informal \"tu\" form. Be concise."),
      "it" := Profile("Italian", "Use informal \"tu\" form. Be concise."),
      "ro" := Profile("Romanian", "Use informal \"tu\" form. Be concise."),
      "de" := Profile("German", "Use informal \"du\" form. Be concise."),
      "nl" := Profile("Dutch", "Use informal \"je\" form. Be concise."),
      "sv" := Profile("Swedish", "Use informal \"du\" form. Be concise."),
      "no" := Profile("Norwegian", "Use informal \"du\" form. Be concise."),
      "da" := Profile("Danish", "Use informal \"du\" form. Be concise."),
      "ru" := Profile("Russian", "Use informal \"ты\" form. Be concise."),
      "pl" := Profile("Polish", "Use informal \"ty\" form. Be concise."),
      "cs" := Profile("Czech", "Use informal \"ty\" form. Be concise."),
      "uk" := Profile("Ukrainian", "Use informal \"ти\" form. Be concise."),
      "ja" := Profile("Japanese", "Use polite form (です/ます). Be concise."),
      "ko" := Profile("Korean", "Use polite form (해요체). Be concise."),
      "zh" := Profile("Chinese (Simplified)", "Use Simplified Chinese. Be concise."),
      "zh-tw" := Profile("Chinese (Traditional)", "Use Traditional Chinese. Be concise."),
      "vi" := Profile("Vietnamese", "Use informal form. Be concise."),
      "th" := Profile("Thai", "Use polite form. Be concise."),
      "id" := Profile("Indonesian", "Use informal form. Be concise."),
      "ms" := Profile("Malay", "Use informal form. Be concise."),
      "hi" := Profile("Hindi", "Use informal \"तुम\" form. Be concise."),
      "tr" := Profile("Turkish", "Use informal \"sen\" form. Be concise."),
      "ar" := Profile("Arabic", "Use Modern Standard Arabic. Be concise."),
      "he" := Profile("Hebrew", "Use informal form. Be concise."),
      "el" := Profile("Greek", "Use informal \"εσύ\" form. Be concise."),
      "hu" := Profile("Hungarian", "Use informal \"te\" form. Be concise."),
      "fi" := Profile("Finnish", "Use informal \"sinä\" form. Be concise.")
    ]

  /** `LANGUAGE_CONFIG` of the two stand-alone scripts (the same four entries in both). */
  const ScriptLanguages: map<string, Profile> :=
    map[
      "pt" := Profile("Portuguese (Brazilian)", "Use informal \"você\" form, not \"tu\". Be concise."),
      "es" := Profile("Spanish", "Use informal \"tú\" form. Be concise."),
      "fr" := Profile("French", "Use informal \"tu\" form. Be concise."),
      "de" := Profile("German", "Use informal \"du\" form. Be concise.")
    ]

  /** `lang_code.upper()` on ASCII letters. */
  function UpperCode(code: string): (r: string)
    ensures |r| == |code|
    ensures forall i :: 0 <= i < |r| ==> r[i] == AsciiUpper(code[i])
  {
    if code == [] then [] else [AsciiUpper(code[0])] + UpperCode(code[1..])
  }

  /** The profile a variant uses for a language code. The workflow's `get_language_config`
      raises `ValueError` for a code it does not know; the stand-alone scripts fall back to the
      upper-cased code with the bare instruction `Be concise.`. */
  function LanguageProfile(v: Variant, code: string): (r: Result<Profile, LanguageError>)
    ensures v == Workflow ==> (r.Ok? <==> code in WorkflowLanguages)
    ensures r.Ok? && v == Workflow ==> r.value == WorkflowLanguages[code]
    ensures v != Workflow ==> r.Ok?
    ensures v != Workflow && code in ScriptLanguages ==> r == Ok(ScriptLanguages[code])
    ensures v != Workflow && code !in ScriptLanguages ==>
      r == Ok(Profile(UpperCode(code), "Be concise."))
  {
    match v
    case Workflow =>
      if code in WorkflowLanguages then Ok(WorkflowLanguages[code]) else Err(UnknownLanguage(code))
    case _ =>
      if code in ScriptLanguages then Ok(ScriptLanguages[code])
      else Ok(Profile(UpperCode(code), "Be concise."))
  }

  /** The stand-alone scripts' table agrees with the workflow's on every code it has, so the
      three variants build the same prompts for Portuguese, Spanish, French and German. */
  lemma ScriptTableAgrees(code: string)
    requires code in ScriptLanguages
    ensures code in WorkflowLanguages && WorkflowLanguages[code] == ScriptLanguages[code]
  {
  }
}
