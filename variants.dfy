/** The three variants of the translation pipeline, which share most of their logic:
    `scripts/i18n-workflow.py` (Ollama HTTP back end, 29 languages, locale maintenance),
    `scripts/i18n-translate.py` (in-process llama.cpp back end) and
    `scripts/i18n-translate-ollama.py` (Ollama back end, stand-alone). */
module Variants {

  datatype Variant = Workflow | LlamaCpp | Ollama {

    /** The workflow and the llama.cpp script trim a batch candidate after removing notes. */
    predicate TrimsAfterNotes() {
      !Ollama?
    }

    /** The workflow and the llama.cpp script also strip single quotes before validating,
        and reject placeholders the original does not have. */
    predicate StrictValidation() {
      !Ollama?
    }
  }
}
