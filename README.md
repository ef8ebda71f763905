# i18n translation pipeline, locale store and embedder text handling

A Dafny model of three parts of the auditaria repository.

- **The resumable batch-translation pipeline**, in its three variants. `Workflow` is the
  `translate_strings` step of `scripts/i18n-workflow.py`. `LlamaCpp` is `scripts/i18n-translate.py`.
  `Ollama` is `scripts/i18n-translate-ollama.py`. The variants are kept apart by the datatype
  `Variants.Variant` wherever they differ: the language fallback, the validator's checks, the
  parser's trimming, the request sent to the model, the single-text fallback, the checkpoint
  trigger and the way a run ends.
  - The prompt builder numbers the keys `1..N` (`Prompts`).
  - The regular expressions are hand-written scanners (`Scanners`, `Decimal`).
  - The response parser fills a slot array (`Parser`).
  - The validator applies its checks in the source's order (`Validator`).
  - `translate_batch`, `translate_single`/`translate_string` and `clean_translation` are in
    `Translator`. The text generator is an abstract oracle, `Request -> Option<string>`, where
    `None` stands for every transport failure.
  - The job is an `array<Item>` updated in place. The pending list is a sequence of indices into
    it (the source's aliasing of `pending` with `data['translations']`). The files are a `Disk`
    object whose map the run's saves and removals update (`Batches`, `Storage`).
  - A whole run, from the start-up checks to the removal of the checkpoint, is `Pipeline`.
- **The locale-store operations** of `scripts/i18n-workflow.py` (`LocaleStore`):
  - `generate_context`;
  - `extract_strings`, with the nested loops that build `strings_map`, the sort and the metadata;
  - `cleanup_unused_keys`;
  - `merge_translations`, with its dictionary update and its three counters.
- **The text side of the search embedder**, `packages/search/python/embedder.py` (`Embedder`):
  - `clean_text`, with the Unicode General Category and `str.isspace` as uninterpreted functions.
    Control characters are the categories Cc, Cf, Co and Cs (Unicode Standard, section 4.5).
  - the `OnnxEmbedder` life cycle (`initialize`, `is_ready`, `dispose`) as a class;
  - the input handling of `embed_batch`;
  - the E5 `query: `/`passage: ` prefixes;
  - the dimension table, the cache-directory name and the tokenizer name.

Where the embedder returns vectors, the model returns the texts handed to the tokenizer.

Shared string machinery is in `Chars`: Python's `isspace` table, `strip`, `split`/`join`, `in`,
`replace` and code-point order. `Option` and `Result` are in `Wrappers`.

## Model

| member | source | states |
|---|---|---|
| `Chars.StripEmpty` | scripts/i18n-workflow.py:608 | `s.strip()` is empty exactly when every character of `s` is whitespace |
| `Chars.Strip` | scripts/i18n-workflow.py:611 | `strip` never lengthens and leaves no whitespace at either end |
| `Chars.StripContained` | scripts/i18n-workflow.py:611 | what `strip` returns is a contiguous piece of its input |
| `Chars.SplitJoin` | scripts/i18n-workflow.py:576 | splitting a `"\n".join` of pieces without a newline gives the pieces back |
| `Chars.Split` | scripts/i18n-workflow.py:576 | `split` gives at least one piece and no piece holds the separator |
| `Chars.ReplaceAbsent` | scripts/i18n-translate.py:210-212 | `replace` of a target that does not occur returns the string unchanged |
| `Chars.ReplaceLength` | scripts/i18n-translate.py:210-212 | replacing by a longer text never shortens, and lengthens every string holding the target |
| `Chars.LexTotal` | scripts/i18n-workflow.py:483 | code-point order, used by `sorted`, relates every two distinct keys |
| `Chars.LexTransitive` | scripts/i18n-workflow.py:483 | code-point order is transitive |
| `Chars.LexAsymmetric` | scripts/i18n-workflow.py:483 | code-point order is asymmetric |
| `Decimal.ValueOfRender` | scripts/i18n-workflow.py:585 | `int(str(n)) == n` for every natural `n`, so a rendered item number reads back |
| `Decimal.Render` | scripts/i18n-workflow.py:551 | an item number renders as a non-empty run of decimal digits |
| `Decimal.DigitRunOfDigits` | scripts/i18n-workflow.py:583 | greedy `\d+` on digits followed by a non-digit takes exactly the digits |
| `Scanners.MatchNumberedLine` | scripts/i18n-workflow.py:583 | `^(\d+)\.\s*(.+)$` matches exactly when a digit run is followed by `.` and at least one more character; the text is a non-empty tail of the line and the number is the digits' value |
| `Scanners.MatchRenderedLine` | scripts/i18n-workflow.py:583-586 | the line `"<n>. <text>"` is matched back to `n` and `text` |
| `Scanners.MatchParts` | scripts/i18n-workflow.py:583-586 | a match's groups are the digits and the rest after `\s*` |
| `Scanners.NoteAt` | scripts/i18n-workflow.py:594 | a note match ends with `]` |
| `Scanners.StripNotes` | scripts/i18n-workflow.py:594 | removing notes never lengthens the text |
| `Scanners.StripNotesNoBracket` | scripts/i18n-workflow.py:594 | a text without `[` loses nothing to note removal |
| `Scanners.StripNotesNoClose` | scripts/i18n-workflow.py:594 | a text without `]` loses nothing to note removal |
| `Scanners.StripNotesDropsNote` | scripts/i18n-workflow.py:594 | removing ` [keep: x]` keeps the text before and after it |
| `Scanners.StripNotesPrefix` | scripts/i18n-workflow.py:594 | note removal passes over a prefix without `[` that ends in a non-blank |
| `Scanners.StripLeadingNumber` | scripts/i18n-workflow.py:598 | `^(\d+)\.\s*` removal returns a tail of its input, and the input itself when it does not start with a digit |
| `Scanners.StripRenderedNumber` | scripts/i18n-workflow.py:598 | an echoed `"<n>. "` in front of a text is removed once |
| `Scanners.StripDigitsDot` | scripts/i18n-workflow.py:598 | the same for any non-empty digit run |
| `Scanners.Placeholders` | scripts/i18n-workflow.py:626-627 | every token `findall(r'\{[^}]+\}')` returns is braces around at least one character with no `}` inside |
| `Scanners.PlaceholdersOccur` | scripts/i18n-workflow.py:626-627 | every token found occurs in the scanned text |
| `Scanners.PlaceholdersNoBrace` | scripts/i18n-workflow.py:626-627 | a text without `{` has no token |
| `Scanners.UnwrapContained` | scripts/i18n-workflow.py:589-591 | removing wrapping quotes keeps a piece of the text |
| `Scanners.Unwrap` | scripts/i18n-workflow.py:589-591 | the text is returned unchanged unless it starts with a quote, and is never lengthened |
| `Languages.LanguageProfile` | scripts/i18n-workflow.py:212-223 | the workflow knows exactly the codes of its table and fails on any other; the scripts always succeed, with their table's entry or `code.upper()` and `Be concise.` (i18n-translate.py:257-260, i18n-translate-ollama.py:135) |
| `Languages.ScriptTableAgrees` | scripts/i18n-translate.py:55-80 | every entry of the scripts' table is also the workflow's entry for that code |
| `Languages.UpperCode` | scripts/i18n-translate.py:257-260 | the fallback name is the code with each ASCII letter upper-cased |
| `Prompts.NumberedLines` | scripts/i18n-workflow.py:549-552 | one line per key, `"<i>. <key>"` for `i = 1..N`, in input order |
| `Prompts.TextsBlockReadsBack` | scripts/i18n-workflow.py:549-554 | the texts block splits back into the numbered lines, and each line scans back to its number and key |
| `Prompts.BatchPromptListsEach` | scripts/i18n-workflow.py:556-570 | every item's numbered line occurs in the batch prompt of every variant |
| `Prompts.ParamListNamesEach` | scripts/i18n-workflow.py:712-713 | every parameter's `{name}` occurs in the placeholder warning |
| `Prompts.BatchPrompt` | scripts/i18n-workflow.py:544-570 | the batch prompt carries the language's instructions and the whole numbered texts block |
| `Prompts.SinglePrompt` | scripts/i18n-workflow.py:707-726 | the single-text prompt carries the language's instructions followed by the placeholder warning, the `Context:` and `Text:` lines, and every parameter's `{name}` |
| `Parser.ParseBatchResponse` | scripts/i18n-workflow.py:573-603 | the slot-filling loop returns what the parser specification says |
| `Parser.ParseSpec` | scripts/i18n-workflow.py:573-603 | `parse_batch_response` returns exactly `count` slots |
| `Parser.StoreCandidate` | scripts/i18n-workflow.py:600-601 | one line's store changes only the slot the candidate names, and only with non-empty text |
| `Parser.LastCandidateWins` | scripts/i18n-workflow.py:578-601 | each slot holds the last non-empty candidate numbered for it, or nothing; out-of-range numbers are dropped |
| `Parser.ParseLastWins` | scripts/i18n-workflow.py:573-603 | the same for a whole response |
| `Parser.CleanPlain` | scripts/i18n-workflow.py:589-598 | the candidate clean-up leaves a plain text alone |
| `Parser.CleanDropsEchoedNumber` | scripts/i18n-workflow.py:598 | an answer that repeats the numbering loses the repeated number |
| `Parser.CleanWithoutQuoteOrNote` | scripts/i18n-workflow.py:589-598 | with no quote and no note, the clean-up only drops an echoed number |
| `Parser.NoteRemovalDiffers` | scripts/i18n-translate-ollama.py:173-174 | a leading note leaves a blank in front of the text in the Ollama script only, which does not trim after removing notes |
| `Parser.EchoParsesBack` | scripts/i18n-workflow.py:545-603 | a response that echoes the prompt's numbered list fills every slot with its own key: prompt numbering and parser agree |
| `Parser.MatchedLineCandidate` | scripts/i18n-workflow.py:583-598 | a matching line offers its cleaned text for the slot one below its number |
| `Validator.VerdictOf` | scripts/i18n-workflow.py:606-638 | the verdict is `Empty` exactly for a blank text; a missing parameter is a placeholder the original has and the checked text lacks; new placeholders are reported only outside the Ollama script, and are in the checked text and not in the original; a length rejection means the ratio is out of range; the checks run in the source's order (the missing placeholder is the first lost parameter, and the later rejections come only after every parameter and, outside the Ollama script, every placeholder passed) |
| `Validator.FirstMissing` | scripts/i18n-workflow.py:620-623 | nothing is missing exactly when every parameter placeholder of the original is in the translation; otherwise the first lost one is named |
| `Validator.DropPair` | scripts/i18n-workflow.py:613-617 | a quote pair is removed only when the text starts and ends with that quote; otherwise the text is kept |
| `Validator.Validate` | scripts/i18n-workflow.py:606-638 | the loop over the parameters returns the verdict of the check sequence |
| `Validator.AcceptedIff` | scripts/i18n-workflow.py:606-638 | accepted exactly when the text is not blank, keeps every parameter the original has, adds no placeholder (not in the Ollama script) and has a sane length ratio |
| `Validator.AcceptedLength` | scripts/i18n-workflow.py:634-636 | an accepted text is between a tenth of and five times the original's length (at least one) |
| `Validator.MissingNamesLostParameter` | scripts/i18n-workflow.py:620-623 | a missing-parameter rejection names a parameter placeholder the original has and the translation lacks |
| `Validator.QuotedNothingIsSuspicious` | scripts/i18n-workflow.py:608-636 | `""` passes the emptiness test and is rejected by the ratio check |
| `Validator.NewPlaceholderOnlyStrict` | scripts/i18n-translate-ollama.py:180-198 | a new placeholder is rejected by the workflow and llama.cpp and accepted by the Ollama script |
| `Translator.BatchTokens` | scripts/i18n-translate.py:556 | `min(len(items) * 100, 1024)` |
| `Translator.BatchRequest` | scripts/i18n-translate.py:539-563 | the batch request's prompt lists every item's key under its number from 1 and carries the language's instructions |
| `Translator.BatchBudget` | scripts/i18n-translate.py:555-556 | a batch is given at most 1024 tokens, and at least 100 when it is not empty (`num_predict` 1024 in the Ollama-based variants, i18n-workflow.py:653) |
| `Translator.BatchStop` | scripts/i18n-translate.py:563 | only llama.cpp sends a stop string with a batch |
| `Translator.SingleRequest` | scripts/i18n-translate.py:494-515 | the single-text request's prompt carries the context and text lines and every parameter's placeholder |
| `Translator.SingleBudget` | scripts/i18n-translate.py:512 | a single text is given between 1 and 1024 tokens, fewer than 1024 exactly for llama.cpp |
| `Translator.SingleStop` | scripts/i18n-translate.py:515 | only llama.cpp sends stop strings with a single text, a blank line among them |
| `Translator.TranslateSingle` | scripts/i18n-workflow.py:707-747 | a single-text result is a non-empty single line that the validator accepts |
| `Translator.BatchSlots` | scripts/i18n-workflow.py:670-704 | `translate_batch` returns one slot per item |
| `Translator.TranslateBatch` | scripts/i18n-workflow.py:670-704 | one request for the batch, then the slots of the answer |
| `Translator.ReadAnswer` | scripts/i18n-translate-ollama.py:240-263 | what a variant makes of the model's answer: nothing on an empty answer (Ollama-based), else the validated slots |
| `Translator.ValidateSlots` | scripts/i18n-workflow.py:690-702 | each slot keeps the parser's text exactly when it validates |
| `Translator.BatchSlotKept` | scripts/i18n-workflow.py:687-702 | a kept slot is exactly a parsed non-empty text the validator accepts |
| `Translator.NoTextNoSlots` | scripts/i18n-workflow.py:680-682 | no answer or an empty one leaves every slot empty, in all three variants |
| `Translator.EmptyAnswerParsesToNothing` | scripts/i18n-translate.py:322-355 | parsing the empty text fills no slot |
| `Translator.CleanTranslation` | scripts/i18n-translate.py:396-422 | the prefix loop returns the cleaning specification |
| `Translator.DropPrefix` | scripts/i18n-translate.py:418-420 | one prefix step removes exactly that prefix when the text starts with it case-insensitively |
| `Translator.DropPrefixesNone` | scripts/i18n-translate.py:418-420 | a text with no listed prefix passes the loop unchanged |
| `Translator.DropPrefixesOnceInOrder` | scripts/i18n-translate.py:411-420 | for every text, the prefix loop cuts off (up to ASCII case) the prefixes that fired, each at most once and joined in list order, and returns the rest of the text |
| `Translator.DoubledPrefixRemovedOnce` | scripts/i18n-translate.py:418-420 | `Translation: Translation: t` loses only one `Translation: `, for every t |
| `Translator.PrefixesTriedOnceInOrder` | scripts/i18n-translate.py:411-420 | a `Result: Translation: t` reply keeps `Translation: t`, for every t: an earlier prefix is not tried again after a later one is removed |
| `Translator.CleanedContained` | scripts/i18n-translate.py:396-422 | `clean_translation` only removes text |
| `Translator.FirstLine` | scripts/i18n-workflow.py:733 | the first line has no newline |
| `Translator.FirstLineContained` | scripts/i18n-workflow.py:733-738 | the first line, unquoted, is a piece of the answer |
| `Translator.SingleResultShape` | scripts/i18n-workflow.py:728-747 | a single-text result validates, is one non-empty line, and is the answer's first line unquoted (Ollama-based) or its cleaned text (llama.cpp) |
| `Storage.Disk.Save` | scripts/i18n-workflow.py:295-298 | a save sets one path to the job and leaves the other files |
| `Storage.Disk.RemoveIfExists` | scripts/i18n-translate.py:775-776 | the removal drops one path and nothing else |
| `Storage.Load` | scripts/i18n-translate.py:237-247 | a load succeeds exactly when the file exists and holds a usable job |
| `Batches.Prefill` | scripts/i18n-workflow.py:800-806 | the in-place prefill loop leaves the job the prefill specification describes |
| `Batches.PendingIndices` | scripts/i18n-workflow.py:808 | the pending list is the positions of the untranslated items, in job order, each once |
| `Batches.PendingAfterPrefill` | scripts/i18n-workflow.py:800-808 | an item stays pending exactly when it was untranslated and the prefill did not fill it (`--force`, empty locale, key absent, or empty text); a prefilled item takes the locale's text and is marked |
| `Batches.BatchOf` | scripts/i18n-workflow.py:838-839 | a batch is the items at pending positions `start..end` |
| `Batches.ProcessBatch` | scripts/i18n-workflow.py:850-871 | one batch stores each item's text in the job and returns the keys of the items left without text |
| `Batches.HandleItem` | scripts/i18n-workflow.py:853-871 | one item takes the batch slot's text, else the retry's, else stays empty, and the job records it in place |
| `Batches.Checkpoint` | scripts/i18n-workflow.py:874-876 | after a batch the checkpoint is saved exactly when the trigger fires, holding the job so far |
| `Batches.PyMod` | scripts/i18n-translate.py:766 | Python's `%`: the remainder lies between 0 and the divisor, on the divisor's side |
| `Batches.SaveEnds` | scripts/i18n-workflow.py:874-876 | every checkpoint falls after a batch, within the pending count |
| `Batches.EveryBatchSaves` | scripts/i18n-translate.py:766 | when the batch is at least the interval (10 in the workflow), every batch saves |
| `Batches.CheckpointsAtTenTwentyAndEnd` | scripts/i18n-workflow.py:874 | 25 strings, batches of 10, interval 10: checkpoints after 10, 20 and 25 in every variant |
| `Batches.LlamaDefaultsSaveEveryOtherBatch` | scripts/i18n-translate.py:166-172 | with llama.cpp's defaults (batch 5, interval 10) 27 strings save after 10 and 20 only |
| `Batches.AppliedAt` | scripts/i18n-workflow.py:855-864 | a reached pending position holds its text; an unreached one is as it was |
| `Batches.AppliedElsewhere` | scripts/i18n-workflow.py:808 | a position that is not pending is never changed |
| `Batches.FailedAppend` | scripts/i18n-workflow.py:870 | the failed list grows batch by batch with the keys of the items left without text |
| `Batches.RunBatches` | scripts/i18n-workflow.py:837-876 | the batch loop leaves the job with the run's texts applied, the failed keys in order, and the checkpoint holding the job at the last save; a script with interval 0 raises after the first batch |
| `Batches.LoopBatches` | scripts/i18n-workflow.py:837-876 | the loop keeps the job, failed list and checkpoint in step with the batches done; a script with interval 0 stops after the first batch |
| `Batches.TranslatedOrFailed` | scripts/i18n-workflow.py:853-871 | every pending item ends either holding a text the translators vouched for, or empty and on the failed list, never both |
| `Batches.NoFailuresIffAllTexts` | scripts/i18n-workflow.py:870 | no key failed exactly when every item reached got a text |
| `Batches.AllTranslatedIff` | scripts/i18n-workflow.py:906 | after a full run the job has no untranslated item exactly when no text was empty |
| `Batches.FailedIndicesOrdered` | scripts/i18n-workflow.py:870 | the failed positions are in job order, below every position not yet reached |
| `Batches.FailedKeysAtIndices` | scripts/i18n-workflow.py:870 | the failed keys the run returns are the keys of the items at the failed positions, in the same order |
| `Batches.FailedIndicesMembers` | scripts/i18n-workflow.py:870 | a position failed exactly when it was reached and its outcome is empty |
| `Batches.OutcomesVetted` | scripts/i18n-workflow.py:853-871 | every non-empty outcome is one the batch translator or the single-text retry vouched for |
| `Batches.ResumeOrdered` | scripts/i18n-translate.py:649-657 | the resumed pending list (failed, then unreached) is strictly increasing |
| `Batches.ResumeMember` | scripts/i18n-translate.py:649-657 | a position is pending on resume exactly when it failed or was not reached |
| `Batches.ResumeRetriesFailedThenRest` | scripts/i18n-translate.py:621-657 | a run resumed from a checkpoint written after `k` texts works on exactly the items that failed so far, then those not reached, in job order |
| `Pipeline.WorkflowCheckpointPath` | scripts/i18n-workflow.py:835 | the workflow's checkpoint is never its output file |
| `Pipeline.CheckpointAsWrittenIsOutput` | scripts/i18n-translate.py:210-212 | as written, an output path without `.json` is its own checkpoint path |
| `Pipeline.OutputRemovedAsWritten` | scripts/i18n-translate.py:772-776 | as written, `--output translations-pt.txt` with no failed key removes the file just written |
| `Pipeline.CheckpointPath` | scripts/i18n-translate.py:210-212 | the corrected checkpoint path differs from the output, and equals the written one whenever the output mentions `.json` |
| `Pipeline.PathsOf` | scripts/i18n-translate-ollama.py:326 | with the corrected checkpoint path (see Findings), every variant's checkpoint differs from its output |
| `Pipeline.Translated` | scripts/i18n-translate.py:715-776 | the batch loop ends normally and writes or removes no file but the output and the checkpoint |
| `Pipeline.AfterPrefill` | scripts/i18n-translate.py:673-776 | from the prefilled job on, a run writes or removes no file but its output and its checkpoint |
| `Pipeline.Expected` | scripts/i18n-translate.py:597-776 | a whole run writes or removes no file but its output and its checkpoint |
| `Pipeline.Loaded` | scripts/i18n-translate.py:620-633 | a script reads the checkpoint when resuming and it loads, else the input; the workflow always the input |
| `Pipeline.AskModel` | scripts/i18n-workflow.py:670-704 | a variant's batch translator answers one slot per item |
| `Pipeline.SlotsVetted` | scripts/i18n-workflow.py:690-702 | every batch slot that holds text holds a text the validator accepts |
| `Pipeline.RetryModelVetted` | scripts/i18n-workflow.py:741-747 | a single-text result is accepted by the validator |
| `Pipeline.StoppedRunsWriteNothing` | scripts/i18n-translate.py:636-711 | a run that stops early (a failed check, `sys.exit`, an exception) writes no file |
| `Pipeline.SavedOutputValidated` | scripts/i18n-workflow.py:837-880 | the saved output is the prefilled job; items that had text keep it; the others hold a validated text or stay empty |
| `Pipeline.AppliedVetted` | scripts/i18n-workflow.py:853-871 | the job after the loop: items with text unchanged, the others a validated text or empty |
| `Pipeline.WorkflowOkIffAllTranslated` | scripts/i18n-workflow.py:880-906 | the workflow returns `True` exactly when the output it saves has no untranslated string |
| `Pipeline.CheckpointRemovedUnlessFailed` | scripts/i18n-workflow.py:874-884 | after the loop the checkpoint exists exactly when a key failed and it existed before or the loop wrote one |
| `Pipeline.Finalize` | scripts/i18n-workflow.py:880-884 | the final save, then the checkpoint removed when no key failed |
| `Pipeline.TranslateJob` | scripts/i18n-translate.py:724-776 | the loop and final save have the effect the run specification gives; interval 0 raises with no file written |
| `Pipeline.RunJob` | scripts/i18n-translate.py:673-711 | everything after the prefill (nothing pending, dry run, model load, batch size, language) has the specified effect |
| `Pipeline.Translate` | scripts/i18n-workflow.py:750-906 | a whole run, imperatively, has exactly the effect of the run specification |
| `LocaleStore.ExactOf` | scripts/i18n-workflow.py:445 | `_exactStrings` of a loaded locale, `{}` otherwise |
| `LocaleStore.GenerateContext` | scripts/i18n-workflow.py:388-416 | the context is never empty, and a parameterised text's context starts with the fixed prefix |
| `LocaleStore.ContextIgnoresFile` | scripts/i18n-workflow.py:405-406 | a typed transformation's context does not depend on the file |
| `LocaleStore.ContextNamesParams` | scripts/i18n-workflow.py:401 | a parameterised text's context names every parameter |
| `LocaleStore.ContextOfPath` | scripts/i18n-workflow.py:408-416 | an untyped context checks `components` before `commands` before `config`, else `User-facing text` |
| `LocaleStore.OccurrencesMember` | scripts/i18n-workflow.py:452-456 | the visited occurrences are exactly the report's transformations, each with its file |
| `LocaleStore.OccurrencesIn` | scripts/i18n-workflow.py:452-456 | one occurrence per transformation of a file, in order, each tagged with that file |
| `LocaleStore.UsedKeys` | scripts/i18n-workflow.py:953-958 | every key in use is non-empty with at least two characters after trimming |
| `LocaleStore.CollectUsedKeys` | scripts/i18n-workflow.py:953-958 | the nested loops collect exactly the eligible originals of the report |
| `LocaleStore.Collected` | scripts/i18n-workflow.py:450-481 | every entry of `strings_map` is filed under its own key and lists at least one file, none twice |
| `LocaleStore.CollectedKeys` | scripts/i18n-workflow.py:459-465 | `strings_map` keeps exactly the eligible originals the locale does not have |
| `LocaleStore.CollectedSeen` | scripts/i18n-workflow.py:467-470 | every file listed for a key is one the key occurs in |
| `LocaleStore.CollectedCovers` | scripts/i18n-workflow.py:467-470 | every file a kept key occurs in is listed for it |
| `LocaleStore.CollectedFirst` | scripts/i18n-workflow.py:473-480 | context, type, parameters and first file come from the key's first occurrence |
| `LocaleStore.VisitRecords` | scripts/i18n-workflow.py:459-480 | visiting an eligible untranslated original files it, records the file, and opens a new entry from it when it is new |
| `LocaleStore.VisitKeeps` | scripts/i18n-workflow.py:467-470 | visiting never drops a key and changes only the visited key, by appending its file |
| `LocaleStore.VisitKeys` | scripts/i18n-workflow.py:459-465 | visiting adds exactly the original when it is eligible and untranslated |
| `LocaleStore.CollectStrings` | scripts/i18n-workflow.py:450-481 | the nested loops build exactly the specified `strings_map` |
| `LocaleStore.Emit` | scripts/i18n-workflow.py:497-516 | an entry written out keeps key, context, type and first file, has an empty translation, and lists `files`/`params` only when there are several files/any parameters |
| `LocaleStore.SortKeys` | scripts/i18n-workflow.py:483 | the keys in strictly increasing code-point order, exactly those of the set |
| `LocaleStore.SortedPendingOf` | scripts/i18n-workflow.py:483-516 | the entries written out are the map's entries emitted in strictly sorted key order |
| `LocaleStore.ExtractStrings` | scripts/i18n-workflow.py:419-538 | `None` exactly when the report is missing; otherwise one entry per untranslated original in strictly sorted key order, and the metadata counts |
| `LocaleStore.SortedEntries` | scripts/i18n-workflow.py:990 | `dict(sorted(d.items()))`: strictly sorted keys carrying exactly the pairs of `d` |
| `LocaleStore.ReadBack` | scripts/i18n-workflow.py:990-995 | reading a written `_exactStrings` back gives the dictionary written |
| `LocaleStore.Kept` | scripts/i18n-workflow.py:987 | the cleaned locale has exactly the locale keys in use, with their values |
| `LocaleStore.CleanupUnusedKeys` | scripts/i18n-workflow.py:913-1015 | fails without a report or with an unreadable locale; succeeds otherwise, writing the sorted kept keys exactly when some key is unused and it is not a dry run |
| `LocaleStore.CleanupSettles` | scripts/i18n-workflow.py:965-969 | a cleaned locale has no unused key, and cleaning it again changes nothing |
| `LocaleStore.ValidTranslations` | scripts/i18n-workflow.py:1046 | exactly the items whose translation is not blank, from the job |
| `LocaleStore.MergedKeys` | scripts/i18n-workflow.py:1063-1078 | no key is lost: the merged store has the old keys plus the job's |
| `LocaleStore.MergedValue` | scripts/i18n-workflow.py:1065-1078 | the last item with a key decides its stripped value |
| `LocaleStore.MergedUntouched` | scripts/i18n-workflow.py:1063 | a key the job does not mention keeps its value |
| `LocaleStore.CountedTotals` | scripts/i18n-workflow.py:1059-1078 | new + updated + unchanged is the number of valid items, and the store grows by exactly the new count |
| `LocaleStore.MergeHeld` | scripts/i18n-workflow.py:1065-1078 | a store that already holds every item's value is left alone, all counted unchanged |
| `LocaleStore.MergeIdempotent` | scripts/i18n-workflow.py:1063-1080 | for a job whose repeated keys carry one stripped text (as `extract_strings` writes), a second merge adds and updates nothing |
| `LocaleStore.MergeInto` | scripts/i18n-workflow.py:1059-1078 | the loop leaves the merged store and the three counts |
| `LocaleStore.MergeTranslations` | scripts/i18n-workflow.py:1022-1115 | fails without an input; nothing to merge when no translation is valid; otherwise the counts and the sorted merged store |
| `Embedder.Clean` | packages/search/python/embedder.py:81-118 | cleaning never lengthens, and `clean_text("") == ""` |
| `Embedder.CleanText` | packages/search/python/embedder.py:102-118 | the loop returns the cleaning specification |
| `Embedder.WhitespaceNotControl` | packages/search/python/embedder.py:57-59 | tab, LF and CR are never control |
| `Embedder.CleanMapsSurvivors` | packages/search/python/embedder.py:102-118 | the output is the surviving characters in order, each whitespace one a single space, the others unchanged |
| `Embedder.Survivors` | packages/search/python/embedder.py:106-109 | every kept character comes from the text and is not NUL, U+FFFD or control, and every such character of the text is kept |
| `Embedder.CleanDropsBad` | packages/search/python/embedder.py:106-109 | no output character is NUL, U+FFFD or control, and the only whitespace left is the space |
| `Embedder.CleanAppend` | packages/search/python/embedder.py:102-118 | cleaning distributes over concatenation |
| `Embedder.CleanIdempotent` | packages/search/python/embedder.py:81-118 | cleaning twice is cleaning once |
| `Embedder.CleanPrintable` | packages/search/python/embedder.py:81-118 | printable ASCII comes through unchanged |
| `Embedder.Sanitize` | packages/search/python/embedder.py:486-493 | every value is cleaned as its text: `None` as `""`, others through `str` |
| `Embedder.BatchInputs` | packages/search/python/embedder.py:474-483 | inputs are flattened only when the first element is a list |
| `Embedder.FlattenLength` | packages/search/python/embedder.py:476-483 | flattening a batch without lists changes nothing, and flattening loses at most one place per list |
| `Embedder.TokenizerInputs` | packages/search/python/embedder.py:467-493 | one sanitised text per flattened input |
| `Embedder.Dimensions` | packages/search/python/embedder.py:189-209 | 384, 768 or 1024; 768 exactly for the base model and 1024 exactly for the large one, under either organisation |
| `Embedder.DimensionsOfConversion` | packages/search/python/embedder.py:189-196 | a `Xenova/` conversion has the dimension of its `intfloat/` original |
| `Embedder.IsE5Iff` | packages/search/python/embedder.py:538-540 | an E5 model is one whose id has `e` or `E` right before a `5` |
| `Embedder.Lower` | packages/search/python/embedder.py:540 | `lower()` lower-cases each ASCII letter |
| `Embedder.DefaultIsE5` | packages/search/python/embedder.py:538-540 | the default model is an E5 model |
| `Embedder.CacheDirName` | packages/search/python/embedder.py:231 | the cache directory name starts with `models--` |
| `Embedder.CacheDirNameFlat` | packages/search/python/embedder.py:231 | the name has no `/` left, and an id without `/` is kept as is |
| `Embedder.TokenizerModel` | packages/search/python/embedder.py:368-371 | an id not starting with `Xenova/` is its own tokenizer name |
| `Embedder.TokenizerOfConversion` | packages/search/python/embedder.py:368-371 | `Xenova/<name>` loads the tokenizer of `intfloat/<name>`, which has the same dimension |
| `Embedder.OnnxEmbedder.constructor` | packages/search/python/embedder.py:198-209 | a new embedder is not ready, holds nothing, and has the table's dimension |
| `Embedder.OnnxEmbedder.Initialize` | packages/search/python/embedder.py:335-389 | nothing once ready; no model file leaves it unchanged; otherwise the session is opened, the original's tokenizer is tried before the model's own, and it becomes ready exactly when one loads |
| `Embedder.OnnxEmbedder.IsReady` | packages/search/python/embedder.py:391-393 | the ready flag |
| `Embedder.OnnxEmbedder.Dispose` | packages/search/python/embedder.py:589-594 | session, tokenizer and ready flag cleared |
| `Embedder.OnnxEmbedder.EmbedBatch` | packages/search/python/embedder.py:454-493 | raises unless ready; otherwise the sanitised, flattened inputs |
| `Embedder.OnnxEmbedder.Embed` | packages/search/python/embedder.py:438-452 | raises unless ready; otherwise the cleaned text |
| `Embedder.OnnxEmbedder.Prefixed` | packages/search/python/embedder.py:553 | the prefix goes in front for E5 models only |
| `Embedder.OnnxEmbedder.EmbedQuery` | packages/search/python/embedder.py:542-554 | raises unless ready; otherwise the query, cleaned and prefixed for E5 models, cleaned once more |
| `Embedder.OnnxEmbedder.EmbedDocument` | packages/search/python/embedder.py:556-568 | the same with `passage: ` |
| `Embedder.OnnxEmbedder.EmbedBatchDocuments` | packages/search/python/embedder.py:570-587 | raises unless ready; otherwise one text per value, cleaned and prefixed |
| `Embedder.FlattenBatch` | packages/search/python/embedder.py:476-483 | the flattening loop returns the flattening specification |
| `Embedder.SanitizeAll` | packages/search/python/embedder.py:486-493 | the sanitising loop cleans every value, in order |
| `Embedder.QueryText` | packages/search/python/embedder.py:542-554 | for an E5 model the embedded text is exactly `query: ` followed by the cleaned query |
| `Embedder.PassageText` | packages/search/python/embedder.py:556-568 | the same for `passage: ` |
| `Embedder.PrefixedClean` | packages/search/python/embedder.py:542-568 | cleaning a prefixed cleaned text leaves it unchanged |

## Left out

- File contents are abstract: a file is a parsed job (`Content.Job`) or unusable. JSON encoding, `load_json`/`save_json` exceptions, backups with timestamps, locale discovery, `run_build` and `_find_onnx_model_path` are not modelled.
- The model server is an oracle function. HTTP, timeouts, `check_ollama_running` (an `Environment` flag), `check_model_available` (it only warns), llama.cpp model download and loading (a flag) are not modelled.
- Printing, `safe_print`, display truncation, summaries, `argparse`, elapsed time and the `generatedAt` timestamp are not modelled.
- `\d` is modelled as the ASCII digits. Python also accepts the other Unicode decimal digits.
- The `[keep…]` keyword match folds ASCII letters and the Kelvin sign only, which is what `re.IGNORECASE` does for these keywords.
- The locale used by a run is a given map, not read from the locale path.
- A batch size of 0 is the `ValueError` of `range`. A negative one runs no batch and saves the output. A script's checkpoint interval of 0 raises `ZeroDivisionError` after the first batch.
- Embeddings are not modelled. ONNX inference, the tokenizer, mean pooling and L2 normalisation are floating-point numerics and foreign calls. `embed_batch` returns the tokenizer's inputs.
- The Unicode category database and `str.isspace` are uninterpreted (`CharDb`). The prefix lemmas assume only the facts in `Sane`.
- Embedder.Sanitize: the exception fallback of `_is_control` (a failed category lookup counts as control) is not modelled. The category lookup is total here.
- Embedder.OnnxEmbedder.EmbedBatch: the case where `texts` is not a list is not modelled. The parameter is always a sequence.
- Embedder.Dimensions: `MODEL_DIMENSIONS` is written as a chain of comparisons with the same six entries rather than as a map.
- The embedder's JSON-lines `main` loop and `check_dependencies` are not modelled.
- Embedder.OnnxEmbedder.Initialize: progress callbacks are not modelled, and neither is the exception `initialize` raises when no tokenizer loads. That exception is reported as `TokenizerNotFound`.
- Batches.CheckpointsAtTenTwentyAndEnd: 25 strings with batch size 10 and interval 10 save a checkpoint after 10, 20 and 25, because `25 % 10 < 10`.
- Pipeline.PathsOf: the run model (`Loaded`, `Expected`, `Translate` and the run lemmas) uses the corrected checkpoint path. As written, a script's output path without `.json` is its own checkpoint path (see Findings).
- Languages.UpperCode: only ASCII letters are upper-cased. Python's `upper()` maps all of Unicode and can change the length (`ß` becomes `SS`).
- Embedder.Lower: only ASCII letters are lower-cased. Python's `lower()` maps all of Unicode and can change the length (`İ` becomes two characters).

## Findings

| source | as written | input that shows it | evidently intended | confidence | as-written member | corrected member |
|---|---|---|---|---|---|---|
| scripts/i18n-translate.py:210-212 | `get_checkpoint_path` replaces `.json` in the output path; with no `.json` the checkpoint path is the output path, and after a run with no failed key the script removes the output it has just saved (the same holds for scripts/i18n-translate-ollama.py:86-87) | `--output translations-pt.txt` and a run in which no key fails | a checkpoint path distinct from the output path, e.g. the output path with `.checkpoint.json` appended when it has no `.json` | not executed | `Pipeline.OutputRemovedAsWritten` | `Pipeline.CheckpointPath` |
