/** One translation run end to end: the start-up checks, loading the job (or the checkpoint
    when resuming), the prefill from the locale file, the batch loop, the final save and the
    checkpoint clean-up. `Workflow` is the `translate_strings` step of the unified workflow;
    the other two variants are the `main` functions of the stand-alone scripts. */
module Pipeline {
  import opened Wrappers
  import opened Chars
  import opened Variants
  import opened Languages
  import opened Validator
  import opened Translator
  import opened Storage
  import opened Batches

  /** The exceptions a run can end with. */
  datatype Failure = ValueError | ZeroDivisionError

  /** How a run ends: the workflow's `translate_strings` returns a flag; a script's `main`
      returns normally, calls `sys.exit`, or raises. */
  datatype Status = Returned(ok: bool) | Ended | Exited(code: int) | Raised(error: Failure)

  /** The command-line settings. The workflow reads only `lang`, `batchSize` and `force`: its
      paths follow from the language and its checkpoint interval is fixed at 10. */
  datatype Options = Options(lang: string, input: string, output: string, batchSize: int,
                             interval: int, force: bool, resume: bool, dryRun: bool)

  /** What a run finds outside itself: whether the Ollama server answers (for the workflow,
      also whether `requests` is installed), and whether llama.cpp loads the model. */
  datatype Environment = Environment(serverUp: bool, modelLoads: bool)

  /** How a run ends and the files it leaves. */
  datatype Effect = Effect(status: Status, files: map<string, Content>)

  datatype Paths = Paths(input: string, output: string, checkpoint: string)

  /** The normal end of a run: the workflow reports whether no key failed. */
  function Finished(v: Variant, ok: bool): Status {
    if v.Workflow? then Returned(ok) else Ended
  }

  /** A run that cannot start: the workflow returns `False`, a script exits with status 1. */
  function Refused(v: Variant): Status {
    if v.Workflow? then Returned(false) else Exited(1)
  }

  // ----- Paths -----

  function PendingPath(lang: string): string {
    "i18n-pending-translations-" + lang + ".json"
  }

  function CompletedPath(lang: string): string {
    "i18n-completed-translations-" + lang + ".json"
  }

  /** `output_path.with_suffix('.checkpoint.json')` on the workflow's output file, whose name
      ends in `.json`. */
  function WorkflowCheckpointPath(lang: string): (r: string)
    ensures r != CompletedPath(lang)
  {
    "i18n-completed-translations-" + lang + ".checkpoint.json"
  }

  /** `output_path.replace('.json', '.checkpoint.json')` in the stand-alone scripts, as written. */
  function CheckpointPathAsWritten(output: string): string {
    Replace(output, ".json", ".checkpoint.json")
  }

  /** An output path that does not mention `.json` is, as written, its own checkpoint path. */
  lemma CheckpointAsWrittenIsOutput(output: string)
    requires !Contains(output, ".json")
    ensures CheckpointPathAsWritten(output) == output
  {
    ReplaceAbsent(output, ".json", ".checkpoint.json");
  }

  /** So a script run with `--output translations-pt.txt` that ends without a failed key
      removes the file it has just written. */
  lemma OutputRemovedAsWritten(files: map<string, Content>, input: string, job: seq<Item>)
    ensures var output := "translations-pt.txt";
      output !in Finish(files, Paths(input, output, CheckpointPathAsWritten(output)), job, [])
  {
    var output := "translations-pt.txt";
    assert !Contains(output, ".json") by {
      if Contains(output, ".json") {
        ContainsChar(output, ".json", 'j');
        assert false;
      }
    }
    CheckpointAsWrittenIsOutput(output);
  }

  /** The scripts' checkpoint path as intended: the same replacement when the output path
      mentions `.json`, `.checkpoint.json` appended otherwise, so that it never names the
      output file. */
  function CheckpointPath(output: string): (r: string)
    ensures r != output
    ensures Contains(output, ".json") ==> r == CheckpointPathAsWritten(output)
  {
    if Contains(output, ".json") then
      ReplaceLength(output, ".json", ".checkpoint.json");
      CheckpointPathAsWritten(output)
    else output + ".checkpoint.json"
  }

  /** The files a variant reads and writes. */
  function PathsOf(v: Variant, opts: Options): (r: Paths)
    ensures r.checkpoint != r.output
  {
    if v.Workflow? then
      Paths(PendingPath(opts.lang), CompletedPath(opts.lang), WorkflowCheckpointPath(opts.lang))
    else Paths(opts.input, opts.output, CheckpointPath(opts.output))
  }

  /** The checkpoint interval: fixed at 10 in the workflow, `--checkpoint-interval` in the scripts. */
  function IntervalOf(v: Variant, opts: Options): int {
    if v.Workflow? then 10 else opts.interval
  }

  /** The job a run reads. With `--resume` a script reads the checkpoint when it exists and
      loads, and the input file otherwise; without it, and always in the workflow, the input. */
  function Loaded(v: Variant, opts: Options, files: map<string, Content>): (r: Option<seq<Item>>)
    ensures var paths := PathsOf(v, opts);
      if !v.Workflow? && opts.resume && paths.checkpoint in files && files[paths.checkpoint].Job?
      then r == Some(files[paths.checkpoint].items)
      else r == Load(files, paths.input)
  {
    var paths := PathsOf(v, opts);
    if !v.Workflow? && opts.resume && Load(files, paths.checkpoint).Some? then
      Load(files, paths.checkpoint)
    else Load(files, paths.input)
  }

  // ----- The model behind the batch loop -----

  /** `translate_batch` for one variant, language and model, as the batch loop sees it. */
  function AskModel(v: Variant, lang: Profile, oracle: Oracle): (ask: BatchTranslator)
    ensures OneSlotEach(ask)
  {
    var ask := b => BatchSlots(v, b, oracle(BatchRequest(v, lang, b)));
    assert OneSlotEach(ask) by {
      forall b: seq<Item>
        ensures |ask(b)| == |b|
      {
        assert ask(b) == BatchSlots(v, b, oracle(BatchRequest(v, lang, b)));
      }
    }
    ask
  }

  /** The single-text fallback for one variant, language and model. */
  function RetryModel(v: Variant, lang: Profile, oracle: Oracle): SingleTranslator {
    item => TranslateSingle(v, lang, item, oracle)
  }

  /** The model as a run uses it, per target language: `translate_batch` and the single-text
      fallback. */
  datatype Engine = Engine(ask: Profile -> BatchTranslator, retry: Profile -> SingleTranslator)

  /** `translate_batch` answers with one slot per item, whatever the language. */
  ghost predicate Sound(engine: Engine) {
    forall lang :: OneSlotEach(engine.ask(lang))
  }

  /** The engine of a variant talking to the text generator `oracle`. */
  function ModelEngine(v: Variant, oracle: Oracle): (engine: Engine)
    ensures Sound(engine)
  {
    var engine := Engine(lang => AskModel(v, lang, oracle), lang => RetryModel(v, lang, oracle));
    assert Sound(engine) by {
      forall lang: Profile
        ensures OneSlotEach(engine.ask(lang))
      {
        assert engine.ask(lang) == AskModel(v, lang, oracle);
      }
    }
    engine
  }

  /** Every batch slot that holds text holds a text the validator accepts for its item. */
  lemma SlotsVetted(v: Variant, b: seq<Item>, response: Option<string>)
    ensures var slots := BatchSlots(v, b, response);
      forall k :: 0 <= k < |b| && slots[k].Some? ==>
        VerdictOf(v, b[k].key, slots[k].value, b[k].params) == Accepted
  {
    if NoText(response) {
      NoTextNoSlots(v, b, response);
    } else {
      forall k | 0 <= k < |b| && BatchSlots(v, b, response)[k].Some?
        ensures VerdictOf(v, b[k].key, BatchSlots(v, b, response)[k].value, b[k].params) == Accepted
      {
        BatchSlotKept(v, b, response.value, k, BatchSlots(v, b, response)[k].value);
      }
    }
  }

  /** The same, for the batch translator the loop is given. */
  lemma AskModelVetted(v: Variant, lang: Profile, oracle: Oracle, b: seq<Item>)
    ensures var slots := AskModel(v, lang, oracle)(b);
      forall k :: 0 <= k < |b| && slots[k].Some? ==>
        VerdictOf(v, b[k].key, slots[k].value, b[k].params) == Accepted
  {
    var response := oracle(BatchRequest(v, lang, b));
    assert AskModel(v, lang, oracle)(b) == BatchSlots(v, b, response);
    SlotsVetted(v, b, response);
  }

  /** The same holds for the single-text fallback. */
  lemma RetryModelVetted(v: Variant, lang: Profile, oracle: Oracle, item: Item, t: string)
    requires RetryModel(v, lang, oracle)(item) == Some(t)
    ensures VerdictOf(v, item.key, t, item.params) == Accepted
  {
    var context := item.context.GetOr("UI text");
    var response := oracle(SingleRequest(v, lang, item.key, context, item.params));
    SingleResultShape(v, item.key, item.params, response, t);
  }

  // ----- A run, as a specification -----

  /** The files a finished run leaves: the output written, and the checkpoint removed when no
      key failed. */
  function Finish(files: map<string, Content>, paths: Paths, job: seq<Item>, failed: seq<string>)
    : map<string, Content>
  {
    files[paths.output := Job(job)] - (if failed == [] then {paths.checkpoint} else {})
  }

  /** The texts the batch loop gives the pending items of `items`. */
  ghost function RunOutcomes(v: Variant, items: seq<Item>, bs: nat, lang: Profile, oracle: Oracle)
    : (r: seq<string>)
    requires bs > 0
    ensures |r| == |PendingIndices(items)|
  {
    Outcomes(items, PendingIndices(items), bs, 0, AskModel(v, lang, oracle), RetryModel(v, lang, oracle))
  }

  /** A run writes or removes no file but its output and its checkpoint. */
  predicate TouchesOnly(before: map<string, Content>, after: map<string, Content>, paths: Paths) {
    after - {paths.output, paths.checkpoint} == before - {paths.output, paths.checkpoint}
  }

  /** What the batch loop and the final save leave, for a positive batch size, a known
      language and a usable checkpoint interval. */
  ghost function Translated(v: Variant, items: seq<Item>, bs: nat, interval: int,
                            ask: BatchTranslator, retry: SingleTranslator,
                            files: map<string, Content>, paths: Paths): (r: Effect)
    requires bs > 0 && (v.Workflow? || interval != 0) && OneSlotEach(ask)
    ensures r.status == Finished(v, true) || r.status == Finished(v, false)
    ensures TouchesOnly(files, r.files, paths)
  {
    var pending := PendingIndices(items);
    var outs := Outcomes(items, pending, bs, 0, ask, retry);
    var failed := FailedOf(items, pending, outs);
    var saves := SaveEnds(v, |pending|, bs, interval, 0);
    var last := if saves == [] then files
      else files[paths.checkpoint := Job(Applied(items, pending, outs[..saves[|saves| - 1]]))];
    Effect(Finished(v, failed == []), Finish(last, paths, Applied(items, pending, outs), failed))
  }

  /** A run from the prefilled job `items` on, given the language lookup `profile`. */
  ghost function AfterPrefill(v: Variant, opts: Options, env: Environment, profile: Result<Profile, LanguageError>,
                              items: seq<Item>, engine: Engine, files: map<string, Content>): (r: Effect)
    requires Sound(engine)
    ensures TouchesOnly(files, r.files, PathsOf(v, opts))
  {
    var paths := PathsOf(v, opts);
    if PendingIndices(items) == [] then Effect(Finished(v, true), files[paths.output := Job(items)])
    else if !v.Workflow? && opts.dryRun then Effect(Ended, files)
    else if v.LlamaCpp? && !env.modelLoads then Effect(Exited(1), files)
    else if opts.batchSize == 0 then Effect(Raised(ValueError), files)
    else if opts.batchSize < 0 then Effect(Finished(v, true), Finish(files, paths, items, []))
    else if profile.Err? then Effect(Raised(ValueError), files)
    else if !v.Workflow? && opts.interval == 0 then Effect(Raised(ZeroDivisionError), files)
    else
      Translated(v, items, opts.batchSize, IntervalOf(v, opts),
                 engine.ask(profile.value), engine.retry(profile.value), files, paths)
  }

  /** A whole run, step by step as the scripts take them. */
  ghost function Expected(v: Variant, opts: Options, env: Environment, locale: map<string, string>,
                          engine: Engine, files: map<string, Content>): (r: Effect)
    requires Sound(engine)
    ensures TouchesOnly(files, r.files, PathsOf(v, opts))
  {
    var data := Loaded(v, opts, files);
    if !v.LlamaCpp? && !env.serverUp then Effect(Refused(v), files)
    else if data.None? then Effect(Refused(v), files)
    else
      AfterPrefill(v, opts, env, LanguageProfile(v, opts.lang), Prefilled(data.value, locale, opts.force),
                   engine, files)
  }

  /** The settings under which a run with a non-empty pending list reaches the batch loop:
      llama.cpp loads the model, it is not a script's dry run, the batch size is positive, the
      language is known and a script's checkpoint interval is not 0. */
  predicate ReachesBatches(v: Variant, opts: Options, env: Environment, profile: Result<Profile, LanguageError>) {
    && (v.LlamaCpp? ==> env.modelLoads)
    && (v.Workflow? || !opts.dryRun)
    && opts.batchSize > 0
    && profile.Ok?
    && (v.Workflow? || opts.interval != 0)
  }

  /** A run that stops early (a failed check, `sys.exit`, an exception) writes no file. */
  lemma StoppedRunsWriteNothing(v: Variant, opts: Options, env: Environment, locale: map<string, string>,
                                engine: Engine, files: map<string, Content>)
    requires Sound(engine)
    ensures var r := Expected(v, opts, env, locale, engine, files);
      r.status.Exited? || r.status.Raised? ==> r.files == files
  {
    var data := Loaded(v, opts, files);
    if (v.LlamaCpp? || env.serverUp) && data.Some? {
      StoppedAfterPrefillWritesNothing(v, opts, env, LanguageProfile(v, opts.lang),
                                       Prefilled(data.value, locale, opts.force), engine, files);
    }
  }

  lemma StoppedAfterPrefillWritesNothing(v: Variant, opts: Options, env: Environment,
                                         profile: Result<Profile, LanguageError>, items: seq<Item>,
                                         engine: Engine, files: map<string, Content>)
    requires Sound(engine)
    ensures var r := AfterPrefill(v, opts, env, profile, items, engine, files);
      r.status.Exited? || r.status.Raised? ==> r.files == files
  {
  }

  /** The output a run saves is the prefilled job with texts only on the items that were
      untranslated, and every text the model gave is one the validator accepted. */
  lemma SavedOutputValidated(v: Variant, opts: Options, env: Environment, profile: Result<Profile, LanguageError>,
                             items: seq<Item>, oracle: Oracle, files: map<string, Content>)
    requires ReachesBatches(v, opts, env, profile)
    ensures var r := AfterPrefill(v, opts, env, profile, items, ModelEngine(v, oracle), files);
      var output := PathsOf(v, opts).output;
      output in r.files && r.files[output].Job? && |r.files[output].items| == |items|
      && forall i :: 0 <= i < |items| ==>
        var saved := r.files[output].items[i];
        (items[i].translation != [] ==> saved == items[i])
        && (items[i].translation == [] ==>
              saved == items[i].(translation := saved.translation)
              && (saved.translation == [] || VerdictOf(v, items[i].key, saved.translation, items[i].params) == Accepted))
  {
    var pending := PendingIndices(items);
    if pending != [] {
      var lang := profile.value;
      var outs := RunOutcomes(v, items, opts.batchSize, lang, oracle);
      AppliedVetted(v, items, opts.batchSize, lang, oracle, outs);
    }
  }

  /** The job after the batch loop: items that had a text keep it, the others hold the
      model's text, which the validator accepted, or stay empty. */
  lemma AppliedVetted(v: Variant, items: seq<Item>, bs: nat, lang: Profile, oracle: Oracle, outs: seq<string>)
    requires bs > 0 && outs == RunOutcomes(v, items, bs, lang, oracle)
    ensures var out := Applied(items, PendingIndices(items), outs);
      forall i :: 0 <= i < |items| ==>
        (items[i].translation != [] ==> out[i] == items[i])
        && (items[i].translation == [] ==>
              out[i] == items[i].(translation := out[i].translation)
              && (out[i].translation == [] || VerdictOf(v, items[i].key, out[i].translation, items[i].params) == Accepted))
  {
    var pending := PendingIndices(items);
    var ask := AskModel(v, lang, oracle);
    var retry := RetryModel(v, lang, oracle);
    var vetted := (item: Item, t: string) => VerdictOf(v, item.key, t, item.params) == Accepted;
    var out := Applied(items, pending, outs);
    forall b: seq<Item>, k, t | 0 <= k < |b| && ask(b)[k] == Some(t) && t != []
      ensures vetted(b[k], t)
    {
      AskModelVetted(v, lang, oracle, b);
    }
    forall item: Item, t | retry(item) == Some(t) && t != []
      ensures vetted(item, t)
    {
      RetryModelVetted(v, lang, oracle, item, t);
    }
    forall i | 0 <= i < |items|
      ensures items[i].translation != [] ==> out[i] == items[i]
      ensures items[i].translation == [] ==>
        out[i] == items[i].(translation := out[i].translation)
        && (out[i].translation == [] || vetted(items[i], out[i].translation))
    {
      if i in pending {
        var j :| 0 <= j < |pending| && pending[j] == i;
        TranslatedOrFailed(items, pending, bs, ask, retry, vetted, j);
      } else {
        AppliedElsewhere(items, pending, outs, i);
      }
    }
  }

  /** The workflow returns `True` exactly when the output it saves has no untranslated string. */
  lemma WorkflowOkIffAllTranslated(opts: Options, env: Environment, profile: Result<Profile, LanguageError>,
                                   items: seq<Item>, engine: Engine, files: map<string, Content>)
    requires Sound(engine) && ReachesBatches(Workflow, opts, env, profile)
    ensures var r := AfterPrefill(Workflow, opts, env, profile, items, engine, files);
      var output := CompletedPath(opts.lang);
      output in r.files && r.files[output].Job? && r.status.Returned?
      && (r.status.ok <==> forall i :: 0 <= i < |r.files[output].items| ==> r.files[output].items[i].translation != [])
  {
    var pending := PendingIndices(items);
    if pending != [] {
      var lang := profile.value;
      var outs := Outcomes(items, pending, opts.batchSize, 0, engine.ask(lang), engine.retry(lang));
      var paths := PathsOf(Workflow, opts);
      var r := Translated(Workflow, items, opts.batchSize, 10, engine.ask(lang), engine.retry(lang), files, paths);
      assert AfterPrefill(Workflow, opts, env, profile, items, engine, files) == r;
      assert r.files[paths.output] == Job(Applied(items, pending, outs));
      assert r.status == Returned(FailedOf(items, pending, outs) == []);
      NoFailuresIffAllTexts(items, pending, outs);
      AllTranslatedIff(items, outs);
    }
  }

  /** After the batch loop the checkpoint is gone when no key failed, and otherwise it is
      there exactly when it was before or the loop wrote one. */
  lemma CheckpointRemovedUnlessFailed(v: Variant, opts: Options, env: Environment, profile: Result<Profile, LanguageError>,
                                      items: seq<Item>, engine: Engine, files: map<string, Content>)
    requires Sound(engine) && ReachesBatches(v, opts, env, profile) && PendingIndices(items) != []
    ensures var pending := PendingIndices(items);
      var outs := Outcomes(items, pending, opts.batchSize, 0, engine.ask(profile.value), engine.retry(profile.value));
      var checkpoint := PathsOf(v, opts).checkpoint;
      var saves := SaveEnds(v, |pending|, opts.batchSize, IntervalOf(v, opts), 0);
      checkpoint in AfterPrefill(v, opts, env, profile, items, engine, files).files
      <==> FailedOf(items, pending, outs) != [] && (checkpoint in files || saves != [])
  {
    var pending := PendingIndices(items);
    var lang := profile.value;
    var outs := Outcomes(items, pending, opts.batchSize, 0, engine.ask(lang), engine.retry(lang));
    var paths := PathsOf(v, opts);
    var r := Translated(v, items, opts.batchSize, IntervalOf(v, opts), engine.ask(lang), engine.retry(lang), files, paths);
    assert AfterPrefill(v, opts, env, profile, items, engine, files) == r;
    var failed := FailedOf(items, pending, outs);
    var saves := SaveEnds(v, |pending|, opts.batchSize, IntervalOf(v, opts), 0);
    var last := if saves == [] then files
      else files[paths.checkpoint := Job(Applied(items, pending, outs[..saves[|saves| - 1]]))];
    assert r.files == Finish(last, paths, Applied(items, pending, outs), failed);
  }

  // ----- A run, as the scripts do it -----

  /** The final `save_json(output_path, data)`, then the removal of the checkpoint when no key
      failed. */
  method Finalize(v: Variant, disk: Disk, paths: Paths, job: seq<Item>, failed: seq<string>)
    returns (status: Status)
    modifies disk
    ensures disk.files == Finish(old(disk.files), paths, job, failed)
    ensures status == Finished(v, failed == [])
  {
    disk.Save(paths.output, job);
    if failed == [] {
      disk.RemoveIfExists(paths.checkpoint);
    }
    status := Finished(v, failed == []);
  }

  /** The batch loop and the final save, for a positive batch size and a known language. */
  method TranslateJob(v: Variant, job: array<Item>, bs: nat, interval: int,
                      ask: BatchTranslator, retry: SingleTranslator, disk: Disk, paths: Paths)
    returns (status: Status)
    requires bs > 0 && PendingIndices(job[..]) != [] && OneSlotEach(ask)
    modifies job, disk
    ensures v.Workflow? || interval != 0 ==>
      Effect(status, disk.files) == Translated(v, old(job[..]), bs, interval, ask, retry, old(disk.files), paths)
    ensures !v.Workflow? && interval == 0 ==> status == Raised(ZeroDivisionError) && disk.files == old(disk.files)
  {
    var pending := PendingIndices(job[..]);
    var failed, crashed, outs, saves := RunBatches(v, job, pending, bs, interval, ask, retry, disk, paths.checkpoint);
    if crashed {
      return Raised(ZeroDivisionError);
    }
    status := Finalize(v, disk, paths, job[..], failed);
  }

  /** Everything after the prefill: the early returns, then the batch loop. */
  method RunJob(v: Variant, opts: Options, env: Environment, profile: Result<Profile, LanguageError>,
                job: array<Item>, engine: Engine, disk: Disk)
    returns (status: Status)
    requires Sound(engine)
    modifies job, disk
    ensures Effect(status, disk.files) == AfterPrefill(v, opts, env, profile, old(job[..]), engine, old(disk.files))
  {
    var paths := PathsOf(v, opts);
    if PendingIndices(job[..]) == [] {
      disk.Save(paths.output, job[..]);
      return Finished(v, true);
    }
    if !v.Workflow? && opts.dryRun {
      return Ended;
    }
    if v.LlamaCpp? && !env.modelLoads {
      return Exited(1);
    }
    if opts.batchSize == 0 {
      return Raised(ValueError);
    }
    if opts.batchSize < 0 {
      status := Finalize(v, disk, paths, job[..], []);
      return;
    }
    if profile.Err? {
      return Raised(ValueError);
    }
    status := TranslateJob(v, job, opts.batchSize, IntervalOf(v, opts),
                           engine.ask(profile.value), engine.retry(profile.value), disk, paths);
  }

  /** `translate_strings` of the workflow, or `main` of a stand-alone script, with the model
      given as `engine` (the scripts use `ModelEngine`). */
  method Translate(v: Variant, opts: Options, env: Environment, locale: map<string, string>,
                   engine: Engine, disk: Disk)
    returns (status: Status)
    requires Sound(engine)
    modifies disk
    ensures Effect(status, disk.files) == Expected(v, opts, env, locale, engine, old(disk.files))
  {
    if !v.LlamaCpp? && !env.serverUp {
      return Refused(v);
    }
    var data := Loaded(v, opts, disk.files);
    if data.None? {
      return Refused(v);
    }
    var job := new Item[|data.value|](i requires 0 <= i < |data.value| => data.value[i]);
    assert job[..] == data.value;
    Prefill(job, locale, opts.force);
    status := RunJob(v, opts, env, LanguageProfile(v, opts.lang), job, engine, disk);
  }
}
