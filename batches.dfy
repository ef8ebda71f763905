/** The translation loop the three variants share: strings already in the locale file are
    filled in first, the rest are sent to the model batch by batch, a batch slot that comes
    back empty is retried on its own, keys that fail both ways are collected, and a checkpoint
    of the job is written every so often. */
module Batches {
  import opened Wrappers
  import opened Variants
  import opened Translator
  import opened Storage

  /** Strictly increasing positions. */
  predicate Increasing(s: seq<nat>) {
    forall a, b :: 0 <= a < b < |s| ==> s[a] < s[b]
  }

  /** Positions into a job of `n` items, in job order, each at most once. */
  predicate ValidPending(pending: seq<nat>, n: nat) {
    Increasing(pending) && forall j :: 0 <= j < |pending| ==> pending[j] < n
  }

  function Min(a: int, b: int): int {
    if a < b then a else b
  }

  // ----- Filling in from the locale file -----

  /** One item of the prefill loop: an untranslated item whose key the locale file has takes
      that text and is marked `_from_locale`. */
  function Fill(item: Item, locale: map<string, string>): Item {
    if item.translation == [] && item.key in locale then
      item.(translation := locale[item.key], fromLocale := true)
    else item
  }

  /** The job after the prefill, which runs only without `--force` and with a non-empty
      `_exactStrings` table. */
  function Prefilled(items: seq<Item>, locale: map<string, string>, force: bool): (r: seq<Item>)
    ensures |r| == |items|
  {
    if !force && locale != map[] then
      seq(|items|, i requires 0 <= i < |items| => Fill(items[i], locale))
    else items
  }

  /** The prefill loop over the job's `translations`, updating the items in place. */
  method Prefill(job: array<Item>, locale: map<string, string>, force: bool)
    modifies job
    ensures job[..] == Prefilled(old(job[..]), locale, force)
  {
    if force || locale == map[] {
      return;
    }
    var i := 0;
    while i < job.Length
      invariant 0 <= i <= job.Length
      invariant forall j :: 0 <= j < i ==> job[j] == Fill(old(job[j]), locale)
      invariant forall j :: i <= j < job.Length ==> job[j] == old(job[j])
    {
      if job[i].translation == [] && job[i].key in locale {
        job[i] := job[i].(translation := locale[job[i].key], fromLocale := true);
      }
      i := i + 1;
    }
  }

  /** `[t for t in translations if not t.get('translation')]`, as positions into the job. */
  function PendingIndices(items: seq<Item>): (r: seq<nat>)
    ensures ValidPending(r, |items|)
    ensures forall i :: 0 <= i < |items| ==> (i in r <==> items[i].translation == [])
  {
    if items == [] then []
    else
      var n := |items| - 1;
      var p := PendingIndices(items[..n]);
      assert forall i :: 0 <= i < n ==> items[..n][i] == items[i];
      if items[n].translation == [] then p + [n] else p
  }

  /** The prefill only ever takes items off the pending list: an item stays pending exactly
      when it was untranslated and the prefill did not give it a non-empty text. */
  lemma PendingAfterPrefill(items: seq<Item>, locale: map<string, string>, force: bool, i: nat)
    requires i < |items|
    ensures i in PendingIndices(Prefilled(items, locale, force)) <==>
      items[i].translation == []
      && (force || locale == map[] || items[i].key !in locale || locale[items[i].key] == [])
    ensures Prefilled(items, locale, force)[i] == items[i]
      || (!force && items[i].translation == [] && items[i].key in locale
          && Prefilled(items, locale, force)[i]
             == items[i].(translation := locale[items[i].key], fromLocale := true))
  {
    var r := Prefilled(items, locale, force);
    assert i in PendingIndices(r) <==> r[i].translation == [];
  }

  // ----- The batch loop, as a specification -----

  /** `translate_batch` as the loop sees it: a slot per item of the batch. */
  type BatchTranslator = seq<Item> -> seq<Option<string>>

  /** The single-text fallback for one item (`translate_single`, `translate_string`). */
  type SingleTranslator = Item -> Option<string>

  /** `translate_batch` answers with one slot per item, so `zip` drops nothing. */
  ghost predicate OneSlotEach(ask: BatchTranslator) {
    forall batch :: |ask(batch)| == |batch|
  }

  /** The items of one batch: pending positions `start` up to `end`. */
  function BatchOf(items: seq<Item>, pending: seq<nat>, start: nat, end: nat): (r: seq<Item>)
    requires start <= end <= |pending| && ValidPending(pending, |items|)
    ensures |r| == end - start
    ensures forall k :: 0 <= k < |r| ==> r[k] == items[pending[start + k]]
  {
    seq(end - start, k requires 0 <= k < end - start => items[pending[start + k]])
  }

  /** The text an item ends with: its batch slot when that holds text, else the single-text
      fallback's, else nothing (its key is then reported as failed). */
  function Resolve(item: Item, slot: Option<string>, retry: SingleTranslator): string {
    if slot.Some? && slot.value != [] then slot.value
    else
      match retry(item)
      case Some(t) => t
      case None => []
  }

  /** The texts one batch ends with. */
  function BatchOutcome(batch: seq<Item>, ask: BatchTranslator, retry: SingleTranslator): (r: seq<string>)
    requires OneSlotEach(ask)
    ensures |r| == |batch|
  {
    var slots := ask(batch);
    seq(|batch|, k requires 0 <= k < |batch| => Resolve(batch[k], slots[k], retry))
  }

  /** A batch's texts, one item at a time. */
  lemma OutcomeStep(batch: seq<Item>, ask: BatchTranslator, retry: SingleTranslator, k: nat)
    requires OneSlotEach(ask) && k < |batch|
    ensures BatchOutcome(batch, ask, retry)[..k + 1]
      == BatchOutcome(batch, ask, retry)[..k] + [Resolve(batch[k], ask(batch)[k], retry)]
  {
    var r := BatchOutcome(batch, ask, retry);
    assert r[..k + 1] == r[..k] + [r[k]];
  }

  /** The texts the pending items from position `start` on end with, batch by batch
      (`range(start, len(pending), batch_size)`). */
  function Outcomes(items: seq<Item>, pending: seq<nat>, bs: nat, start: nat,
                    ask: BatchTranslator, retry: SingleTranslator): (r: seq<string>)
    requires bs > 0 && ValidPending(pending, |items|) && OneSlotEach(ask)
    ensures |r| == if start < |pending| then |pending| - start else 0
    decreases |pending| - start
  {
    if start >= |pending| then []
    else
      var end := Min(start + bs, |pending|);
      BatchOutcome(BatchOf(items, pending, start, end), ask, retry)
        + Outcomes(items, pending, bs, start + bs, ask, retry)
  }

  /** The job once the first `|outs|` pending items have been given the texts `outs` (an
      empty text leaves an item as it was, untranslated). */
  function Applied(items: seq<Item>, pending: seq<nat>, outs: seq<string>): (r: seq<Item>)
    requires |outs| <= |pending| && ValidPending(pending, |items|)
    ensures |r| == |items|
  {
    if outs == [] then items
    else
      var prev := Applied(items, pending, outs[..|outs| - 1]);
      var i := pending[|outs| - 1];
      prev[i := prev[i].(translation := outs[|outs| - 1])]
  }

  /** The keys reported as failed after the first `|outs|` pending items, in order. */
  function FailedOf(items: seq<Item>, pending: seq<nat>, outs: seq<string>): (r: seq<string>)
    requires |outs| <= |pending| && ValidPending(pending, |items|)
    ensures |r| <= |outs|
  {
    if outs == [] then []
    else
      FailedOf(items, pending, outs[..|outs| - 1])
        + (if outs[|outs| - 1] == [] then [items[pending[|outs| - 1]].key] else [])
  }

  /** The job positions of the failed items, in order. */
  function FailedIndices(pending: seq<nat>, outs: seq<string>): (r: seq<nat>)
    requires |outs| <= |pending|
    ensures |r| <= |outs|
  {
    if outs == [] then []
    else
      FailedIndices(pending, outs[..|outs| - 1])
        + (if outs[|outs| - 1] == [] then [pending[|outs| - 1]] else [])
  }

  // ----- Checkpoints -----

  /** Python's `%`: the remainder takes the sign of the divisor. */
  function PyMod(a: int, b: int): (r: int)
    requires b != 0
    ensures b > 0 ==> 0 <= r < b
    ensures b < 0 ==> b < r <= 0
  {
    var m := a % b;
    if b < 0 && m != 0 then m + b else m
  }

  /** Whether a checkpoint is written after the batch that starts at `start`: the workflow
      tests `(batch_start + batch_size) % 10 < batch_size`, the scripts
      `total_processed % checkpoint_interval < batch_size`. */
  predicate SavesAfter(v: Variant, n: nat, bs: nat, interval: int, start: nat)
    requires v.Workflow? || interval != 0
  {
    if v.Workflow? then (start + bs) % 10 < bs
    else PyMod(Min(start + bs, n), interval) < bs
  }

  /** The pending counts (batch ends) after which a checkpoint is written. */
  function SaveEnds(v: Variant, n: nat, bs: nat, interval: int, start: nat): (r: seq<nat>)
    requires bs > 0 && (v.Workflow? || interval != 0)
    ensures forall k :: 0 <= k < |r| ==> start < r[k] <= n
    decreases n - start
  {
    if start >= n then []
    else
      (if SavesAfter(v, n, bs, interval, start) then [Min(start + bs, n)] else [])
        + SaveEnds(v, n, bs, interval, start + bs)
  }

  /** The end of every batch from `start` on. */
  function BatchEnds(n: nat, bs: nat, start: nat): (r: seq<nat>)
    requires bs > 0
    decreases n - start
  {
    if start >= n then [] else [Min(start + bs, n)] + BatchEnds(n, bs, start + bs)
  }

  /** When a batch holds at least as many strings as the interval (the workflow's fixed 10),
      a checkpoint follows every batch; the Ollama script's defaults (30 and 10) are such a
      case. */
  lemma {:induction false} EveryBatchSaves(v: Variant, n: nat, bs: nat, interval: int, start: nat)
    requires bs > 0
    requires if v.Workflow? then bs >= 10 else 0 < interval <= bs
    ensures SaveEnds(v, n, bs, interval, start) == BatchEnds(n, bs, start)
    decreases n - start
  {
    if start < n {
      EveryBatchSaves(v, n, bs, interval, start + bs);
    }
  }

  /** 25 pending strings in batches of 10 with an interval of 10: every variant writes a
      checkpoint after 10, 20 and 25 strings, the last one because 25 % 10 < 10. */
  lemma CheckpointsAtTenTwentyAndEnd(v: Variant)
    ensures SaveEnds(v, 25, 10, 10, 0) == [10, 20, 25]
  {
    assert SaveEnds(v, 25, 10, 10, 30) == [];
    assert SaveEnds(v, 25, 10, 10, 20) == [25];
    assert SaveEnds(v, 25, 10, 10, 10) == [20, 25];
  }

  /** The llama.cpp script's defaults, batches of 5 with an interval of 10, write a checkpoint
      after every second batch: 27 strings give checkpoints after 10 and 20 only, so the last
      7 are never checkpointed. */
  lemma LlamaDefaultsSaveEveryOtherBatch()
    ensures SaveEnds(LlamaCpp, 27, 5, 10, 0) == [10, 20]
  {
    assert SaveEnds(LlamaCpp, 27, 5, 10, 30) == [];
    assert SaveEnds(LlamaCpp, 27, 5, 10, 25) == [];
    assert SaveEnds(LlamaCpp, 27, 5, 10, 20) == [];
    assert SaveEnds(LlamaCpp, 27, 5, 10, 15) == [20];
    assert SaveEnds(LlamaCpp, 27, 5, 10, 10) == [20];
    assert SaveEnds(LlamaCpp, 27, 5, 10, 5) == [10, 20];
  }

  // ----- Facts about Applied and FailedOf -----

  /** What `Applied` leaves at a pending position: the text given to it, or the item as it was
      when the position has not been reached. */
  lemma {:induction false} AppliedAt(items: seq<Item>, pending: seq<nat>, outs: seq<string>, j: nat)
    requires |outs| <= |pending| && ValidPending(pending, |items|) && j < |pending|
    ensures Applied(items, pending, outs)[pending[j]]
      == if j < |outs| then items[pending[j]].(translation := outs[j]) else items[pending[j]]
  {
    if outs != [] {
      var m := |outs| - 1;
      AppliedAt(items, pending, outs[..m], j);
      if j != m {
        assert pending[j] != pending[m];
      }
    }
  }

  /** `Applied` leaves every position that is not pending as it was. */
  lemma {:induction false} AppliedElsewhere(items: seq<Item>, pending: seq<nat>, outs: seq<string>, i: nat)
    requires |outs| <= |pending| && ValidPending(pending, |items|) && i < |items| && i !in pending
    ensures Applied(items, pending, outs)[i] == items[i]
  {
    if outs != [] {
      AppliedElsewhere(items, pending, outs[..|outs| - 1], i);
    }
  }

  /** The keys of the batch items that got no text, in order. */
  function KeysWithout(batch: seq<Item>, outs: seq<string>): (r: seq<string>)
    requires |outs| <= |batch|
    ensures |r| <= |outs|
  {
    if outs == [] then []
    else
      KeysWithout(batch, outs[..|outs| - 1])
        + (if outs[|outs| - 1] == [] then [batch[|outs| - 1].key] else [])
  }

  lemma KeysStep(batch: seq<Item>, outs: seq<string>, t: string)
    requires |outs| < |batch|
    ensures KeysWithout(batch, outs + [t])
      == KeysWithout(batch, outs) + (if t == [] then [batch[|outs|].key] else [])
  {
    assert (outs + [t])[..|outs|] == outs;
  }

  /** The failed list of a run grows batch by batch. */
  lemma {:induction false} FailedAppend(items: seq<Item>, pending: seq<nat>, done: seq<string>,
                                        batch: seq<Item>, outs: seq<string>)
    requires ValidPending(pending, |items|) && |done| + |outs| <= |pending| && |outs| <= |batch|
    requires forall k :: 0 <= k < |outs| ==> batch[k] == items[pending[|done| + k]]
    ensures FailedOf(items, pending, done + outs)
      == FailedOf(items, pending, done) + KeysWithout(batch, outs)
  {
    if outs == [] {
      assert done + outs == done;
    } else {
      var m := |outs| - 1;
      FailedAppend(items, pending, done, batch, outs[..m]);
      var all := done + outs;
      assert all[..|all| - 1] == done + outs[..m];
      assert all[|all| - 1] == outs[m];
      var tail := if outs[m] == [] then [batch[m].key] else [];
      assert FailedOf(items, pending, all) == FailedOf(items, pending, done + outs[..m]) + tail;
      assert KeysWithout(batch, outs) == KeysWithout(batch, outs[..m]) + tail;
      assert FailedOf(items, pending, done) + KeysWithout(batch, outs[..m]) + tail
        == FailedOf(items, pending, done) + (KeysWithout(batch, outs[..m]) + tail);
    }
  }

  /** The job state after the first `|outs|` pending items, stated position by position. */
  predicate Holds(s: seq<Item>, items: seq<Item>, pending: seq<nat>, outs: seq<string>)
    requires |outs| <= |pending| && ValidPending(pending, |items|)
  {
    && |s| == |items|
    && (forall j :: 0 <= j < |pending| ==>
          s[pending[j]] == (if j < |outs| then items[pending[j]].(translation := outs[j]) else items[pending[j]]))
    && (forall i :: 0 <= i < |items| && i !in pending ==> s[i] == items[i])
  }

  /** `Holds` pins the job down: it is `Applied`. */
  lemma HoldsApplied(s: seq<Item>, items: seq<Item>, pending: seq<nat>, outs: seq<string>)
    requires |outs| <= |pending| && ValidPending(pending, |items|)
    requires Holds(s, items, pending, outs)
    ensures s == Applied(items, pending, outs)
  {
    var r := Applied(items, pending, outs);
    forall i | 0 <= i < |items|
      ensures s[i] == r[i]
    {
      if i in pending {
        var j :| 0 <= j < |pending| && pending[j] == i;
        AppliedAt(items, pending, outs, j);
      } else {
        AppliedElsewhere(items, pending, outs, i);
      }
    }
  }

  // ----- The loop itself -----

  /** `item['translation'] = text` for the next pending item, when there is a text. */
  method StoreText(job: array<Item>, pending: seq<nat>, j: nat, t: string,
                   ghost items: seq<Item>, ghost done: seq<string>)
    requires ValidPending(pending, |items|) && job.Length == |items| && j == |done| < |pending|
    requires items[pending[j]].translation == []
    requires Holds(job[..], items, pending, done)
    modifies job
    ensures Holds(job[..], items, pending, done + [t])
  {
    var idx := pending[j];
    if t != [] {
      job[idx] := job[idx].(translation := t);
    }
    var longer := done + [t];
    forall k | 0 <= k < |pending|
      ensures job[pending[k]]
        == if k < |longer| then items[pending[k]].(translation := longer[k]) else items[pending[k]]
    {
      if k < j {
        assert pending[k] < pending[j];
      } else if k > j {
        assert pending[j] < pending[k];
      }
    }
    assert idx in pending;
  }

  /** `pending[batch_start:batch_end]`, read from the job before the batch is processed: the
      items are still as they were when the run started. */
  method Snapshot(job: array<Item>, pending: seq<nat>, start: nat, end: nat,
                  ghost items: seq<Item>, ghost done: seq<string>)
    returns (batch: seq<Item>)
    requires ValidPending(pending, |items|) && job.Length == |items|
    requires start <= end <= |pending| && |done| == start
    requires Holds(job[..], items, pending, done)
    ensures batch == BatchOf(items, pending, start, end)
    ensures |batch| == end - start
    ensures forall k :: 0 <= k < end - start ==> batch[k] == items[pending[start + k]]
  {
    batch := seq(end - start, k requires 0 <= k < end - start reads job => job[pending[start + k]]);
    forall k | 0 <= k < end - start
      ensures batch[k] == items[pending[start + k]]
    {
      var i := pending[start + k];
      assert job[i] == job[..][i];
    }
  }

  /** One item of a batch: its slot, or when that is empty the single-text fallback; the
      text found is stored in the job. */
  method HandleItem(job: array<Item>, pending: seq<nat>, j: nat, item: Item, slot: Option<string>,
                    retry: SingleTranslator, ghost items: seq<Item>, ghost done: seq<string>)
    returns (t: string)
    requires ValidPending(pending, |items|) && job.Length == |items| && j == |done| < |pending|
    requires item == items[pending[j]] && item.translation == []
    requires Holds(job[..], items, pending, done)
    modifies job
    ensures t == Resolve(item, slot, retry)
    ensures Holds(job[..], items, pending, done + [t])
  {
    t := [];
    if slot.Some? && slot.value != [] {
      t := slot.value;
    } else {
      var single := retry(item);
      if single.Some? && single.value != [] {
        t := single.value;
      }
    }
    StoreText(job, pending, j, t, items, done);
  }

  /** The loop state of one batch after its first `k` items, with `done` the texts of the
      batches before it. */
  predicate BatchState(job: seq<Item>, items: seq<Item>, pending: seq<nat>, done: seq<string>,
                       batch: seq<Item>, ask: BatchTranslator, retry: SingleTranslator, k: nat,
                       batchFailed: seq<string>, batchOuts: seq<string>)
    requires ValidPending(pending, |items|) && OneSlotEach(ask)
    requires |done| + |batch| <= |pending| && k <= |batch|
  {
    && batchOuts == BatchOutcome(batch, ask, retry)[..k]
    && Holds(job, items, pending, done + batchOuts)
    && batchFailed == KeysWithout(batch, batchOuts)
  }

  /** The body of the item loop of one batch. */
  method BatchStep(job: array<Item>, pending: seq<nat>, start: nat, k: nat,
                   batch: seq<Item>, slots: seq<Option<string>>,
                   ask: BatchTranslator, retry: SingleTranslator,
                   ghost items: seq<Item>, ghost done: seq<string>,
                   batchFailed: seq<string>, ghost batchOuts: seq<string>)
    returns (batchFailed': seq<string>, ghost batchOuts': seq<string>)
    requires ValidPending(pending, |items|) && job.Length == |items| && OneSlotEach(ask)
    requires |done| == start && start + |batch| <= |pending| && k < |batch|
    requires slots == ask(batch) && batch[k] == items[pending[start + k]]
    requires items[pending[start + k]].translation == []
    requires BatchState(job[..], items, pending, done, batch, ask, retry, k, batchFailed, batchOuts)
    modifies job
    ensures BatchState(job[..], items, pending, done, batch, ask, retry, k + 1, batchFailed', batchOuts')
  {
    var t := HandleItem(job, pending, start + k, batch[k], slots[k], retry, items, done + batchOuts);
    KeysStep(batch, batchOuts, t);
    OutcomeStep(batch, ask, retry, k);
    batchFailed' := batchFailed;
    if t == [] {
      batchFailed' := batchFailed + [batch[k].key];
    }
    batchOuts' := batchOuts + [t];
    assert done + batchOuts' == (done + batchOuts) + [t];
  }

  /** One batch: `translate_batch`, then each item in turn; items that get no text add their
      key to the failed list. */
  method ProcessBatch(job: array<Item>, pending: seq<nat>, start: nat, end: nat,
                      ask: BatchTranslator, retry: SingleTranslator,
                      ghost items: seq<Item>, ghost done: seq<string>)
    returns (batchFailed: seq<string>, ghost batchOuts: seq<string>)
    requires ValidPending(pending, |items|) && job.Length == |items| && OneSlotEach(ask)
    requires start < end <= |pending| && |done| == start
    requires forall j :: 0 <= j < |pending| ==> items[pending[j]].translation == []
    requires Holds(job[..], items, pending, done)
    modifies job
    ensures batchOuts == BatchOutcome(BatchOf(items, pending, start, end), ask, retry)
    ensures Holds(job[..], items, pending, done + batchOuts)
    ensures batchFailed == KeysWithout(BatchOf(items, pending, start, end), batchOuts)
  {
    var batch := Snapshot(job, pending, start, end, items, done);
    var slots := ask(batch);
    batchFailed, batchOuts := [], [];
    assert done + batchOuts == done;
    var k := 0;
    while k < end - start
      invariant 0 <= k <= end - start
      invariant BatchState(job[..], items, pending, done, batch, ask, retry, k, batchFailed, batchOuts)
    {
      batchFailed, batchOuts := BatchStep(job, pending, start, k, batch, slots, ask, retry,
                                          items, done, batchFailed, batchOuts);
      k := k + 1;
    }
    assert BatchOutcome(batch, ask, retry)[..k] == BatchOutcome(batch, ask, retry);
  }

  /** The job, the failed list and the texts before the batch that starts at `start`. */
  predicate RunState(items: seq<Item>, pending: seq<nat>, bs: nat, ask: BatchTranslator,
                     retry: SingleTranslator, start: nat, job: seq<Item>, failed: seq<string>,
                     outs: seq<string>)
    requires bs > 0 && ValidPending(pending, |items|) && OneSlotEach(ask)
  {
    && |outs| == Min(start, |pending|)
    && Outcomes(items, pending, bs, 0, ask, retry) == outs + Outcomes(items, pending, bs, start, ask, retry)
    && Holds(job, items, pending, outs)
    && failed == FailedOf(items, pending, outs)
  }

  /** The checkpoint file holds the job as it was at the last save, if there was one. */
  predicate Saved(files: map<string, Content>, before: map<string, Content>, checkpoint: string,
                  items: seq<Item>, pending: seq<nat>, outs: seq<string>, saves: seq<nat>)
    requires |outs| <= |pending| && ValidPending(pending, |items|)
  {
    && (forall k :: 0 <= k < |saves| ==> saves[k] <= |outs|)
    && files == if saves == [] then before
         else before[checkpoint := Job(Applied(items, pending, outs[..saves[|saves| - 1]]))]
  }

  /** `FailedAppend` for the batch `pending[start:end]`. */
  lemma FailedBatch(items: seq<Item>, pending: seq<nat>, done: seq<string>, start: nat, end: nat,
                    outs: seq<string>)
    requires ValidPending(pending, |items|) && start <= end <= |pending|
    requires |done| == start && |outs| <= end - start
    ensures FailedOf(items, pending, done + outs)
      == FailedOf(items, pending, done) + KeysWithout(BatchOf(items, pending, start, end), outs)
  {
    FailedAppend(items, pending, done, BatchOf(items, pending, start, end), outs);
  }

  /** The texts of the run so far, followed by those still to come, are the run's texts. */
  lemma OutcomesAdvance(items: seq<Item>, pending: seq<nat>, bs: nat, start: nat,
                        ask: BatchTranslator, retry: SingleTranslator, outs: seq<string>)
    requires bs > 0 && ValidPending(pending, |items|) && OneSlotEach(ask) && start < |pending|
    requires Outcomes(items, pending, bs, 0, ask, retry) == outs + Outcomes(items, pending, bs, start, ask, retry)
    ensures Outcomes(items, pending, bs, 0, ask, retry)
      == (outs + BatchOutcome(BatchOf(items, pending, start, Min(start + bs, |pending|)), ask, retry))
         + Outcomes(items, pending, bs, start + bs, ask, retry)
  {
    var b := BatchOutcome(BatchOf(items, pending, start, Min(start + bs, |pending|)), ask, retry);
    var rest := Outcomes(items, pending, bs, start + bs, ask, retry);
    assert Outcomes(items, pending, bs, start, ask, retry) == b + rest;
    assert outs + (b + rest) == (outs + b) + rest;
  }

  /** One batch of the loop, and its texts added to the run's. */
  method AdvanceBatch(job: array<Item>, pending: seq<nat>, bs: nat, start: nat,
                      ask: BatchTranslator, retry: SingleTranslator, ghost items: seq<Item>,
                      failed: seq<string>, ghost outs: seq<string>)
    returns (failed': seq<string>, ghost outs': seq<string>)
    requires bs > 0 && ValidPending(pending, |items|) && job.Length == |items| && OneSlotEach(ask)
    requires start < |pending|
    requires forall j :: 0 <= j < |pending| ==> items[pending[j]].translation == []
    requires RunState(items, pending, bs, ask, retry, start, job[..], failed, outs)
    modifies job
    ensures RunState(items, pending, bs, ask, retry, start + bs, job[..], failed', outs')
    ensures outs' == outs + BatchOutcome(BatchOf(items, pending, start, Min(start + bs, |pending|)), ask, retry)
  {
    var end := Min(start + bs, |pending|);
    var batchFailed, batchOuts := ProcessBatch(job, pending, start, end, ask, retry, items, outs);
    FailedBatch(items, pending, outs, start, end, batchOuts);
    OutcomesAdvance(items, pending, bs, start, ask, retry, outs);
    failed' := failed + batchFailed;
    outs' := outs + batchOuts;
  }

  /** The saves so far, followed by those still to come, are the run's saves. */
  lemma SaveEndsAdvance(v: Variant, n: nat, bs: nat, interval: int, start: nat, saves: seq<nat>)
    requires bs > 0 && (v.Workflow? || interval != 0) && start < n
    requires SaveEnds(v, n, bs, interval, 0) == saves + SaveEnds(v, n, bs, interval, start)
    ensures SaveEnds(v, n, bs, interval, 0)
      == (saves + if SavesAfter(v, n, bs, interval, start) then [Min(start + bs, n)] else [])
         + SaveEnds(v, n, bs, interval, start + bs)
  {
    var here := if SavesAfter(v, n, bs, interval, start) then [Min(start + bs, n)] else [];
    var rest := SaveEnds(v, n, bs, interval, start + bs);
    assert SaveEnds(v, n, bs, interval, start) == here + rest;
    assert saves + (here + rest) == (saves + here) + rest;
  }

  /** The checkpoint test after the batch that starts at `start` (`total` strings handled so
      far), and the save when it passes. `before` are the texts before the batch. */
  method Checkpoint(v: Variant, job: array<Item>, pending: seq<nat>, bs: nat, interval: int,
                    start: nat, total: nat, disk: Disk, checkpoint: string,
                    ghost items: seq<Item>, ghost files: map<string, Content>,
                    ghost before: seq<string>, ghost outs: seq<string>, ghost saves: seq<nat>)
    returns (ghost saves': seq<nat>)
    requires bs > 0 && (v.Workflow? || interval != 0) && ValidPending(pending, |items|)
    requires start < |pending| && total == |outs| == Min(start + bs, |pending|)
    requires |before| <= |outs| && outs[..|before|] == before
    requires Holds(job[..], items, pending, outs)
    requires SaveEnds(v, |pending|, bs, interval, 0) == saves + SaveEnds(v, |pending|, bs, interval, start)
    requires Saved(disk.files, files, checkpoint, items, pending, before, saves)
    modifies disk
    ensures SaveEnds(v, |pending|, bs, interval, 0) == saves' + SaveEnds(v, |pending|, bs, interval, start + bs)
    ensures Saved(disk.files, files, checkpoint, items, pending, outs, saves')
  {
    var save := if v.Workflow? then (start + bs) % 10 < bs else PyMod(total, interval) < bs;
    assert save == SavesAfter(v, |pending|, bs, interval, start);
    SaveEndsAdvance(v, |pending|, bs, interval, start, saves);
    saves' := saves + if save then [total] else [];
    if save {
      HoldsApplied(job[..], items, pending, outs);
      disk.Save(checkpoint, job[..]);
      assert outs[..total] == outs;
    } else if saves != [] {
      var last := saves[|saves| - 1];
      assert outs[..last] == before[..last];
    }
  }

  /** Everything the batch loop keeps before the batch that starts at `start`: the job, the
      failed list and the texts so far, the checkpoints written and the checkpoint file. */
  predicate Progress(v: Variant, items: seq<Item>, pending: seq<nat>, bs: nat, interval: int,
                     ask: BatchTranslator, retry: SingleTranslator, files: map<string, Content>,
                     checkpoint: string, start: nat, job: seq<Item>, diskFiles: map<string, Content>,
                     failed: seq<string>, outs: seq<string>, saves: seq<nat>, total: nat)
    requires bs > 0 && ValidPending(pending, |items|) && OneSlotEach(ask)
  {
    && RunState(items, pending, bs, ask, retry, start, job, failed, outs)
    && total == |outs|
    && (start == 0 ==> saves == [])
    && ((v.Workflow? || interval != 0) ==>
          SaveEnds(v, |pending|, bs, interval, 0) == saves + SaveEnds(v, |pending|, bs, interval, start))
    && Saved(diskFiles, files, checkpoint, items, pending, outs, saves)
  }

  /** One turn of the batch loop: the batch, then the checkpoint test, which raises
      `ZeroDivisionError` in the scripts when the interval is 0. */
  method RunStep(v: Variant, job: array<Item>, pending: seq<nat>, bs: nat, interval: int,
                 ask: BatchTranslator, retry: SingleTranslator, disk: Disk, checkpoint: string,
                 start: nat, total: nat, ghost items: seq<Item>, ghost files: map<string, Content>,
                 failed: seq<string>, ghost outs: seq<string>, ghost saves: seq<nat>)
    returns (crashed: bool, total': nat, failed': seq<string>, ghost outs': seq<string>,
             ghost saves': seq<nat>)
    requires bs > 0 && ValidPending(pending, |items|) && job.Length == |items| && OneSlotEach(ask)
    requires start < |pending| && (start > 0 ==> v.Workflow? || interval != 0)
    requires forall j :: 0 <= j < |pending| ==> items[pending[j]].translation == []
    requires Progress(v, items, pending, bs, interval, ask, retry, files, checkpoint,
                      start, job[..], disk.files, failed, outs, saves, total)
    modifies job, disk
    ensures crashed <==> !v.Workflow? && interval == 0
    ensures !crashed ==> Progress(v, items, pending, bs, interval, ask, retry, files, checkpoint,
                                  start + bs, job[..], disk.files, failed', outs', saves', total')
    ensures crashed ==>
      && outs' == BatchOutcome(BatchOf(items, pending, 0, Min(bs, |pending|)), ask, retry)
      && |outs'| <= |pending|
      && job[..] == Applied(items, pending, outs')
      && failed' == FailedOf(items, pending, outs')
      && saves' == [] && disk.files == files
  {
    var end := Min(start + bs, |pending|);
    failed', outs' := AdvanceBatch(job, pending, bs, start, ask, retry, items, failed, outs);
    total' := total + (end - start);
    if !v.Workflow? && interval == 0 {
      crashed := true;
      saves' := saves;
      HoldsApplied(job[..], items, pending, outs');
      return;
    }
    crashed := false;
    assert outs'[..|outs|] == outs;
    saves' := Checkpoint(v, job, pending, bs, interval, start, total', disk, checkpoint,
                         items, files, outs, outs', saves);
  }

  /** The batch loop: `for batch_start in range(0, len(pending), batch_size)`, with the
      checkpoint test after each batch. In the scripts a `checkpoint_interval` of 0 raises
      `ZeroDivisionError` at the first test, after the first batch. */
  method RunBatches(v: Variant, job: array<Item>, pending: seq<nat>, bs: nat, interval: int,
                    ask: BatchTranslator, retry: SingleTranslator, disk: Disk, checkpoint: string)
    returns (failed: seq<string>, crashed: bool, ghost outs: seq<string>, ghost saves: seq<nat>)
    requires bs > 0 && OneSlotEach(ask)
    requires ValidPending(pending, job.Length)
    requires forall j :: 0 <= j < |pending| ==> job[pending[j]].translation == []
    modifies job, disk
    ensures crashed <==> !v.Workflow? && interval == 0 && pending != []
    ensures !crashed ==> outs == Outcomes(old(job[..]), pending, bs, 0, ask, retry)
    ensures crashed ==>
      outs == BatchOutcome(BatchOf(old(job[..]), pending, 0, Min(bs, |pending|)), ask, retry)
    ensures |outs| <= |pending|
    ensures job[..] == Applied(old(job[..]), pending, outs)
    ensures failed == FailedOf(old(job[..]), pending, outs)
    ensures !crashed && pending != [] ==> saves == SaveEnds(v, |pending|, bs, interval, 0)
    ensures crashed || pending == [] ==> saves == []
    ensures forall k :: 0 <= k < |saves| ==> saves[k] <= |outs|
    ensures disk.files == if saves == [] then old(disk.files)
      else old(disk.files)[checkpoint := Job(Applied(old(job[..]), pending, outs[..saves[|saves| - 1]]))]
  {
    ghost var items := job[..];
    ghost var files := disk.files;
    var start, total;
    crashed, start, total, failed, outs, saves :=
      LoopBatches(v, job, pending, bs, interval, ask, retry, disk, checkpoint, items, files);
    if !crashed {
      ProgressDone(v, items, pending, bs, interval, ask, retry, files, checkpoint,
                   start, job[..], disk.files, failed, outs, saves, total);
    }
  }

  /** The loop of `RunBatches`, stated through `Progress`. */
  method LoopBatches(v: Variant, job: array<Item>, pending: seq<nat>, bs: nat, interval: int,
                     ask: BatchTranslator, retry: SingleTranslator, disk: Disk, checkpoint: string,
                     ghost items: seq<Item>, ghost files: map<string, Content>)
    returns (crashed: bool, start: nat, total: nat, failed: seq<string>, ghost outs: seq<string>,
             ghost saves: seq<nat>)
    requires bs > 0 && OneSlotEach(ask)
    requires ValidPending(pending, |items|) && job.Length == |items|
    requires job[..] == items && disk.files == files
    requires forall j :: 0 <= j < |pending| ==> items[pending[j]].translation == []
    modifies job, disk
    ensures crashed <==> !v.Workflow? && interval == 0 && pending != []
    ensures !crashed ==> start >= |pending| && (start > 0 ==> v.Workflow? || interval != 0)
    ensures !crashed ==> Progress(v, items, pending, bs, interval, ask, retry, files, checkpoint,
                                  start, job[..], disk.files, failed, outs, saves, total)
    ensures crashed ==>
      && outs == BatchOutcome(BatchOf(items, pending, 0, Min(bs, |pending|)), ask, retry)
      && |outs| <= |pending|
      && job[..] == Applied(items, pending, outs)
      && failed == FailedOf(items, pending, outs)
      && saves == [] && disk.files == files
  {
    failed, outs, saves := [], [], [];
    assert Holds(job[..], items, pending, outs);
    crashed := false;
    start := 0;
    total := 0;
    while start < |pending|
      invariant Progress(v, items, pending, bs, interval, ask, retry, files, checkpoint,
                         start, job[..], disk.files, failed, outs, saves, total)
      invariant start > 0 ==> v.Workflow? || interval != 0
      decreases |pending| - start
    {
      crashed, total, failed, outs, saves :=
        RunStep(v, job, pending, bs, interval, ask, retry, disk, checkpoint,
                start, total, items, files, failed, outs, saves);
      if crashed {
        return;
      }
      start := start + bs;
    }
  }

  /** What the loop state says once every batch is done. */
  lemma ProgressDone(v: Variant, items: seq<Item>, pending: seq<nat>, bs: nat, interval: int,
                     ask: BatchTranslator, retry: SingleTranslator, files: map<string, Content>,
                     checkpoint: string, start: nat, job: seq<Item>, diskFiles: map<string, Content>,
                     failed: seq<string>, outs: seq<string>, saves: seq<nat>, total: nat)
    requires bs > 0 && ValidPending(pending, |items|) && OneSlotEach(ask)
    requires start >= |pending| && (start > 0 ==> v.Workflow? || interval != 0)
    requires Progress(v, items, pending, bs, interval, ask, retry, files, checkpoint,
                      start, job, diskFiles, failed, outs, saves, total)
    ensures outs == Outcomes(items, pending, bs, 0, ask, retry) && |outs| <= |pending|
    ensures job == Applied(items, pending, outs)
    ensures failed == FailedOf(items, pending, outs)
    ensures pending != [] ==> saves == SaveEnds(v, |pending|, bs, interval, 0)
    ensures pending == [] ==> saves == []
    ensures forall k :: 0 <= k < |saves| ==> saves[k] <= |outs|
    ensures diskFiles == if saves == [] then files
      else files[checkpoint := Job(Applied(items, pending, outs[..saves[|saves| - 1]]))]
  {
    HoldsApplied(job, items, pending, outs);
    assert outs + [] == outs;
  }

  // ----- What a run achieves -----

  /** Every text a batch hands back is a slot the batch translator returned, or a text the
      single-text fallback returned for that item; so a property both guarantee for the texts
      they return (such as passing validation) holds for every stored text. */
  lemma OutcomeVetted(batch: seq<Item>, ask: BatchTranslator, retry: SingleTranslator,
                      vetted: (Item, string) -> bool, k: nat)
    requires OneSlotEach(ask) && k < |batch|
    requires forall t :: ask(batch)[k] == Some(t) && t != [] ==> vetted(batch[k], t)
    requires forall t :: retry(batch[k]) == Some(t) && t != [] ==> vetted(batch[k], t)
    requires BatchOutcome(batch, ask, retry)[k] != []
    ensures vetted(batch[k], BatchOutcome(batch, ask, retry)[k])
  {
    var slot := ask(batch)[k];
    if !(slot.Some? && slot.value != []) {
      assert retry(batch[k]).Some?;
    }
  }

  /** The same for every text the loop stores from position `start` on. */
  lemma {:induction false} OutcomesVetted(items: seq<Item>, pending: seq<nat>, bs: nat, start: nat,
                                          ask: BatchTranslator, retry: SingleTranslator,
                                          vetted: (Item, string) -> bool, j: nat)
    requires bs > 0 && ValidPending(pending, |items|) && OneSlotEach(ask)
    requires forall b, k, t :: 0 <= k < |b| && ask(b)[k] == Some(t) && t != [] ==> vetted(b[k], t)
    requires forall item, t :: retry(item) == Some(t) && t != [] ==> vetted(item, t)
    requires j < |Outcomes(items, pending, bs, start, ask, retry)|
    requires Outcomes(items, pending, bs, start, ask, retry)[j] != []
    ensures vetted(items[pending[start + j]], Outcomes(items, pending, bs, start, ask, retry)[j])
    decreases |pending| - start
  {
    var end := Min(start + bs, |pending|);
    var batch := BatchOf(items, pending, start, end);
    var here := BatchOutcome(batch, ask, retry);
    var rest := Outcomes(items, pending, bs, start + bs, ask, retry);
    var o := Outcomes(items, pending, bs, start, ask, retry);
    assert o == here + rest;
    if j < end - start {
      assert o[j] == here[j] && batch[j] == items[pending[start + j]];
      OutcomeVetted(batch, ask, retry, vetted, j);
    } else {
      assert end - start == bs && o[j] == rest[j - bs];
      OutcomesVetted(items, pending, bs, start + bs, ask, retry, vetted, j - bs);
    }
  }

  /** After a complete run every pending item either holds a text the translators vouched
      for, or is still untranslated and sits on the failed list. */
  lemma TranslatedOrFailed(items: seq<Item>, pending: seq<nat>, bs: nat,
                           ask: BatchTranslator, retry: SingleTranslator,
                           vetted: (Item, string) -> bool, j: nat)
    requires bs > 0 && ValidPending(pending, |items|) && OneSlotEach(ask) && j < |pending|
    requires forall b, k, t :: 0 <= k < |b| && ask(b)[k] == Some(t) && t != [] ==> vetted(b[k], t)
    requires forall item, t :: retry(item) == Some(t) && t != [] ==> vetted(item, t)
    ensures var outs := Outcomes(items, pending, bs, 0, ask, retry);
      var item := items[pending[j]];
      Applied(items, pending, outs)[pending[j]] == item.(translation := outs[j])
      && (outs[j] != [] ==> vetted(item, outs[j]))
      && (outs[j] == [] <==> pending[j] in FailedIndices(pending, outs))
  {
    var outs := Outcomes(items, pending, bs, 0, ask, retry);
    AppliedAt(items, pending, outs, j);
    if outs[j] != [] {
      OutcomesVetted(items, pending, bs, 0, ask, retry, vetted, j);
    }
    FailedIndicesMembers(pending, outs, pending[j]);
    if pending[j] in FailedIndices(pending, outs) {
      var i :| 0 <= i < |outs| && pending[i] == pending[j] && outs[i] == [];
      assert i == j;
    }
  }

  /** The failed keys the run reports are the keys of the items at the failed positions, in
      the same order. */
  lemma {:induction false} FailedKeysAtIndices(items: seq<Item>, pending: seq<nat>, outs: seq<string>)
    requires |outs| <= |pending| && ValidPending(pending, |items|)
    ensures |FailedOf(items, pending, outs)| == |FailedIndices(pending, outs)|
    ensures forall k :: 0 <= k < |FailedIndices(pending, outs)| ==>
      FailedIndices(pending, outs)[k] < |items|
      && FailedOf(items, pending, outs)[k] == items[FailedIndices(pending, outs)[k]].key
  {
    if outs != [] {
      FailedKeysAtIndices(items, pending, outs[..|outs| - 1]);
    }
  }

  /** No key is reported as failed exactly when every pending item reached got a text. */
  lemma {:induction false} NoFailuresIffAllTexts(items: seq<Item>, pending: seq<nat>, outs: seq<string>)
    requires |outs| <= |pending| && ValidPending(pending, |items|)
    ensures FailedOf(items, pending, outs) == [] <==> forall j :: 0 <= j < |outs| ==> outs[j] != []
  {
    if outs != [] {
      var m := |outs| - 1;
      NoFailuresIffAllTexts(items, pending, outs[..m]);
      assert forall j :: 0 <= j < m ==> outs[..m][j] == outs[j];
    }
  }

  /** Once every pending item has been given a text, the job has no untranslated item left
      exactly when none of those texts is empty. */
  lemma AllTranslatedIff(items: seq<Item>, outs: seq<string>)
    requires |outs| == |PendingIndices(items)|
    ensures var r := Applied(items, PendingIndices(items), outs);
      (forall i :: 0 <= i < |items| ==> r[i].translation != [])
      <==> forall j :: 0 <= j < |outs| ==> outs[j] != []
  {
    var pending := PendingIndices(items);
    var r := Applied(items, pending, outs);
    if forall j :: 0 <= j < |outs| ==> outs[j] != [] {
      forall i | 0 <= i < |items|
        ensures r[i].translation != []
      {
        if i in pending {
          var j :| 0 <= j < |pending| && pending[j] == i;
          AppliedAt(items, pending, outs, j);
        } else {
          AppliedElsewhere(items, pending, outs, i);
        }
      }
    } else {
      var j :| 0 <= j < |outs| && outs[j] == [];
      AppliedAt(items, pending, outs, j);
      assert r[pending[j]].translation == [];
    }
  }

  // ----- Resuming from a checkpoint -----

  /** Who is in `FailedIndices`: the positions whose text is empty. */
  lemma {:induction false} FailedIndicesMembers(pending: seq<nat>, outs: seq<string>, x: nat)
    requires |outs| <= |pending|
    ensures x in FailedIndices(pending, outs) <==>
      exists j :: 0 <= j < |outs| && pending[j] == x && outs[j] == []
  {
    if outs != [] {
      var m := |outs| - 1;
      FailedIndicesMembers(pending, outs[..m], x);
      assert forall j :: 0 <= j < m ==> outs[..m][j] == outs[j];
    }
  }

  /** `FailedIndices` is in order, and lies below every pending position not yet reached. */
  lemma {:induction false} FailedIndicesOrdered(pending: seq<nat>, outs: seq<string>)
    requires |outs| <= |pending| && Increasing(pending)
    ensures Increasing(FailedIndices(pending, outs))
    ensures forall k, n :: 0 <= k < |FailedIndices(pending, outs)| && |outs| <= n < |pending| ==>
      FailedIndices(pending, outs)[k] < pending[n]
  {
    if outs != [] {
      var m := |outs| - 1;
      FailedIndicesOrdered(pending, outs[..m]);
      var prev := FailedIndices(pending, outs[..m]);
      var r := FailedIndices(pending, outs);
      assert r == prev + (if outs[m] == [] then [pending[m]] else []);
      forall a, b | 0 <= a < b < |r|
        ensures r[a] < r[b]
      {
        assert r[a] == prev[a];
        if b < |prev| {
          assert r[b] == prev[b];
        } else {
          assert r[b] == pending[m];
        }
      }
      forall k, n | 0 <= k < |r| && |outs| <= n < |pending|
        ensures r[k] < pending[n]
      {
        if k < |prev| {
          assert r[k] == prev[k] < pending[m];
        } else {
          assert r[k] == pending[m];
        }
      }
    }
  }

  /** Two increasing sequences with the same members are equal. */
  lemma {:induction false} IncreasingUnique(a: seq<nat>, b: seq<nat>)
    requires Increasing(a) && Increasing(b)
    requires forall x :: x in a <==> x in b
    ensures a == b
    decreases |a|
  {
    assert b != [] ==> b[0] in a;
    if a != [] {
      assert a[0] in b;
      assert b != [];
      assert b[0] in a;
      assert a[0] == b[0] by {
        var i :| 0 <= i < |b| && b[i] == a[0];
        var j :| 0 <= j < |a| && a[j] == b[0];
        assert b[0] <= a[0] && a[0] <= b[0];
      }
      forall x
        ensures x in a[1..] <==> x in b[1..]
      {
        if x in a[1..] {
          assert x in b && x != b[0];
        }
        if x in b[1..] {
          assert x in a && x != a[0];
        }
      }
      IncreasingUnique(a[1..], b[1..]);
      assert a == [a[0]] + a[1..] && b == [b[0]] + b[1..];
    }
  }

  /** The failed positions followed by the ones not reached are in job order. */
  lemma ResumeOrdered(pending: seq<nat>, outs: seq<string>)
    requires |outs| <= |pending| && Increasing(pending)
    ensures Increasing(FailedIndices(pending, outs) + pending[|outs|..])
  {
    var failed := FailedIndices(pending, outs);
    var rest := pending[|outs|..];
    var expected := failed + rest;
    FailedIndicesOrdered(pending, outs);
    forall a, b | 0 <= a < b < |expected|
      ensures expected[a] < expected[b]
    {
      if b >= |failed| {
        assert expected[b] == pending[|outs| + (b - |failed|)];
        if a >= |failed| {
          assert expected[a] == pending[|outs| + (a - |failed|)];
        }
      }
    }
  }

  /** A position is pending after the first `|outs|` texts exactly when it failed or was not
      reached. */
  lemma ResumeMember(items: seq<Item>, outs: seq<string>, x: nat)
    requires |outs| <= |PendingIndices(items)|
    ensures var pending := PendingIndices(items);
      (x in PendingIndices(Applied(items, pending, outs))) <==>
      (x in FailedIndices(pending, outs) + pending[|outs|..])
  {
    var pending := PendingIndices(items);
    var after := Applied(items, pending, outs);
    var failed := FailedIndices(pending, outs);
    var rest := pending[|outs|..];
    FailedIndicesMembers(pending, outs, x);
    if x < |items| {
      if x in pending {
        var j :| 0 <= j < |pending| && pending[j] == x;
        AppliedAt(items, pending, outs, j);
        if j < |outs| {
          if x in failed {
            var i :| 0 <= i < |outs| && pending[i] == x && outs[i] == [];
            assert i == j;
          }
        } else {
          assert rest[j - |outs|] == x;
        }
      } else {
        AppliedElsewhere(items, pending, outs, x);
        assert x !in rest;
      }
    } else {
      assert x !in pending;
      assert x !in rest;
    }
  }

  /** A run resumed from a checkpoint written after `|outs|` pending items works on exactly the
      items that failed so far, followed by those not reached, in job order. */
  lemma ResumeRetriesFailedThenRest(items: seq<Item>, outs: seq<string>)
    requires |outs| <= |PendingIndices(items)|
    ensures var pending := PendingIndices(items);
      PendingIndices(Applied(items, pending, outs)) == FailedIndices(pending, outs) + pending[|outs|..]
  {
    var pending := PendingIndices(items);
    var expected := FailedIndices(pending, outs) + pending[|outs|..];
    ResumeOrdered(pending, outs);
    forall x
      ensures x in PendingIndices(Applied(items, pending, outs)) <==> x in expected
    {
      ResumeMember(items, outs, x);
    }
    IncreasingUnique(PendingIndices(Applied(items, pending, outs)), expected);
  }
}
