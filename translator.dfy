/** The model behind the scripts, reduced to an oracle, and the two ways of asking it:
    `translate_batch` (one prompt for a batch, answers read back by number and validated)
    and the single-text fallback (`translate_single`, or `translate_string` with
    `clean_translation` in the llama.cpp script). */
module Translator {
  import opened Wrappers
  import opened Chars
  import opened Scanners
  import opened Decimal
  import opened Variants
  import opened Languages
  import opened Prompts
  import opened Parser
  import opened Validator

  /** One entry of the job's `translations` list. A missing or empty `translation` is `""`;
      `context` and `file` may be absent. */
  datatype Item = Item(
    key: string,
    context: Option<string>,
    file: Option<string>,
    params: seq<string>,
    translation: string,
    fromLocale: bool)

  /** What is sent to the model: the prompt, the token budget and the stop strings. */
  datatype Request = Request(prompt: string, maxTokens: nat, stop: seq<string>)

  /** The text generator. `None` stands for a transport error, a non-200 answer or an
      exception; `Some` carries the generated text, which may be empty. */
  type Oracle = Request -> Option<string>

  function Keys(items: seq<Item>): (r: seq<string>)
    ensures |r| == |items| && forall i :: 0 <= i < |items| ==> r[i] == items[i].key
  {
    seq(|items|, i requires 0 <= i < |items| => items[i].key)
  }

  /** The batch request: Ollama gets `num_predict` 1024 and no stop string; llama.cpp gets
      `min(len(items) * 100, 1024)` tokens and stops at `<end_of_turn>`. */
  function BatchRequest(v: Variant, lang: Profile, items: seq<Item>): (r: Request)
    ensures forall i :: 0 <= i < |items| ==> Contains(r.prompt, Render(i + 1) + ". " + items[i].key)
    ensures Contains(r.prompt, lang.instructions)
  {
    ListsEveryItem(v, lang, items);
    Request(BatchPrompt(v, lang, Keys(items)), BatchBudget(v, |items|), BatchStop(v))
  }

  /** The batch's token budget: `min(len(items) * 100, 1024)` for llama.cpp, 1024 otherwise. */
  function BatchBudget(v: Variant, n: nat): (r: nat)
    ensures r <= 1024 && (n > 0 ==> r >= 100)
  {
    if v.LlamaCpp? then BatchTokens(n) else 1024
  }

  /** Only llama.cpp sends a stop string with a batch: the end of the turn. */
  function BatchStop(v: Variant): (r: seq<string>)
    ensures r != [] <==> v.LlamaCpp?
  {
    if v.LlamaCpp? then ["<end_of_turn>"] else []
  }

  /** The batch prompt numbers every item's key from 1. */
  lemma ListsEveryItem(v: Variant, lang: Profile, items: seq<Item>)
    ensures forall i :: 0 <= i < |items| ==> Contains(BatchPrompt(v, lang, Keys(items)), Render(i + 1) + ". " + items[i].key)
  {
    forall i | 0 <= i < |items| ensures Contains(BatchPrompt(v, lang, Keys(items)), Render(i + 1) + ". " + items[i].key) {
      BatchPromptListsEach(v, lang, Keys(items), i);
    }
  }

  /** `min(len(items) * 100, 1024)` */
  function BatchTokens(n: nat): (r: nat)
    ensures r <= 1024 && r <= 100 * n && (r == 1024 || r == 100 * n)
  {
    if n * 100 < 1024 then n * 100 else 1024
  }

  /** The single-text request; llama.cpp also stops at a blank line. */
  function SingleRequest(v: Variant, lang: Profile, key: string, context: string, params: seq<string>): (r: Request)
    ensures Contains(r.prompt, "Context: " + context + "\nText: " + key)
    ensures forall i :: 0 <= i < |params| ==> Contains(r.prompt, Braced(params[i]))
  {
    Request(SinglePrompt(v, lang, key, context, params), SingleBudget(v), SingleStop(v))
  }

  /** `max_tokens` 256 for llama.cpp's single text, `num_predict` 1024 for the others. */
  function SingleBudget(v: Variant): (r: nat)
    ensures 0 < r <= 1024 && (v.LlamaCpp? <==> r < 1024)
  {
    if v.LlamaCpp? then 256 else 1024
  }

  /** Only llama.cpp sends stop strings: the end of the turn and a blank line. */
  function SingleStop(v: Variant): (r: seq<string>)
    ensures r != [] <==> v.LlamaCpp?
    ensures v.LlamaCpp? ==> "\n\n" in r
  {
    if v.LlamaCpp? then ["<end_of_turn>", "\n\n"] else []
  }

  /** `if not response`: no answer, or an empty one. */
  predicate NoText(response: Option<string>) {
    response.None? || response.value == []
  }

  /** The batch slot for one item: the parsed text, kept only when it validates. The kept
      value is the parser's text, not the validator's trimmed and unquoted copy. */
  function Kept(v: Variant, item: Item, parsed: Option<string>): Option<string> {
    match parsed
    case Some(t) =>
      if t != [] && VerdictOf(v, item.key, t, item.params) == Accepted then parsed else None
    case None => None
  }

  /** What `translate_batch` returns for the model's answer `response`. The Ollama-based
      scripts give up on an empty answer; llama.cpp parses whatever text came back. */
  function BatchSlots(v: Variant, items: seq<Item>, response: Option<string>): (r: seq<Option<string>>)
    ensures |r| == |items|
  {
    if items == [] then []
    else if response.None? || (!v.LlamaCpp? && response.value == []) then
      NoSlots(|items|)
    else
      var parsed := ParseSpec(v, response.value, |items|);
      seq(|items|, i requires 0 <= i < |items| => Kept(v, items[i], parsed[i]))
  }

  /** `translate_batch`: one request for the whole batch, then a validation pass over the
      parsed slots. */
  method TranslateBatch(v: Variant, lang: Profile, items: seq<Item>, oracle: Oracle)
    returns (results: seq<Option<string>>)
    ensures results == BatchSlots(v, items, oracle(BatchRequest(v, lang, items)))
  {
    if items == [] {
      return [];
    }
    var response := oracle(BatchRequest(v, lang, items));
    results := ReadAnswer(v, items, response);
  }

  /** What `translate_batch` makes of the model's answer to a non-empty batch. */
  method ReadAnswer(v: Variant, items: seq<Item>, response: Option<string>)
    returns (results: seq<Option<string>>)
    requires items != []
    ensures results == BatchSlots(v, items, response)
  {
    if response.None? || (!v.LlamaCpp? && response.value == []) {
      return NoSlots(|items|);
    }
    var translations := ParseBatchResponse(v, response.value, |items|);
    results := ValidateSlots(v, items, translations);
  }

  /** The validation pass of `translate_batch` over the parsed slots. */
  method ValidateSlots(v: Variant, items: seq<Item>, translations: seq<Option<string>>)
    returns (results: seq<Option<string>>)
    requires |translations| == |items|
    ensures results == seq(|items|, i requires 0 <= i < |items| => Kept(v, items[i], translations[i]))
  {
    results := [];
    var i := 0;
    while i < |items|
      invariant 0 <= i <= |items|
      invariant |results| == i
      invariant forall j :: 0 <= j < i ==> results[j] == Kept(v, items[j], translations[j])
    {
      var slot: Option<string> := None;
      if translations[i].Some? && translations[i].value != [] {
        var verdict := Validate(v, items[i].key, translations[i].value, items[i].params);
        if verdict == Accepted {
          slot := translations[i];
        }
      }
      results := results + [slot];
      i := i + 1;
    }
  }

  /** A kept slot is exactly a parsed, non-empty text that validates. */
  lemma BatchSlotKept(v: Variant, items: seq<Item>, response: string, i: nat, t: string)
    requires i < |items| && (v.LlamaCpp? || response != [])
    ensures BatchSlots(v, items, Some(response))[i] == Some(t) <==>
      ParseSpec(v, response, |items|)[i] == Some(t) && t != []
      && VerdictOf(v, items[i].key, t, items[i].params) == Accepted
  {
  }

  /** An answer with no line to read fills no slot. */
  lemma EmptyAnswerParsesToNothing(v: Variant, count: nat)
    ensures ParseSpec(v, "", count) == NoSlots(count)
  {
    assert Strip("") == "";
    assert ResponseLines("") == [""];
    var offers: seq<Option<Candidate>> := [None];
    assert LineCandidates(v, [""]) == offers by {
      assert LineCandidate(v, "") == None;
    }
    assert offers[..0] == [];
    assert StoreAll(offers, count) == Store(StoreAll([], count), None);
  }

  /** No answer, or an empty one, leaves every slot of the batch empty, in all three scripts
      (llama.cpp reaches the same result by parsing the empty text). */
  lemma NoTextNoSlots(v: Variant, items: seq<Item>, response: Option<string>)
    requires NoText(response)
    ensures BatchSlots(v, items, response) == NoSlots(|items|)
  {
    if items != [] && response.Some? && v.LlamaCpp? {
      EmptyAnswerParsesToNothing(v, |items|);
    }
  }

  /** `response.strip().split('\n')[0].strip()`, then one pair of wrapping quotes dropped. */
  function FirstLine(response: string): (r: string)
    ensures '\n' !in r
  {
    var line := Strip(Split(Strip(response), '\n')[0]);
    StripKeepsOut(Split(Strip(response), '\n')[0], '\n');
    var r := Unwrap(line);
    UnwrapContained(line);
    ContainsChar(line, r, '\n');
    r
  }

  /** The prefixes `clean_translation` removes, in the order it tries them. */
  const CleanPrefixes: seq<string> :=
    ["Translation: ", "Portuguese: ", "Translated: ", "Result: ", "Output: "]

  /** `text.lower().startswith(prefix.lower())`. For these ASCII prefixes, folding ASCII
      letters decides the same as Python's full lower-casing. */
  predicate StartsWithFolded(text: string, prefix: string) {
    |prefix| <= |text| && forall i :: 0 <= i < |prefix| ==> AsciiLower(text[i]) == AsciiLower(prefix[i])
  }

  /** One step of the prefix loop: `text = text[len(prefix):]` when it starts with it. */
  function DropPrefix(text: string, prefix: string): (r: string)
    ensures r == text || (StartsWithFolded(text, prefix) && r == text[|prefix|..])
  {
    if StartsWithFolded(text, prefix) then text[|prefix|..] else text
  }

  /** The whole prefix loop: each prefix tried once, in order. */
  function DropPrefixes(text: string, prefixes: seq<string>): string
    decreases |prefixes|
  {
    if prefixes == [] then text else DropPrefixes(DropPrefix(text, prefixes[0]), prefixes[1..])
  }

  /** What `clean_translation(text)` returns. */
  function Cleaned(text: string): string {
    Strip(DropPrefixes(FirstLine(text), CleanPrefixes))
  }

  /** `clean_translation`, with its loop over the prefixes. */
  method CleanTranslation(raw: string) returns (text: string)
    ensures text == Cleaned(raw)
  {
    text := FirstLine(raw);
    var prefixes := CleanPrefixes;
    var i := 0;
    while i < |prefixes|
      invariant 0 <= i <= |prefixes|
      invariant DropPrefixes(text, prefixes[i..]) == DropPrefixes(FirstLine(raw), prefixes)
    {
      assert prefixes[i..][1..] == prefixes[i + 1..];
      if StartsWithFolded(text, prefixes[i]) {
        text := text[|prefixes[i]|..];
      }
      i := i + 1;
    }
    text := Strip(text);
  }

  /** What the single-text fallback returns for the model's answer `response`: the Ollama
      scripts give up on no or empty text; llama.cpp cleans whatever came back (its empty
      text then fails validation as empty). */
  function SingleResult(v: Variant, key: string, params: seq<string>, response: Option<string>): Option<string> {
    if response.None? || (!v.LlamaCpp? && response.value == []) then None
    else
      var t := if v.LlamaCpp? then Cleaned(response.value) else FirstLine(response.value);
      if VerdictOf(v, key, t, params) == Accepted then Some(t) else None
  }

  /** The single-text fallback for one item; an absent context reads `UI text`. The
      llama.cpp script also passes the item's file, which its prompt does not use. */
  function TranslateSingle(v: Variant, lang: Profile, item: Item, oracle: Oracle): (r: Option<string>)
    ensures r.Some? ==> VerdictOf(v, item.key, r.value, item.params) == Accepted
    ensures r.Some? ==> r.value != [] && '\n' !in r.value
  {
    var context := item.context.GetOr("UI text");
    var response := oracle(SingleRequest(v, lang, item.key, context, item.params));
    var r := SingleResult(v, item.key, item.params, response);
    if r.Some? then
      SingleResultShape(v, item.key, item.params, response, r.value);
      r
    else r
  }

  /** A single-text answer is kept only when it validates, it is one line, and for the
      Ollama-based scripts it is the first line of the answer with wrapping quotes dropped. */
  lemma SingleResultShape(v: Variant, key: string, params: seq<string>, response: Option<string>, t: string)
    requires SingleResult(v, key, params, response) == Some(t)
    ensures response.Some? && VerdictOf(v, key, t, params) == Accepted
    ensures !v.LlamaCpp? ==> t == FirstLine(response.value)
    ensures v.LlamaCpp? ==> t == Cleaned(response.value)
    ensures '\n' !in t && t != []
  {
    var r := response.value;
    if v.LlamaCpp? {
      var d := DropPrefixes(FirstLine(r), CleanPrefixes);
      StripKeepsOut(d, '\n') by {
        DropPrefixesKeepsOut(FirstLine(r), CleanPrefixes, '\n');
      }
    }
  }

  lemma {:induction false} DropPrefixesKeepsOut(text: string, prefixes: seq<string>, c: char)
    requires c !in text
    ensures c !in DropPrefixes(text, prefixes)
    decreases |prefixes|
  {
    if prefixes != [] {
      var next := DropPrefix(text, prefixes[0]);
      assert c !in next by {
        if next != text {
          assert forall i :: 0 <= i < |next| ==> next[i] == text[i + |prefixes[0]|];
        }
      }
      DropPrefixesKeepsOut(next, prefixes[1..], c);
    }
  }

  /** Dropping prefixes keeps a tail of the text. */
  lemma {:induction false} DropPrefixesContained(text: string, prefixes: seq<string>)
    ensures Contains(text, DropPrefixes(text, prefixes))
    decreases |prefixes|
  {
    if prefixes == [] {
      ContainsSlice(text, 0, |text|);
      assert text[0..|text|] == text;
    } else {
      var next := DropPrefix(text, prefixes[0]);
      DropPrefixesContained(next, prefixes[1..]);
      ContainsSlice(text, |text| - |next|, |text|);
      assert text[|text| - |next|..|text|] == next;
      ContainsTransitive(text, next, DropPrefixes(next, prefixes[1..]));
    }
  }

  /** The first line, unquoted, is a piece of the answer. */
  lemma FirstLineContained(response: string)
    ensures Contains(response, FirstLine(response))
  {
    var a := Strip(response);
    var b := Split(a, '\n')[0];
    var c := Strip(b);
    StripContained(response);
    SplitFirstPiece(a, '\n');
    ContainsSlice(a, 0, |b|);
    assert a[0..|b|] == b;
    StripContained(b);
    UnwrapContained(c);
    ContainsTransitive(b, c, Unwrap(c));
    ContainsTransitive(a, b, Unwrap(c));
    ContainsTransitive(response, a, Unwrap(c));
  }

  /** `clean_translation` only ever removes text: what it returns occurs in the raw output. */
  lemma CleanedContained(raw: string)
    ensures Contains(raw, Cleaned(raw))
  {
    var f := FirstLine(raw);
    var d := DropPrefixes(f, CleanPrefixes);
    FirstLineContained(raw);
    DropPrefixesContained(f, CleanPrefixes);
    StripContained(d);
    ContainsTransitive(f, d, Strip(d));
    ContainsTransitive(raw, f, Strip(d));
  }

  /** Text with no listed prefix passes the prefix loop untouched. */
  lemma {:induction false} DropPrefixesNone(t: string, prefixes: seq<string>)
    requires forall i :: 0 <= i < |prefixes| ==> !StartsWithFolded(t, prefixes[i])
    ensures DropPrefixes(t, prefixes) == t
    decreases |prefixes|
  {
    if prefixes != [] {
      DropPrefixesNone(t, prefixes[1..]);
    }
  }

  /** Which steps of the prefix loop fire on `text`: one flag per prefix, in list order. */
  function Fired(text: string, prefixes: seq<string>): (r: seq<bool>)
    ensures |r| == |prefixes|
    decreases |prefixes|
  {
    if prefixes == [] then []
    else [StartsWithFolded(text, prefixes[0])] + Fired(DropPrefix(text, prefixes[0]), prefixes[1..])
  }

  /** The prefixes whose flag is set, joined in list order. */
  function Picked(prefixes: seq<string>, flags: seq<bool>): string
    requires |flags| == |prefixes|
    decreases |prefixes|
  {
    if prefixes == [] then []
    else (if flags[0] then prefixes[0] else []) + Picked(prefixes[1..], flags[1..])
  }

  /** The prefix loop removes each listed prefix at most once, in list order: what it cuts off
      the text is, up to ASCII case, the fired prefixes joined in list order, and what it
      returns is the rest of the text. */
  lemma {:induction false} DropPrefixesOnceInOrder(text: string, prefixes: seq<string>)
    ensures var cut := Picked(prefixes, Fired(text, prefixes));
      StartsWithFolded(text, cut) && DropPrefixes(text, prefixes) == text[|cut|..]
    decreases |prefixes|
  {
    if prefixes != [] {
      var p := prefixes[0];
      var next := DropPrefix(text, p);
      var flags := Fired(text, prefixes);
      assert flags[1..] == Fired(next, prefixes[1..]);
      var rest := Picked(prefixes[1..], flags[1..]);
      DropPrefixesOnceInOrder(next, prefixes[1..]);
      if StartsWithFolded(text, p) {
        var cut := p + rest;
        assert Picked(prefixes, flags) == cut;
        forall i | 0 <= i < |cut| ensures AsciiLower(text[i]) == AsciiLower(cut[i]) {
          if i >= |p| {
            assert text[i] == next[i - |p|];
          }
        }
        assert text[|cut|..] == next[|rest|..];
      } else {
        assert Picked(prefixes, flags) == rest;
      }
    }
  }

  /** A doubled `Translation: ` loses only its first copy: the loop does not come back to a
      prefix it has already tried. */
  lemma DoubledPrefixRemovedOnce(t: string)
    ensures DropPrefixes("Translation: " + ("Translation: " + t), CleanPrefixes) == "Translation: " + t
  {
    var rest := "Translation: " + t;
    LeadingTranslation(t);
    LeadingTranslation(rest);
    TranslationSteps("Translation: " + rest, rest);
  }

  /** A text that starts with `Translation: ` starts with that prefix and with none of the
      others. */
  lemma LeadingTranslation(u: string)
    ensures var s := "Translation: " + u;
      && StartsWithFolded(s, "Translation: ") && s[13..] == u
      && !StartsWithFolded(s, "Portuguese: ") && !StartsWithFolded(s, "Translated: ")
      && !StartsWithFolded(s, "Result: ") && !StartsWithFolded(s, "Output: ")
  {
    var s := "Translation: " + u;
    assert s[0] == 'T' && s[8] == 'i';
    assert AsciiLower(s[0]) != AsciiLower('P');
    assert AsciiLower(s[8]) != AsciiLower("Translated: "[8]);
    assert AsciiLower(s[0]) != AsciiLower('R');
    assert AsciiLower(s[0]) != AsciiLower('O');
  }

  lemma TranslationSteps(s: string, rest: string)
    requires StartsWithFolded(s, "Translation: ") && s[13..] == rest
    requires !StartsWithFolded(rest, "Portuguese: ") && !StartsWithFolded(rest, "Translated: ")
    requires !StartsWithFolded(rest, "Result: ") && !StartsWithFolded(rest, "Output: ")
    ensures DropPrefixes(s, CleanPrefixes) == rest
  {
    var p := CleanPrefixes;
    assert DropPrefixes(s, p) == DropPrefixes(rest, p[1..]);
    assert DropPrefixes(rest, p[1..]) == DropPrefixes(rest, p[2..]);
    assert DropPrefixes(rest, p[2..]) == DropPrefixes(rest, p[3..]);
    assert DropPrefixes(rest, p[3..]) == DropPrefixes(rest, p[4..]);
    assert DropPrefixes(rest, p[4..]) == DropPrefixes(rest, p[5..]);
  }

  /** A `Result: Translation: ` reply keeps its `Translation: `: once `Result: ` has gone, the
      earlier entry `Translation: ` is not looked at again. */
  lemma PrefixesTriedOnceInOrder(t: string)
    ensures DropPrefixes("Result: Translation: " + t, CleanPrefixes) == "Translation: " + t
  {
    var s := "Result: Translation: " + t;
    var rest := "Translation: " + t;
    assert s == "Result: " + rest by {
      assert "Result: Translation: " == "Result: " + "Translation: ";
    }
    assert !StartsWithFolded(s, "Translation: ") by {
      assert AsciiLower(s[0]) != AsciiLower('T');
    }
    assert !StartsWithFolded(s, "Portuguese: ") by {
      assert AsciiLower(s[0]) != AsciiLower('P');
    }
    assert !StartsWithFolded(s, "Translated: ") by {
      assert AsciiLower(s[0]) != AsciiLower('T');
    }
    assert StartsWithFolded(s, "Result: ");
    assert s[|"Result: "|..] == rest;
    assert !StartsWithFolded(rest, "Output: ") by {
      assert AsciiLower(rest[0]) != AsciiLower('O');
    }
    DropPrefixesSteps(s, rest);
  }

  lemma DropPrefixesSteps(s: string, rest: string)
    requires !StartsWithFolded(s, "Translation: ") && !StartsWithFolded(s, "Portuguese: ")
    requires !StartsWithFolded(s, "Translated: ") && StartsWithFolded(s, "Result: ")
    requires s[8..] == rest && !StartsWithFolded(rest, "Output: ")
    ensures DropPrefixes(s, CleanPrefixes) == rest
  {
    var p := CleanPrefixes;
    assert DropPrefixes(s, p) == DropPrefixes(s, p[1..]);
    assert DropPrefixes(s, p[1..]) == DropPrefixes(s, p[2..]);
    assert DropPrefixes(s, p[2..]) == DropPrefixes(s, p[3..]);
    assert DropPrefixes(s, p[3..]) == DropPrefixes(rest, p[4..]);
    assert DropPrefixes(rest, p[4..]) == DropPrefixes(rest, p[5..]);
  }
}
