/** The prompts sent to the model. A batch prompt carries its texts as a numbered list, one
    `"<i>. <key>"` line per item (i counted from 1); the number on each answer line is the only
    thing that ties an answer back to its item. */
module Prompts {
  import opened Chars
  import opened Decimal
  import opened Scanners
  import opened Variants
  import opened Languages
  import opened Wrappers

  /** `[f"{i}. {item['key']}" for i, item in enumerate(items, 1)]` */
  function NumberedLines(keys: seq<string>): (r: seq<string>)
    ensures |r| == |keys|
    ensures forall i :: 0 <= i < |r| ==> r[i] == Render(i + 1) + ". " + keys[i]
  {
    seq(|keys|, i requires 0 <= i < |keys| => Render(i + 1) + ". " + keys[i])
  }

  /** `"\n".join(strings_list)` */
  function TextsBlock(keys: seq<string>): string {
    Join(NumberedLines(keys), '\n')
  }

  /** The fixed text in front of the numbered list in `build_batch_prompt`. */
  function BatchHeader(v: Variant, lang: Profile): string {
    BatchRules(v, lang.name) + lang.instructions + BatchClose
  }

  /** The rules ahead of the language's instructions, for the language called `name`. The
      llama.cpp variant opens Gemma's user turn. */
  function BatchRules(v: Variant, name: string): string {
    match v
    case Workflow =>
      "Translate these UI texts from English to " + name
      + ".\n\nRULES:\n- Output ONLY numbered translations, one per line\n- Format exactly: \"1. translation\" (number, dot, space, translation only)\n- Keep {placeholders} exactly as they appear - do NOT translate them\n- Keep slash commands (e.g., /help, /settings, /docs) exactly as they appear - do NOT translate them\n- Keep technical terms (API, CLI, JSON, URL, MCP, OAuth, YOLO) unchanged\n- Keep leading symbols like \\n, ---, numbers (1., 2., 3.) exactly as they appear\n- "
    case LlamaCpp =>
      "<start_of_turn>user\nTranslate these UI texts from English to " + name
      + ".\n\nRULES:\n- Output ONLY numbered translations, one per line\n- Format exactly: \"1. translation\" (number, dot, space, translation only)\n- Keep {placeholders} exactly as they appear - do NOT translate them\n- Keep slash commands (e.g., /help, /settings, /docs) exactly as they appear - do NOT translate them\n- Keep technical terms (API, CLI, JSON, URL, MCP, OAuth, YOLO) unchanged\n- "
    case Ollama =>
      "Translate these UI texts from English to " + name
      + ".\n\nRULES:\n- Output ONLY numbered translations, one per line\n- Preserve formatting (bullet lists, number lists, roman lists, etc) like the original, for example: \"1. original english text\" -> \"1. translated text\"(number, dot, space, translation only). Observe that the numbering list was preserved.\n- Keep {placeholders} exactly as they appear - do NOT translate them\n- Keep slash commands (e.g., /help, /settings) exactly as they appear\n- Keep technical terms (API, CLI, JSON, URL, MCP, OAuth) unchanged\n- "
  }

  /** The rules after the language's instructions, the same in every variant. */
  const BatchClose := "\n- NO explanations, NO notes, ONLY translations\n\nTexts:\n"

  /** What follows the numbered list, or the text of a single-text prompt: the end of the user
      turn and the start of the model's turn for llama.cpp, nothing otherwise. */
  function BatchTrailer(v: Variant): string {
    if v == LlamaCpp then "\n<end_of_turn>\n<start_of_turn>model\n" else ""
  }

  /** `build_batch_prompt` of each variant, once the language profile is known. */
  function BatchPrompt(v: Variant, lang: Profile, keys: seq<string>): (r: string)
    ensures Contains(r, lang.instructions)
    ensures Contains(r, TextsBlock(keys))
  {
    TwoPieces(BatchRules(v, lang.name), lang.instructions, BatchClose, TextsBlock(keys), BatchTrailer(v));
    BatchHeader(v, lang) + TextsBlock(keys) + BatchTrailer(v)
  }

  /** `f"{{{param}}}"`: a parameter name in braces. */
  function Braced(param: string): string {
    "{" + param + "}"
  }

  /** `", ".join([f"{{{p}}}" for p in params])` */
  function ParamList(params: seq<string>): string {
    JoinWith(seq(|params|, i requires 0 <= i < |params| => Braced(params[i])), ", ")
  }

  /** The extra prompt line listing the placeholders to keep; empty when there are none. */
  function ParamWarning(params: seq<string>): string {
    if params == [] then "" else WarningLead + ParamList(params)
  }

  const WarningLead := "\nIMPORTANT: Keep these placeholders exactly as-is: "

  /** The single-text prompt of each variant (`translate_single`, or `build_prompt` for
      llama.cpp, whose `file` argument is not used): the rules, the language's instructions
      with the placeholder warning, then the context and the text. */
  function SinglePrompt(v: Variant, lang: Profile, key: string, context: string, params: seq<string>): (r: string)
    ensures Contains(r, lang.instructions + ParamWarning(params))
    ensures Contains(r, "Context: " + context + "\nText: " + key)
    ensures forall i :: 0 <= i < |params| ==> Contains(r, Braced(params[i]))
  {
    var guidance := lang.instructions + ParamWarning(params);
    var subject := "Context: " + context + "\nText: " + key;
    var r := SingleRules(v, lang.name) + guidance + "\n\n" + subject + BatchTrailer(v);
    TwoPieces(SingleRules(v, lang.name), guidance, "\n\n", subject, BatchTrailer(v));
    GuidanceNamesParams(lang.instructions, params);
    NamesCarried(r, guidance, params);
    r
  }

  /** The rules of the single-text prompt, ahead of the language's instructions. */
  function SingleRules(v: Variant, name: string): string {
    match v
    case Workflow =>
      "Translate this UI text from English to " + name
      + ".\n\nRules:\n- Output ONLY the translation, nothing else\n- Keep placeholders like {name}, {count} UNCHANGED\n- Keep slash commands (e.g., /help, /settings, /docs) exactly as they appear\n- Keep technical terms (API, CLI, JSON, URL, MCP, OAuth, YOLO) unchanged\n- "
    case LlamaCpp =>
      "<start_of_turn>user\nTranslate this UI text from English to " + name
      + ".\n\nRules:\n- Output ONLY the translation, nothing else\n- Keep placeholders like {name}, {count} UNCHANGED\n- Keep slash commands (e.g., /help, /settings, /docs) exactly as they appear - do NOT translate them\n- Keep technical terms (API, CLI, JSON, URL, MCP, OAuth, YOLO) unchanged\n- "
    case Ollama =>
      "Translate this UI text from English to " + name
      + ".\n\nRules:\n- Output ONLY the translation, nothing else\n- Keep placeholders like {name}, {count} UNCHANGED\n- Keep slash commands exactly as they appear\n- Keep technical terms unchanged\n- "
  }

  lemma NamesCarried(s: string, m: string, params: seq<string>)
    requires Contains(s, m)
    requires forall i :: 0 <= i < |params| ==> Contains(m, Braced(params[i]))
    ensures forall i :: 0 <= i < |params| ==> Contains(s, Braced(params[i]))
  {
    forall i | 0 <= i < |params| ensures Contains(s, Braced(params[i])) {
      ContainsTransitive(s, m, Braced(params[i]));
    }
  }

  /** The instructions followed by the placeholder warning name every parameter. */
  lemma GuidanceNamesParams(instructions: string, params: seq<string>)
    ensures forall i :: 0 <= i < |params| ==>
      Contains(instructions + ParamWarning(params), Braced(params[i]))
  {
    if params != [] {
      var warning := ParamWarning(params);
      var guidance := instructions + warning;
      Suffix(instructions, warning);
      Suffix(WarningLead, ParamList(params));
      ContainsTransitive(guidance, warning, ParamList(params));
      ParamListNamesEach(params);
      forall i | 0 <= i < |params| ensures Contains(guidance, Braced(params[i])) {
        ContainsTransitive(guidance, ParamList(params), Braced(params[i]));
      }
    }
  }

  /** The texts block holds one line per key, in order, and each line reads back as the item's
      number and its key, when the keys are single lines that do not start with whitespace. */
  lemma TextsBlockReadsBack(keys: seq<string>)
    requires |keys| >= 1
    requires forall i :: 0 <= i < |keys| ==> keys[i] != [] && !IsSpace(keys[i][0]) && '\n' !in keys[i]
    ensures Split(TextsBlock(keys), '\n') == NumberedLines(keys)
    ensures forall i :: 0 <= i < |keys| ==>
      '\n' !in NumberedLines(keys)[i]
      && MatchNumberedLine(NumberedLines(keys)[i]) == Some(NumberedLine(i + 1, keys[i]))
  {
    var lines := NumberedLines(keys);
    forall i | 0 <= i < |keys|
      ensures '\n' !in lines[i] && MatchNumberedLine(lines[i]) == Some(NumberedLine(i + 1, keys[i]))
    {
      NumberedLineReadsBack(keys, i);
    }
    SplitJoin(lines, '\n');
  }

  lemma NumberedLineReadsBack(keys: seq<string>, i: nat)
    requires i < |keys| && keys[i] != [] && !IsSpace(keys[i][0]) && '\n' !in keys[i]
    ensures '\n' !in NumberedLines(keys)[i]
    ensures MatchNumberedLine(NumberedLines(keys)[i]) == Some(NumberedLine(i + 1, keys[i]))
  {
    assert NumberedLines(keys)[i] == Render(i + 1) + ". " + keys[i];
    MatchRenderedLine(i + 1, keys[i]);
  }

  /** Every item's numbered line appears in the batch prompt. */
  lemma BatchPromptListsEach(v: Variant, lang: Profile, keys: seq<string>, i: nat)
    requires i < |keys|
    ensures Contains(BatchPrompt(v, lang, keys), Render(i + 1) + ". " + keys[i])
  {
    var b := TextsBlock(keys);
    MiddleContained(BatchHeader(v, lang), b, BatchTrailer(v));
    JoinContainsEach(NumberedLines(keys), '\n', i);
    ContainsTransitive(BatchPrompt(v, lang, keys), b, NumberedLines(keys)[i]);
  }

  /** Both the second and the fourth of five pieces occur in their concatenation. */
  lemma TwoPieces(a: string, m: string, c: string, d: string, e: string)
    ensures Contains(a + m + c + d + e, m) && Contains(a + m + c + d + e, d)
  {
    var s := a + m + c + d + e;
    assert s[|a|..|a| + |m|] == m;
    ContainsSlice(s, |a|, |a| + |m|);
    var k := |a| + |m| + |c|;
    assert s[k..k + |d|] == d;
    ContainsSlice(s, k, k + |d|);
  }

  lemma Suffix(a: string, b: string)
    ensures Contains(a + b, b)
  {
    assert (a + b)[|a|..|a| + |b|] == b;
    ContainsSlice(a + b, |a|, |a| + |b|);
  }

  lemma MiddleContained(h: string, b: string, t: string)
    ensures Contains(h + b + t, b)
  {
    var p := h + b + t;
    assert p[|h|..|h| + |b|] == b;
    ContainsSlice(p, |h|, |h| + |b|);
  }

  /** Every parameter's `{name}` is spelled out in the placeholder list. */
  lemma {:induction false} ParamListNamesEach(params: seq<string>)
    ensures forall i :: 0 <= i < |params| ==> Contains(ParamList(params), Braced(params[i]))
    decreases |params|
  {
    if |params| > 1 {
      var b := seq(|params|, i requires 0 <= i < |params| => Braced(params[i]));
      var rest := params[1..];
      ParamListNamesEach(rest);
      assert seq(|rest|, i requires 0 <= i < |rest| => Braced(rest[i])) == b[1..];
      var whole := b[0] + ", " + ParamList(rest);
      assert ParamList(params) == whole;
      forall i | 0 <= i < |params| ensures Contains(whole, Braced(params[i])) {
        if i == 0 {
          ContainsSlice(whole, 0, |b[0]|);
          assert whole[0..|b[0]|] == b[0];
        } else {
          assert Braced(params[i]) == Braced(rest[i - 1]);
          ContainsSlice(whole, |b[0]| + 2, |whole|);
          assert whole[|b[0]| + 2..|whole|] == ParamList(rest);
          ContainsTransitive(whole, ParamList(rest), Braced(params[i]));
        }
      }
    } else if |params| == 1 {
      ContainsSlice(ParamList(params), 0, |ParamList(params)|);
      assert ParamList(params)[0..|ParamList(params)|] == Braced(params[0]);
    }
  }
}
