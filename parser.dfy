/** `parse_batch_response`: reading the model's numbered answer back into one optional
    translation per item of the batch. */
module Parser {
  import opened Wrappers
  import opened Chars
  import opened Decimal
  import opened Scanners
  import opened Variants
  import opened Prompts

  /** What one matching answer line offers: the 0-based slot its number names and the
      cleaned text. */
  datatype Candidate = Candidate(index: int, text: string)

  /** The clean-up applied to group 2 of a matching line: strip, drop one pair of wrapping
      quotes, drop `[keep …]`-style notes, strip again (not in the Ollama script), and drop
      an echoed `N.` numbering. */
  function CleanCandidate(v: Variant, group2: string): string {
    var unquoted := Unwrap(Strip(group2));
    var noNotes := StripNotes(unquoted);
    var trimmed := if v.TrimsAfterNotes() then Strip(noNotes) else noNotes;
    StripLeadingNumber(trimmed)
  }

  /** The candidate a response line yields, if its stripped form is `<digits>.<text>`. */
  function LineCandidate(v: Variant, line: string): Option<Candidate>
    requires '\n' !in line
  {
    var l := Strip(line);
    StripKeepsOut(line, '\n');
    if l == [] then None
    else match MatchNumberedLine(l)
      case None => None
      case Some(m) => Some(Candidate(m.number - 1, CleanCandidate(v, m.text)))
  }

  predicate SingleLines(lines: seq<string>) {
    forall i :: 0 <= i < |lines| ==> '\n' !in lines[i]
  }

  /** What each response line offers, line by line. */
  function LineCandidates(v: Variant, lines: seq<string>): (r: seq<Option<Candidate>>)
    requires SingleLines(lines)
    ensures |r| == |lines|
  {
    seq(|lines|, i requires 0 <= i < |lines| => LineCandidate(v, lines[i]))
  }

  /** Storing what one line offers: only into a slot that exists, and only a non-empty text. */
  function Store(slots: seq<Option<string>>, offer: Option<Candidate>): (r: seq<Option<string>>)
    ensures |r| == |slots|
  {
    match offer
    case Some(c) =>
      if 0 <= c.index < |slots| && c.text != [] then slots[c.index := Some(c.text)] else slots
    case None => slots
  }

  /** `[None] * count` */
  function NoSlots(count: nat): (r: seq<Option<string>>)
    ensures |r| == count && forall i :: 0 <= i < count ==> r[i].None?
  {
    seq(count, _ => None)
  }

  /** The slots after storing `offers` in order into `count` empty slots. */
  function StoreAll(offers: seq<Option<Candidate>>, count: nat): (r: seq<Option<string>>)
    ensures |r| == count
  {
    if offers == [] then NoSlots(count)
    else Store(StoreAll(offers[..|offers| - 1], count), offers[|offers| - 1])
  }

  /** `response.strip().split('\n')` */
  function ResponseLines(response: string): (r: seq<string>)
    ensures SingleLines(r)
  {
    Split(Strip(response), '\n')
  }

  /** What `parse_batch_response(response, count)` returns. */
  function ParseSpec(v: Variant, response: string, count: nat): (r: seq<Option<string>>)
    ensures |r| == count
  {
    StoreAll(LineCandidates(v, ResponseLines(response)), count)
  }

  /** `parse_batch_response`, filling a list of `count` slots line by line. */
  method ParseBatchResponse(v: Variant, response: string, count: nat) returns (results: seq<Option<string>>)
    ensures results == ParseSpec(v, response, count)
  {
    var slots := new Option<string>[count](_ => None);
    var lines := ResponseLines(response);
    ghost var offers := LineCandidates(v, lines);
    var i := 0;
    while i < |lines|
      invariant 0 <= i <= |lines|
      invariant slots.Length == count
      invariant slots[..] == StoreAll(offers[..i], count)
    {
      var candidate := LineCandidate(v, lines[i]);
      StoreCandidate(candidate, slots);
      StoreAllStep(offers, i, count);
      i := i + 1;
    }
    assert offers[..|lines|] == offers;
    results := slots[..];
  }

  /** One pass of the loop over the lines: what a line offers, stored into `slots`. */
  method StoreCandidate(candidate: Option<Candidate>, slots: array<Option<string>>)
    modifies slots
    ensures slots[..] == Store(old(slots[..]), candidate)
  {
    if candidate.Some? {
      var idx := candidate.value.index;
      if 0 <= idx < slots.Length && candidate.value.text != [] {
        slots[idx] := Some(candidate.value.text);
      }
    }
  }

  lemma StoreAllStep(offers: seq<Option<Candidate>>, i: nat, count: nat)
    requires i < |offers|
    ensures StoreAll(offers[..i + 1], count) == Store(StoreAll(offers[..i], count), offers[i])
  {
    assert offers[..i + 1][..i] == offers[..i];
  }

  /** The text of the last offer for slot `k` whose text is not empty. */
  function LastFor(offers: seq<Option<Candidate>>, k: int): Option<string> {
    if offers == [] then None
    else match offers[|offers| - 1]
      case Some(c) =>
        if c.index == k && c.text != [] then Some(c.text) else LastFor(offers[..|offers| - 1], k)
      case None => LastFor(offers[..|offers| - 1], k)
  }

  /** Each slot holds the last non-empty candidate numbered for it, and nothing when there
      is none: later lines override earlier ones, out-of-range numbers are dropped. */
  lemma {:induction false} LastCandidateWins(offers: seq<Option<Candidate>>, count: nat, k: nat)
    requires k < count
    ensures StoreAll(offers, count)[k] == LastFor(offers, k)
  {
    if offers != [] {
      LastCandidateWins(offers[..|offers| - 1], count, k);
    }
  }

  /** The same, for a whole response. */
  lemma ParseLastWins(v: Variant, response: string, count: nat, k: nat)
    requires k < count
    ensures ParseSpec(v, response, count)[k] == LastFor(LineCandidates(v, ResponseLines(response)), k)
  {
    LastCandidateWins(LineCandidates(v, ResponseLines(response)), count, k);
  }

  /** A text the clean-up leaves as it is: one line, no surrounding whitespace, no note, not
      starting with a digit or a quote. */
  predicate PlainText(t: string) {
    t != [] && !IsSpace(t[0]) && !IsSpace(t[|t| - 1]) && '\n' !in t && '[' !in t
    && !IsDigit(t[0]) && t[0] != '"' && t[0] != '\''
  }

  lemma CleanPlain(v: Variant, t: string)
    requires PlainText(t)
    ensures CleanCandidate(v, t) == t
  {
    StripNoop(t);
    StripNotesNoBracket(t);
  }

  /** An answer that repeats the numbering (`"1. 1. Olá"`) loses the repeated number. */
  lemma CleanDropsEchoedNumber(v: Variant, n: nat, t: string)
    requires PlainText(t)
    ensures CleanCandidate(v, Render(n) + ". " + t) == t
  {
    var s := Render(n) + ". " + t;
    EchoedLineShape(n, t);
    CleanWithoutQuoteOrNote(v, s);
    StripRenderedNumber(n, t);
  }

  lemma EchoedLineShape(n: nat, t: string)
    requires PlainText(t)
    ensures var s := Render(n) + ". " + t;
      '[' !in s && Strip(s) == s && IsDigit(s[0])
  {
    var s := Render(n) + ". " + t;
    assert forall i :: 0 <= i < |Render(n)| ==> s[i] == Render(n)[i] && IsDigit(s[i]);
    assert forall i :: |Render(n)| + 2 <= i < |s| ==> s[i] == t[i - |Render(n)| - 2];
    StripNoop(s);
  }

  /** With nothing to strip, no wrapping quote and no note, the clean-up only drops an
      echoed number. */
  lemma CleanWithoutQuoteOrNote(v: Variant, s: string)
    requires Strip(s) == s && '[' !in s && (s == [] || (s[0] != '"' && s[0] != '\''))
    ensures CleanCandidate(v, s) == StripLeadingNumber(s)
  {
    assert Unwrap(Strip(s)) == s;
    StripNotesNoBracket(s);
  }

  /** The Ollama script does not strip after removing a note, so the blank between a
      leading note and the text survives there and not in the other two variants. */
  lemma NoteRemovalDiffers(t: string)
    requires PlainText(t)
    ensures CleanCandidate(Workflow, "[keep: x] " + t) == t
    ensures CleanCandidate(LlamaCpp, "[keep: x] " + t) == t
    ensures CleanCandidate(Ollama, "[keep: x] " + t) == " " + t
  {
    var s := "[keep: x] " + t;
    StripNoop(s);
    assert Unwrap(s) == s;
    assert s == "[keep: x]" + (" " + t);
    LeadingNoteDropped(t);
    StripBlankThenPlain(t);
    assert !IsDigit(' ');
  }

  lemma LeadingNoteDropped(t: string)
    requires PlainText(t)
    ensures StripNotes("[keep: x]" + (" " + t)) == " " + t
  {
    LeadingNoteSkipped(" " + t);
    assert '[' !in " " + t;
    StripNotesNoBracket(" " + t);
  }

  lemma LeadingNoteSkipped(q: string)
    ensures StripNotes("[keep: x]" + q) == StripNotes(q)
  {
    var s := "[keep: x]" + q;
    NoteAtLeading(q);
    StripNotesAtNote(s, 9);
    assert s[9..] == q;
  }

  lemma StripNotesAtNote(s: string, k: nat)
    requires NoteAt(s) == Some(k)
    ensures StripNotes(s) == StripNotes(s[k..])
  {
  }

  lemma NoteAtLeading(q: string)
    ensures NoteAt("[keep: x]" + q) == Some(9)
  {
    var s := "[keep: x]" + q;
    assert LStrip(s) == s;
    var u := s[1..];
    assert u[0] == 'k' && u[1] == 'e' && u[2] == 'e' && u[3] == 'p';
    assert KeywordAt(u, "keep");
    assert u[..7] == "keep: x" && u[7] == ']';
    IndexOfFirst(u, ']', 7);
  }

  lemma StripBlankThenPlain(t: string)
    requires PlainText(t)
    ensures Strip(" " + t) == t
  {
    assert RStrip(" " + t) == " " + t;
    LStripSpace(t);
  }

  /** When the model echoes the numbered list of the prompt, every item gets its own text
      back: the numbering the prompt sends is exactly what the parser reads. */
  lemma EchoParsesBack(v: Variant, keys: seq<string>)
    requires |keys| >= 1 && forall i :: 0 <= i < |keys| ==> PlainText(keys[i])
    ensures ParseSpec(v, TextsBlock(keys), |keys|) == seq(|keys|, i requires 0 <= i < |keys| => Some(keys[i]))
  {
    EchoResponseLines(keys);
    EchoOffers(v, keys);
    StoreNumbered(LineCandidates(v, NumberedLines(keys)), keys);
  }

  lemma EchoResponseLines(keys: seq<string>)
    requires |keys| >= 1 && forall i :: 0 <= i < |keys| ==> PlainText(keys[i])
    ensures ResponseLines(TextsBlock(keys)) == NumberedLines(keys)
  {
    TextsBlockReadsBack(keys);
    BlockIsStripped(keys);
  }

  lemma EchoOffers(v: Variant, keys: seq<string>)
    requires forall i :: 0 <= i < |keys| ==> PlainText(keys[i])
    ensures SingleLines(NumberedLines(keys))
    ensures forall i :: 0 <= i < |keys| ==>
      LineCandidates(v, NumberedLines(keys))[i] == Some(Candidate(i, keys[i]))
  {
    forall i | 0 <= i < |keys| ensures '\n' !in NumberedLines(keys)[i] {
      NumberedLineReadsBack(keys, i);
    }
    forall i | 0 <= i < |keys|
      ensures LineCandidates(v, NumberedLines(keys))[i] == Some(Candidate(i, keys[i]))
    {
      NumberedLineReadsBack(keys, i);
      EchoLineCandidate(v, keys, i);
    }
  }

  /** Offers numbered 0, 1, 2, … in order fill every slot with its own text. */
  lemma StoreNumbered(offers: seq<Option<Candidate>>, keys: seq<string>)
    requires |offers| == |keys|
    requires forall i :: 0 <= i < |keys| ==> keys[i] != [] && offers[i] == Some(Candidate(i, keys[i]))
    ensures StoreAll(offers, |keys|) == seq(|keys|, i requires 0 <= i < |keys| => Some(keys[i]))
  {
    var r := StoreAll(offers, |keys|);
    var want := seq(|keys|, i requires 0 <= i < |keys| => Some(keys[i]));
    forall k | 0 <= k < |keys| ensures r[k] == want[k] {
      StoreNumberedAt(offers, keys, k);
    }
  }

  lemma StoreNumberedAt(offers: seq<Option<Candidate>>, keys: seq<string>, k: nat)
    requires |offers| == |keys| && k < |keys|
    requires forall i :: 0 <= i < |keys| ==> keys[i] != [] && offers[i] == Some(Candidate(i, keys[i]))
    ensures StoreAll(offers, |keys|)[k] == Some(keys[k])
  {
    LastCandidateWins(offers, |keys|, k);
    assert offers[..|offers|] == offers;
    LastForNumbered(offers, keys, |keys|, k);
  }

  lemma BlockIsStripped(keys: seq<string>)
    requires |keys| >= 1 && forall i :: 0 <= i < |keys| ==> PlainText(keys[i])
    ensures Strip(TextsBlock(keys)) == TextsBlock(keys)
  {
    var lines := NumberedLines(keys);
    var b := TextsBlock(keys);
    JoinEnds(lines, '\n');
    var last := keys[|keys| - 1];
    assert lines[|lines| - 1] == Render(|keys|) + ". " + last;
    assert lines[|lines| - 1][|lines[|lines| - 1]| - 1] == last[|last| - 1];
    assert lines[0][0] == Render(1)[0];
    StripNoop(b);
  }

  /** An echoed line `"<i+1>. <key>"` offers `key` for slot `i`. */
  lemma EchoLineCandidate(v: Variant, keys: seq<string>, i: nat)
    requires i < |keys| && PlainText(keys[i])
    requires '\n' !in NumberedLines(keys)[i]
    requires MatchNumberedLine(NumberedLines(keys)[i]) == Some(NumberedLine(i + 1, keys[i]))
    ensures LineCandidate(v, NumberedLines(keys)[i]) == Some(Candidate(i, keys[i]))
  {
    var line := NumberedLines(keys)[i];
    assert Strip(line) == line by {
      assert line[0] == Render(i + 1)[0];
      assert line[|line| - 1] == keys[i][|keys[i]| - 1];
      StripNoop(line);
    }
    CleanPlain(v, keys[i]);
    MatchedLineCandidate(v, line, NumberedLine(i + 1, keys[i]));
  }

  /** A stripped line that matches offers its cleaned text for the slot before its number. */
  lemma MatchedLineCandidate(v: Variant, line: string, m: NumberedLine)
    requires '\n' !in line && line != [] && Strip(line) == line
    requires MatchNumberedLine(line) == Some(m)
    ensures LineCandidate(v, line) == Some(Candidate(m.number - 1, CleanCandidate(v, m.text)))
  {
    var c := LineCandidate(v, line);
    assert c.Some?;
    assert c.value.index == m.number - 1;
    assert c.value.text == CleanCandidate(v, m.text);
  }

  lemma {:induction false} LastForNumbered(offers: seq<Option<Candidate>>, keys: seq<string>, j: nat, k: nat)
    requires k < j <= |offers| == |keys|
    requires forall i :: 0 <= i < |keys| ==> keys[i] != [] && offers[i] == Some(Candidate(i, keys[i]))
    ensures LastFor(offers[..j], k) == Some(keys[k])
  {
    if k < j - 1 {
      assert offers[..j][..j - 1] == offers[..j - 1];
      LastForNumbered(offers, keys, j - 1, k);
    }
  }
}
