/** The regular expressions of the translation scripts, written as scanners over strings:

      `^(\d+)\.\s*(.+)$`                                       MatchNumberedLine
      `\s*\[(?:keep|manter|mantener|garder)[^\]]*\]`, re.I     StripNotes (with `re.sub`)
      `^(\d+)\.\s*`                                            StripLeadingNumber (with `re.sub`)
      `\{[^}]+\}`                                              Placeholders (with `re.findall`)

    plus the "remove one pair of wrapping quotes" step the parsers share. `\s` is
    `Chars.IsSpace`; `\d` is an ASCII digit. */
module Scanners {
  import opened Wrappers
  import opened Chars
  import opened Decimal

  /** What `^(\d+)\.\s*(.+)$` captures: group 1 as a number, group 2 as text. */
  datatype NumberedLine = NumberedLine(number: nat, text: string)

  /** `re.match(r'^(\d+)\.\s*(.+)$', line)` on a line without a newline (every caller passes
      one piece of `split('\n')`). The digit run is greedy and must be followed by `.`;
      `\s*` is greedy but gives back one character when nothing else is left for `(.+)`. */
  function MatchNumberedLine(line: string): (m: Option<NumberedLine>)
    requires '\n' !in line
    ensures m.Some? <==>
      (0 < DigitRun(line) && DigitRun(line) + 1 < |line| && line[DigitRun(line)] == '.')
    ensures m.Some? ==>
      (m.value.text != [] && EndsWith(line, m.value.text)
       && |m.value.text| < |line| - DigitRun(line)
       && m.value.number == Value(line[..DigitRun(line)]))
  {
    var d := DigitRun(line);
    if d == 0 || d + 1 >= |line| || line[d] != '.' then None
    else
      var rest := line[d + 1..];
      var body := LStrip(rest);
      LStripSuffix(rest);
      var text := if body != [] then body else rest[|rest| - 1..];
      assert line[|line| - |text|..] == text;
      Some(NumberedLine(Value(line[..d]), text))
  }

  /** A line rendered as `"<n>. <text>"` is matched back to `n` and `text`. */
  lemma MatchRenderedLine(n: nat, text: string)
    requires text != [] && !IsSpace(text[0]) && '\n' !in text
    ensures '\n' !in Render(n) + ". " + text
    ensures MatchNumberedLine(Render(n) + ". " + text) == Some(NumberedLine(n, text))
  {
    RenderedLineHasNoNewline(Render(n), text);
    MatchDigitsLine(Render(n), text);
    ValueOfRender(n);
  }

  lemma MatchDigitsLine(r: string, text: string)
    requires r != [] && AllDigits(r)
    requires text != [] && !IsSpace(text[0]) && '\n' !in text
    requires '\n' !in r + ". " + text
    ensures MatchNumberedLine(r + ". " + text) == Some(NumberedLine(Value(r), text))
  {
    DigitsDotShape(r, text);
    MatchParts(r + ". " + text, |r|);
  }

  /** How `"<digits>. <text>"` splits: the digits, the dot, and the text after one blank. */
  lemma DigitsDotShape(r: string, text: string)
    requires r != [] && AllDigits(r)
    requires text == [] || !IsSpace(text[0])
    ensures var line := r + ". " + text;
      DigitRun(line) == |r| && line[|r|] == '.' && line[..|r|] == r && |line| == |r| + 2 + |text|
      && LStrip(line[|r| + 1..]) == text
  {
    var line := r + ". " + text;
    assert line == r + (". " + text);
    DigitRunOfDigits(r, ". " + text);
    assert line[..|r|] == r;
    assert line[|r| + 1..] == " " + text;
    LStripSpace(text);
  }

  /** The match of a line whose digits are followed by `.` and some text. */
  lemma MatchParts(line: string, d: nat)
    requires '\n' !in line
    requires DigitRun(line) == d && 0 < d && d + 1 < |line| && line[d] == '.'
    requires LStrip(line[d + 1..]) != []
    ensures MatchNumberedLine(line) == Some(NumberedLine(Value(line[..d]), LStrip(line[d + 1..])))
  {
  }

  lemma RenderedLineHasNoNewline(r: string, text: string)
    requires AllDigits(r) && '\n' !in text
    ensures '\n' !in r + ". " + text
  {
    var line := r + ". " + text;
    forall i | 0 <= i < |line| ensures line[i] != '\n' {
      if i < |r| {
        assert line[i] == r[i] && IsDigit(r[i]);
      } else if i >= |r| + 2 {
        assert line[i] == text[i - |r| - 2];
      }
    }
  }

  /** One letter of a note keyword under `re.IGNORECASE`; U+212A KELVIN SIGN folds to `k`. */
  predicate LetterMatches(c: char, letter: char) {
    AsciiLower(c) == letter || (letter == 'k' && c == '\U{212A}')
  }

  predicate KeywordAt(s: string, keyword: string) {
    |keyword| <= |s| && forall i :: 0 <= i < |keyword| ==> LetterMatches(s[i], keyword[i])
  }

  /** `(?:keep|manter|mantener|garder)` at the start of `s`, case-insensitively. */
  predicate NoteKeywordAt(s: string) {
    KeywordAt(s, "keep") || KeywordAt(s, "manter") || KeywordAt(s, "mantener")
    || KeywordAt(s, "garder")
  }

  /** Length of a match of `\s*\[(?:keep|manter|mantener|garder)[^\]]*\]` at the start of `s`:
      whitespace, `[`, a keyword, then everything up to and including the first `]`. */
  function NoteAt(s: string): (r: Option<nat>)
    ensures r.Some? ==> 0 < r.value <= |s| && s[r.value - 1] == ']'
  {
    var w := |s| - |LStrip(s)|;
    if w < |s| && s[w] == '[' && NoteKeywordAt(s[w + 1..]) then
      match IndexOf(s[w + 1..], ']')
      case Some(j) => Some(w + 1 + j + 1)
      case None => None
    else None
  }

  /** `re.sub(note_pattern, '', s, flags=re.IGNORECASE)`: scanning left to right, every match
      is dropped and every other character is kept. */
  function StripNotes(s: string): (r: string)
    ensures |r| <= |s|
    decreases |s|
  {
    if s == [] then []
    else match NoteAt(s)
      case Some(k) => StripNotes(s[k..])
      case None => [s[0]] + StripNotes(s[1..])
  }

  /** Where no note starts, `re.sub` keeps the first character and scans on. */
  lemma StripNotesKeepsFirst(s: string)
    requires s != [] && NoteAt(s) == None
    ensures StripNotes(s) == [s[0]] + StripNotes(s[1..])
  {
  }

  /** A string without `[` has no note to remove. */
  lemma {:induction false} StripNotesNoBracket(s: string)
    requires '[' !in s
    ensures StripNotes(s) == s
    decreases |s|
  {
    if s != [] {
      assert NoteAt(s) == None by {
        var w := |s| - |LStrip(s)|;
        assert w < |s| ==> s[w] != '[';
      }
      StripNotesKeepsFirst(s);
      StripNotesNoBracket(s[1..]);
      assert s == [s[0]] + s[1..];
    }
  }

  /** A string without `]` has no note to remove. */
  lemma {:induction false} StripNotesNoClose(s: string)
    requires ']' !in s
    ensures StripNotes(s) == s
    decreases |s|
  {
    if s != [] {
      assert NoteAt(s) == None by {
        var w := |s| - |LStrip(s)|;
        assert w < |s| ==> IndexOf(s[w + 1..], ']') == None;
      }
      StripNotesKeepsFirst(s);
      StripNotesNoClose(s[1..]);
      assert s == [s[0]] + s[1..];
    }
  }

  /** Removing a note keeps the text before it and whatever follows it. The text before must
      not end in whitespace, since `\s*` would take that whitespace away with the note. */
  lemma StripNotesDropsNote(p: string, q: string)
    requires '[' !in p && ']' !in q
    requires p == [] || !IsSpace(p[|p| - 1])
    ensures StripNotes(p + " [keep: x]" + q) == p + q
  {
    var s := " [keep: x]" + q;
    assert p + " [keep: x]" + q == p + s;
    StripNotesPrefix(p, s);
    NoteAtKeep(q);
    assert s[10..] == q;
    StripNotesNoClose(q);
  }

  lemma NoteAtKeep(q: string)
    ensures NoteAt(" [keep: x]" + q) == Some(10)
  {
    var s := " [keep: x]" + q;
    assert LStrip(s[1..]) == s[1..] by {
      assert s[1..][0] == '[';
    }
    assert LStrip(s) == s[1..];
    var u := s[2..];
    assert u[0] == 'k' && u[1] == 'e' && u[2] == 'e' && u[3] == 'p';
    assert KeywordAt(u, "keep");
    assert IndexOf(u, ']') == Some(7) by {
      assert u[..7] == "keep: x" && u[7] == ']';
    }
  }

  lemma {:induction false} StripNotesPrefix(p: string, s: string)
    requires '[' !in p
    requires p == [] || !IsSpace(p[|p| - 1])
    ensures StripNotes(p + s) == p + StripNotes(s)
    decreases |p|
  {
    if p != [] {
      var ps := p + s;
      NoNoteInPrefix(p, s);
      StripNotesKeepsFirst(ps);
      assert ps[1..] == p[1..] + s;
      StripNotesPrefix(p[1..], s);
      assert p == [p[0]] + p[1..];
    } else {
      assert p + s == s;
    }
  }

  /** A note cannot start inside a prefix without `[` that ends in a non-blank. */
  lemma NoNoteInPrefix(p: string, s: string)
    requires p != [] && '[' !in p && !IsSpace(p[|p| - 1])
    ensures NoteAt(p + s) == None
  {
    var ps := p + s;
    var w := |ps| - |LStrip(ps)|;
    LeadingSpaces(ps);
    assert ps[|p| - 1] == p[|p| - 1];
    assert w < |p|;
    assert ps[w] == p[w];
  }

  /** Everything `lstrip` removes is whitespace, position by position. */
  lemma LeadingSpaces(s: string)
    ensures forall i :: 0 <= i < |s| - |LStrip(s)| ==> IsSpace(s[i])
  {
    var k := |s| - |LStrip(s)|;
    LStripRemovesSpace(s);
    assert forall i :: 0 <= i < k ==> s[..k][i] == s[i];
  }

  /** `re.sub(r'^(\d+)\.\s*', '', s)`: drops one leading `<digits>.` and the whitespace after it. */
  function StripLeadingNumber(s: string): (r: string)
    ensures |r| <= |s| && r == s[|s| - |r|..]
    ensures (s == [] || !IsDigit(s[0])) ==> r == s
  {
    var d := DigitRun(s);
    if 0 < d < |s| && s[d] == '.' then
      LStripSuffix(s[d + 1..]);
      LStrip(s[d + 1..])
    else s
  }

  /** The echoed numbering `"<n>. "` in front of a text is removed, once. */
  lemma StripRenderedNumber(n: nat, text: string)
    requires text == [] || !IsSpace(text[0])
    ensures StripLeadingNumber(Render(n) + ". " + text) == text
  {
    StripDigitsDot(Render(n), text);
  }

  /** The same for any non-empty run of digits. */
  lemma StripDigitsDot(r: string, text: string)
    requires r != [] && AllDigits(r)
    requires text == [] || !IsSpace(text[0])
    ensures StripLeadingNumber(r + ". " + text) == text
  {
    DigitsDotShape(r, text);
  }

  /** One leading blank before a text that does not start with whitespace is all `lstrip` removes. */
  lemma LStripSpace(text: string)
    requires text == [] || !IsSpace(text[0])
    ensures LStrip(" " + text) == text
  {
    assert (" " + text)[1..] == text;
  }

  /** A token of `\{[^}]+\}`: braces around at least one character, no `}` inside. */
  predicate IsPlaceholderToken(t: string) {
    |t| >= 3 && t[0] == '{' && t[|t| - 1] == '}' && '}' !in t[1..|t| - 1]
  }

  /** `re.findall(r'\{[^}]+\}', s)`: at each `{`, the text up to the first `}` after it, when
      that is at least one character further on; scanning resumes after the token. */
  function Placeholders(s: string): (r: seq<string>)
    ensures forall i :: 0 <= i < |r| ==> IsPlaceholderToken(r[i])
    decreases |s|
  {
    if s == [] then []
    else if s[0] == '{' then
      match IndexOf(s[1..], '}')
      case Some(j) =>
        if j >= 1 then
          var t := s[..j + 2];
          assert t[1..|t| - 1] == s[1..][..j];
          [t] + Placeholders(s[j + 2..])
        else Placeholders(s[1..])
      case None => Placeholders(s[1..])
    else Placeholders(s[1..])
  }

  /** Every token `findall` returns occurs in the scanned string. */
  lemma {:induction false} PlaceholdersOccur(s: string)
    ensures forall t :: t in Placeholders(s) ==> Contains(s, t)
    decreases |s|
  {
    if s != [] {
      PlaceholdersOccur(s[1..]);
      forall t | t in Placeholders(s[1..]) ensures Contains(s, t) {
        assert !StartsWith(s, t) ==> Contains(s, t);
      }
      if s[0] == '{' {
        match IndexOf(s[1..], '}')
        case Some(j) =>
          if j >= 1 {
            PlaceholdersOccur(s[j + 2..]);
            ContainsSlice(s, 0, j + 2);
            forall t | t in Placeholders(s[j + 2..]) ensures Contains(s, t) {
              ContainsSlice(s, j + 2, |s|);
              assert s[j + 2..|s|] == s[j + 2..];
              ContainsTransitive(s, s[j + 2..], t);
            }
          }
        case None =>
      }
    }
  }

  /** A string without `{` holds no placeholder token. */
  lemma {:induction false} PlaceholdersNoBrace(s: string)
    requires '{' !in s
    ensures Placeholders(s) == []
    decreases |s|
  {
    if s != [] {
      PlaceholdersNoBrace(s[1..]);
    }
  }

  /** Python's `set(re.findall(...))`. */
  function PlaceholderSet(s: string): set<string> {
    set t | t in Placeholders(s)
  }

  /** Remove one pair of identical wrapping quotes (`"` or `'`), as `t[1:-1]` does; a lone quote
      character becomes the empty string. */
  function Unwrap(t: string): (r: string)
    ensures |r| <= |t|
    ensures r == t || (t != [] && (t[0] == '"' || t[0] == '\''))
  {
    if t != [] && ((t[0] == '"' && t[|t| - 1] == '"') || (t[0] == '\'' && t[|t| - 1] == '\'')) then
      if |t| >= 2 then t[1..|t| - 1] else []
    else t
  }

  /** What `Unwrap` keeps is part of its input. */
  lemma UnwrapContained(t: string)
    ensures Contains(t, Unwrap(t))
  {
    if |t| >= 2 {
      ContainsSlice(t, 1, |t| - 1);
    } else {
      ContainsSlice(t, 0, |Unwrap(t)|);
    }
  }
}
