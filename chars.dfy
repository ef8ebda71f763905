/** Python `str` primitives the scripts rely on: `isspace`, `strip`, `split`/`join` on one
    separator, `in` (substring), `startswith`, `replace`, and the code-point order used by
    `sorted`. Strings are `seq<char>`; `len` is `|s|`. */
module Chars {

  /** Python's `str.isspace` (and the `\s` class of `re` on `str` patterns): the characters
      whose bidirectional class is WS, B or S, or whose category is Zs. */
  predicate IsSpace(c: char) {
    var n := c as int;
    (0x09 <= n <= 0x0D) || (0x1C <= n <= 0x20) || n == 0x85 || n == 0xA0 || n == 0x1680
    || (0x2000 <= n <= 0x200A) || n == 0x2028 || n == 0x2029 || n == 0x202F || n == 0x205F
    || n == 0x3000
  }

  /** `re`'s `\d`, restricted to ASCII digits. */
  predicate IsDigit(c: char) {
    '0' <= c <= '9'
  }

  predicate AllSpace(s: string) {
    forall i :: 0 <= i < |s| ==> IsSpace(s[i])
  }

  /** `s.lstrip()` */
  function LStrip(s: string): (r: string)
    ensures |r| <= |s|
    ensures r == [] || !IsSpace(r[0])
  {
    if s != [] && IsSpace(s[0]) then LStrip(s[1..]) else s
  }

  /** What `lstrip` keeps is the tail of its input. */
  lemma {:induction false} LStripSuffix(s: string)
    ensures LStrip(s) == s[|s| - |LStrip(s)|..]
  {
    if s != [] && IsSpace(s[0]) {
      LStripSuffix(s[1..]);
      assert s[1..][|s| - 1 - |LStrip(s)|..] == s[|s| - |LStrip(s)|..];
    }
  }

  /** What `lstrip` removes is whitespace. */
  lemma {:induction false} LStripRemovesSpace(s: string)
    ensures AllSpace(s[..|s| - |LStrip(s)|])
  {
    if s != [] && IsSpace(s[0]) {
      LStripRemovesSpace(s[1..]);
      var k := |s| - |LStrip(s)|;
      assert forall i :: 1 <= i < k ==> s[..k][i] == s[1..][..k - 1][i - 1];
    }
  }

  /** `s.rstrip()` */
  function RStrip(s: string): (r: string)
    ensures |r| <= |s|
    ensures r == [] || !IsSpace(r[|r| - 1])
  {
    if s != [] && IsSpace(s[|s| - 1]) then RStrip(s[..|s| - 1]) else s
  }

  /** What `rstrip` keeps is the head of its input. */
  lemma {:induction false} RStripPrefix(s: string)
    ensures RStrip(s) == s[..|RStrip(s)|]
  {
    if s != [] && IsSpace(s[|s| - 1]) {
      RStripPrefix(s[..|s| - 1]);
      assert s[..|s| - 1][..|RStrip(s)|] == s[..|RStrip(s)|];
    }
  }

  /** What `rstrip` removes is whitespace. */
  lemma {:induction false} RStripRemovesSpace(s: string)
    ensures AllSpace(s[|RStrip(s)|..])
  {
    if s != [] && IsSpace(s[|s| - 1]) {
      RStripRemovesSpace(s[..|s| - 1]);
      var k := |RStrip(s)|;
      assert forall j :: 0 <= j < |s| - 1 - k ==> s[k..][j] == s[..|s| - 1][k..][j];
    }
  }

  /** `s.strip()`: drops leading and trailing whitespace. */
  function Strip(s: string): (r: string)
    ensures |r| <= |s|
    ensures r == [] || (!IsSpace(r[0]) && !IsSpace(r[|r| - 1]))
  {
    var t := RStrip(s);
    var r := LStrip(t);
    LStripSuffix(t);
    assert r != [] ==> r[|r| - 1] == t[|t| - 1];
    r
  }

  /** `s.strip()` is empty exactly when `s` is all whitespace (Python's `not s.strip()`). */
  lemma StripEmpty(s: string)
    ensures Strip(s) == [] <==> AllSpace(s)
  {
    var t := RStrip(s);
    var r := LStrip(t);
    RStripRemovesSpace(s);
    LStripRemovesSpace(t);
    RStripPrefix(s);
    LStripSuffix(t);
    if r == [] {
      assert t[..|t|] == t;
      assert s[|t|..] == s;
    } else {
      assert !IsSpace(s[|t| - |r|]);
    }
  }

  /** Stripping adds no character. */
  lemma StripKeepsOut(s: string, c: char)
    requires c !in s
    ensures c !in Strip(s)
  {
    var t := RStrip(s);
    RStripPrefix(s);
    assert forall i :: 0 <= i < |t| ==> t[i] == s[i];
    var r := LStrip(t);
    LStripSuffix(t);
    assert forall i :: 0 <= i < |r| ==> r[i] == t[|t| - |r| + i];
  }

  /** Stripping keeps a piece of the string. */
  lemma StripContained(s: string)
    ensures Contains(s, Strip(s))
  {
    var t := RStrip(s);
    RStripPrefix(s);
    LStripSuffix(t);
    var r := LStrip(t);
    assert r == s[|t| - |r|..|t|];
    ContainsSlice(s, |t| - |r|, |t|);
  }

  /** Stripping leaves a string alone exactly when its ends are not whitespace. */
  lemma StripNoop(s: string)
    requires s == [] || (!IsSpace(s[0]) && !IsSpace(s[|s| - 1]))
    ensures Strip(s) == s
  {
  }

  /** `s.startswith(p)` */
  predicate StartsWith(s: string, p: string) {
    |p| <= |s| && s[..|p|] == p
  }

  /** `s.endswith(p)` */
  predicate EndsWith(s: string, p: string) {
    |p| <= |s| && s[|s| - |p|..] == p
  }

  /** Python's `p in s` for strings: `p` occurs as a contiguous part of `s`. */
  predicate Contains(s: string, p: string)
    decreases |s|
  {
    StartsWith(s, p) || (s != [] && Contains(s[1..], p))
  }

  /** Every slice of `s` is contained in `s`. */
  lemma {:induction false} ContainsSlice(s: string, i: nat, j: nat)
    requires i <= j <= |s|
    ensures Contains(s, s[i..j])
    decreases i
  {
    if i > 0 {
      ContainsSlice(s[1..], i - 1, j - 1);
      assert s[1..][i - 1..j - 1] == s[i..j];
    }
  }

  /** Containment is transitive. */
  lemma {:induction false} ContainsTransitive(s: string, m: string, p: string)
    requires Contains(s, m) && Contains(m, p)
    ensures Contains(s, p)
    decreases |s|
  {
    if StartsWith(s, m) {
      PrefixContains(s, m, p);
    } else {
      ContainsTransitive(s[1..], m, p);
    }
  }

  lemma {:induction false} PrefixContains(s: string, m: string, p: string)
    requires StartsWith(s, m) && Contains(m, p)
    ensures Contains(s, p)
    decreases |m|
  {
    if StartsWith(m, p) {
      assert s[..|p|] == m[..|m|][..|p|];
    } else {
      assert s[1..][..|m| - 1] == m[1..];
      PrefixContains(s[1..], m[1..], p);
    }
  }

  /** A string contained in `s` cannot be longer than `s`. */
  lemma {:induction false} ContainsLength(s: string, p: string)
    requires Contains(s, p)
    ensures |p| <= |s|
    decreases |s|
  {
    if !StartsWith(s, p) {
      ContainsLength(s[1..], p);
    }
  }

  /** A character that occurs nowhere in `s` occurs in nothing `s` contains. */
  lemma {:induction false} ContainsChar(s: string, p: string, c: char)
    requires Contains(s, p) && c !in s
    ensures c !in p
    decreases |s|
  {
    if StartsWith(s, p) {
      assert forall k :: 0 <= k < |p| ==> p[k] == s[k];
    } else {
      ContainsChar(s[1..], p, c);
    }
  }

  /** Position of the first `c` in `s`, if any (`s.find(c)`). */
  function IndexOf(s: string, c: char): (r: Option<nat>)
    ensures r.None? <==> c !in s
    ensures r.Some? ==> r.value < |s| && s[r.value] == c && c !in s[..r.value]
  {
    if s == [] then None
    else if s[0] == c then Some(0)
    else
      var r := IndexOf(s[1..], c);
      if r.None? then None else
        assert s[..r.value + 1] == [s[0]] + s[1..][..r.value];
        Some(r.value + 1)
  }

  /** The first occurrence is the one `find` reports. */
  lemma IndexOfFirst(s: string, c: char, k: nat)
    requires k < |s| && s[k] == c && c !in s[..k]
    ensures IndexOf(s, c) == Some(k)
  {
    var r := IndexOf(s, c);
    assert c in s by { assert s[k] == c; }
    assert forall i :: 0 <= i < k ==> s[..k][i] == s[i];
    assert forall i :: 0 <= i < r.value ==> s[..r.value][i] == s[i];
  }

  /** `s.split(sep)` for a one-character separator: always at least one piece. */
  function Split(s: string, sep: char): (r: seq<string>)
    ensures |r| >= 1
    ensures forall i :: 0 <= i < |r| ==> sep !in r[i]
  {
    if s == [] then [[]]
    else
      var rest := Split(s[1..], sep);
      if s[0] == sep then [[]] + rest
      else [[s[0]] + rest[0]] + rest[1..]
  }

  /** The first piece of a split is where the string starts. */
  lemma {:induction false} SplitFirstPiece(s: string, sep: char)
    ensures StartsWith(s, Split(s, sep)[0])
    decreases |s|
  {
    if s != [] {
      SplitFirstPiece(s[1..], sep);
      var rest := Split(s[1..], sep);
      if s[0] != sep {
        assert s[..|rest[0]| + 1] == [s[0]] + s[1..][..|rest[0]|];
      }
    }
  }

  /** `sep.join(lines)` */
  function Join(lines: seq<string>, sep: char): string {
    if lines == [] then []
    else if |lines| == 1 then lines[0]
    else lines[0] + [sep] + Join(lines[1..], sep)
  }

  /** `sep.join(parts)` for a separator string. */
  function JoinWith(parts: seq<string>, sep: string): string {
    if parts == [] then []
    else if |parts| == 1 then parts[0]
    else parts[0] + sep + JoinWith(parts[1..], sep)
  }

  /** A join whose first and last pieces are non-empty starts with the first piece's first
      character and ends with the last piece's last character. */
  lemma JoinEnds(lines: seq<string>, sep: char)
    requires |lines| >= 1 && lines[0] != [] && lines[|lines| - 1] != []
    ensures Join(lines, sep) != []
    ensures Join(lines, sep)[0] == lines[0][0]
    ensures Join(lines, sep)[|Join(lines, sep)| - 1] == lines[|lines| - 1][|lines[|lines| - 1]| - 1]
  {
    JoinLast(lines, sep);
  }

  lemma {:induction false} JoinLast(lines: seq<string>, sep: char)
    requires |lines| >= 1 && lines[|lines| - 1] != []
    ensures Join(lines, sep) != []
    ensures Join(lines, sep)[|Join(lines, sep)| - 1] == lines[|lines| - 1][|lines[|lines| - 1]| - 1]
    decreases |lines|
  {
    if |lines| > 1 {
      assert lines[1..][|lines[1..]| - 1] == lines[|lines| - 1];
      JoinLast(lines[1..], sep);
    }
  }

  /** Each joined piece occurs in the join. */
  lemma {:induction false} JoinContainsEach(lines: seq<string>, sep: char, i: nat)
    requires i < |lines|
    ensures Contains(Join(lines, sep), lines[i])
    decreases |lines|
  {
    var j := Join(lines, sep);
    if |lines| == 1 {
      ContainsSlice(j, 0, |j|);
      assert j[0..|j|] == j;
    } else if i == 0 {
      ContainsSlice(j, 0, |lines[0]|);
      assert j[0..|lines[0]|] == lines[0];
    } else {
      JoinContainsEach(lines[1..], sep, i - 1);
      var rest := Join(lines[1..], sep);
      ContainsSlice(j, |lines[0]| + 1, |j|);
      assert j[|lines[0]| + 1..|j|] == rest;
      ContainsTransitive(j, rest, lines[i]);
    }
  }

  lemma {:induction false} SplitNoSep(w: string, sep: char)
    requires sep !in w
    ensures Split(w, sep) == [w]
  {
    if w != [] {
      SplitNoSep(w[1..], sep);
      assert [w[0]] + w[1..] == w;
    }
  }

  lemma {:induction false} SplitAfterPiece(w: string, t: string, sep: char)
    requires sep !in w
    ensures Split(w + [sep] + t, sep) == [w] + Split(t, sep)
  {
    if w == [] {
      assert w + [sep] + t == [sep] + t;
      assert ([sep] + t)[1..] == t;
    } else {
      SplitAfterPiece(w[1..], t, sep);
      assert (w + [sep] + t)[1..] == w[1..] + [sep] + t;
      assert [w[0]] + w[1..] == w;
    }
  }

  /** Splitting a join recovers the pieces when no piece holds the separator. */
  lemma {:induction false} SplitJoin(lines: seq<string>, sep: char)
    requires |lines| >= 1
    requires forall i :: 0 <= i < |lines| ==> sep !in lines[i]
    ensures Split(Join(lines, sep), sep) == lines
  {
    if |lines| == 1 {
      SplitNoSep(lines[0], sep);
    } else {
      SplitJoin(lines[1..], sep);
      SplitAfterPiece(lines[0], Join(lines[1..], sep), sep);
      assert [lines[0]] + lines[1..] == lines;
    }
  }

  /** `s.replace(target, replacement)`: every non-overlapping occurrence, scanning left to right. */
  function Replace(s: string, target: string, replacement: string): string
    requires target != []
    decreases |s|
  {
    if StartsWith(s, target) then replacement + Replace(s[|target|..], target, replacement)
    else if s == [] then []
    else [s[0]] + Replace(s[1..], target, replacement)
  }

  /** Replacing a string that does not occur changes nothing. */
  lemma {:induction false} ReplaceAbsent(s: string, target: string, replacement: string)
    requires target != [] && !Contains(s, target)
    ensures Replace(s, target, replacement) == s
    decreases |s|
  {
    if s != [] {
      ReplaceAbsent(s[1..], target, replacement);
      assert [s[0]] + s[1..] == s;
    }
  }

  /** Replacing by something at least as long never shortens a string, and replacing by
      something longer lengthens every string that contains the target. */
  lemma {:induction false} ReplaceLength(s: string, target: string, replacement: string)
    requires target != [] && |replacement| >= |target|
    ensures |Replace(s, target, replacement)| >= |s|
    ensures Contains(s, target) && |replacement| > |target| ==> |Replace(s, target, replacement)| > |s|
    decreases |s|
  {
    if StartsWith(s, target) {
      ReplaceLength(s[|target|..], target, replacement);
    } else if s != [] {
      ReplaceLength(s[1..], target, replacement);
    }
  }

  /** ASCII upper case of a lower-case ASCII letter, identity otherwise. */
  function AsciiUpper(c: char): char {
    if 'a' <= c <= 'z' then (c as int - 32) as char else c
  }

  /** ASCII lower-casing. */
  function AsciiLower(c: char): char {
    if 'A' <= c <= 'Z' then (c as int + 32) as char else c
  }

  /** Python's `<` on `str`: code-point lexicographic order. */
  predicate LexLess(a: string, b: string)
    decreases |a|
  {
    if a == [] then b != []
    else b != [] && (a[0] < b[0] || (a[0] == b[0] && LexLess(a[1..], b[1..])))
  }

  lemma {:induction false} LexIrreflexive(a: string)
    ensures !LexLess(a, a)
  {
    if a != [] {
      LexIrreflexive(a[1..]);
    }
  }

  lemma {:induction false} LexTransitive(a: string, b: string, c: string)
    requires LexLess(a, b) && LexLess(b, c)
    ensures LexLess(a, c)
    decreases |a|
  {
    if a != [] && a[0] == b[0] && b[0] == c[0] {
      LexTransitive(a[1..], b[1..], c[1..]);
    }
  }

  lemma {:induction false} LexTotal(a: string, b: string)
    requires a != b
    ensures LexLess(a, b) || LexLess(b, a)
    decreases |a|
  {
    if a != [] && b != [] && a[0] == b[0] {
      assert a == [a[0]] + a[1..] && b == [b[0]] + b[1..];
      LexTotal(a[1..], b[1..]);
    }
  }

  lemma {:induction false} LexAsymmetric(a: string, b: string)
    requires LexLess(a, b)
    ensures !LexLess(b, a)
  {
    if LexLess(b, a) {
      LexTransitive(a, b, a);
      LexIrreflexive(a);
    }
  }

  import opened Wrappers
}
