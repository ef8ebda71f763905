/** `validate_translation`: the checks a translation must pass before it is kept. The three
    scripts share the shape; the Ollama script drops only a `"` pair and does not look for
    new placeholders. */
module Validator {
  import opened Wrappers
  import opened Chars
  import opened Scanners
  import opened Variants
  import opened Prompts

  /** The outcome of `validate_translation`: `(True, "")`, or `False` with the reason. */
  datatype Verdict =
    | Accepted
    | Empty
    | MissingParameter(placeholder: string)
    | NewPlaceholders(introduced: set<string>)
    | SuspiciousLengthRatio

  /** `if t.startswith(q) and t.endswith(q): t = t[1:-1]` */
  function DropPair(t: string, q: char): (r: string)
    ensures r == t || (t != [] && t[0] == q && t[|t| - 1] == q && r == (if |t| >= 2 then t[1..|t| - 1] else []))
  {
    if t != [] && t[0] == q && t[|t| - 1] == q then
      if |t| >= 2 then t[1..|t| - 1] else []
    else t
  }

  /** The text the checks look at: stripped, then a `"` pair dropped, then (not in the Ollama
      script) a `'` pair. */
  function Checked(v: Variant, translation: string): (r: string)
    ensures |r| <= |translation|
  {
    var t := DropPair(Strip(translation), '"');
    if v.StrictValidation() then DropPair(t, '\'') else t
  }

  /** The `{param}` a translation loses: the first parameter whose placeholder occurs in the
      original and not in the translation. */
  function FirstMissing(original: string, t: string, params: seq<string>): (r: Option<string>)
    ensures r.None? <==> forall i :: 0 <= i < |params| ==>
      (Contains(original, Braced(params[i])) ==> Contains(t, Braced(params[i])))
    ensures r.Some? ==> exists i :: (0 <= i < |params| && r.value == params[i]
      && Contains(original, Braced(params[i])) && !Contains(t, Braced(params[i]))
      && forall j :: 0 <= j < i ==>
        (Contains(original, Braced(params[j])) ==> Contains(t, Braced(params[j]))))
  {
    if params == [] then None
    else if Contains(original, Braced(params[0])) && !Contains(t, Braced(params[0])) then
      Some(params[0])
    else
      var r := FirstMissing(original, t, params[1..]);
      assert forall i :: 1 <= i < |params| ==> params[1..][i - 1] == params[i];
      r
  }

  /** `len(t) / max(len(original), 1)` outside `[0.1, 5]`, in integers:
      `t > 5m` or `t < m / 10`. */
  predicate RatioOutOfRange(t: nat, original: nat) {
    var m := if original > 1 then original else 1;
    t > 5 * m || 10 * t < m
  }

  /** Nothing is introduced exactly when every placeholder found is already in the original. */
  lemma NoneIntroduced(found: set<string>, known: set<string>)
    ensures found - known == {} <==> found <= known
  {
    if found - known != {} {
      var x :| x in found - known;
      assert x in found && x !in known;
    } else {
      forall x | x in found ensures x in known {
        assert x !in found - known;
      }
    }
  }

  /** What `validate_translation(original, translation, params)` decides. */
  function VerdictOf(v: Variant, original: string, translation: string, params: seq<string>): (r: Verdict)
    ensures r.Empty? <==> AllSpace(translation)
    ensures r.MissingParameter? ==>
      Contains(original, r.placeholder) && !Contains(Checked(v, translation), r.placeholder)
    ensures r.NewPlaceholders? ==>
      && v.StrictValidation() && r.introduced != {}
      && r.introduced <= PlaceholderSet(Checked(v, translation))
      && r.introduced !! PlaceholderSet(original)
    ensures r.SuspiciousLengthRatio? ==> RatioOutOfRange(|Checked(v, translation)|, |original|)
    ensures r.MissingParameter? ==>
      && FirstMissing(original, Checked(v, translation), params).Some?
      && r.placeholder == Braced(FirstMissing(original, Checked(v, translation), params).value)
    ensures r.NewPlaceholders? || r.SuspiciousLengthRatio? ==>
      FirstMissing(original, Checked(v, translation), params).None?
    ensures r.SuspiciousLengthRatio? && v.StrictValidation() ==>
      PlaceholderSet(Checked(v, translation)) <= PlaceholderSet(original)
  {
    StripEmpty(translation);
    if Strip(translation) == [] then Empty
    else
      var t := Checked(v, translation);
      match FirstMissing(original, t, params)
      case Some(p) => MissingParameter(Braced(p))
      case None =>
        var introduced := PlaceholderSet(t) - PlaceholderSet(original);
        NoneIntroduced(PlaceholderSet(t), PlaceholderSet(original));
        if v.StrictValidation() && introduced != {} then NewPlaceholders(introduced)
        else if RatioOutOfRange(|t|, |original|) then SuspiciousLengthRatio
        else Accepted
  }

  /** `validate_translation`, with its loop over the parameters. */
  method Validate(v: Variant, original: string, translation: string, params: seq<string>)
    returns (verdict: Verdict)
    ensures verdict == VerdictOf(v, original, translation, params)
  {
    if Strip(translation) == [] {
      return Empty;
    }
    var t := Checked(v, translation);
    var i := 0;
    while i < |params|
      invariant 0 <= i <= |params|
      invariant FirstMissing(original, t, params) == FirstMissing(original, t, params[i..])
    {
      var placeholder := Braced(params[i]);
      if Contains(original, placeholder) && !Contains(t, placeholder) {
        return MissingParameter(placeholder);
      }
      assert params[i..][1..] == params[i + 1..];
      i := i + 1;
    }
    var introduced := PlaceholderSet(t) - PlaceholderSet(original);
    if v.StrictValidation() && introduced != {} {
      return NewPlaceholders(introduced);
    }
    if RatioOutOfRange(|t|, |original|) {
      return SuspiciousLengthRatio;
    }
    return Accepted;
  }

  /** A translation is accepted exactly when it is not blank, keeps every parameter placeholder
      the original has, introduces no placeholder (except in the Ollama script) and has a
      sane length. */
  lemma AcceptedIff(v: Variant, original: string, translation: string, params: seq<string>)
    ensures VerdictOf(v, original, translation, params) == Accepted <==>
      var t := Checked(v, translation);
      && !AllSpace(translation)
      && (forall i :: 0 <= i < |params| ==>
            (Contains(original, Braced(params[i])) ==> Contains(t, Braced(params[i]))))
      && (v.StrictValidation() ==> PlaceholderSet(t) <= PlaceholderSet(original))
      && !RatioOutOfRange(|t|, |original|)
  {
    StripEmpty(translation);
    if Strip(translation) != [] {
      var t := Checked(v, translation);
      var introduced := PlaceholderSet(t) - PlaceholderSet(original);
      if introduced == {} {
        forall x | x in PlaceholderSet(t) ensures x in PlaceholderSet(original) {
          assert x !in introduced;
        }
      } else {
        var x :| x in introduced;
        assert x in PlaceholderSet(t) && x !in PlaceholderSet(original);
      }
    }
  }

  /** An accepted translation is between a tenth of and five times as long as the original
      (the original counted as at least one character). */
  lemma AcceptedLength(v: Variant, original: string, translation: string, params: seq<string>)
    requires VerdictOf(v, original, translation, params) == Accepted
    ensures var n := |Checked(v, translation)|;
      (|original| == 0 ==> 1 <= 10 * n && n <= 5)
      && (|original| > 0 ==> |original| <= 10 * n && n <= 5 * |original|)
  {
  }

  /** A rejection for a missing parameter names a placeholder of the parameters that the
      original has and the translation lost. */
  lemma MissingNamesLostParameter(v: Variant, original: string, translation: string, params: seq<string>, ph: string)
    requires VerdictOf(v, original, translation, params) == MissingParameter(ph)
    ensures exists i :: 0 <= i < |params| && ph == Braced(params[i])
    ensures Contains(original, ph) && !Contains(Checked(v, translation), ph)
  {
    var t := Checked(v, translation);
    var r := FirstMissing(original, t, params);
    assert r.Some? && ph == Braced(r.value);
  }

  /** A reply that is only a pair of double quotes is not blank, but once the quotes are
      dropped nothing is left, and the length check rejects it whenever no parameter is at
      stake. */
  lemma QuotedNothingIsSuspicious(v: Variant, original: string, params: seq<string>)
    requires forall i :: 0 <= i < |params| ==> !Contains(original, Braced(params[i]))
    ensures VerdictOf(v, original, "\"\"", params) == SuspiciousLengthRatio
  {
    var q := "\"\"";
    assert Strip(q) == q by {
      StripNoop(q);
    }
    assert Checked(v, q) == [];
    PlaceholdersNoBrace([]);
  }

  /** A placeholder in the translation that the original lacks: the Ollama script lets it
      through where the other two reject it (the length being sane, no parameter at stake). */
  lemma NewPlaceholderOnlyStrict(original: string, translation: string, params: seq<string>)
    requires '{' !in original && '\'' !in translation && '"' !in translation
    requires Placeholders(Strip(translation)) != []
    requires !RatioOutOfRange(|Strip(translation)|, |original|)
    ensures VerdictOf(Workflow, original, translation, params).NewPlaceholders?
    ensures VerdictOf(LlamaCpp, original, translation, params).NewPlaceholders?
    ensures VerdictOf(Ollama, original, translation, params) == Accepted
  {
    var t := Strip(translation);
    StripKeepsOut(translation, '\'');
    StripKeepsOut(translation, '"');
    assert Checked(Workflow, translation) == t;
    assert Checked(LlamaCpp, translation) == t;
    assert Checked(Ollama, translation) == t;
    PlaceholdersNoBrace(original);
    assert PlaceholderSet(original) == {};
    var x := Placeholders(t)[0];
    assert x in PlaceholderSet(t);
    assert x in PlaceholderSet(t) - PlaceholderSet(original);
    assert t != [] by {
      assert Placeholders([]) == [];
    }
    forall i | 0 <= i < |params| ensures !Contains(original, Braced(params[i])) {
      if Contains(original, Braced(params[i])) {
        assert Braced(params[i])[0] == '{';
        ContainsChar(original, Braced(params[i]), '{');
      }
    }
  }
}
