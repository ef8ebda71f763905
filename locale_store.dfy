/** The workflow's locale-store steps: `generate_context`, `extract_strings` (report to a
    sorted pending job), `cleanup_unused_keys` (drop locale keys no longer in use) and
    `merge_translations` (fold a finished job into `_exactStrings`). The transformation report
    and the locale file are already-parsed values; writes are returned, not performed. */
module LocaleStore {
  import opened Wrappers
  import opened Chars
  import opened Translator

  // ----- The inputs -----

  /** One entry of a file's `transformations` list, with the defaults of `.get` applied:
      `original` and `type` default to `''`, `params` to `[]`. */
  datatype Transformation = Transformation(original: string, kind: string, params: seq<string>)

  /** One entry of the report's `fileDetails` list (`file` defaults to `''`). */
  datatype FileDetail = FileDetail(file: string, transformations: seq<Transformation>)

  /** The transformation report (`fileDetails` defaults to `[]`, `stringsTransformed` to 0). */
  datatype Report = Report(fileDetails: seq<FileDetail>, stringsTransformed: int)

  /** The locale file: absent, present but unusable (`load_json` gives nothing, or a falsy
      empty document), or loaded with its `_exactStrings` (empty when the field is absent). */
  datatype LocaleFile = Missing | Unreadable | Loaded(exact: map<string, string>)

  /** `existing_locale.get('_exactStrings', {}) if existing_locale else {}` */
  function ExactOf(locale: LocaleFile): (r: map<string, string>)
    ensures locale.Loaded? ==> r == locale.exact
    ensures !locale.Loaded? ==> r == map[]
  {
    if locale.Loaded? then locale.exact else map[]
  }

  /** One `key: value` pair of a written `_exactStrings`, in file order. */
  datatype Entry = Entry(key: string, value: string)

  // ----- Context descriptions -----

  /** `context_map`'s fixed descriptions, by transformation type. */
  const FixedContexts: map<string, string> := map[
    "property:description" := "CLI option or command description",
    "property:message" := "User notification or status message",
    "property:text" := "UI text or label",
    "property:label" := "Button or menu label",
    "property:title" := "Dialog or section title",
    "property:helpText" := "Help or hint text",
    "property:hint" := "Help or hint text",
    "JSXText" := "React component text content",
    "I18nText" := "Nested text component"
  ]

  const ParameterizedPrefix: string := "Parameterized text with variables: "

  /** `generate_context(transformation, file)`: the description of the transformation's
      type when it has one, otherwise a description guessed from the file path. */
  function GenerateContext(t: Transformation, file: string): (r: string)
    ensures r != []
    ensures t.kind == "ParameterizedText" ==> StartsWith(r, ParameterizedPrefix)
  {
    if t.kind == "ParameterizedText" then ParameterizedPrefix + JoinWith(t.params, ", ")
    else if t.kind in FixedContexts then FixedContexts[t.kind]
    else if Contains(file, "components") then "UI component text"
    else if Contains(file, "commands") then "Command output"
    else if Contains(file, "config") then "Configuration text"
    else "User-facing text"
  }

  /** The description of a typed transformation does not depend on the file. */
  lemma ContextIgnoresFile(t: Transformation, file: string, other: string)
    requires t.kind == "ParameterizedText" || t.kind in FixedContexts
    ensures GenerateContext(t, file) == GenerateContext(t, other)
  {
  }

  /** A parameterised text's description names every parameter. */
  lemma ContextNamesParams(t: Transformation, file: string, p: string)
    requires t.kind == "ParameterizedText" && p in t.params
    ensures Contains(GenerateContext(t, file), p)
  {
    var joined := JoinWith(t.params, ", ");
    var r := ParameterizedPrefix + joined;
    assert GenerateContext(t, file) == r;
    var i :| 0 <= i < |t.params| && t.params[i] == p;
    JoinWithContainsEach(t.params, ", ", i);
    ContainsSlice(r, |ParameterizedPrefix|, |r|);
    assert r[|ParameterizedPrefix|..|r|] == joined;
    ContainsTransitive(r, joined, p);
  }

  /** Each joined piece occurs in `sep.join(parts)`. */
  lemma {:induction false} JoinWithContainsEach(parts: seq<string>, sep: string, i: nat)
    requires i < |parts|
    ensures Contains(JoinWith(parts, sep), parts[i])
    decreases |parts|
  {
    var j := JoinWith(parts, sep);
    if |parts| == 1 {
      ContainsSlice(j, 0, |j|);
      assert j[0..|j|] == j;
    } else if i == 0 {
      ContainsSlice(j, 0, |parts[0]|);
      assert j[0..|parts[0]|] == parts[0];
    } else {
      JoinWithContainsEach(parts[1..], sep, i - 1);
      var rest := JoinWith(parts[1..], sep);
      ContainsSlice(j, |parts[0]| + |sep|, |j|);
      assert j[|parts[0]| + |sep|..|j|] == rest;
      ContainsTransitive(j, rest, parts[i]);
    }
  }

  /** For a type without a description the path decides, `components` before `commands`
      before `config`. */
  lemma ContextOfPath(t: Transformation, file: string)
    requires t.kind != "ParameterizedText" && t.kind !in FixedContexts
    ensures GenerateContext(t, file) == "UI component text" <==> Contains(file, "components")
    ensures GenerateContext(t, file) == "User-facing text" <==>
      !Contains(file, "components") && !Contains(file, "commands") && !Contains(file, "config")
  {
  }

  // ----- Which originals are translatable -----

  /** `key and len(key.strip()) >= 2`: the report's originals worth translating. */
  predicate Eligible(key: string) {
    key != [] && |Strip(key)| >= 2
  }

  /** One transformation together with the file it was found in. */
  datatype Occurrence = Occurrence(file: string, t: Transformation)

  /** The transformations of one file, in order. */
  function OccurrencesIn(d: FileDetail): (r: seq<Occurrence>)
    ensures |r| == |d.transformations|
    ensures forall j :: 0 <= j < |r| ==> r[j] == Occurrence(d.file, d.transformations[j])
  {
    seq(|d.transformations|, j requires 0 <= j < |d.transformations| =>
      Occurrence(d.file, d.transformations[j]))
  }

  /** The report's transformations in the order the nested loops visit them. */
  function Occurrences(details: seq<FileDetail>): (r: seq<Occurrence>)
    decreases |details|
  {
    if details == [] then []
    else Occurrences(details[..|details| - 1]) + OccurrencesIn(details[|details| - 1])
  }

  /** An occurrence lists exactly the transformations of the report, each with its file. */
  lemma {:induction false} OccurrencesMember(details: seq<FileDetail>, o: Occurrence)
    ensures o in Occurrences(details) <==>
      exists d :: d in details && d.file == o.file && o.t in d.transformations
    decreases |details|
  {
    if details != [] {
      var init := details[..|details| - 1];
      var last := details[|details| - 1];
      OccurrencesMember(init, o);
      assert o in Occurrences(details) <==> o in Occurrences(init) || o in OccurrencesIn(last);
      assert o in OccurrencesIn(last) <==> last.file == o.file && o.t in last.transformations by {
        if o.t in last.transformations {
          var j :| 0 <= j < |last.transformations| && last.transformations[j] == o.t;
          assert OccurrencesIn(last)[j] == Occurrence(last.file, o.t);
        }
      }
      assert forall d :: d in details <==> d in init || d == last by {
        assert details == init + [last];
      }
    }
  }

  /** The keys in use: every eligible original of the report (`used_keys`). */
  function UsedKeys(report: Report): (r: set<string>)
    ensures forall k :: k in r ==> Eligible(k)
  {
    set d, t | d in report.fileDetails && t in d.transformations && Eligible(t.original)
      :: t.original
  }

  /** The nested loops of `cleanup_unused_keys` that collect `used_keys`. */
  method CollectUsedKeys(report: Report) returns (used: set<string>)
    ensures used == UsedKeys(report)
  {
    used := {};
    var details := report.fileDetails;
    var i := 0;
    while i < |details|
      invariant 0 <= i <= |details|
      invariant used == set d, t | d in details[..i] && t in d.transformations
        && Eligible(t.original) :: t.original
    {
      var d := details[i];
      var j := 0;
      while j < |d.transformations|
        invariant 0 <= j <= |d.transformations|
        invariant used == (set e, t | e in details[..i] && t in e.transformations
          && Eligible(t.original) :: t.original)
          + (set t | t in d.transformations[..j] && Eligible(t.original) :: t.original)
      {
        var key := d.transformations[j].original;
        if key != [] && |Strip(key)| >= 2 {
          used := used + {key};
        }
        assert d.transformations[..j + 1] == d.transformations[..j] + [d.transformations[j]];
        j := j + 1;
      }
      assert d.transformations[..j] == d.transformations;
      assert details[..i + 1] == details[..i] + [d];
      i := i + 1;
    }
    assert details[..i] == details;
  }

  // ----- Extraction -----

  /** One entry of `strings_map`: the first occurrence's context, type and parameters, and
      every file the original was seen in. */
  datatype Pending = Pending(
    key: string, context: string, files: seq<string>, kind: string, params: seq<string>)

  /** One visit of the extraction loop. */
  function Visit(m: map<string, Pending>, exact: map<string, string>, o: Occurrence)
    : map<string, Pending>
  {
    var key := o.t.original;
    if !Eligible(key) || key in exact then m
    else if key in m then
      if o.file in m[key].files then m
      else m[key := m[key].(files := m[key].files + [o.file])]
    else m[key := Pending(key, GenerateContext(o.t, o.file), [o.file], o.t.kind, o.t.params)]
  }

  /** A visit adds the occurrence's key when it is untranslated, and nothing else. */
  lemma VisitKeys(m: map<string, Pending>, exact: map<string, string>, o: Occurrence)
    ensures Visit(m, exact, o).Keys == m.Keys
      + (if Eligible(o.t.original) && o.t.original !in exact then {o.t.original} else {})
  {
  }

  /** A visit keeps an entry's first-seen data and can only append the occurrence's file. */
  lemma VisitKeeps(m: map<string, Pending>, exact: map<string, string>, o: Occurrence,
                   k: string)
    requires k in m
    ensures k in Visit(m, exact, o)
    ensures Visit(m, exact, o)[k] == m[k]
      || (k == o.t.original && Visit(m, exact, o)[k] == m[k].(files := m[k].files + [o.file]))
  {
  }

  /** After a visit of an untranslated original its file is listed; a first visit creates
      the entry from this occurrence. */
  lemma VisitRecords(m: map<string, Pending>, exact: map<string, string>, o: Occurrence)
    requires Eligible(o.t.original) && o.t.original !in exact
    ensures o.t.original in Visit(m, exact, o)
    ensures o.file in Visit(m, exact, o)[o.t.original].files
    ensures o.t.original !in m ==>
      Visit(m, exact, o)[o.t.original]
        == Pending(o.t.original, GenerateContext(o.t, o.file), [o.file], o.t.kind, o.t.params)
  {
  }

  /** `strings_map` after visiting `occs` in order: every entry is filed under its own key
      and lists at least one file, none twice. */
  function Collected(exact: map<string, string>, occs: seq<Occurrence>)
    : (r: map<string, Pending>)
    ensures forall k :: k in r ==> r[k].key == k && r[k].files != []
    ensures forall k :: k in r ==> NoRepeats(r[k].files)
    decreases |occs|
  {
    if occs == [] then map[]
    else Visit(Collected(exact, occs[..|occs| - 1]), exact, occs[|occs| - 1])
  }

  predicate NoRepeats(files: seq<string>) {
    forall a, b :: 0 <= a < b < |files| ==> files[a] != files[b]
  }

  /** The originals still to translate: eligible ones the locale does not have yet. */
  function Untranslated(exact: map<string, string>, occs: seq<Occurrence>): (r: set<string>)
    ensures forall k :: k in r ==> Eligible(k) && k !in exact
  {
    set o | o in occs && Eligible(o.t.original) && o.t.original !in exact :: o.t.original
  }

  /** `strings_map` keeps exactly the untranslated originals, each once. */
  lemma {:induction false} CollectedKeys(exact: map<string, string>, occs: seq<Occurrence>)
    ensures Collected(exact, occs).Keys == Untranslated(exact, occs)
    decreases |occs|
  {
    if occs != [] {
      var init := occs[..|occs| - 1];
      var o := occs[|occs| - 1];
      CollectedKeys(exact, init);
      var m0 := Collected(exact, init);
      assert Collected(exact, occs) == Visit(m0, exact, o);
      VisitKeys(m0, exact, o);
      UntranslatedSnoc(exact, init, o);
      assert occs == init + [o];
    }
  }

  lemma UntranslatedSnoc(exact: map<string, string>, init: seq<Occurrence>, o: Occurrence)
    ensures Untranslated(exact, init + [o]) == Untranslated(exact, init)
      + (if Eligible(o.t.original) && o.t.original !in exact then {o.t.original} else {})
  {
    var occs := init + [o];
    forall x | x in Untranslated(exact, occs)
      ensures x in Untranslated(exact, init) || (x == o.t.original && Eligible(x) && x !in exact)
    {
      var p :| p in occs && Eligible(p.t.original) && p.t.original !in exact
        && p.t.original == x;
      if p != o {
        assert p in init;
      }
    }
    forall x | x in Untranslated(exact, init)
      ensures x in Untranslated(exact, occs)
    {
      var p :| p in init && Eligible(p.t.original) && p.t.original !in exact
        && p.t.original == x;
      assert p in occs;
    }
    if Eligible(o.t.original) && o.t.original !in exact {
      assert o in occs;
    }
  }

  /** `k` was seen in `f`. */
  predicate SeenIn(occs: seq<Occurrence>, k: string, f: string) {
    exists i :: 0 <= i < |occs| && occs[i].t.original == k && occs[i].file == f
  }

  /** Every file listed for a key is one the key was seen in. */
  lemma {:induction false} CollectedSeen(exact: map<string, string>, occs: seq<Occurrence>,
                                         k: string, f: string)
    requires k in Collected(exact, occs) && f in Collected(exact, occs)[k].files
    ensures SeenIn(occs, k, f)
    decreases |occs|
  {
    var init := occs[..|occs| - 1];
    var o := occs[|occs| - 1];
    var m0 := Collected(exact, init);
    assert Collected(exact, occs) == Visit(m0, exact, o);
    VisitKeys(m0, exact, o);
    if k in m0 && f in m0[k].files {
      CollectedSeen(exact, init, k, f);
      var i :| 0 <= i < |init| && init[i].t.original == k && init[i].file == f;
      assert occs[i] == init[i];
    } else {
      if k in m0 {
        VisitKeeps(m0, exact, o, k);
      } else {
        VisitRecords(m0, exact, o);
      }
      assert occs[|occs| - 1].t.original == k && occs[|occs| - 1].file == f;
    }
  }

  /** An occurrence whose original is kept is an occurrence of an untranslated original. */
  lemma KeptOccurrence(exact: map<string, string>, occs: seq<Occurrence>, i: nat)
    requires i < |occs| && occs[i].t.original in Collected(exact, occs)
    ensures Eligible(occs[i].t.original) && occs[i].t.original !in exact
  {
    CollectedKeys(exact, occs);
  }

  /** An untranslated original seen before the last visit is already in `strings_map`. */
  lemma EarlierKept(exact: map<string, string>, occs: seq<Occurrence>, i: nat)
    requires i < |occs| - 1 && occs[i].t.original in Collected(exact, occs)
    ensures occs[i].t.original in Collected(exact, occs[..|occs| - 1])
  {
    var init := occs[..|occs| - 1];
    KeptOccurrence(exact, occs, i);
    CollectedKeys(exact, init);
    assert init[i] == occs[i];
    assert init[i] in init;
  }

  /** Every file a key was seen in is listed for it. */
  lemma {:induction false} CollectedCovers(exact: map<string, string>, occs: seq<Occurrence>,
                                           i: nat)
    requires i < |occs| && occs[i].t.original in Collected(exact, occs)
    ensures occs[i].file in Collected(exact, occs)[occs[i].t.original].files
    decreases |occs|
  {
    var init := occs[..|occs| - 1];
    var o := occs[|occs| - 1];
    var k := occs[i].t.original;
    var m0 := Collected(exact, init);
    assert Collected(exact, occs) == Visit(m0, exact, o);
    if i < |init| {
      EarlierKept(exact, occs, i);
      assert init[i] == occs[i];
      CollectedCovers(exact, init, i);
      VisitKeeps(m0, exact, o, k);
    } else {
      KeptOccurrence(exact, occs, i);
      VisitRecords(m0, exact, o);
    }
  }

  /** Context, type, parameters and the first file come from the key's first occurrence. */
  lemma {:induction false} CollectedFirst(exact: map<string, string>, occs: seq<Occurrence>,
                                          i: nat)
    requires i < |occs| && occs[i].t.original in Collected(exact, occs)
    requires forall j :: 0 <= j < i ==> occs[j].t.original != occs[i].t.original
    ensures Collected(exact, occs)[occs[i].t.original].context
      == GenerateContext(occs[i].t, occs[i].file)
    ensures Collected(exact, occs)[occs[i].t.original].kind == occs[i].t.kind
    ensures Collected(exact, occs)[occs[i].t.original].params == occs[i].t.params
    ensures Collected(exact, occs)[occs[i].t.original].files[0] == occs[i].file
    decreases |occs|
  {
    var init := occs[..|occs| - 1];
    var o := occs[|occs| - 1];
    var k := occs[i].t.original;
    var m0 := Collected(exact, init);
    assert Collected(exact, occs) == Visit(m0, exact, o);
    if i < |init| {
      EarlierKept(exact, occs, i);
      assert init[i] == occs[i];
      CollectedFirst(exact, init, i);
      VisitKeeps(m0, exact, o, k);
    } else {
      CollectedKeys(exact, init);
      assert k !in m0;
      KeptOccurrence(exact, occs, i);
      VisitRecords(m0, exact, o);
    }
  }

  /** One pass of the inner loop of `extract_strings`. */
  method VisitOne(m: map<string, Pending>, exact: map<string, string>, file: string,
                  t: Transformation) returns (r: map<string, Pending>)
    ensures r == Visit(m, exact, Occurrence(file, t))
  {
    var key := t.original;
    r := m;
    if key == [] || |Strip(key)| < 2 {
      return;
    }
    if key in exact {
      return;
    }
    if key in m {
      if file !in m[key].files {
        r := m[key := m[key].(files := m[key].files + [file])];
      }
      return;
    }
    r := m[key := Pending(key, GenerateContext(t, file), [file], t.kind, t.params)];
  }

  lemma PrefixSnoc<T>(before: seq<T>, xs: seq<T>, j: nat)
    requires j < |xs|
    ensures before + xs[..j + 1] == (before + xs[..j]) + [xs[j]]
  {
    assert xs[..j + 1] == xs[..j] + [xs[j]];
  }

  lemma CollectedSnoc(exact: map<string, string>, occs: seq<Occurrence>, o: Occurrence)
    ensures Collected(exact, occs + [o]) == Visit(Collected(exact, occs), exact, o)
  {
    assert (occs + [o])[..|occs|] == occs;
  }

  lemma OccurrencesSnoc(details: seq<FileDetail>, i: nat)
    requires i < |details|
    ensures Occurrences(details[..i + 1]) == Occurrences(details[..i]) + OccurrencesIn(details[i])
  {
    assert details[..i + 1][..i] == details[..i];
  }

  /** The nested loops of `extract_strings` that build `strings_map`. */
  method CollectStrings(report: Report, exact: map<string, string>)
    returns (m: map<string, Pending>)
    ensures m == Collected(exact, Occurrences(report.fileDetails))
  {
    m := map[];
    var details := report.fileDetails;
    var i := 0;
    while i < |details|
      invariant 0 <= i <= |details|
      invariant m == Collected(exact, Occurrences(details[..i]))
    {
      var d := details[i];
      ghost var before := Occurrences(details[..i]);
      assert before + OccurrencesIn(d)[..0] == before;
      var j := 0;
      while j < |d.transformations|
        invariant 0 <= j <= |d.transformations|
        invariant m == Collected(exact, before + OccurrencesIn(d)[..j])
      {
        var t := d.transformations[j];
        ghost var m0 := m;
        m := VisitOne(m, exact, d.file, t);
        CollectedSnoc(exact, before + OccurrencesIn(d)[..j], Occurrence(d.file, t));
        PrefixSnoc(before, OccurrencesIn(d), j);
        j := j + 1;
      }
      assert OccurrencesIn(d)[..j] == OccurrencesIn(d);
      OccurrencesSnoc(details, i);
      i := i + 1;
    }
    assert details[..i] == details;
  }

  /** One entry of the written `translations` list: `files` only when there are several,
      `params` only when there are some, and an empty translation. */
  datatype PendingString = PendingString(
    key: string, context: string, file: string, files: Option<seq<string>>, kind: string,
    params: Option<seq<string>>, translation: string)

  function Emit(p: Pending): (r: PendingString)
    requires p.files != []
    ensures r.key == p.key && r.context == p.context && r.kind == p.kind
    ensures r.file == p.files[0] && r.translation == []
    ensures r.files.Some? <==> |p.files| > 1
    ensures r.params.Some? <==> p.params != []
  {
    PendingString(p.key, p.context, p.files[0], if |p.files| > 1 then Some(p.files) else None,
      p.kind, if p.params != [] then Some(p.params) else None, "")
  }

  /** The `metadata` block of the extraction (its `generatedAt` time stamp is left out). */
  datatype Metadata = Metadata(
    sourceLanguage: string, targetLanguage: string, totalStringsInReport: int,
    uniqueStrings: nat, alreadyTranslated: nat, pendingTranslation: nat)

  datatype Extraction = Extraction(metadata: Metadata, translations: seq<PendingString>)

  /** Keys in strictly increasing code-point order. */
  predicate StrictlySorted(keys: seq<string>) {
    forall a, b :: 0 <= a < b < |keys| ==> LexLess(keys[a], keys[b])
  }

  /** `k` is the least of `s` in code-point order. */
  predicate IsLeast(k: string, s: set<string>) {
    k in s && forall x :: x in s ==> x == k || LexLess(k, x)
  }

  /** A non-empty finite set of strings has a least element. */
  lemma {:induction false} Least(s: set<string>) returns (k: string)
    requires s != {}
    ensures IsLeast(k, s)
    decreases |s|
  {
    var y :| y in s;
    var rest := s - {y};
    if rest == {} {
      assert s == {y};
      return y;
    }
    var m := Least(rest);
    if LexLess(y, m) {
      forall x | x in s
        ensures x == y || LexLess(y, x)
      {
        if x != y {
          assert x in rest;
          if x != m {
            LexTransitive(y, m, x);
          }
        }
      }
      return y;
    }
    assert m != y;
    LexTotal(y, m);
    forall x | x in s
      ensures x == m || LexLess(m, x)
    {
      if x != y {
        assert x in rest;
      }
    }
    return m;
  }

  /** `sorted(...)` on distinct keys: picks the least remaining key until none is left. */
  method SortKeys(s: set<string>) returns (keys: seq<string>)
    ensures StrictlySorted(keys)
    ensures forall k :: k in keys <==> k in s
  {
    keys := [];
    var rest := s;
    while rest != {}
      invariant rest <= s
      invariant forall k :: k in s ==> (k in rest <==> k !in keys)
      invariant forall k :: k in keys ==> k in s
      invariant StrictlySorted(keys)
      invariant forall a, k :: 0 <= a < |keys| && k in rest ==> LexLess(keys[a], k)
      decreases |rest|
    {
      ghost var least := Least(rest);
      assert forall x :: x in rest ==> x == least || LexLess(least, x);
      var k :| k in rest && forall x :: x in rest ==> x == k || LexLess(k, x);
      keys := keys + [k];
      rest := rest - {k};
    }
  }

  /** The written `translations`: one entry per collected original, in strictly increasing
      key order. */
  predicate SortedPending(out: seq<PendingString>, m: map<string, Pending>)
    requires forall k :: k in m ==> m[k].files != []
  {
    && (forall a, b :: 0 <= a < b < |out| ==> LexLess(out[a].key, out[b].key))
    && (forall i :: 0 <= i < |out| ==> out[i].key in m && out[i] == Emit(m[out[i].key]))
    && (forall k :: k in m ==> exists i :: 0 <= i < |out| && out[i].key == k)
  }

  /** `sorted(strings_map.values(), key=lambda x: x['key'])`, each written out. */
  method SortedPendingOf(m: map<string, Pending>) returns (out: seq<PendingString>)
    requires forall k :: k in m ==> m[k].key == k && m[k].files != []
    ensures SortedPending(out, m)
  {
    var keys := SortKeys(m.Keys);
    out := seq(|keys|, i requires 0 <= i < |keys| => Emit(m[keys[i]]));
    assert forall i :: 0 <= i < |out| ==> out[i].key == keys[i];
    forall k | k in m
      ensures exists i :: 0 <= i < |out| && out[i].key == k
    {
      var i :| 0 <= i < |keys| && keys[i] == k;
      assert out[i].key == k;
    }
  }

  /** `extract_strings(lang, output_path)`: `None` when the report is missing or unusable;
      otherwise the untranslated originals sorted by key, each listed once. */
  method ExtractStrings(lang: string, report: Option<Report>, locale: LocaleFile)
    returns (r: Option<Extraction>)
    ensures report.None? <==> r.None?
    ensures r.Some? ==>
      var m := Collected(ExactOf(locale), Occurrences(report.value.fileDetails));
      && SortedPending(r.value.translations, m)
      && r.value.metadata == Metadata("en", lang, report.value.stringsTransformed,
           |m| + |ExactOf(locale)|, |ExactOf(locale)|, |r.value.translations|)
  {
    if report.None? {
      return None;
    }
    var exact := ExactOf(locale);
    var m := CollectStrings(report.value, exact);
    var out := SortedPendingOf(m);
    r := Some(Extraction(Metadata("en", lang, report.value.stringsTransformed,
      |m| + |exact|, |exact|, |out|), out));
  }

  // ----- Writing `_exactStrings` -----

  /** `dict(sorted(d.items()))` as written: strictly sorted keys, exactly the pairs of `d`. */
  predicate SortedStore(entries: seq<Entry>, d: map<string, string>) {
    && StrictlySorted(seq(|entries|, i requires 0 <= i < |entries| => entries[i].key))
    && (forall i :: 0 <= i < |entries| ==>
          entries[i].key in d && d[entries[i].key] == entries[i].value)
    && (forall k :: k in d ==> exists i :: 0 <= i < |entries| && entries[i].key == k)
  }

  method SortedEntries(d: map<string, string>) returns (entries: seq<Entry>)
    ensures SortedStore(entries, d)
  {
    var keys := SortKeys(d.Keys);
    entries := seq(|keys|, i requires 0 <= i < |keys| => Entry(keys[i], d[keys[i]]));
    assert seq(|entries|, i requires 0 <= i < |entries| => entries[i].key) == keys;
    forall k | k in d
      ensures exists i :: 0 <= i < |entries| && entries[i].key == k
    {
      var i :| 0 <= i < |keys| && keys[i] == k;
      assert entries[i].key == k;
    }
  }

  /** Reading back a written `_exactStrings` gives the dictionary that was written. */
  lemma ReadBack(entries: seq<Entry>, d: map<string, string>)
    requires SortedStore(entries, d)
    ensures d == map i | 0 <= i < |entries| :: entries[i].key := entries[i].value
  {
    var back := map i | 0 <= i < |entries| :: entries[i].key := entries[i].value;
    var keys := seq(|entries|, i requires 0 <= i < |entries| => entries[i].key);
    forall k | k in d
      ensures k in back && back[k] == d[k]
    {
      var i :| 0 <= i < |entries| && entries[i].key == k;
      assert keys[i] == k;
    }
    forall k | k in back
      ensures k in d
    {
    }
  }

  // ----- Cleanup -----

  /** What `cleanup_unused_keys` reports (its boolean) and writes (the new `_exactStrings`,
      when it writes). */
  datatype Cleanup = Cleanup(ok: bool, written: Option<seq<Entry>>)

  /** The locale restricted to the keys in use. */
  function Kept(exact: map<string, string>, used: set<string>): (r: map<string, string>)
    ensures r.Keys == exact.Keys * used
    ensures forall k :: k in r ==> r[k] == exact[k]
  {
    map k | k in exact && k in used :: exact[k]
  }

  /** `cleanup_unused_keys(lang, backup, dry_run)` */
  method CleanupUnusedKeys(report: Option<Report>, locale: LocaleFile, dryRun: bool)
    returns (r: Cleanup)
    ensures report.None? ==> r == Cleanup(false, None)
    ensures report.Some? && locale.Missing? ==> r == Cleanup(true, None)
    ensures report.Some? && locale.Unreadable? ==> r == Cleanup(false, None)
    ensures report.Some? && locale.Loaded? ==>
      && r.ok
      && (r.written.Some? <==> !dryRun && locale.exact.Keys - UsedKeys(report.value) != {})
      && (r.written.Some? ==>
            SortedStore(r.written.value, Kept(locale.exact, UsedKeys(report.value))))
  {
    if report.None? {
      return Cleanup(false, None);
    }
    if locale.Missing? {
      return Cleanup(true, None);
    }
    if locale.Unreadable? {
      return Cleanup(false, None);
    }
    var exact := locale.exact;
    if exact == map[] {
      return Cleanup(true, None);
    }
    var used := CollectUsedKeys(report.value);
    var unused := exact.Keys - used;
    if unused == {} || dryRun {
      return Cleanup(true, None);
    }
    var entries := SortedEntries(map k | k in exact && k in used :: exact[k]);
    r := Cleanup(true, Some(entries));
  }

  /** A cleaned locale is clean: a second cleanup against the same report writes nothing. */
  lemma CleanupSettles(exact: map<string, string>, used: set<string>)
    ensures Kept(exact, used).Keys - used == {}
    ensures Kept(Kept(exact, used), used) == Kept(exact, used)
  {
  }

  // ----- Merge -----

  /** `valid_translations`: the job's items whose translation is not blank, in order. */
  function ValidTranslations(items: seq<Item>): (r: seq<Item>)
    ensures forall i :: 0 <= i < |r| ==> Strip(r[i].translation) != [] && r[i] in items
    ensures forall i :: 0 <= i < |items| && Strip(items[i].translation) != [] ==> items[i] in r
    ensures |r| <= |items|
    decreases |items|
  {
    if items == [] then []
    else
      var init := ValidTranslations(items[..|items| - 1]);
      var last := items[|items| - 1];
      assert forall x :: x in items[..|items| - 1] ==> x in items;
      if Strip(last.translation) != [] then init + [last] else init
  }

  /** `new_exact_strings` after the merge loop: each valid item sets its key to its
      stripped translation. */
  function Merged(exact: map<string, string>, valid: seq<Item>): map<string, string>
    decreases |valid|
  {
    if valid == [] then exact
    else
      var last := valid[|valid| - 1];
      Merged(exact, valid[..|valid| - 1])[last.key := Strip(last.translation)]
  }

  /** The merge loop's three counters. */
  datatype Counts = Counts(added: nat, updated: nat, same: nat)

  /** The counters after the merge loop: a key not yet present is new, one with another value
      is updated, one with the same value is unchanged. */
  function Counted(exact: map<string, string>, valid: seq<Item>): Counts
    decreases |valid|
  {
    if valid == [] then Counts(0, 0, 0)
    else
      var init := valid[..|valid| - 1];
      var last := valid[|valid| - 1];
      var store := Merged(exact, init);
      var c := Counted(exact, init);
      if last.key !in store then c.(added := c.added + 1)
      else if store[last.key] != Strip(last.translation) then c.(updated := c.updated + 1)
      else c.(same := c.same + 1)
  }

  /** No key is lost: the merged store has the old keys plus the job's keys. */
  lemma {:induction false} MergedKeys(exact: map<string, string>, valid: seq<Item>)
    ensures Merged(exact, valid).Keys == exact.Keys + set i | 0 <= i < |valid| :: valid[i].key
    decreases |valid|
  {
    if valid != [] {
      var init := valid[..|valid| - 1];
      MergedKeys(exact, init);
      assert (set i | 0 <= i < |valid| :: valid[i].key)
        == (set i | 0 <= i < |init| :: init[i].key) + {valid[|valid| - 1].key} by {
        forall i | 0 <= i < |init|
          ensures init[i] == valid[i]
        {
        }
      }
    }
  }

  /** A key keeps its old value unless the job has it; otherwise the last item with that key
      decides its stripped value. */
  lemma {:induction false} MergedValue(exact: map<string, string>, valid: seq<Item>, i: nat)
    requires i < |valid|
    requires forall j :: i < j < |valid| ==> valid[j].key != valid[i].key
    ensures valid[i].key in Merged(exact, valid)
    ensures Merged(exact, valid)[valid[i].key] == Strip(valid[i].translation)
    decreases |valid|
  {
    if i < |valid| - 1 {
      var init := valid[..|valid| - 1];
      MergedValue(exact, init, i);
    }
  }

  lemma {:induction false} MergedUntouched(exact: map<string, string>, valid: seq<Item>,
                                           k: string)
    requires k in exact && forall j :: 0 <= j < |valid| ==> valid[j].key != k
    ensures k in Merged(exact, valid) && Merged(exact, valid)[k] == exact[k]
    decreases |valid|
  {
    if valid != [] {
      MergedUntouched(exact, valid[..|valid| - 1], k);
    }
  }

  /** Every valid item is counted once, and the new ones are exactly the added keys. */
  lemma {:induction false} CountedTotals(exact: map<string, string>, valid: seq<Item>)
    ensures Counted(exact, valid).added + Counted(exact, valid).updated
      + Counted(exact, valid).same == |valid|
    ensures |Merged(exact, valid)| == |exact| + Counted(exact, valid).added
    decreases |valid|
  {
    if valid != [] {
      var init := valid[..|valid| - 1];
      var last := valid[|valid| - 1];
      CountedTotals(exact, init);
      var store := Merged(exact, init);
      if last.key !in store {
        assert (store[last.key := Strip(last.translation)]).Keys == store.Keys + {last.key};
      } else {
        assert (store[last.key := Strip(last.translation)]).Keys == store.Keys;
      }
    }
  }

  /** The job gives each key one stripped translation (true of a job `extract_strings` wrote,
      whose keys are distinct). */
  predicate Consistent(valid: seq<Item>) {
    forall a, b :: 0 <= a < |valid| && 0 <= b < |valid| && valid[a].key == valid[b].key ==>
      Strip(valid[a].translation) == Strip(valid[b].translation)
  }

  /** A store that already holds every item's stripped translation is left alone. */
  lemma {:induction false} MergeHeld(store: map<string, string>, valid: seq<Item>)
    requires forall i :: 0 <= i < |valid| ==>
      valid[i].key in store && store[valid[i].key] == Strip(valid[i].translation)
    ensures Merged(store, valid) == store
    ensures Counted(store, valid) == Counts(0, 0, |valid|)
    decreases |valid|
  {
    if valid != [] {
      MergeHeld(store, valid[..|valid| - 1]);
    }
  }

  /** Merging the same job twice: the second run adds and updates nothing. */
  lemma MergeIdempotent(exact: map<string, string>, valid: seq<Item>)
    requires Consistent(valid)
    ensures Merged(Merged(exact, valid), valid) == Merged(exact, valid)
    ensures Counted(Merged(exact, valid), valid) == Counts(0, 0, |valid|)
  {
    var store := Merged(exact, valid);
    forall i | 0 <= i < |valid|
      ensures valid[i].key in store && store[valid[i].key] == Strip(valid[i].translation)
    {
      LastWithKey(exact, valid, i);
    }
    MergeHeld(store, valid);
  }

  lemma {:induction false} LastWithKey(exact: map<string, string>, valid: seq<Item>, i: nat)
    requires i < |valid| && Consistent(valid)
    ensures valid[i].key in Merged(exact, valid)
    ensures Merged(exact, valid)[valid[i].key] == Strip(valid[i].translation)
    decreases |valid|
  {
    var last := valid[|valid| - 1];
    if i < |valid| - 1 && last.key != valid[i].key {
      var init := valid[..|valid| - 1];
      assert Consistent(init) by {
        forall a, b | 0 <= a < |init| && 0 <= b < |init| && init[a].key == init[b].key
          ensures Strip(init[a].translation) == Strip(init[b].translation)
        {
          assert init[a] == valid[a] && init[b] == valid[b];
        }
      }
      LastWithKey(exact, init, i);
    }
  }

  /** What `merge_translations` reports and writes. */
  datatype MergeOutcome =
    | MergeFailed
    | NothingToMerge
    | MergedStore(counts: Counts, entries: seq<Entry>)

  /** The merge loop: updates the dictionary and the three counters item by item. */
  method MergeInto(exact: map<string, string>, valid: seq<Item>)
    returns (store: map<string, string>, counts: Counts)
    ensures store == Merged(exact, valid) && counts == Counted(exact, valid)
  {
    store := exact;
    counts := Counts(0, 0, 0);
    var i := 0;
    while i < |valid|
      invariant 0 <= i <= |valid|
      invariant store == Merged(exact, valid[..i]) && counts == Counted(exact, valid[..i])
    {
      var key := valid[i].key;
      var translation := Strip(valid[i].translation);
      if key !in store {
        store := store[key := translation];
        counts := counts.(added := counts.added + 1);
      } else if store[key] != translation {
        store := store[key := translation];
        counts := counts.(updated := counts.updated + 1);
      } else {
        counts := counts.(same := counts.same + 1);
      }
      assert valid[..i + 1][..i] == valid[..i];
      i := i + 1;
    }
    assert valid[..i] == valid;
  }

  /** `merge_translations(lang, input_path, backup)`: fails when the job cannot be read,
      does nothing when no translation is filled in, and otherwise writes the merged
      `_exactStrings`, sorted, as the locale's only field. */
  method MergeTranslations(input: Option<seq<Item>>, locale: LocaleFile)
    returns (r: MergeOutcome)
    ensures input.None? ==> r.MergeFailed?
    ensures input.Some? && ValidTranslations(input.value) == [] ==> r.NothingToMerge?
    ensures input.Some? && ValidTranslations(input.value) != [] ==>
      var valid := ValidTranslations(input.value);
      && r.MergedStore?
      && r.counts == Counted(ExactOf(locale), valid)
      && SortedStore(r.entries, Merged(ExactOf(locale), valid))
  {
    if input.None? {
      return MergeFailed;
    }
    var valid := ValidTranslations(input.value);
    if valid == [] {
      return NothingToMerge;
    }
    var store, counts := MergeInto(ExactOf(locale), valid);
    var entries := SortedEntries(store);
    r := MergedStore(counts, entries);
  }
}
