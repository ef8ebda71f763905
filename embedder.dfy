/** The search package's Python embedder, outside its numerics: the text sanitiser
    `clean_text` (the BERT normaliser's `_clean_text`), the `OnnxEmbedder` life cycle, the E5
    `query: `/`passage: ` prefixes, the input handling of `embed_batch`, and the names derived
    from the model id. ONNX inference, the tokenizer, pooling and normalisation are left out:
    where the source returns embeddings, the model returns the texts handed to the tokenizer. */
module Embedder {
  import opened Wrappers
  import opened Chars

  // ----- Text -----

  /** A Python `str` element: any code point, lone surrogates included. */
  newtype CodePoint = n: int | 0 <= n < 0x11_0000

  type Text = seq<CodePoint>

  /** The code points of a Dafny string literal. */
  function FromString(s: string): (r: Text)
    ensures |r| == |s|
    ensures forall i :: 0 <= i < |s| ==> r[i] as int == s[i] as int
  {
    seq(|s|, i requires 0 <= i < |s| => s[i] as int as CodePoint)
  }

  /** What the sanitiser asks of the Unicode character database: the General Category
      (`unicodedata.category`) and `str.isspace`. Both are left uninterpreted. */
  datatype CharDb = CharDb(category: CodePoint -> string, isSpace: CodePoint -> bool)

  /** The facts of the Unicode Standard the prefix lemmas rely on: U+0020 is whitespace
      (category Zs) and the other printable ASCII characters are neither whitespace nor of
      category Cc, Cf, Co or Cs. */
  predicate Sane(db: CharDb) {
    && db.isSpace(0x20) && !IsControl(db, 0x20)
    && forall c: CodePoint :: 0x21 <= c <= 0x7E ==> !db.isSpace(c) && !IsControl(db, c)
  }

  // ----- clean_text -----

  /** `_is_control(char)`: tab, LF and CR are whitespace, not control; otherwise the
      categories Cc, Cf, Co and Cs are control. */
  predicate IsControl(db: CharDb, c: CodePoint) {
    c != 0x09 && c != 0x0A && c != 0x0D && db.category(c) in ["Cc", "Cf", "Co", "Cs"]
  }

  /** Tab, line feed and carriage return are never control, whatever their category. */
  lemma WhitespaceNotControl(db: CharDb, c: CodePoint)
    requires c == 0x09 || c == 0x0A || c == 0x0D
    ensures !IsControl(db, c)
  {
  }

  /** The characters `clean_text` drops: NUL, U+FFFD and control characters. */
  predicate Dropped(db: CharDb, c: CodePoint) {
    c == 0 || c == 0xFFFD || IsControl(db, c)
  }

  /** A kept character: whitespace becomes one space, anything else stays. */
  function Normalized(db: CharDb, c: CodePoint): CodePoint {
    if db.isSpace(c) then 0x20 else c
  }

  /** `clean_text(text)`, as a specification over the characters in order. */
  function Clean(db: CharDb, text: Text): (r: Text)
    ensures |r| <= |text|
    ensures text == [] ==> r == []
    decreases |text|
  {
    if text == [] then []
    else
      var c := text[|text| - 1];
      Clean(db, text[..|text| - 1]) + (if Dropped(db, c) then [] else [Normalized(db, c)])
  }

  /** `clean_text(text)`: the loop that appends each kept character to `output`. */
  method CleanText(db: CharDb, text: Text) returns (r: Text)
    ensures r == Clean(db, text)
  {
    if text == [] {
      return [];
    }
    var output: Text := [];
    var i := 0;
    while i < |text|
      invariant 0 <= i <= |text|
      invariant output == Clean(db, text[..i])
    {
      var c := text[i];
      assert text[..i + 1][..i] == text[..i];
      if c == 0 || c == 0xFFFD || IsControl(db, c) {
        i := i + 1;
        continue;
      }
      if db.isSpace(c) {
        output := output + [0x20];
      } else {
        output := output + [c];
      }
      i := i + 1;
    }
    assert text[..i] == text;
    r := output;
  }

  /** The characters of `text` that survive, in order. */
  function Survivors(db: CharDb, text: Text): (r: Text)
    ensures forall i :: 0 <= i < |r| ==> !Dropped(db, r[i]) && r[i] in text
    ensures forall c :: c in text && !Dropped(db, c) ==> c in r
    decreases |text|
  {
    if text == [] then []
    else
      var init := text[..|text| - 1];
      var c := text[|text| - 1];
      assert forall x :: x in text <==> x in init || x == c;
      Survivors(db, init) + (if Dropped(db, c) then [] else [c])
  }

  /** Cleaning keeps the surviving characters, in order, and maps each one on its own:
      whitespace to exactly one space, anything else to itself. */
  lemma {:induction false} CleanMapsSurvivors(db: CharDb, text: Text)
    ensures |Clean(db, text)| == |Survivors(db, text)|
    ensures forall i :: 0 <= i < |Clean(db, text)| ==>
      Clean(db, text)[i] == Normalized(db, Survivors(db, text)[i])
    decreases |text|
  {
    if text != [] {
      CleanMapsSurvivors(db, text[..|text| - 1]);
    }
  }

  /** No cleaned character is NUL, U+FFFD or control, as long as the space is not control. */
  lemma {:induction false} CleanDropsBad(db: CharDb, text: Text)
    requires !IsControl(db, 0x20)
    ensures forall i :: 0 <= i < |Clean(db, text)| ==> !Dropped(db, Clean(db, text)[i])
    ensures forall i :: 0 <= i < |Clean(db, text)| ==>
      Clean(db, text)[i] == 0x20 || !db.isSpace(Clean(db, text)[i])
    decreases |text|
  {
    if text != [] {
      CleanDropsBad(db, text[..|text| - 1]);
    }
  }

  /** Cleaning works character by character, so it distributes over concatenation. */
  lemma {:induction false} CleanAppend(db: CharDb, a: Text, b: Text)
    ensures Clean(db, a + b) == Clean(db, a) + Clean(db, b)
    decreases |b|
  {
    if b == [] {
      assert a + b == a;
    } else {
      var init := b[..|b| - 1];
      CleanAppend(db, a, init);
      assert (a + b)[..|a + b| - 1] == a + init;
    }
  }

  /** Cleaning twice is cleaning once, when the space survives as a space. */
  lemma {:induction false} CleanIdempotent(db: CharDb, text: Text)
    requires db.isSpace(0x20) && !IsControl(db, 0x20)
    ensures Clean(db, Clean(db, text)) == Clean(db, text)
    decreases |text|
  {
    if text != [] {
      var init := text[..|text| - 1];
      var c := text[|text| - 1];
      CleanIdempotent(db, init);
      var tail := if Dropped(db, c) then [] else [Normalized(db, c)];
      CleanAppend(db, Clean(db, init), tail);
      if !Dropped(db, c) {
        assert Clean(db, tail) == Clean(db, [])
          + (if Dropped(db, tail[0]) then [] else [Normalized(db, tail[0])]) by {
          assert tail[..0] == [];
        }
      }
    }
  }

  /** Printable ASCII text comes through cleaning unchanged. */
  lemma {:induction false} CleanPrintable(db: CharDb, text: Text)
    requires Sane(db)
    requires forall i :: 0 <= i < |text| ==> 0x20 <= text[i] <= 0x7E
    ensures Clean(db, text) == text
    decreases |text|
  {
    if text != [] {
      var init := text[..|text| - 1];
      CleanPrintable(db, init);
      var c := text[|text| - 1];
      if c != 0x20 {
        assert !db.isSpace(c) && !IsControl(db, c);
      }
      assert init + [c] == text;
    }
  }

  // ----- Python values handed to the embedder -----

  /** A value in a request: a string, `None`, a list, or anything else, which the embedder
      turns into text with `str(...)` (`repr` is that text). */
  datatype Value = Str(s: Text) | Null | Items(items: seq<Value>, repr: Text) | Obj(repr: Text)

  /** The text of a value: the string itself, `""` for `None`, `str(...)` otherwise. */
  function TextOf(v: Value): Text {
    match v
    case Str(s) => s
    case Null => []
    case Items(_, repr) => repr
    case Obj(repr) => repr
  }

  /** The sanitising step applied to each value: `None` becomes `""`, a string is cleaned, and
      anything else is cleaned after `str(...)`; in every case the cleaned text of the
      value. */
  function Sanitize(db: CharDb, v: Value): (r: Text)
    ensures r == Clean(db, TextOf(v))
  {
    match v
    case Null => []
    case Str(s) => Clean(db, s)
    case Items(_, repr) => Clean(db, repr)
    case Obj(repr) => Clean(db, repr)
  }

  /** One element of the flattening loop: a list contributes its items, anything else
      itself. */
  function Spread(v: Value): (r: seq<Value>)
    ensures v.Items? ==> r == v.items
    ensures !v.Items? ==> r == [v]
  {
    if v.Items? then v.items else [v]
  }

  /** The flattening loop's result: the values' spreads, in order. */
  function Flatten(vs: seq<Value>): seq<Value>
    decreases |vs|
  {
    if vs == [] then [] else Flatten(vs[..|vs| - 1]) + Spread(vs[|vs| - 1])
  }

  /** `embed_batch`'s input handling: one level of nesting is flattened only when the first
      element is a list. */
  function BatchInputs(texts: seq<Value>): (r: seq<Value>)
    ensures texts == [] || !texts[0].Items? ==> r == texts
  {
    if texts != [] && texts[0].Items? then Flatten(texts) else texts
  }

  /** Flattening keeps every value that is not a list, and puts each list's items in its
      place. */
  lemma {:induction false} FlattenLength(vs: seq<Value>)
    ensures (forall i :: 0 <= i < |vs| ==> !vs[i].Items?) ==> Flatten(vs) == vs
    ensures |Flatten(vs)| >= |vs| - |ListsIn(vs)|
    decreases |vs|
  {
    if vs != [] {
      var init := vs[..|vs| - 1];
      FlattenLength(init);
      assert forall i :: 0 <= i < |init| ==> init[i] == vs[i];
      assert init + [vs[|vs| - 1]] == vs;
    }
  }

  /** The lists among `vs`. */
  function ListsIn(vs: seq<Value>): (r: seq<Value>)
    ensures |r| <= |vs|
    decreases |vs|
  {
    if vs == [] then []
    else ListsIn(vs[..|vs| - 1]) + (if vs[|vs| - 1].Items? then [vs[|vs| - 1]] else [])
  }

  /** The texts `embed_batch` hands to the tokenizer. */
  function TokenizerInputs(db: CharDb, texts: seq<Value>): (r: seq<Text>)
    ensures |r| == |BatchInputs(texts)|
    ensures forall i :: 0 <= i < |r| ==> r[i] == Sanitize(db, BatchInputs(texts)[i])
  {
    var inputs := BatchInputs(texts);
    seq(|inputs|, i requires 0 <= i < |inputs| => Sanitize(db, inputs[i]))
  }

  // ----- Model names -----

  const DefaultModelId: string := "Xenova/" + Small

  /** The three multilingual E5 sizes, published as `Xenova/` conversions and as the
      `intfloat/` originals. */
  const Small: string := "multilingual-e5-small"
  const Base: string := "multilingual-e5-base"
  const Large: string := "multilingual-e5-large"

  /** `MODEL_DIMENSIONS.get(model_id, 384)`: the table lists the three sizes under both
      organisations; any other id gets 384. */
  function Dimensions(modelId: string): (r: int)
    ensures r == 384 || r == 768 || r == 1024
    ensures r == 768 <==> modelId == "Xenova/" + Base || modelId == "intfloat/" + Base
    ensures r == 1024 <==> modelId == "Xenova/" + Large || modelId == "intfloat/" + Large
  {
    DistinctIds("Xenova/");
    DistinctIds("intfloat/");
    if modelId == "Xenova/" + Small || modelId == "intfloat/" + Small then 384
    else if modelId == "Xenova/" + Base || modelId == "intfloat/" + Base then 768
    else if modelId == "Xenova/" + Large || modelId == "intfloat/" + Large then 1024
    else 384
  }

  /** A converted model and the original it came from have the same dimension, whatever
      the name. */
  lemma DimensionsOfConversion(name: string)
    ensures Dimensions("Xenova/" + name) == Dimensions("intfloat/" + name)
  {
    SameSuffix("Xenova/", "intfloat/", name, Base);
    SameSuffix("Xenova/", "intfloat/", name, Large);
  }

  /** The three sizes give three different ids under any one prefix. */
  lemma DistinctIds(p: string)
    ensures p + Small != p + Base && p + Base != p + Large && p + Small != p + Large
  {
    assert |p + Small| != |p + Base| && |p + Base| != |p + Large|;
    assert (p + Small)[|p| + 16] == 's' && (p + Large)[|p| + 16] == 'l';
  }

  /** Under two fixed prefixes, `p + a == p + b` exactly when `q + a == q + b`, and a
      `p`-id is never a `q`-id when the prefixes start differently. */
  lemma SameSuffix(p: string, q: string, a: string, b: string)
    requires p != [] && q != [] && p[0] != q[0]
    ensures p + a == p + b <==> q + a == q + b
    ensures p + a != q + b && q + a != p + b
  {
    if p + a == p + b { SamePrefix(p, a, b); }
    if q + a == q + b { SamePrefix(q, a, b); }
    assert (p + a)[0] == p[0] && (q + b)[0] == q[0];
    assert (q + a)[0] == q[0] && (p + b)[0] == p[0];
  }

  lemma SamePrefix(p: string, a: string, b: string)
    requires p + a == p + b
    ensures a == b
  {
    assert a == (p + a)[|p|..];
    assert b == (p + b)[|p|..];
  }

  /** `model_id.lower()`, which on model ids (ASCII) is ASCII lower-casing. */
  function Lower(s: string): (r: string)
    ensures |r| == |s|
    ensures forall i :: 0 <= i < |s| ==> r[i] == AsciiLower(s[i])
  {
    seq(|s|, i requires 0 <= i < |s| => AsciiLower(s[i]))
  }

  /** `is_e5_model()`: `"e5"` occurs in the lower-cased model id. */
  predicate IsE5(modelId: string) {
    Contains(Lower(modelId), "e5")
  }

  /** An E5 model is one whose id has an `e` or `E` right before a `5`. */
  lemma IsE5Iff(modelId: string)
    ensures IsE5(modelId) <==>
      exists i :: 0 <= i < |modelId| - 1 && (modelId[i] == 'e' || modelId[i] == 'E')
        && modelId[i + 1] == '5'
  {
    var l := Lower(modelId);
    ContainsAt(l, "e5");
    if IsE5(modelId) {
      var i: nat :| OccursAt(l, "e5", i);
      assert l[i..i + 2][0] == l[i] && l[i..i + 2][1] == l[i + 1];
      assert (modelId[i] == 'e' || modelId[i] == 'E') && modelId[i + 1] == '5';
    }
    if exists i :: 0 <= i < |modelId| - 1 && (modelId[i] == 'e' || modelId[i] == 'E')
        && modelId[i + 1] == '5' {
      var i :| 0 <= i < |modelId| - 1 && (modelId[i] == 'e' || modelId[i] == 'E')
        && modelId[i + 1] == '5';
      assert l[i..i + 2] == "e5";
      assert OccursAt(l, "e5", i);
    }
  }

  /** `p` occurs in `s` at position `i`. */
  predicate OccursAt(s: string, p: string, i: nat) {
    i + |p| <= |s| && s[i..i + |p|] == p
  }

  /** `p in s` holds exactly when `p` occurs at some position of `s`. */
  lemma {:induction false} ContainsAt(s: string, p: string)
    ensures Contains(s, p) <==> exists i: nat :: OccursAt(s, p, i)
    decreases |s|
  {
    if StartsWith(s, p) {
      assert s[0..|p|] == s[..|p|];
      assert OccursAt(s, p, 0);
    } else if s != [] {
      ContainsAt(s[1..], p);
      if Contains(s[1..], p) {
        var j: nat :| OccursAt(s[1..], p, j);
        assert s[j + 1..j + 1 + |p|] == s[1..][j..j + |p|];
        assert OccursAt(s, p, j + 1);
      }
      if i: nat :| OccursAt(s, p, i) && i > 0 {
        assert s[1..][i - 1..i - 1 + |p|] == s[i..i + |p|];
        assert OccursAt(s[1..], p, i - 1);
      }
    }
  }

  /** The default model is an E5 model. */
  lemma DefaultIsE5()
    ensures IsE5(DefaultModelId)
  {
    IsE5Iff(DefaultModelId);
    assert DefaultModelId[20] == 'e' && DefaultModelId[21] == '5';
  }

  /** The cache directory name: `"models--"` + the id with every `/` replaced by `--`. */
  function CacheDirName(modelId: string): (r: string)
    ensures StartsWith(r, "models--")
  {
    "models--" + Replace(modelId, "/", "--")
  }

  /** The cache directory name has no `/` left, and an id without `/` is kept as is. */
  lemma {:induction false} CacheDirNameFlat(modelId: string)
    ensures '/' !in CacheDirName(modelId)
    ensures '/' !in modelId ==> CacheDirName(modelId) == "models--" + modelId
  {
    ReplaceRemovesChar(modelId, '/', "--");
    if '/' !in modelId {
      NoCharNoContains(modelId, '/');
      ReplaceAbsent(modelId, "/", "--");
    }
  }

  lemma {:induction false} ReplaceRemovesChar(s: string, c: char, replacement: string)
    requires c !in replacement
    ensures c !in Replace(s, [c], replacement)
    decreases |s|
  {
    if StartsWith(s, [c]) {
      ReplaceRemovesChar(s[1..], c, replacement);
      assert s[|[c]|..] == s[1..];
    } else if s != [] {
      ReplaceRemovesChar(s[1..], c, replacement);
      assert s[0] != c by {
        assert s[..1] == [s[0]];
      }
    }
  }

  lemma {:induction false} NoCharNoContains(s: string, c: char)
    requires c !in s
    ensures !Contains(s, [c])
    decreases |s|
  {
    if s != [] {
      assert s[..1] == [s[0]];
      NoCharNoContains(s[1..], c);
    }
  }

  /** The tokenizer's model: a `Xenova/` conversion loads the `intfloat/` original's tokenizer
      (every `Xenova/` in the id is replaced). */
  function TokenizerModel(modelId: string): (r: string)
    ensures !StartsWith(modelId, "Xenova/") ==> r == modelId
  {
    if StartsWith(modelId, "Xenova/") then Replace(modelId, "Xenova/", "intfloat/")
    else modelId
  }

  /** A `Xenova/` id with no further `Xenova/` in it maps to the `intfloat/` id with the same
      name, whose dimension is the same. */
  lemma TokenizerOfConversion(name: string)
    requires !Contains(name, "Xenova/")
    ensures TokenizerModel("Xenova/" + name) == "intfloat/" + name
    ensures Dimensions(TokenizerModel("Xenova/" + name)) == Dimensions("Xenova/" + name)
  {
    var id := "Xenova/" + name;
    assert StartsWith(id, "Xenova/");
    assert id[7..] == name;
    ReplaceAbsent(name, "Xenova/", "intfloat/");
    DimensionsOfConversion(name);
  }

  // ----- The embedder -----

  const QueryPrefix: Text := FromString("query: ")
  const PassagePrefix: Text := FromString("passage: ")

  /** Why a call raised. */
  datatype Failure =
    | NotInitialized      // RuntimeError("Embedder not initialized")
    | ModelNotFound       // the ONNX file could not be found or downloaded
    | TokenizerNotFound   // neither tokenizer could be loaded

  /** An ONNX session opened on a model file, and a tokenizer loaded by model name. */
  datatype Session = Session(path: string)
  datatype Tokenizer = Tokenizer(name: string)

  /** The outside world `initialize` depends on: where the ONNX file is found (after a
      download if needed), and which model names have a loadable tokenizer. */
  datatype Hub = Hub(onnxPath: Option<string>, tokenizerLoads: string -> bool)

  class OnnxEmbedder {
    const modelId: string
    const quantization: string
    const cacheDir: Option<string>
    const batchSize: int
    const dimensions: int
    var session: Option<Session>
    var tokenizer: Option<Tokenizer>
    var ready: bool

    /** A ready embedder holds a session and a tokenizer. */
    ghost predicate Valid()
      reads this
    {
      ready ==> session.Some? && tokenizer.Some?
    }

    constructor (modelId: string, quantization: string, cacheDir: Option<string>,
                 batchSize: int)
      ensures this.modelId == modelId && this.quantization == quantization
      ensures this.cacheDir == cacheDir && this.batchSize == batchSize
      ensures dimensions == Dimensions(modelId)
      ensures session == None && tokenizer == None && !ready
      ensures Valid()
    {
      this.modelId := modelId;
      this.quantization := quantization;
      this.cacheDir := cacheDir;
      this.batchSize := batchSize;
      dimensions := Dimensions(modelId);
      session := None;
      tokenizer := None;
      ready := false;
    }

    /** `initialize()`: nothing once ready; otherwise opens the session, then loads the
        tokenizer (the original's for a conversion, falling back to the model's own), and
        only then becomes ready. */
    method Initialize(hub: Hub) returns (r: Result<(), Failure>)
      requires Valid()
      modifies this
      ensures Valid()
      ensures old(ready) ==> r.Ok? && unchanged(this)
      ensures !old(ready) && hub.onnxPath.None? ==> r == Err(ModelNotFound) && unchanged(this)
      ensures !old(ready) && hub.onnxPath.Some? ==>
        && session == Some(Session(hub.onnxPath.value))
        && (hub.tokenizerLoads(TokenizerModel(modelId)) ==>
              r.Ok? && ready && tokenizer == Some(Tokenizer(TokenizerModel(modelId))))
        && (!hub.tokenizerLoads(TokenizerModel(modelId)) && hub.tokenizerLoads(modelId) ==>
              r.Ok? && ready && tokenizer == Some(Tokenizer(modelId)))
        && (!hub.tokenizerLoads(TokenizerModel(modelId)) && !hub.tokenizerLoads(modelId) ==>
              r == Err(TokenizerNotFound) && !ready && tokenizer == old(tokenizer))
      ensures r.Ok? <==> ready
    {
      if ready {
        return Ok(());
      }
      if hub.onnxPath.None? {
        return Err(ModelNotFound);
      }
      session := Some(Session(hub.onnxPath.value));
      var name := modelId;
      if StartsWith(name, "Xenova/") {
        name := Replace(name, "Xenova/", "intfloat/");
      }
      if hub.tokenizerLoads(name) {
        tokenizer := Some(Tokenizer(name));
      } else if hub.tokenizerLoads(modelId) {
        tokenizer := Some(Tokenizer(modelId));
      } else {
        return Err(TokenizerNotFound);
      }
      ready := true;
      r := Ok(());
    }

    /** `is_ready()` */
    function IsReady(): (r: bool)
      reads this
      ensures r <==> ready
    {
      ready
    }

    /** `dispose()`: releases the session and the tokenizer; the embedder is no longer
        ready. */
    method Dispose()
      modifies this
      ensures session == None && tokenizer == None && !ready
      ensures Valid()
    {
      session := None;
      tokenizer := None;
      ready := false;
    }

    /** `embed_batch(texts)`: raises unless ready; otherwise flattens one level when the
        first element is a list and sanitises every value. */
    method EmbedBatch(db: CharDb, texts: seq<Value>) returns (r: Result<seq<Text>, Failure>)
      ensures !ready ==> r == Err(NotInitialized)
      ensures ready ==> r == Ok(TokenizerInputs(db, texts))
    {
      if !ready {
        return Err(NotInitialized);
      }
      if texts == [] {
        return Ok([]);
      }
      var inputs := texts;
      if texts[0].Items? {
        inputs := FlattenBatch(texts);
      }
      var sanitized := SanitizeAll(db, inputs);
      assert sanitized == TokenizerInputs(db, texts);
      r := Ok(sanitized);
    }

    /** `embed(text)`: raises unless ready; embeds the cleaned text. */
    method Embed(db: CharDb, text: Text) returns (r: Result<Text, Failure>)
      ensures !ready ==> r == Err(NotInitialized)
      ensures ready ==> r == Ok(Clean(db, text))
    {
      if !ready {
        return Err(NotInitialized);
      }
      var batch := EmbedBatch(db, [Str(text)]);
      r := Ok(batch.value[0]);
    }

    /** The text an E5 model needs in front of a cleaned text, and nothing for other
        models. */
    function Prefixed(prefix: Text, text: Text): (r: Text)
      reads this
      ensures IsE5(modelId) ==> r == prefix + text
      ensures !IsE5(modelId) ==> r == text
    {
      if IsE5(modelId) then prefix + text else text
    }

    /** `embed_query(query)`: cleans the query, prefixes `query: ` for E5 models, and embeds
        that (which cleans it once more). */
    method EmbedQuery(db: CharDb, query: Value) returns (r: Result<Text, Failure>)
      ensures !ready ==> r == Err(NotInitialized)
      ensures ready ==> r == Ok(Clean(db, Prefixed(QueryPrefix, Sanitize(db, query))))
    {
      var text := SanitizeOne(db, query);
      var prefixed := if IsE5(modelId) then QueryPrefix + text else text;
      r := Embed(db, prefixed);
    }

    /** `embed_document(text)`: the same with `passage: `. */
    method EmbedDocument(db: CharDb, text: Value) returns (r: Result<Text, Failure>)
      ensures !ready ==> r == Err(NotInitialized)
      ensures ready ==> r == Ok(Clean(db, Prefixed(PassagePrefix, Sanitize(db, text))))
    {
      var clean := SanitizeOne(db, text);
      var prefixed := if IsE5(modelId) then PassagePrefix + clean else clean;
      r := Embed(db, prefixed);
    }

    /** `embed_batch_documents(texts)`: cleans each value, prefixes `passage: ` for E5 models,
        and hands the list to `embed_batch`. */
    method EmbedBatchDocuments(db: CharDb, texts: seq<Value>)
      returns (r: Result<seq<Text>, Failure>)
      ensures !ready ==> r == Err(NotInitialized)
      ensures ready ==> r.Ok? && |r.value| == |texts|
      ensures ready ==> forall i :: 0 <= i < |texts| ==>
        r.value[i] == Clean(db, Prefixed(PassagePrefix, Sanitize(db, texts[i])))
    {
      var sanitized: seq<Text> := [];
      var i := 0;
      while i < |texts|
        invariant 0 <= i <= |texts|
        invariant |sanitized| == i
        invariant forall k :: 0 <= k < i ==> sanitized[k] == Sanitize(db, texts[k])
      {
        var clean := SanitizeOne(db, texts[i]);
        sanitized := sanitized + [clean];
        i := i + 1;
      }
      if IsE5(modelId) {
        sanitized := seq(|sanitized|, k requires 0 <= k < |sanitized| =>
          PassagePrefix + sanitized[k]);
      }
      var values := seq(|sanitized|, k requires 0 <= k < |sanitized| => Str(sanitized[k]));
      assert values == [] || !values[0].Items?;
      r := EmbedBatch(db, values);
    }
  }

  /** The list comprehension that flattens one level of a batch. */
  method FlattenBatch(texts: seq<Value>) returns (flattened: seq<Value>)
    ensures flattened == Flatten(texts)
  {
    flattened := [];
    var i := 0;
    while i < |texts|
      invariant 0 <= i <= |texts|
      invariant flattened == Flatten(texts[..i])
    {
      assert texts[..i + 1][..i] == texts[..i];
      if texts[i].Items? {
        flattened := flattened + texts[i].items;
      } else {
        flattened := flattened + [texts[i]];
      }
      i := i + 1;
    }
    assert texts[..i] == texts;
  }

  /** The list comprehension that sanitises every value of a batch. */
  method SanitizeAll(db: CharDb, inputs: seq<Value>) returns (sanitized: seq<Text>)
    ensures |sanitized| == |inputs|
    ensures forall k :: 0 <= k < |inputs| ==> sanitized[k] == Sanitize(db, inputs[k])
  {
    sanitized := [];
    var j := 0;
    while j < |inputs|
      invariant 0 <= j <= |inputs|
      invariant |sanitized| == j
      invariant forall k :: 0 <= k < j ==> sanitized[k] == Sanitize(db, inputs[k])
    {
      var clean := SanitizeOne(db, inputs[j]);
      sanitized := sanitized + [clean];
      j := j + 1;
    }
  }

  /** The per-value sanitising of the embedding entry points. */
  method SanitizeOne(db: CharDb, v: Value) returns (r: Text)
    ensures r == Sanitize(db, v)
  {
    match v
    case Null =>
      r := [];
    case Str(s) =>
      r := CleanText(db, s);
    case Items(_, repr) =>
      r := CleanText(db, repr);
    case Obj(repr) =>
      r := CleanText(db, repr);
  }

  /** The prefixes are printable ASCII. */
  lemma PrefixesPrintable()
    ensures forall i :: 0 <= i < |QueryPrefix| ==> 0x20 <= QueryPrefix[i] <= 0x7E
    ensures forall i :: 0 <= i < |PassagePrefix| ==> 0x20 <= PassagePrefix[i] <= 0x7E
  {
  }

  /** What an E5 query embeds is exactly `"query: "` followed by the cleaned query: the
      second cleaning inside `embed` changes nothing. */
  lemma QueryText(db: CharDb, e: OnnxEmbedder, query: Value)
    requires Sane(db) && IsE5(e.modelId)
    ensures Clean(db, e.Prefixed(QueryPrefix, Sanitize(db, query)))
      == QueryPrefix + Sanitize(db, query)
  {
    PrefixedClean(db, QueryPrefix, TextOf(query));
  }

  /** The same for documents and `"passage: "`. */
  lemma PassageText(db: CharDb, e: OnnxEmbedder, text: Value)
    requires Sane(db) && IsE5(e.modelId)
    ensures Clean(db, e.Prefixed(PassagePrefix, Sanitize(db, text)))
      == PassagePrefix + Sanitize(db, text)
  {
    PrefixedClean(db, PassagePrefix, TextOf(text));
  }

  /** Cleaning a prefix followed by a cleaned text keeps both as they are. */
  lemma PrefixedClean(db: CharDb, prefix: Text, raw: Text)
    requires Sane(db) && (prefix == QueryPrefix || prefix == PassagePrefix)
    ensures Clean(db, prefix + Clean(db, raw)) == prefix + Clean(db, raw)
  {
    PrefixesPrintable();
    CleanAppend(db, prefix, Clean(db, raw));
    CleanPrintable(db, prefix);
    CleanIdempotent(db, raw);
  }
}
