/** The one-pass effect analysis of the Metal transpiler: which functions need the uniform buffer, and which
    textures and samplers, and whether calls pass what the callees take
    (libobs-metal/OBSShader.swift:626-733, 888-934, 1558-1596, libobs-metal/Sequence+Hashable.swift:21-24). */
module MetalAnalysis {
  import opened Lists
  import opened Options
  import opened Tokens

  // ---- scanning a body ----

  /** The names that analyzeFunction looks at from the current token on, and where it stops. */
  function Scan(s: seq<Token>, end: string): (r: (seq<string>, seq<Token>))
    requires IsStream(s)
    ensures IsStream(r.1) && |r.1| <= |s|
    decreases |s|
  {
    if s[0].kind.End? then ([], s)
    else
      var t := s[1..];
      if t[0].text == end then ([], t)
      else if t[0].kind.Name? then
        var r := Scan(t, end);
        ([t[0].text] + r.0, r.1)
      else if t[0].kind.Other? && (t[0].text == "{" || t[0].text == "(") then
        var inner := Scan(t, if t[0].text == "{" then "}" else ")");
        var r := Scan(inner.1, end);
        (inner.0 + r.0, r.1)
      else Scan(t, end)
  }

  /** A piece of a body: a token, or a bracketed list of pieces. */
  datatype Item = Tok(t: Token) | Group(brace: bool, items: seq<Item>)

  predicate Clean(i: Item) {
    match i
    case Tok(t) => !t.kind.End? && t.text !in {"{", "}", "(", ")"}
    case Group(_, items) => forall j :: j in items ==> Clean(j)
  }

  function Flat(items: seq<Item>, k: seq<Token>): seq<Token>
    decreases items, 0
  {
    if items == [] then k else FlatOne(items[0], Flat(items[1..], k))
  }

  function FlatOne(i: Item, k: seq<Token>): seq<Token>
    decreases i, 1
  {
    match i
    case Tok(t) => [t] + k
    case Group(brace, items) => [if brace then LBRACE else LPAREN] + Flat(items, [if brace then RBRACE else RPAREN] + k)
  }

  function NamesIn(items: seq<Item>): seq<string>
    decreases items, 0
  {
    if items == [] then [] else NamesOf(items[0]) + NamesIn(items[1..])
  }

  function NamesOf(i: Item): seq<string>
    decreases i, 1
  {
    match i
    case Tok(t) => if t.kind.Name? then [t.text] else []
    case Group(_, items) => NamesIn(items)
  }

  lemma {:induction false} FlatStream(items: seq<Item>, k: seq<Token>)
    requires IsStream(k)
    ensures IsStream(Flat(items, k))
    decreases items, 0
  {
    if items != [] {
      var s := Flat(items[1..], k);
      FlatStream(items[1..], k);
      if items[0].Group? {
        FlatStream(items[0].items, [if items[0].brace then RBRACE else RPAREN] + s);
      }
    }
  }

  lemma {:induction false} ScanTok(x: Token, t: seq<Token>, end: string)
    requires IsStream(t) && !x.kind.End? && t[0].text != end && t[0].text !in {"{", "("}
    ensures IsStream([x] + t)
    ensures Scan([x] + t, end) == ((if t[0].kind.Name? then [t[0].text] else []) + Scan(t, end).0, Scan(t, end).1)
  {
    assert ([x] + t)[1..] == t;
    assert [] + Scan(t, end).0 == Scan(t, end).0;
  }

  lemma {:induction false} ScanGroup(x: Token, t: seq<Token>, end: string)
    requires IsStream(t) && !x.kind.End? && (t[0] == LBRACE || t[0] == LPAREN) && end in {"}", ")"}
    ensures IsStream([x] + t)
    ensures var inner := Scan(t, if t[0] == LBRACE then "}" else ")");
            Scan([x] + t, end) == (inner.0 + Scan(inner.1, end).0, Scan(inner.1, end).1)
  {
    assert ([x] + t)[1..] == t;
  }

  /** In a body with matching brackets the scan sees every name, and stops at the closing bracket. */
  lemma {:induction false} ScanBody(x: Token, items: seq<Item>, closer: Token, k: seq<Token>)
    requires !x.kind.End? && (closer == RBRACE || closer == RPAREN) && IsStream(k)
    requires forall j :: j in items ==> Clean(j)
    ensures IsStream([x] + Flat(items, [closer] + k))
    ensures Scan([x] + Flat(items, [closer] + k), closer.text) == (NamesIn(items), [closer] + k)
    decreases items
  {
    FlatStream(items, [closer] + k);
    var t := Flat(items, [closer] + k);
    if items == [] {
      assert ([x] + t)[1..] == t;
    } else {
      var i, rest := items[0], items[1..];
      var tail := Flat(rest, [closer] + k);
      FlatStream(rest, [closer] + k);
      assert i in items && forall j :: j in rest ==> j in items;
      assert t == FlatOne(i, tail) && NamesIn(items) == NamesOf(i) + NamesIn(rest);
      match i {
        case Tok(u) =>
          assert t == [u] + tail && NamesOf(i) == if u.kind.Name? then [u.text] else [];
          hide Scan, Flat, FlatOne, NamesIn;
          ScanTok(x, t, closer.text);
          ScanBody(u, rest, closer, k);
        case Group(brace, inner) =>
          var o, c := if brace then LBRACE else LPAREN, if brace then RBRACE else RPAREN;
          assert t == [o] + Flat(inner, [c] + tail) && NamesOf(i) == NamesIn(inner);
          hide Scan, Flat, FlatOne, NamesIn;
          ScanGroup(x, t, closer.text);
          ScanBody(o, inner, c, tail);
          ScanBody(c, rest, closer, k);
          assert ([c] + tail)[0] == c;
      }
    }
  }

  // ---- the analysis ----

  /** What the shader declares: its stage, its plain uniforms, its textures and samplers in order. */
  datatype Globals = Globals(fragment: bool, uniforms: set<string>, textures: seq<string>, samplers: seq<string>)

  /** requiresUniformBuffers, textures and samplers of an OBSShaderFunction. */
  datatype Info = Info(uniforms: bool, textures: seq<string>, samplers: seq<string>)

  /** A function: its name, and the names in its body. */
  datatype Func = Func(name: string, names: seq<string>)

  type Functions = map<string, Info>

  const NOTHING := Info(false, [], [])

  function Known(d: Functions, name: string): Info {
    if name in d then d[name] else NOTHING
  }

  /** The loop body of analyzeFunction at a name. */
  function Effect(g: Globals, d: Functions, info: Info, name: string): Info {
    Info(info.uniforms || name in g.uniforms || Known(d, name).uniforms,
         info.textures + Known(d, name).textures + (if g.fragment && name in g.textures then [name] else []),
         info.samplers + Known(d, name).samplers + (if g.fragment && name in g.samplers then [name] else []))
  }

  function Fold(g: Globals, d: Functions, info: Info, names: seq<string>): Info
    decreases names
  {
    if names == [] then info else Fold(g, d, Effect(g, d, info, names[0]), names[1..])
  }

  /** Sequence.unique: the first occurrence of each element. */
  function Unique(s: seq<string>): seq<string> {
    if s == [] then []
    else
      var u, last := Unique(s[..|s| - 1]), s[|s| - 1];
      if last in u then u else u + [last]
  }

  function Deduplicated(i: Info): Info {
    Info(i.uniforms, Unique(i.textures), Unique(i.samplers))
  }

  /** The dictionary before the pass: every function, with nothing. */
  function Before(fs: seq<Func>): Functions {
    if fs == [] then map[] else Before(fs[..|fs| - 1])[fs[|fs| - 1].name := NOTHING]
  }

  /** The dictionary after the first k functions. */
  function After(g: Globals, fs: seq<Func>, k: nat): Functions
    requires k <= |fs|
  {
    if k == 0 then Before(fs)
    else
      var d, f := After(g, fs, k - 1), fs[k - 1];
      d[f.name := Deduplicated(Fold(g, d, Known(d, f.name), f.names))]
  }

  predicate DistinctNames(fs: seq<Func>) {
    forall i, j :: 0 <= i < j < |fs| ==> fs[i].name != fs[j].name
  }

  lemma {:induction false} UniqueSet(s: seq<string>)
    ensures forall x :: x in Unique(s) <==> x in s
    ensures forall i, j :: 0 <= i < j < |Unique(s)| ==> Unique(s)[i] != Unique(s)[j]
  {
    if s != [] {
      UniqueSet(s[..|s| - 1]);
      assert s == s[..|s| - 1] + [s[|s| - 1]];
    }
  }

  predicate GivesUniforms(g: Globals, d: Functions, n: string) {
    n in g.uniforms || Known(d, n).uniforms
  }

  predicate GivesTexture(g: Globals, d: Functions, n: string, x: string) {
    x in Known(d, n).textures || (g.fragment && x == n && n in g.textures)
  }

  predicate GivesSampler(g: Globals, d: Functions, n: string, x: string) {
    x in Known(d, n).samplers || (g.fragment && x == n && n in g.samplers)
  }

  lemma {:induction false} FoldUniforms(g: Globals, d: Functions, info: Info, names: seq<string>)
    ensures Fold(g, d, info, names).uniforms <==> info.uniforms || exists n :: n in names && GivesUniforms(g, d, n)
    decreases names
  {
    if names != [] {
      FoldUniforms(g, d, Effect(g, d, info, names[0]), names[1..]);
      if n :| n in names && GivesUniforms(g, d, n) {
        assert n == names[0] || n in names[1..];
      }
      if n :| n in names[1..] && GivesUniforms(g, d, n) {
        assert n in names;
      }
      assert names[0] in names;
    }
  }

  lemma {:induction false} FoldTextures(g: Globals, d: Functions, info: Info, names: seq<string>, x: string)
    ensures x in Fold(g, d, info, names).textures <==>
            x in info.textures || exists n :: n in names && GivesTexture(g, d, n, x)
    decreases names
  {
    if names != [] {
      FoldTextures(g, d, Effect(g, d, info, names[0]), names[1..], x);
      if n :| n in names && GivesTexture(g, d, n, x) {
        assert n == names[0] || n in names[1..];
      }
      if n :| n in names[1..] && GivesTexture(g, d, n, x) {
        assert n in names;
      }
      assert names[0] in names;
    }
  }

  lemma {:induction false} FoldSamplers(g: Globals, d: Functions, info: Info, names: seq<string>, x: string)
    ensures x in Fold(g, d, info, names).samplers <==>
            x in info.samplers || exists n :: n in names && GivesSampler(g, d, n, x)
    decreases names
  {
    if names != [] {
      FoldSamplers(g, d, Effect(g, d, info, names[0]), names[1..], x);
      if n :| n in names && GivesSampler(g, d, n, x) {
        assert n == names[0] || n in names[1..];
      }
      if n :| n in names[1..] && GivesSampler(g, d, n, x) {
        assert n in names;
      }
      assert names[0] in names;
    }
  }

  // ---- closure ----

  predicate Calls(fs: seq<Func>, i: nat, j: nat) {
    i < |fs| && j < |fs| && fs[j].name in fs[i].names
  }

  /** f reaches m by calls each of which goes to a function declared earlier. */
  ghost predicate Backward(fs: seq<Func>, i: nat, m: nat)
    decreases i
  {
    i == m || exists j: nat :: j < i && Calls(fs, i, j) && Backward(fs, j, m)
  }

  lemma {:induction false} BeforeKnown(fs: seq<Func>, n: string)
    ensures Known(Before(fs), n) == NOTHING
  {
    if fs != [] {
      BeforeKnown(fs[..|fs| - 1], n);
    }
  }

  /** A function's entry is written once, in its turn. */
  lemma {:induction false} Entry(g: Globals, fs: seq<Func>, k: nat, i: nat)
    requires DistinctNames(fs) && i < |fs| && k <= |fs|
    ensures Known(After(g, fs, k), fs[i].name) == if i < k then Known(After(g, fs, i + 1), fs[i].name) else NOTHING
    decreases k
  {
    if k == 0 {
      BeforeKnown(fs, fs[i].name);
    } else {
      Entry(g, fs, k - 1, i);
      assert k - 1 != i ==> fs[k - 1].name != fs[i].name;
      hide Fold, Deduplicated, Before, DistinctNames;
    }
  }

  /** What is known of a name when function i is analysed: the entry of an earlier function of that name. */
  lemma {:induction false} KnownAt(g: Globals, fs: seq<Func>, i: nat, n: string)
    requires DistinctNames(fs) && i <= |fs|
    ensures Known(After(g, fs, i), n) == NOTHING
            || exists j: nat :: j < i && fs[j].name == n && Known(After(g, fs, i), n) == Known(After(g, fs, j + 1), n)
    decreases i
  {
    if i == 0 {
      BeforeKnown(fs, n);
    } else if fs[i - 1].name == n {
      assert Known(After(g, fs, i), n) == Known(After(g, fs, (i - 1) + 1), n);
    } else {
      KnownAt(g, fs, i - 1, n);
    }
  }

  /** Some function that i reaches backward mentions x. */
  ghost predicate BackwardMentions(fs: seq<Func>, i: nat, x: string) {
    exists m: nat :: m < |fs| && Backward(fs, i, m) && x in fs[m].names
  }

  lemma {:induction false} MentionsStep(fs: seq<Func>, i: nat, x: string)
    requires i < |fs|
    ensures BackwardMentions(fs, i, x) <==>
            x in fs[i].names || exists j: nat :: j < i && Calls(fs, i, j) && BackwardMentions(fs, j, x)
  {
    if BackwardMentions(fs, i, x) && x !in fs[i].names {
      var m: nat :| m < |fs| && Backward(fs, i, m) && x in fs[m].names;
      var j: nat :| j < i && Calls(fs, i, j) && Backward(fs, j, m);
      assert BackwardMentions(fs, j, x);
    }
    if j: nat :| j < i && Calls(fs, i, j) && BackwardMentions(fs, j, x) {
      var m: nat :| m < |fs| && Backward(fs, j, m) && x in fs[m].names;
      assert Backward(fs, i, m);
    }
    if x in fs[i].names {
      assert Backward(fs, i, i);
    }
  }

  ghost predicate UsesUniform(g: Globals, fs: seq<Func>, i: nat) {
    exists u :: u in g.uniforms && BackwardMentions(fs, i, u)
  }

  /** The entry written for function i. */
  function EntryOf(g: Globals, fs: seq<Func>, i: nat): Info
    requires i < |fs|
  {
    Known(After(g, fs, i + 1), fs[i].name)
  }

  lemma {:induction false} EntryFold(g: Globals, fs: seq<Func>, i: nat)
    requires DistinctNames(fs) && i < |fs|
    ensures EntryOf(g, fs, i) == Deduplicated(Fold(g, After(g, fs, i), NOTHING, fs[i].names))
  {
    Entry(g, fs, i, i);
  }

  /** What a call gives is the entry of the earlier function of that name. */
  lemma {:induction false} GivenByEarlier(g: Globals, fs: seq<Func>, i: nat, n: string)
    requires DistinctNames(fs) && i < |fs|
    ensures Known(After(g, fs, i), n) == NOTHING
            || exists j: nat :: j < i && fs[j].name == n && Known(After(g, fs, i), n) == EntryOf(g, fs, j)
    ensures forall j: nat :: j < i && fs[j].name == n ==> Known(After(g, fs, i), n) == EntryOf(g, fs, j)
  {
    KnownAt(g, fs, i, n);
    forall j: nat | j < i && fs[j].name == n
      ensures Known(After(g, fs, i), n) == EntryOf(g, fs, j)
    {
      Entry(g, fs, i, j);
    }
  }

  lemma {:induction false} UniformsStep(g: Globals, fs: seq<Func>, i: nat)
    requires i < |fs|
    ensures UsesUniform(g, fs, i) <==> (exists u :: u in g.uniforms && u in fs[i].names)
                                       || exists j: nat :: j < i && Calls(fs, i, j) && UsesUniform(g, fs, j)
  {
    forall u
      ensures BackwardMentions(fs, i, u) <==>
              u in fs[i].names || exists j: nat :: j < i && Calls(fs, i, j) && BackwardMentions(fs, j, u)
    {
      MentionsStep(fs, i, u);
    }
    hide BackwardMentions;
    if j: nat :| j < i && Calls(fs, i, j) && UsesUniform(g, fs, j) {
      var u :| u in g.uniforms && BackwardMentions(fs, j, u);
      assert BackwardMentions(fs, i, u);
    }
    if UsesUniform(g, fs, i) {
      var u :| u in g.uniforms && BackwardMentions(fs, i, u);
      if u !in fs[i].names {
        var j: nat :| j < i && Calls(fs, i, j) && BackwardMentions(fs, j, u);
        assert UsesUniform(g, fs, j);
      }
    }
  }

  lemma {:induction false} UniformsClosed(g: Globals, fs: seq<Func>, i: nat)
    requires DistinctNames(fs) && i < |fs|
    ensures EntryOf(g, fs, i).uniforms <==> UsesUniform(g, fs, i)
    decreases i
  {
    var d, names := After(g, fs, i), fs[i].names;
    EntryFold(g, fs, i);
    FoldUniforms(g, d, NOTHING, names);
    UniformsStep(g, fs, i);
    forall j: nat | j < i
      ensures EntryOf(g, fs, j).uniforms <==> UsesUniform(g, fs, j)
    {
      UniformsClosed(g, fs, j);
    }
    hide After, Fold, EntryOf, UsesUniform;
    forall n | n in names
      ensures GivesUniforms(g, d, n) <==>
              n in g.uniforms || exists j: nat :: j < i && fs[j].name == n && UsesUniform(g, fs, j)
    {
      GivenByEarlier(g, fs, i, n);
    }
    if j: nat :| j < i && Calls(fs, i, j) && UsesUniform(g, fs, j) {
      assert GivesUniforms(g, d, fs[j].name);
    }
    if n :| n in names && GivesUniforms(g, d, n) && n !in g.uniforms {
      var j: nat :| j < i && fs[j].name == n && UsesUniform(g, fs, j);
      assert Calls(fs, i, j);
    }
    if u :| u in g.uniforms && u in names {
      assert GivesUniforms(g, d, u);
    }
  }

  lemma {:induction false} TexturesClosed(g: Globals, fs: seq<Func>, i: nat, x: string)
    requires DistinctNames(fs) && i < |fs|
    ensures x in EntryOf(g, fs, i).textures <==> g.fragment && x in g.textures && BackwardMentions(fs, i, x)
    decreases i
  {
    var d, names := After(g, fs, i), fs[i].names;
    EntryFold(g, fs, i);
    FoldTextures(g, d, NOTHING, names, x);
    UniqueSet(Fold(g, d, NOTHING, names).textures);
    MentionsStep(fs, i, x);
    forall j: nat | j < i
      ensures x in EntryOf(g, fs, j).textures <==> g.fragment && x in g.textures && BackwardMentions(fs, j, x)
    {
      TexturesClosed(g, fs, j, x);
    }
    hide After, Fold, EntryOf, BackwardMentions, Unique;
    forall n | n in names
      ensures GivesTexture(g, d, n, x)
              <==> ((g.fragment && x == n && n in g.textures)
                    || exists j: nat ::
                         j < i && fs[j].name == n && g.fragment && x in g.textures && BackwardMentions(fs, j, x))
    {
      GivenByEarlier(g, fs, i, n);
    }
    if j: nat :| j < i && Calls(fs, i, j) && BackwardMentions(fs, j, x) {
      assert g.fragment && x in g.textures ==> GivesTexture(g, d, fs[j].name, x);
    }
    if n :| n in names && GivesTexture(g, d, n, x) && n != x {
      var j: nat :| j < i && fs[j].name == n && BackwardMentions(fs, j, x);
      assert Calls(fs, i, j);
    }
    if x in names && g.fragment && x in g.textures {
      assert GivesTexture(g, d, x, x);
    }
  }

  lemma {:induction false} SamplersClosed(g: Globals, fs: seq<Func>, i: nat, x: string)
    requires DistinctNames(fs) && i < |fs|
    ensures x in EntryOf(g, fs, i).samplers <==> g.fragment && x in g.samplers && BackwardMentions(fs, i, x)
    decreases i
  {
    var d, names := After(g, fs, i), fs[i].names;
    EntryFold(g, fs, i);
    FoldSamplers(g, d, NOTHING, names, x);
    UniqueSet(Fold(g, d, NOTHING, names).samplers);
    MentionsStep(fs, i, x);
    forall j: nat | j < i
      ensures x in EntryOf(g, fs, j).samplers <==> g.fragment && x in g.samplers && BackwardMentions(fs, j, x)
    {
      SamplersClosed(g, fs, j, x);
    }
    hide After, Fold, EntryOf, BackwardMentions, Unique;
    forall n | n in names
      ensures GivesSampler(g, d, n, x)
              <==> ((g.fragment && x == n && n in g.samplers)
                    || exists j: nat ::
                         j < i && fs[j].name == n && g.fragment && x in g.samplers && BackwardMentions(fs, j, x))
    {
      GivenByEarlier(g, fs, i, n);
    }
    if j: nat :| j < i && Calls(fs, i, j) && BackwardMentions(fs, j, x) {
      assert g.fragment && x in g.samplers ==> GivesSampler(g, d, fs[j].name, x);
    }
    if n :| n in names && GivesSampler(g, d, n, x) && n != x {
      var j: nat :| j < i && fs[j].name == n && BackwardMentions(fs, j, x);
      assert Calls(fs, i, j);
    }
    if x in names && g.fragment && x in g.samplers {
      assert GivesSampler(g, d, x, x);
    }
  }

  /** The pass computes exactly the closure along calls to earlier functions, whatever order the functions are
      in, without duplicates. */
  lemma {:induction false} AnalysisExact(g: Globals, fs: seq<Func>, i: nat)
    requires DistinctNames(fs) && i < |fs|
    ensures var e := Known(After(g, fs, |fs|), fs[i].name);
            && (e.uniforms <==> exists u :: u in g.uniforms && BackwardMentions(fs, i, u))
            && (forall x :: x in e.textures <==> g.fragment && x in g.textures && BackwardMentions(fs, i, x))
            && (forall x :: x in e.samplers <==> g.fragment && x in g.samplers && BackwardMentions(fs, i, x))
            && (forall a, b :: 0 <= a < b < |e.textures| ==> e.textures[a] != e.textures[b])
            && (forall a, b :: 0 <= a < b < |e.samplers| ==> e.samplers[a] != e.samplers[b])
  {
    Entry(g, fs, |fs|, i);
    EntryFold(g, fs, i);
    var r := Fold(g, After(g, fs, i), NOTHING, fs[i].names);
    UniqueSet(r.textures);
    UniqueSet(r.samplers);
    UniformsClosed(g, fs, i);
    assert UsesUniform(g, fs, i) <==> exists u :: u in g.uniforms && BackwardMentions(fs, i, u);
    var e := Known(After(g, fs, |fs|), fs[i].name);
    assert e == EntryOf(g, fs, i) == Deduplicated(r);
    hide After, Fold, BackwardMentions, Unique, UsesUniform;
    forall x
      ensures x in e.textures <==> g.fragment && x in g.textures && BackwardMentions(fs, i, x)
      ensures x in e.samplers <==> g.fragment && x in g.samplers && BackwardMentions(fs, i, x)
    {
      TexturesClosed(g, fs, i, x);
      SamplersClosed(g, fs, i, x);
    }
  }

  // ---- reachability ----

  /** A chain of calls, of any length and in any direction. */
  ghost predicate IsPath(fs: seq<Func>, p: seq<nat>) {
    p != [] && forall k :: 0 <= k < |p| - 1 ==> Calls(fs, p[k], p[k + 1])
  }

  ghost predicate Reaches(fs: seq<Func>, i: nat, m: nat) {
    exists p :: IsPath(fs, p) && p[0] == i && p[|p| - 1] == m
  }

  /** Every function is declared before it is called; it may call itself. */
  ghost predicate DeclaredFirst(fs: seq<Func>) {
    forall i: nat, j: nat :: Calls(fs, i, j) ==> j <= i
  }

  lemma {:induction false} BackwardReaches(fs: seq<Func>, i: nat, m: nat)
    requires Backward(fs, i, m)
    ensures Reaches(fs, i, m)
    decreases i
  {
    if i == m {
      assert IsPath(fs, [i]) && [i][0] == i;
    } else {
      var j: nat :| j < i && Calls(fs, i, j) && Backward(fs, j, m);
      BackwardReaches(fs, j, m);
      var p :| IsPath(fs, p) && p[0] == j && p[|p| - 1] == m;
      var q := [i] + p;
      forall k | 0 <= k < |q| - 1
        ensures Calls(fs, q[k], q[k + 1])
      {
        if k > 0 {
          assert q[k] == p[k - 1] && q[k + 1] == p[k];
        }
      }
      assert IsPath(fs, q) && q[|q| - 1] == m;
    }
  }

  lemma {:induction false} PathBackward(fs: seq<Func>, p: seq<nat>)
    requires DeclaredFirst(fs) && IsPath(fs, p)
    ensures Backward(fs, p[0], p[|p| - 1])
    decreases |p|
  {
    if |p| > 1 {
      var q := p[1..];
      forall k | 0 <= k < |q| - 1
        ensures Calls(fs, q[k], q[k + 1])
      {
        assert Calls(fs, p[k + 1], p[k + 1 + 1]);
      }
      PathBackward(fs, q);
      assert Calls(fs, p[0], p[1]);
    }
  }

  lemma {:induction false} ReachesIsBackward(fs: seq<Func>, i: nat, m: nat)
    requires DeclaredFirst(fs)
    ensures Reaches(fs, i, m) <==> Backward(fs, i, m)
  {
    if Backward(fs, i, m) {
      BackwardReaches(fs, i, m);
    }
    if Reaches(fs, i, m) {
      var p :| IsPath(fs, p) && p[0] == i && p[|p| - 1] == m;
      PathBackward(fs, p);
    }
  }

  /** Some function that i reaches by any calls mentions x. */
  ghost predicate ReachableMentions(fs: seq<Func>, i: nat, x: string) {
    exists m: nat :: m < |fs| && Reaches(fs, i, m) && x in fs[m].names
  }

  lemma {:induction false} MentionsAgree(fs: seq<Func>, i: nat, x: string)
    ensures BackwardMentions(fs, i, x) ==> ReachableMentions(fs, i, x)
    ensures DeclaredFirst(fs) ==> (BackwardMentions(fs, i, x) <==> ReachableMentions(fs, i, x))
  {
    if BackwardMentions(fs, i, x) {
      var m: nat :| m < |fs| && Backward(fs, i, m) && x in fs[m].names;
      BackwardReaches(fs, i, m);
    }
    if DeclaredFirst(fs) && ReachableMentions(fs, i, x) {
      var m: nat :| m < |fs| && Reaches(fs, i, m) && x in fs[m].names;
      ReachesIsBackward(fs, i, m);
    }
  }

  /** When every function is declared before it is called, one pass computes the full closure: the uniform
      buffer is required exactly when some reachable body mentions a plain uniform, and the textures and
      samplers are exactly those reachable bodies mention. */
  lemma {:induction false} AnalysisComplete(g: Globals, fs: seq<Func>, i: nat)
    requires DistinctNames(fs) && DeclaredFirst(fs) && i < |fs|
    ensures var e := Known(After(g, fs, |fs|), fs[i].name);
            && (e.uniforms <==> exists u :: u in g.uniforms && ReachableMentions(fs, i, u))
            && (forall x :: x in e.textures <==> g.fragment && x in g.textures && ReachableMentions(fs, i, x))
            && (forall x :: x in e.samplers <==> g.fragment && x in g.samplers && ReachableMentions(fs, i, x))
  {
    AnalysisExact(g, fs, i);
    forall x
      ensures BackwardMentions(fs, i, x) <==> ReachableMentions(fs, i, x)
    {
      MentionsAgree(fs, i, x);
    }
  }

  /** Otherwise the pass can only miss: what it reports is always reachable, and it misses a plain uniform
      exactly when reachable bodies mention one and none that is reached backward does. */
  lemma {:induction false} AnalysisMisses(g: Globals, fs: seq<Func>, i: nat)
    requires DistinctNames(fs) && i < |fs|
    ensures var e := Known(After(g, fs, |fs|), fs[i].name);
            && (e.uniforms ==> exists u :: u in g.uniforms && ReachableMentions(fs, i, u))
            && (!e.uniforms && (exists u :: u in g.uniforms && ReachableMentions(fs, i, u))
                <==> (exists u :: u in g.uniforms && ReachableMentions(fs, i, u))
                     && forall u :: u in g.uniforms ==> !BackwardMentions(fs, i, u))
  {
    AnalysisExact(g, fs, i);
    forall x
      ensures BackwardMentions(fs, i, x) ==> ReachableMentions(fs, i, x)
    {
      MentionsAgree(fs, i, x);
    }
    hide BackwardMentions, ReachableMentions, After;
  }

  /** A single forward call is enough: a function that only calls a later one which mentions a uniform is not
      given the uniform buffer. */
  lemma {:induction false} ForwardCallMissed(g: Globals, caller: string, callee: string, u: string)
    requires caller != callee && u in g.uniforms && callee !in g.uniforms
    ensures var fs := [Func(caller, [callee]), Func(callee, [u])];
            !Known(After(g, fs, |fs|), caller).uniforms && ReachableMentions(fs, 0, u)
  {
    var fs := [Func(caller, [callee]), Func(callee, [u])];
    AnalysisExact(g, fs, 0);
    forall v | v in g.uniforms
      ensures !BackwardMentions(fs, 0, v)
    {
      MentionsStep(fs, 0, v);
    }
    assert IsPath(fs, [0, 1]) && [0, 1][0] == 0 && [0, 1][|[0, 1]| - 1] == 1;
    assert Reaches(fs, 0, 1) && u in fs[1].names;
  }

  // ---- extra parameters and extra arguments ----

  /** The names a function other than main takes beyond its own parameters. */
  function ExtraParameters(g: Globals, e: Info): seq<string> {
    (if g.uniforms != {} && e.uniforms then ["uniforms"] else [])
    + (if g.fragment then Filter(g.textures, e.textures) + Filter(g.samplers, e.samplers) else [])
  }

  function Filter(order: seq<string>, used: seq<string>): seq<string> {
    if order == [] then [] else (if order[0] in used then [order[0]] else []) + Filter(order[1..], used)
  }

  /** What a call passes beyond its own arguments. */
  function ExtraArguments(g: Globals, e: Info): seq<string> {
    (if e.uniforms then ["uniforms"] else []) + Filter(e.textures, g.textures) + Filter(e.samplers, g.samplers)
  }

  lemma {:induction false} InFilter(order: seq<string>, used: seq<string>, x: string)
    ensures x in Filter(order, used) <==> x in order && x in used
  {
    if order != [] {
      InFilter(order[1..], used, x);
    }
  }

  lemma {:induction false} FilterAll(s: seq<string>, all: seq<string>)
    requires forall x :: x in s ==> x in all
    ensures Filter(s, all) == s
  {
    if s != [] {
      FilterAll(s[1..], all);
    }
  }

  lemma {:induction false} FilterNone(order: seq<string>, used: seq<string>)
    requires forall x :: x in used ==> x !in order
    ensures Filter(order, used) == []
  {
    if order != [] {
      FilterNone(order[1..], used);
    }
  }

  lemma {:induction false} FilterOnce(order: seq<string>, used: seq<string>)
    requires Distinct(order)
    ensures Distinct(Filter(order, used))
  {
    if order != [] {
      assert forall i :: 0 <= i < |order[1..]| ==> order[1..][i] == order[i + 1];
      FilterOnce(order[1..], used);
      InFilter(order[1..], used, order[0]);
    }
  }

  /** Two lists without duplicates and with the same elements have the same length. */
  lemma {:induction false} SameLength(a: seq<string>, b: seq<string>)
    requires Distinct(a) && Distinct(b) && forall x :: x in a <==> x in b
    ensures |a| == |b|
  {
    OnceCount(a);
    OnceCount(b);
    assert (set x | x in a) == (set x | x in b);
  }

  lemma {:induction false} OnceCount(s: seq<string>)
    requires Distinct(s)
    ensures |set x | x in s| == |s|
  {
    if s != [] {
      var t, last := s[..|s| - 1], s[|s| - 1];
      OnceCount(t);
      assert (set x | x in s) == (set x | x in t) + {last};
    }
  }

  // ---- the order in which a body uses textures and samplers ----

  datatype Kind = OfTextures | OfSamplers

  function Part(e: Info, kind: Kind): seq<string> {
    if kind.OfTextures? then e.textures else e.samplers
  }

  /** The globals of one kind that functions may need to be handed, in the order of their declaration. */
  function Pool(g: Globals, kind: Kind): seq<string> {
    if !g.fragment then [] else if kind.OfTextures? then g.textures else g.samplers
  }

  function Picked(names: seq<string>, pool: seq<string>): seq<string> {
    if names == [] then [] else (if names[0] in pool then [names[0]] else []) + Picked(names[1..], pool)
  }

  /** The function of that name among the first n. */
  function Earlier(fs: seq<Func>, n: nat, name: string): (r: Option<nat>)
    requires n <= |fs|
    ensures r.Some? ==> r.value < n && fs[r.value].name == name
    ensures r.None? ==> forall j :: 0 <= j < n ==> fs[j].name != name
  {
    if n == 0 then None else if fs[n - 1].name == name then Some(n - 1) else Earlier(fs, n - 1, name)
  }

  /** The names in a body, with every function declared earlier expanded where it is called. */
  function Expand(fs: seq<Func>, i: nat): seq<string>
    requires i < |fs|
    decreases i, 1, 0
  {
    ExpandNames(fs, i, fs[i].names)
  }

  function ExpandNames(fs: seq<Func>, i: nat, names: seq<string>): seq<string>
    requires i < |fs|
    decreases i, 0, |names|
  {
    if names == [] then []
    else
      (match Earlier(fs, i, names[0])
       case None => []
       case Some(j) => Expand(fs, j)) + [names[0]] + ExpandNames(fs, i, names[1..])
  }

  lemma {:induction false} PickedConcat(a: seq<string>, b: seq<string>, pool: seq<string>)
    ensures Picked(a + b, pool) == Picked(a, pool) + Picked(b, pool)
  {
    if a == [] {
      assert a + b == b;
    } else {
      assert (a + b)[1..] == a[1..] + b;
      PickedConcat(a[1..], b, pool);
    }
  }

  function Without(s: seq<string>, a: seq<string>): seq<string> {
    if s == [] then [] else Without(s[..|s| - 1], a) + if s[|s| - 1] in a then [] else [s[|s| - 1]]
  }

  lemma {:induction false} InWithout(s: seq<string>, a: seq<string>)
    ensures forall x :: x in Without(s, a) <==> x in s && x !in a
  {
    if s != [] {
      InWithout(s[..|s| - 1], a);
      assert s == s[..|s| - 1] + [s[|s| - 1]];
    }
  }

  lemma {:induction false} UniqueConcat(a: seq<string>, b: seq<string>)
    ensures Unique(a + b) == Unique(a) + Without(Unique(b), a)
  {
    if b == [] {
      assert a + b == a;
    } else {
      var c, last := b[..|b| - 1], b[|b| - 1];
      assert (a + b)[..|a + b| - 1] == a + c;
      UniqueConcat(a, c);
      UniqueSet(a);
      UniqueSet(c);
      InWithout(Unique(c), a);
      assert (Unique(c) + [last])[..|Unique(c)|] == Unique(c);
    }
  }

  lemma {:induction false} UniqueTwice(s: seq<string>)
    ensures Unique(Unique(s)) == Unique(s)
  {
    if s != [] {
      var t, last := s[..|s| - 1], s[|s| - 1];
      UniqueTwice(t);
      UniqueSet(t);
      assert (Unique(t) + [last])[..|Unique(t)|] == Unique(t);
    }
  }

  /** Lists are alike if they have the same elements in the same order of first occurrence. */
  predicate SameUse(a: seq<string>, b: seq<string>) {
    Unique(a) == Unique(b)
  }

  lemma {:induction false} SameUseConcat(a: seq<string>, b: seq<string>, c: seq<string>, d: seq<string>)
    requires SameUse(a, b) && SameUse(c, d)
    ensures SameUse(a + c, b + d)
  {
    UniqueConcat(a, c);
    UniqueConcat(b, d);
    UniqueSet(a);
    UniqueSet(b);
    WithoutSame(Unique(c), a, b);
  }

  lemma {:induction false} WithoutSame(s: seq<string>, a: seq<string>, b: seq<string>)
    requires forall x :: x in a <==> x in b
    ensures Without(s, a) == Without(s, b)
  {
    if s != [] {
      WithoutSame(s[..|s| - 1], a, b);
    }
  }

  lemma {:induction false} EffectPart(g: Globals, d: Functions, info: Info, n: string, kind: Kind)
    ensures Part(Effect(g, d, info, n), kind)
         == Part(info, kind) + Part(Known(d, n), kind) + (if n in Pool(g, kind) then [n] else [])
  {
  }

  /** Folding over a body collects what the expanded body mentions. */
  lemma {:induction false} FoldUses(g: Globals, fs: seq<Func>, i: nat, info: Info, names: seq<string>, kind: Kind)
    requires DistinctNames(fs) && i < |fs|
    requires forall j: nat :: j < i ==> SameUse(Part(EntryOf(g, fs, j), kind), Picked(Expand(fs, j), Pool(g, kind)))
    ensures SameUse(Part(Fold(g, After(g, fs, i), info, names), kind),
                    Part(info, kind) + Picked(ExpandNames(fs, i, names), Pool(g, kind)))
    decreases names
  {
    hide After, Effect, EntryOf, Unique, DistinctNames;
    var d := After(g, fs, i);
    if names == [] {
      assert Part(info, kind) + [] == Part(info, kind);
    } else {
      var n, rest, pool := names[0], names[1..], Pool(g, kind);
      var more := Effect(g, d, info, n);
      FoldUses(g, fs, i, more, rest, kind);
      EffectPart(g, d, info, n, kind);
      CallUses(g, fs, i, n, kind);
      var called := match Earlier(fs, i, n) case None => [] case Some(j) => Expand(fs, j);
      var pick := if n in pool then [n] else [];
      PickedStep(called, n, ExpandNames(fs, i, rest), pool);
      hide Fold, ExpandNames, Expand, Picked, Known;
      StepUses(Part(info, kind), Part(Known(d, n), kind), Picked(called, pool), pick,
               Picked(ExpandNames(fs, i, rest), pool), Part(Fold(g, d, more, rest), kind));
    }
  }

  lemma {:induction false} PickedStep(a: seq<string>, n: string, b: seq<string>, pool: seq<string>)
    ensures Picked(a + [n] + b, pool) == Picked(a, pool) + (if n in pool then [n] else []) + Picked(b, pool)
  {
    PickedConcat(a + [n], b, pool);
    PickedConcat(a, [n], pool);
    assert [n][1..] == [];
    assert Picked([n], pool) == if n in pool then [n] else [];
  }

  lemma {:induction false} StepUses(a: seq<string>, k: seq<string>, c: seq<string>, pick: seq<string>,
                                    after: seq<string>, out: seq<string>)
    requires SameUse(out, a + k + pick + after) && SameUse(k, c)
    ensures SameUse(out, a + (c + pick + after))
  {
    hide Unique;
    SameUseConcat(a, a, k, c);
    SameUseConcat(a + k, a + c, pick, pick);
    SameUseConcat(a + k + pick, a + c + pick, after, after);
    assert a + c + pick + after == a + (c + pick + after);
  }

  /** What a call contributes. */
  lemma {:induction false} CallUses(g: Globals, fs: seq<Func>, i: nat, n: string, kind: Kind)
    requires DistinctNames(fs) && i < |fs|
    requires forall j: nat :: j < i ==> SameUse(Part(EntryOf(g, fs, j), kind), Picked(Expand(fs, j), Pool(g, kind)))
    ensures SameUse(Part(Known(After(g, fs, i), n), kind),
                    Picked(match Earlier(fs, i, n) case None => [] case Some(j) => Expand(fs, j), Pool(g, kind)))
  {
    hide After, EntryOf, Unique, Expand;
    GivenByEarlier(g, fs, i, n);
    if Earlier(fs, i, n).None? {
      assert Known(After(g, fs, i), n) == NOTHING;
    }
  }

  /** The textures and samplers found for a function are those its expanded body mentions, in the order in which
      it first does. */
  lemma {:induction false} UsesInOrder(g: Globals, fs: seq<Func>, i: nat, kind: Kind)
    requires DistinctNames(fs) && i < |fs|
    ensures Part(EntryOf(g, fs, i), kind) == Unique(Picked(Expand(fs, i), Pool(g, kind)))
    decreases i
  {
    forall j: nat | j < i
      ensures SameUse(Part(EntryOf(g, fs, j), kind), Picked(Expand(fs, j), Pool(g, kind)))
    {
      UsesInOrder(g, fs, j, kind);
      UniqueTwice(Picked(Expand(fs, j), Pool(g, kind)));
    }
    EntryFold(g, fs, i);
    FoldUses(g, fs, i, NOTHING, fs[i].names, kind);
    var p := Picked(Expand(fs, i), Pool(g, kind));
    assert Part(NOTHING, kind) + p == p;
  }

  /** Where a name is first mentioned. */
  function First(s: seq<string>, x: string): (i: nat)
    ensures i <= |s| && (i < |s| <==> x in s) && (i < |s| ==> s[i] == x) && forall j :: 0 <= j < i ==> s[j] != x
  {
    if s == [] || s[0] == x then 0 else 1 + First(s[1..], x)
  }

  /** Of every two that are mentioned, the one declared first is mentioned first. */
  predicate InOrder(pool: seq<string>, names: seq<string>) {
    forall a, b :: 0 <= a < b < |pool| && pool[a] in names && pool[b] in names ==>
      First(names, pool[a]) < First(names, pool[b])
  }

  lemma {:induction false} PickedOrder(names: seq<string>, pool: seq<string>, x: string, y: string)
    requires x in pool && y in pool
    ensures x in Picked(names, pool) <==> x in names
    ensures y in Picked(names, pool) <==> y in names
    ensures x in names && y in names
        ==> (First(Picked(names, pool), x) < First(Picked(names, pool), y) <==> First(names, x) < First(names, y))
  {
    if names != [] {
      PickedOrder(names[1..], pool, x, y);
      var p := Picked(names, pool);
      if names[0] in pool {
        assert p == [names[0]] + Picked(names[1..], pool) && p[1..] == Picked(names[1..], pool);
      } else {
        assert p == Picked(names[1..], pool);
      }
    }
  }

  lemma {:induction false} FirstSnoc(s: seq<string>, last: string, x: string)
    ensures First(s + [last], x) == if x in s then First(s, x) else if x == last then |s| else |s| + 1
  {
    var t := s + [last];
    if x in s {
      assert t[First(s, x)] == x;
    } else if x == last {
      assert t[|s|] == x;
    }
    assert forall j :: 0 <= j < |s| ==> t[j] == s[j];
  }

  lemma {:induction false} UniqueOrder(s: seq<string>, x: string, y: string)
    requires x in s && y in s
    ensures x in Unique(s) && y in Unique(s)
    ensures First(Unique(s), x) < First(Unique(s), y) <==> First(s, x) < First(s, y)
    decreases |s|
  {
    UniqueSet(s);
    var t, last := s[..|s| - 1], s[|s| - 1];
    assert s == t + [last];
    UniqueSet(t);
    hide Unique;
    assert Unique(s) == if last in Unique(t) then Unique(t) else Unique(t) + [last] by { UniqueEnds(s); }
    FirstSnoc(t, last, x);
    FirstSnoc(t, last, y);
    FirstSnoc(Unique(t), last, x);
    FirstSnoc(Unique(t), last, y);
    if x in t && y in t {
      UniqueOrder(t, x, y);
    }
  }

  lemma {:induction false} UniqueEnds(s: seq<string>)
    requires s != []
    ensures Unique(s) == if s[|s| - 1] in Unique(s[..|s| - 1]) then Unique(s[..|s| - 1])
                         else Unique(s[..|s| - 1]) + [s[|s| - 1]]
  {
  }

  /** Lists without duplicates, with the same elements in the same order, are equal. */
  lemma {:induction false} SameOrder(a: seq<string>, b: seq<string>)
    requires Distinct(a) && Distinct(b) && forall x :: x in a <==> x in b
    requires forall x, y :: x in a && y in a && First(a, x) < First(a, y) ==> First(b, x) < First(b, y)
    ensures a == b
  {
    SameLength(a, b);
    if a != [] {
      assert a[0] in a && b[0] in b;
      assert First(a, a[0]) == 0 && First(b, b[0]) == 0;
      assert b[0] in a && !(First(b, a[0]) < First(b, b[0]));
      assert First(a, b[0]) == 0;
      var c, d := a[1..], b[1..];
      TailDistinct(a);
      TailDistinct(b);
      assert a == [a[0]] + c && b == [b[0]] + d;
      forall x
        ensures x in c <==> x in d
      {
        assert x in c ==> x in a;
        assert x in d ==> x in b;
      }
      forall x, y | x in c && y in c && First(c, x) < First(c, y)
        ensures First(d, x) < First(d, y)
      {
        TailFirst(a, x);
        TailFirst(a, y);
        TailFirst(b, x);
        TailFirst(b, y);
      }
      SameOrder(c, d);
    }
  }

  lemma {:induction false} TailDistinct(s: seq<string>)
    requires s != [] && Distinct(s)
    ensures Distinct(s[1..]) && s[0] !in s[1..]
  {
  }

  lemma {:induction false} TailFirst(s: seq<string>, x: string)
    requires s != [] && Distinct(s) && x in s[1..]
    ensures x in s && First(s, x) == 1 + First(s[1..], x)
  {
  }

  /** Filtering keeps the order of declaration. */
  lemma {:induction false} FilterOrder(order: seq<string>, used: seq<string>, x: string, y: string)
    requires Distinct(order) && x in order && y in order && x in used && y in used
    ensures x in Filter(order, used) && y in Filter(order, used)
    ensures First(Filter(order, used), x) < First(Filter(order, used), y) <==> First(order, x) < First(order, y)
  {
    InFilter(order, used, x);
    InFilter(order, used, y);
    TailDistinct(order);
    var head, rest, t := order[0], order[1..], Filter(order[1..], used);
    assert order == [head] + rest && (x == head || x in rest) && (y == head || y in rest);
    assert Filter(order, used) == if head in used then [head] + t else t;
    hide First, Filter, Distinct;
    if head != x && head != y {
      FilterOrder(rest, used, x, y);
    }
    FirstConsOrder(head, rest, x, y);
    FirstConsOrder(head, t, x, y);
  }

  lemma {:induction false} FirstConsOrder(head: string, tail: seq<string>, x: string, y: string)
    ensures First([head] + tail, x) < First([head] + tail, y)
            <==> y != head && (x == head || First(tail, x) < First(tail, y))
  {
    FirstCons(head, tail, x);
    FirstCons(head, tail, y);
    hide First;
  }

  lemma {:induction false} FirstCons(head: string, tail: seq<string>, x: string)
    ensures First([head] + tail, x) == if head == x then 0 else 1 + First(tail, x)
  {
    assert ([head] + tail)[1..] == tail;
  }

  /** The list found is in the order of declaration if and only if the expanded body mentions it so. */
  lemma {:induction false} OrderExact(pool: seq<string>, names: seq<string>)
    requires Distinct(pool)
    ensures var e := Unique(Picked(names, pool)); e == Filter(pool, e) <==> InOrder(pool, names)
  {
    var p := Picked(names, pool);
    var e := Unique(p);
    var f := Filter(pool, e);
    UniqueSet(p);
    FilterOnce(pool, e);
    hide Unique, Filter, Picked;
    PickedIn(names, pool);
    forall x
      ensures x in f <==> x in e
    {
      InFilter(pool, e, x);
    }
    forall x, y | x in e && y in e
      ensures (First(e, x) < First(e, y) <==> First(names, x) < First(names, y))
           && (First(f, x) < First(f, y) <==> First(pool, x) < First(pool, y))
    {
      UniqueOrder(p, x, y);
      PickedOrder(names, pool, x, y);
      FilterOrder(pool, e, x, y);
    }
    if e == f {
      forall a, b | 0 <= a < b < |pool| && pool[a] in names && pool[b] in names
        ensures First(names, pool[a]) < First(names, pool[b])
      {
        assert pool[a] in e && pool[b] in e;
        DistinctFirst(pool, a);
        DistinctFirst(pool, b);
      }
    }
    if InOrder(pool, names) {
      forall x, y | x in f && y in f && First(f, x) < First(f, y)
        ensures First(e, x) < First(e, y)
      {
        assert pool[First(pool, x)] == x && pool[First(pool, y)] == y;
      }
      SameOrder(f, e);
    }
  }

  lemma {:induction false} PickedIn(names: seq<string>, pool: seq<string>)
    ensures forall x :: x in Picked(names, pool) <==> x in names && x in pool
  {
    if names != [] {
      PickedIn(names[1..], pool);
    }
  }

  lemma {:induction false} DistinctFirst(s: seq<string>, i: nat)
    requires Distinct(s) && i < |s|
    ensures First(s, s[i]) == i
  {
  }

  /** What a call passes is, as a set, what its callee takes; and in the same order if and only if, of every two
      textures and of every two samplers that the callee's expanded body mentions, the one declared first is
      mentioned first. */
  lemma {:induction false} ArgumentsMatch(g: Globals, fs: seq<Func>, i: nat)
    requires DistinctNames(fs) && i < |fs| && Distinct(g.textures) && Distinct(g.samplers)
    ensures var e := Known(After(g, fs, |fs|), fs[i].name);
            && (forall x :: x in ExtraArguments(g, e) <==> x in ExtraParameters(g, e))
            && |ExtraArguments(g, e)| == |ExtraParameters(g, e)|
            && (ExtraArguments(g, e) == ExtraParameters(g, e)
                <==> InOrder(Pool(g, OfTextures), Expand(fs, i)) && InOrder(Pool(g, OfSamplers), Expand(fs, i)))
  {
    AnalysisExact(g, fs, i);
    var e := Known(After(g, fs, |fs|), fs[i].name);
    ArgumentsOf(g, e);
    Entry(g, fs, |fs|, i);
    UsesInOrder(g, fs, i, OfTextures);
    UsesInOrder(g, fs, i, OfSamplers);
    OrderExact(Pool(g, OfTextures), Expand(fs, i));
    OrderExact(Pool(g, OfSamplers), Expand(fs, i));
    hide After, Expand, ExtraArguments, ExtraParameters, InOrder, Unique, Picked;
    if !g.fragment {
      NoneUsed(g.textures, e.textures);
      NoneUsed(g.samplers, e.samplers);
    }
  }

  lemma {:induction false} NoneUsed(order: seq<string>, used: seq<string>)
    requires forall x :: x !in used
    ensures used == [] && Filter(order, used) == [] && Filter([], used) == []
  {
    if used != [] {
      FirstMember(used);
    }
    FilterNone(order, used);
  }

  /** Two textures used in the reverse of their order of declaration change places at a call. */
  lemma {:induction false} ReverseUse(g: Globals, f: string, a: string, b: string)
    requires g.fragment && g.textures == [a, b] && a != b && f != a && f != b && g.uniforms == {} && g.samplers == []
    ensures var fs := [Func(f, [b, a])];
            var e := Known(After(g, fs, |fs|), f);
            ExtraArguments(g, e) == [b, a] && ExtraParameters(g, e) == [a, b]
  {
    var fs := [Func(f, [b, a])];
    var names := [b, a];
    assert names[1..] == [a] && [a][1..] == [];
    assert ExpandNames(fs, 0, [a]) == [] + [a] + [];
    assert Expand(fs, 0) == [] + [b] + ExpandNames(fs, 0, [a]);
    assert Expand(fs, 0) == names;
    AnalysisExact(g, fs, 0);
    Entry(g, fs, |fs|, 0);
    UsesInOrder(g, fs, 0, OfTextures);
    UsesInOrder(g, fs, 0, OfSamplers);
    assert Picked([a], [a, b]) == [a] + [] && Picked(names, [a, b]) == [b] + Picked([a], [a, b]);
    assert Picked(names, [a, b]) == names;
    assert Picked([a], []) == [] + [] && Picked(names, []) == [] + Picked([a], []);
    assert names[..1] == [b] && [b][..0] == [];
    assert Unique([b]) == [] + [b] && Unique(names) == Unique([b]) + [a];
    var e := Known(After(g, fs, |fs|), f);
    assert e.textures == [b, a] && e.samplers == [];
    TwoArguments(g, e, a, b);
  }

  lemma {:induction false} TwoArguments(g: Globals, e: Info, a: string, b: string)
    requires g.fragment && g.textures == [a, b] && a != b && g.samplers == [] && e.textures == [b, a] &&
             e.samplers == []
    requires !e.uniforms
    ensures ExtraArguments(g, e) == [b, a] && ExtraParameters(g, e) == [a, b]
  {
    FilterAll(e.textures, g.textures);
    assert [a, b][1..] == [b] && [b][1..] == [];
    assert Filter([b], e.textures) == [b] + [];
    assert Filter(g.textures, e.textures) == [a] + Filter([b], e.textures);
  }

  // ---- scope ----

  /** The names beyond a function's own parameters that its body may use: main is handed everything that is
      declared, any other function its extra parameters. */
  function Handed(g: Globals, name: string, e: Info): seq<string> {
    if name == "main" then
      (if g.uniforms != {} then ["uniforms"] else []) + (if g.fragment then g.textures + g.samplers else [])
    else ExtraParameters(g, e)
  }

  /** Function i can write the call of function j: what it passes is in scope. */
  predicate CallInScope(g: Globals, fs: seq<Func>, i: nat, j: nat)
    requires i < |fs| && j < |fs|
  {
    var d := After(g, fs, |fs|);
    forall x :: x in ExtraArguments(g, Known(d, fs[j].name)) ==> x in Handed(g, fs[i].name, Known(d, fs[i].name))
  }

  /** Through its own body or functions declared earlier, function i comes upon something passed as x. */
  ghost predicate Needs(g: Globals, fs: seq<Func>, i: nat, x: string)
    requires i < |fs|
  {
    || (x == "uniforms" && exists u :: u in g.uniforms && BackwardMentions(fs, i, u))
    || (g.fragment && (x in g.textures || x in g.samplers) && BackwardMentions(fs, i, x))
  }

  lemma {:induction false} PassedAndTaken(g: Globals, fs: seq<Func>, i: nat, x: string)
    requires DistinctNames(fs) && i < |fs|
    ensures var e := Known(After(g, fs, |fs|), fs[i].name);
            (x in ExtraArguments(g, e) <==> Needs(g, fs, i, x)) && (x in ExtraParameters(g, e) <==> Needs(g, fs, i, x))
  {
    AnalysisExact(g, fs, i);
    var e := Known(After(g, fs, |fs|), fs[i].name);
    InFilter(e.textures, g.textures, x);
    InFilter(e.samplers, g.samplers, x);
    InFilter(g.textures, e.textures, x);
    InFilter(g.samplers, e.samplers, x);
    hide After, BackwardMentions, Filter;
  }

  /** Calls in main, and calls of functions declared earlier, always pass what is in scope. Any other call does if
      and only if whatever the callee needs, going back from it, the caller needs too, going back from itself. */
  lemma {:induction false} ScopeExact(g: Globals, fs: seq<Func>, i: nat, j: nat)
    requires DistinctNames(fs) && Calls(fs, i, j)
    ensures CallInScope(g, fs, i, j)
            <==> fs[i].name == "main" || j < i || forall x :: Needs(g, fs, j, x) ==> Needs(g, fs, i, x)
  {
    var d := After(g, fs, |fs|);
    var a, h := ExtraArguments(g, Known(d, fs[j].name)), Handed(g, fs[i].name, Known(d, fs[i].name));
    forall x
      ensures x in a <==> Needs(g, fs, j, x)
      ensures x in h <==> if fs[i].name == "main" then InMain(g, x) else Needs(g, fs, i, x)
      ensures Needs(g, fs, j, x) ==> InMain(g, x) && (j < i ==> Needs(g, fs, i, x))
    {
      hide After;
      PassedAndTaken(g, fs, j, x);
      PassedAndTaken(g, fs, i, x);
      if Needs(g, fs, j, x) {
        NeedsEarlier(g, fs, i, j, x);
      }
    }
    hide After, Needs, Handed, ExtraArguments, InMain;
  }

  predicate InMain(g: Globals, x: string) {
    (x == "uniforms" && g.uniforms != {}) || (g.fragment && (x in g.textures || x in g.samplers))
  }

  lemma {:induction false} NeedsEarlier(g: Globals, fs: seq<Func>, i: nat, j: nat, x: string)
    requires DistinctNames(fs) && Calls(fs, i, j) && Needs(g, fs, j, x)
    ensures InMain(g, x) && (j < i ==> Needs(g, fs, i, x))
  {
    if j < i {
      forall u | BackwardMentions(fs, j, u)
        ensures BackwardMentions(fs, i, u)
      {
        MentionsStep(fs, i, u);
      }
    }
    hide BackwardMentions;
  }

  /** A function other than main that only calls a later one which mentions a uniform passes the uniform buffer
      without having it; main, in its place, has it. */
  lemma {:induction false} OutOfScope(g: Globals, caller: string, callee: string, u: string)
    requires caller != callee && u in g.uniforms && callee !in g.uniforms
    requires callee !in g.textures && callee !in g.samplers
    ensures var fs := [Func(caller, [callee]), Func(callee, [u])];
            Calls(fs, 0, 1) && (CallInScope(g, fs, 0, 1) <==> caller == "main")
  {
    var fs := [Func(caller, [callee]), Func(callee, [u])];
    ScopeExact(g, fs, 0, 1);
    assert Needs(g, fs, 1, "uniforms") by {
      MentionsStep(fs, 1, u);
      assert BackwardMentions(fs, 1, u);
    }
    assert !Needs(g, fs, 0, "uniforms") by {
      ForwardOnly(g, caller, callee, u);
    }
    hide Needs, CallInScope;
  }

  lemma {:induction false} ForwardOnly(g: Globals, caller: string, callee: string, u: string)
    requires caller != callee && callee !in g.uniforms && u in g.uniforms
    requires callee !in g.textures && callee !in g.samplers
    ensures !Needs(g, [Func(caller, [callee]), Func(callee, [u])], 0, "uniforms")
  {
    var fs := [Func(caller, [callee]), Func(callee, [u])];
    forall v
      ensures BackwardMentions(fs, 0, v) <==> v == callee
    {
      MentionsStep(fs, 0, v);
    }
    hide BackwardMentions;
  }

  lemma {:induction false} ArgumentsOf(g: Globals, e: Info)
    requires Distinct(g.textures) && Distinct(g.samplers) && Distinct(e.textures) && Distinct(e.samplers)
    requires e.uniforms ==> g.uniforms != {}
    requires forall x :: x in e.textures ==> g.fragment && x in g.textures
    requires forall x :: x in e.samplers ==> g.fragment && x in g.samplers
    ensures forall x :: x in ExtraArguments(g, e) <==> x in ExtraParameters(g, e)
    ensures |ExtraArguments(g, e)| == |ExtraParameters(g, e)|
    ensures ExtraArguments(g, e) == ExtraParameters(g, e)
            <==> e.textures == Filter(g.textures, e.textures) && e.samplers == Filter(g.samplers, e.samplers)
  {
    var u := if e.uniforms then ["uniforms"] else [];
    var t, s := Filter(g.textures, e.textures), Filter(g.samplers, e.samplers);
    FilterAll(e.textures, g.textures);
    FilterAll(e.samplers, g.samplers);
    FilterOnce(g.textures, e.textures);
    FilterOnce(g.samplers, e.samplers);
    forall x
      ensures (x in t <==> x in e.textures) && (x in s <==> x in e.samplers)
    {
      InFilter(g.textures, e.textures, x);
      InFilter(g.samplers, e.samplers, x);
    }
    SameLength(e.textures, t);
    SameLength(e.samplers, s);
    if !g.fragment {
      if e.textures != [] {
        FirstMember(e.textures);
      }
      if e.samplers != [] {
        FirstMember(e.samplers);
      }
    }
    assert ExtraArguments(g, e) == u + e.textures + e.samplers;
    assert ExtraParameters(g, e) == u + (t + s);
    Concats(u, e.textures, e.samplers, t, s);
  }

  lemma {:induction false} FirstMember(s: seq<string>)
    requires s != []
    ensures exists x :: x in s
  {
    assert s[0] in s;
  }

  lemma {:induction false} Concats(u: seq<string>, a: seq<string>, b: seq<string>, t: seq<string>, s: seq<string>)
    requires |a| == |t| && |b| == |s|
    ensures u + a + b == u + (t + s) <==> a == t && b == s
    ensures (forall x :: (x in t <==> x in a) && (x in s <==> x in b)) ==> forall x :: x in u + a + b <==>
            x in u + (t + s)
  {
    if u + a + b == u + (t + s) {
      assert a == (u + a + b)[|u|..|u| + |a|] == (u + (t + s))[|u|..|u| + |t|] == t;
      assert b == (u + a + b)[|u| + |a|..] == (u + (t + s))[|u| + |t|..] == s;
    }
  }
}
