/** Samplers: HLSL names one at every texture call, GL has one for each texture parameter, the one of its last
    call (libobs-opengl/gl-shaderparser.c:378-408, libobs-opengl/gl-shader.c:62-85). The values of a shader
    survive exactly when every call of a texture names the same one. */
module GlSamplers {
  import opened Tokens
  import opened Expressions
  import opened GlStream
  import opened Options
  import opened GlTranslation
  import opened GlSettled
  import opened GlExact
  import opened GlMeaning
  import opened GlReadings
  import opened GlBodies
  import opened GlShaderParser

  // ---- a whole shader ----

  /** Each texture is always sampled with the same sampler, so with that of its last call. */
  predicate OneSampler(b: seq<(string, nat)>) {
    forall p, q :: p in b && q in b && p.0 == q.0 ==> p.1 == q.1
  }

  lemma {:induction false} BoundLast(ids: map<string, nat>, b: seq<(string, nat)>)
    ensures forall p :: p in b ==> p.0 in Bound(ids, b)
    ensures forall n :: n in Bound(ids, b) ==> (n in ids && Bound(ids, b)[n] == ids[n]) || (n, Bound(ids, b)[n]) in b
    ensures forall n :: n in ids ==> n in Bound(ids, b)
    decreases b
  {
    if b != [] {
      BoundLast(ids[b[0].0 := b[0].1], b[1..]);
      assert forall p :: p in b <==> p == b[0] || p in b[1..];
      assert b[0] == (b[0].0, b[0].1);
    }
  }

  /** What ends up bound is the sampler of every call if and only if there is only one for each texture. */
  lemma {:induction false} BoundAgrees(b: seq<(string, nat)>)
    ensures Bindings(Bound(map[], b), b) <==> OneSampler(b)
  {
    BoundLast(map[], b);
    var bound := Bound(map[], b);
    if OneSampler(b) {
      forall p | p in b
        ensures p.0 in bound && bound[p.0] == p.1
      {
        assert (p.0, bound[p.0]) in b;
      }
    }
  }

  /** The expressions of a list of items, in order. */
  function ExprsOf(i: Item): seq<Expr>
    decreases i, 1
  {
    match i
    case Plain(_) => []
    case Ex(e) => [e]
    case Block(items) => ExprsIn(items)
    case Header(items) => ExprsIn(items)
    case SincosCall(x, s, d) => [x, s, d]
  }

  function ExprsIn(items: seq<Item>): seq<Expr>
    decreases items, 0
  {
    if items == [] then [] else ExprsOf(items[0]) + ExprsIn(items[1..])
  }

  lemma {:induction false} BindsArgsConcat(env: Env, a: seq<Expr>, b: seq<Expr>)
    ensures BindsArgs(env, a + b) == BindsArgs(env, a) + BindsArgs(env, b)
  {
    if a == [] {
      assert a + b == b && [] + BindsArgs(env, b) == BindsArgs(env, b);
    } else {
      assert (a + b)[1..] == a[1..] + b;
      BindsArgsConcat(env, a[1..], b);
      BindsAssoc(Binds(env, a[0]), BindsArgs(env, a[1..]), BindsArgs(env, b));
    }
  }

  lemma {:induction false} BindsOfItem(env: Env, i: Item)
    ensures BindsItem(env, i) == BindsArgs(env, ExprsOf(i))
    decreases i, 1
  {
    match i
    case Plain(_) =>
    case Ex(e) => OneArg(env, e);
    case Block(items) => BindsOfItems(env, items);
    case Header(items) => BindsOfItems(env, items);
    case SincosCall(x, s, d) => ArgLists(env, [x, s, d]);
  }

  lemma {:induction false} BindsOfItems(env: Env, items: seq<Item>)
    ensures BindsItems(env, items) == BindsArgs(env, ExprsIn(items))
    decreases items, 0
  {
    if items != [] {
      BindsOfItem(env, items[0]);
      BindsOfItems(env, items[1..]);
      BindsArgsConcat(env, ExprsOf(items[0]), ExprsIn(items[1..]));
    }
  }

  lemma {:induction false} HlslExprs(env: Env, i: Item)
    requires HlslItem(env, i)
    ensures forall e :: e in ExprsOf(i) ==> Hlsl(env, e)
    decreases i, 1
  {
    match i
    case Block(items) => HlslExprsIn(env, items);
    case Header(items) => HlslExprsIn(env, items);
    case _ =>
  }

  lemma {:induction false} HlslExprsIn(env: Env, items: seq<Item>)
    requires forall j :: j in items ==> HlslItem(env, j)
    ensures forall e :: e in ExprsIn(items) ==> Hlsl(env, e)
    decreases items, 0
  {
    if items != [] {
      HlslExprs(env, items[0]);
      HlslExprsIn(env, items[1..]);
    }
  }

  /** What the sampler assignments of a shader bind is known. */
  lemma {:induction false} BoundKnown(env: Env, e: Expr)
    requires Hlsl(env, e)
    ensures forall p :: p in Binds(env, e) ==>
            p.1 < |env.samplers| && FindSampler(env.samplers, env.samplers[p.1]) == Some(p.1)
    decreases e, 1
  {
    hide FindSampler, TextureCall, TextureParam;
    match e
    case Atom(_) =>
    case Paren(x) => BoundKnown(env, x);
    case Call(_, args) => BoundKnownArgs(env, args);
    case Method(o, m, args) =>
      TextureParts(env, e);
      BoundKnownArgs(env, CoordsOf(env, e));
      if IsSampled(env, o.tok.text, m) {
        SamplerNamed(env, args[0].tok.text);
        SamplerFound(env, args[0].tok.text);
      }
    case Member(o, _) => BoundKnown(env, o);
    case Index(a, i) =>
      BoundKnown(env, a);
      BoundKnown(env, i);
    case Unary(_, x) => BoundKnown(env, x);
    case Binary(_, l, r) =>
      BoundKnown(env, l);
      BoundKnown(env, r);
    case Cond(t, y, n) =>
      BoundKnown(env, t);
      BoundKnown(env, y);
      BoundKnown(env, n);
  }

  lemma {:induction false} SamplerFound(env: Env, name: string)
    requires name in env.samplers
    ensures FindSampler(env.samplers, name) == Some(SamplerIndex(env, name))
  {
  }

  lemma {:induction false} BoundKnownArgs(env: Env, args: seq<Expr>)
    requires forall a :: a in args ==> Hlsl(env, a)
    ensures forall p :: p in BindsArgs(env, args) ==>
              p.1 < |env.samplers| && FindSampler(env.samplers, env.samplers[p.1]) == Some(p.1)
    decreases args, 0
  {
    hide FindSampler, Hlsl;
    if args != [] {
      BoundKnown(env, args[0]);
      BoundKnownArgs(env, args[1..]);
    }
  }

  /** The samplers that a shader with these bodies ends up with. */
  function BoundBy(env: Env, items: seq<Item>): map<string, nat> {
    Bound(map[], BindsItems(env, items))
  }

  lemma {:induction false} BoundByKnown(env: Env, items: seq<Item>)
    requires forall j :: j in items ==> HlslItem(env, j)
    ensures Known(env, BoundBy(env, items))
  {
    hide FindSampler;
    HlslExprsIn(env, items);
    BindsOfItems(env, items);
    BoundKnownArgs(env, ExprsIn(items));
    BoundLast(map[], BindsItems(env, items));
  }

  /** Under every reading: where the languages read the expressions of a shader alike, and each texture is sampled
      with one sampler, the shader keeps the value of every one of its expressions. */
  lemma {:induction false} ShaderMeans<V>(env: Env, items: seq<Item>, h: Meaning<V>, g: Meaning<V>)
    requires (forall j :: j in items ==> HlslItem(env, j)) && (forall e :: e in ExprsIn(items) ==> Spoken(env, e))
    requires forall e :: e in ExprsIn(items) ==> Reads(env, BoundBy(env, items), e, h, g)
    requires OneSampler(BindsItems(env, items))
    ensures EvalArgs(TranslateArgs(env, ExprsIn(items)), g) == EvalArgs(ExprsIn(items), h)
  {
    hide Reads, Known, OneSampler, Bindings;
    HlslExprsIn(env, items);
    BindsOfItems(env, items);
    BoundByKnown(env, items);
    BoundAgrees(BindsItems(env, items));
    ArgsMean(env, BoundBy(env, items), ExprsIn(items), h, g);
  }

  /** And only then: the free reading keeps all values if and only if every use of a texture names the sampler of
      its last use, every function exists in GLSL, and all operands are of shapes that the languages treat alike,
      whatever shapes there are. */
  lemma {:induction false} ShaderExact(env: Env, shape: Term -> Shape, items: seq<Item>)
    requires forall j :: j in items ==> HlslItem(env, j)
    ensures EvalArgs(TranslateArgs(env, ExprsIn(items)), FreeGlsl(env, BoundBy(env, items), shape)) ==
            EvalArgs(ExprsIn(items), FreeHlsl(shape))
            <==> OneSampler(BindsItems(env, items))
                 && forall e :: e in ExprsIn(items) ==> Spoken(env, e) && AlikeTerms(env, shape, e)
  {
    hide Known, OneSampler, Bindings, FreeGlsl, FreeHlsl, AlikeTerms;
    HlslExprsIn(env, items);
    BindsOfItems(env, items);
    BoundByKnown(env, items);
    BoundAgrees(BindsItems(env, items));
    ArgsExact(env, BoundBy(env, items), shape, ExprsIn(items));
  }

  /** texture.Sample(sampler, uv) with plain coordinates. */
  function Sample(n: string, sampler: string, uv: string): Expr {
    Method(Atom(Ident(n)), "Sample", [Atom(Ident(sampler)), Atom(Ident(uv))])
  }

  lemma {:induction false} SampleParts(env: Env, n: string, a: string, uv: string)
    requires TextureParam(env, n).Some? && TextureParam(env, n).value.typ in TEXTURE_TYPES
    requires PlainName(n) && PlainName(uv) && a in env.samplers && PlainName(a)
    ensures var e := Sample(n, a, uv);
            && WellFormed(e) && Hlsl(env, e) && Guarded(env, e) && Spoken(env, e)
            && Binds(env, e) == [(n, SamplerIndex(env, a))]
            && Translate(env, e) == Call("texture", [Atom(Ident(n)), Atom(Ident(uv))])
  {
    hide FindSampler;
    var e := Sample(n, a, uv);
    assert e.args[0] == Atom(Ident(a)) && e.args[1..] == [Atom(Ident(uv))];
    assert IsTextureCall(env, e.obj, e.fn, e.args);
    FitsExact(env, n, "Sample");
    OneArg(env, Atom(Ident(uv)));
    assert TranslateArgs(env, e.args)[1..] == TranslateArgs(env, e.args[1..]);
    assert [(n, SamplerIndex(env, a))] + [] == [(n, SamplerIndex(env, a))];
  }

  /** Two samplers on one texture: both calls are sampled with the second, by all that the languages read alike. */
  lemma {:induction false} TwoSamplers<V>(env: Env, n: string, a: string, b: string, uv: string, h: Meaning<V>,
                                          g: Meaning<V>)
    requires TextureParam(env, n).Some? && TextureParam(env, n).value.typ in TEXTURE_TYPES
    requires PlainName(n) && PlainName(uv)
    requires a in env.samplers && b in env.samplers && PlainName(a) && PlainName(b)
    requires Reads(env, Bound(map[], [(n, SamplerIndex(env, a)), (n, SamplerIndex(env, b))]),
                   Binary(Plus, Sample(n, b, uv), Sample(n, b, uv)), h, g)
    ensures var e := Binary(Plus, Sample(n, a, uv), Sample(n, b, uv));
            && WellFormed(e) && Hlsl(env, e) && Settled(env, e, "}") && Spoken(env, e)
            && Binds(env, e) == [(n, SamplerIndex(env, a)), (n, SamplerIndex(env, b))]
            && Eval(Translate(env, e), g) == Eval(Binary(Plus, Sample(n, b, uv), Sample(n, b, uv)), h)
  {
    hide Reads, FindSampler, Sample, Hlsl, Settle, Known, Bindings;
    TwoSampled(env, n, a, b, uv);
    TwoSampled(env, n, b, b, uv);
    var i, j := SamplerIndex(env, a), SamplerIndex(env, b);
    var bound, e := Bound(map[], [(n, i), (n, j)]), Binary(Plus, Sample(n, b, uv), Sample(n, b, uv));
    TwoBound(n, i, j);
    SampleParts(env, n, a, uv);
    SampleParts(env, n, b, uv);
    OneKnown(env, n, b);
    TranslateMeans(env, bound, e, h, g);
  }

  lemma {:induction false} OneKnown(env: Env, n: string, b: string)
    requires b in env.samplers
    ensures var j := SamplerIndex(env, b); Known(env, map[n := j]) && Bindings(map[n := j], [(n, j), (n, j)])
  {
    SamplerNamed(env, b);
    SamplerFound(env, b);
  }

  lemma {:induction false} TwoSampled(env: Env, n: string, a: string, b: string, uv: string)
    requires TextureParam(env, n).Some? && TextureParam(env, n).value.typ in TEXTURE_TYPES
    requires PlainName(n) && PlainName(uv)
    requires a in env.samplers && b in env.samplers && PlainName(a) && PlainName(b)
    ensures var e := Binary(Plus, Sample(n, a, uv), Sample(n, b, uv));
            && WellFormed(e) && Hlsl(env, e) && Settled(env, e, "}") && Spoken(env, e)
            && Binds(env, e) == [(n, SamplerIndex(env, a)), (n, SamplerIndex(env, b))]
  {
    hide FindSampler, Sample, Hlsl, Settle;
    SampleParts(env, n, a, uv);
    SampleParts(env, n, b, uv);
    PlusSettles(env, Sample(n, a, uv), Sample(n, b, uv));
    var i, j := (n, SamplerIndex(env, a)), (n, SamplerIndex(env, b));
    assert [i] + [j] == [i, j];
    SampleLevel(n, a, uv);
    SampleLevel(n, b, uv);
  }

  lemma {:induction false} TwoBound(n: string, i: nat, j: nat)
    ensures Bound(map[], [(n, i), (n, j)]) == map[n := j]
  {
    assert [(n, i), (n, j)][1..] == [(n, j)];
    BoundConcat(map[], [(n, i)], [(n, j)]);
  }

  lemma {:induction false} SampleLevel(n: string, a: string, uv: string)
    ensures Level(Sample(n, a, uv)) == 16
  {
  }

  lemma {:induction false} PlusSettles(env: Env, l: Expr, r: Expr)
    requires Hlsl(env, l) && Hlsl(env, r) && Guarded(env, l) && Guarded(env, r)
    ensures Hlsl(env, Binary(Plus, l, r)) && Settled(env, Binary(Plus, l, r), "}")
  {
    StartValid();
    GuardedSettles(env, Binary(Plus, l, r), false, START, "}");
  }
}
