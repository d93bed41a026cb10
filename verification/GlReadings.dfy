/** Which parts of an expression HLSL and GLSL read alike, by the shapes of their operands, and exactly when an
    expression keeps its value (libobs-opengl/gl-shaderparser.c:246-523). */
module GlReadings {
  import opened Tokens
  import opened Expressions
  import opened GlStream
  import opened Options
  import opened GlTranslation
  import opened GlExact
  import opened GlMeaning

  // ---- shapes ----

  /** Scalars and everything else that is no vector or matrix, vectors, matrices. */
  datatype Shape = Single | Vector | Matrix

  /** GLSL's operator does what HLSL's does, component by component: * on two vectors or with a scalar, but not
      on matrices, and comparisons and logic on scalars. */
  predicate OperatorAlike(op: BinaryOp, x: Shape, y: Shape) {
    match op
    case Times => x.Single? || y.Single? || (x.Vector? && y.Vector?)
    case Less | Greater | LessEqual | GreaterEqual | Equal | NotEqual | And | Or => x.Single? && y.Single?
    case _ => true
  }

  /** GLSL's operator * does what HLSL's mul does: the product of linear algebra, but for two vectors. */
  predicate ProductAlike(x: Shape, y: Shape) {
    !(x.Vector? && y.Vector?)
  }

  /** Every part of e has operands that the languages treat alike; same says so of functions. */
  predicate Alike<V>(env: Env, e: Expr, h: Meaning<V>, shape: V -> Shape, same: (string, seq<V>) -> bool) {
    match e
    case Atom(_) => true
    case Paren(x) => Alike(env, x, h, shape, same)
    case Call(f, args) =>
      && (forall a :: a in args ==> Alike(env, a, h, shape, same))
      && var vs := EvalArgs(args, h);
         if f == "mul" && |vs| == 2 then ProductAlike(shape(vs[0]), shape(vs[1]))
         else if f == "mad" && |vs| == 3 then OperatorAlike(Times, shape(vs[0]), shape(vs[1]))
         else IsExpanded(f) || same(f, vs)
    case Method(o, m, args) =>
      IsTextureCall(env, o, m, args) && forall a :: a in CoordsOf(env, e) ==> Alike(env, a, h, shape, same)
    case Member(o, _) => Alike(env, o, h, shape, same)
    case Index(a, i) => Alike(env, a, h, shape, same) && Alike(env, i, h, shape, same) && !shape(Eval(a, h)).Matrix?
    case Unary(op, x) => Alike(env, x, h, shape, same) && (op == Not ==> shape(Eval(x, h)).Single?)
    case Binary(op, l, r) =>
      && Alike(env, l, h, shape, same) && Alike(env, r, h, shape, same)
      && OperatorAlike(op, shape(Eval(l, h)), shape(Eval(r, h)))
    case Cond(t, y, n) =>
      && Alike(env, t, h, shape, same) && Alike(env, y, h, shape, same) && Alike(env, n, h, shape, same)
      && shape(Eval(t, h)).Single?
  }

  const MATRICES: set<string> := {"float3x3", "float3x4", "float4x4"}

  // ---- the reading that tells apart whatever can be told apart ----

  /** The dictionary, as far as it goes: the languages read alike what has operands of shapes that they treat
      alike, same functions, and textures with the samplers bound to them. */
  ghost predicate ReadsByShape<V(!new)>(env: Env, bound: map<string, nat>, h: Meaning<V>, g: Meaning<V>,
                                        shape: V -> Shape, same: (string, seq<V>) -> bool) {
    && (forall t :: g.atom(t) == h.atom(t))
    && (forall x, y :: ProductAlike(shape(x), shape(y)) ==> h.call("mul", [x, y]) == g.binary(Times, x, y))
    && (forall x, y, z :: OperatorAlike(Times, shape(x), shape(y)) ==>
          h.call("mad", [x, y, z]) == g.binary(Plus, g.binary(Times, x, y), z))
    && (forall x :: h.call("saturate", [x]) == g.call("clamp", [x, g.atom(Num1("0.0")), g.atom(Num1("1.0"))]))
    && (forall f, vs :: !IsExpanded(f) && Named(f, |vs|) && same(f, vs) ==> g.call(Rename(f), vs) == h.call(f, vs))
    && (forall n, m, cs :: TextureMethod(env, n, m) ==> TextureReads(env, bound, n, m, cs, h, g))
    && (forall v, m :: g.member(v, m) == h.member(v, m))
    && (forall v, i :: !shape(v).Matrix? ==> g.index(v, i) == h.index(v, i))
    && (forall op, v :: (op == Not ==> shape(v).Single?) ==> g.unary(op, v) == h.unary(op, v))
    && (forall op, v, w :: OperatorAlike(op, shape(v), shape(w)) ==> g.binary(op, v, w) == h.binary(op, v, w))
    && (forall t, v, w :: shape(t).Single? ==> g.cond(t, v, w) == h.cond(t, v, w))
  }

  /** So an expression with such operands is read alike in every part. */
  lemma {:induction false} AlikeReads<V(!new)>(env: Env, bound: map<string, nat>, e: Expr, h: Meaning<V>,
                                               g: Meaning<V>, shape: V -> Shape, same: (string, seq<V>) -> bool)
    requires ReadsByShape(env, bound, h, g, shape, same) && Hlsl(env, e) && Spoken(env, e)
    requires Alike(env, e, h, shape, same)
    ensures Reads(env, bound, e, h, g)
    decreases e
  {
    hide OperatorAlike, ProductAlike, TextureReads, TextureCall, TextureParam, Rename, Native;
    match e
    case Atom(t) =>
    case Paren(x) => AlikeReads(env, bound, x, h, g, shape, same);
    case Call(f, args) =>
      forall a | a in args
        ensures Reads(env, bound, a, h, g)
      {
        AlikeReads(env, bound, a, h, g, shape, same);
      }
      AlikeCall(env, f, args, h, shape, same);
      CallOf(env, bound, f, EvalArgs(args, h), h, g, shape, same);
      ReadsCall(env, bound, f, args, h, g);
    case Method(o, m, args) =>
      TextureParts(env, e);
      SpokenCoords(env, e);
      forall a | a in CoordsOf(env, e)
        ensures Reads(env, bound, a, h, g)
      {
        AlikeReads(env, bound, a, h, g, shape, same);
      }
    case Member(o, m) => AlikeReads(env, bound, o, h, g, shape, same);
    case Index(a, i) =>
      AlikeReads(env, bound, a, h, g, shape, same);
      AlikeReads(env, bound, i, h, g, shape, same);
    case Unary(op, x) => AlikeReads(env, bound, x, h, g, shape, same);
    case Binary(op, l, r) =>
      AlikeReads(env, bound, l, h, g, shape, same);
      AlikeReads(env, bound, r, h, g, shape, same);
    case Cond(t, y, n) =>
      AlikeReads(env, bound, t, h, g, shape, same);
      AlikeReads(env, bound, y, h, g, shape, same);
      AlikeReads(env, bound, n, h, g, shape, same);
  }

  lemma {:induction false} CallOf<V(!new)>(env: Env, bound: map<string, nat>, f: string, vs: seq<V>, h: Meaning<V>,
                                           g: Meaning<V>, shape: V -> Shape, same: (string, seq<V>) -> bool)
    requires ReadsByShape(env, bound, h, g, shape, same) && f != "sincos" && (IsExpanded(f) || Named(f, |vs|))
    requires IsExpanded(f) ==> |vs| == if f == "mul" then 2 else if f == "mad" then 3 else 1
    requires if f == "mul" then ProductAlike(shape(vs[0]), shape(vs[1]))
             else if f == "mad" then OperatorAlike(Times, shape(vs[0]), shape(vs[1]))
             else IsExpanded(f) || same(f, vs)
    ensures CallReads(f, vs, h, g)
  {
    hide OperatorAlike, ProductAlike, TextureReads, Rename, Native;
    if f == "mul" {
      assert vs == [vs[0], vs[1]];
    } else if f == "mad" {
      assert vs == [vs[0], vs[1], vs[2]];
    } else if f == "saturate" {
      assert vs == [vs[0]];
    }
  }

  // Terms, of which any may have any shape. Two terms are equal where the languages agree by the rules of linear
  // algebra that they share, and only there.

  datatype Term =
    | Leaf(tok: Token)
    | Apply(f: string, args: seq<Term>)
    | Use(obj: Term, m: string, args: seq<Term>)
    | Field(obj: Term, field: string)
    | At(arr: Term, idx: Term)
    | One(uop: UnaryOp, arg: Term)
    | Two(op: BinaryOp, left: Term, right: Term)
    | Choice(test: Term, yes: Term, no: Term)
    | Foreign(f: string, args: seq<Term>)

  function HlslCall(shape: Term -> Shape, f: string, vs: seq<Term>): Term {
    if f == "mul" && |vs| == 2 then
      if shape(vs[0]).Single? || shape(vs[1]).Single? then Two(Times, vs[0], vs[1])
      else if shape(vs[0]).Vector? && shape(vs[1]).Vector? then Apply("dot", vs)
      else Apply("mul", vs)
    else if f == "mad" && |vs| == 3 then Two(Plus, Two(Times, vs[0], vs[1]), vs[2])
    else if f == "saturate" && |vs| == 1 then Apply("clamp", [vs[0], Leaf(Num1("0.0")), Leaf(Num1("1.0"))])
    else Apply(f, vs)
  }

  /** The texture method a GLSL texture call stands for. */
  function MethodFor(f: string, coords: nat): string {
    if f == "texture" then if coords == 1 then "Sample" else "SampleBias"
    else if f == "textureGrad" then "SampleGrad"
    else if f == "textureLod" then "SampleLevel"
    else "Load"
  }

  predicate Unsampled(f: string) {
    f == "obs_load_2d" || f == "obs_load_3d"
  }

  /** A texture function with arguments that GLSL allows: a texture of a type it takes, with a sampler bound unless
      it needs none, and as many coordinates as it has. */
  predicate Callable(env: Env, bound: map<string, nat>, f: string, n: string, coords: nat) {
    && TextureParam(env, n).Some? && Takes(f, coords, Rename(TextureParam(env, n).value.typ))
    && coords == Coordinates(MethodFor(f, coords))
    && (!Unsampled(f) ==> n in bound && bound[n] < |env.samplers|)
  }

  /** The sampler it then uses. */
  function Using(env: Env, bound: map<string, nat>, f: string, n: string): seq<Token>
    requires !Unsampled(f) ==> n in bound && bound[n] < |env.samplers|
  {
    if Unsampled(f) then [] else [Ident(env.samplers[bound[n]])]
  }

  predicate Samples(env: Env, bound: map<string, nat>, f: string, vs: seq<Term>) {
    vs != [] && vs[0].Leaf? && vs[0].tok.kind.Name? && Callable(env, bound, f, vs[0].tok.text, |vs| - 1)
  }

  function Leaves(ts: seq<Token>): seq<Term> {
    if ts == [] then [] else [Leaf(ts[0])] + Leaves(ts[1..])
  }

  /** mod is not fmod, and matrices are made of columns, unless of another matrix. */
  predicate SameTerms(shape: Term -> Shape, f: string, vs: seq<Term>) {
    f != "fmod" && (f in MATRICES ==> |vs| == 1 && shape(vs[0]).Matrix?)
  }

  function GlslCall(env: Env, bound: map<string, nat>, shape: Term -> Shape, f: string, vs: seq<Term>): Term {
    if f !in TEXTURE_FUNCTIONS then
      if SameTerms(shape, Native(f, |vs|), vs) then HlslCall(shape, Native(f, |vs|), vs) else Foreign(f, vs)
    else if Samples(env, bound, f, vs) then
      Use(vs[0], MethodFor(f, |vs| - 1), Leaves(Using(env, bound, f, vs[0].tok.text)) + vs[1..])
    else Foreign(f, vs)
  }

  function GlslBinary(shape: Term -> Shape, op: BinaryOp, v: Term, w: Term): Term {
    if OperatorAlike(op, shape(v), shape(w)) then Two(op, v, w)
    else if op == Times then Apply("mul", [v, w])
    else Foreign("operator", [v, w])
  }

  function FreeHlsl(shape: Term -> Shape): Meaning<Term> {
    Meaning(t => Leaf(t), (f, vs) => HlslCall(shape, f, vs), (v, m, vs) => Use(v, m, vs), (v, m) => Field(v, m),
            (v, i) => At(v, i), (op, v) => One(op, v), (op, v, w) => Two(op, v, w), (t, v, w) => Choice(t, v, w))
  }

  function FreeGlsl(env: Env, bound: map<string, nat>, shape: Term -> Shape): Meaning<Term> {
    Meaning(t => Leaf(t), (f, vs) => GlslCall(env, bound, shape, f, vs), (v, m, vs) => Use(v, m, vs),
            (v, m) => Field(v, m),
            (v, i) => if shape(v).Matrix? then Foreign("column", [v, i]) else At(v, i),
            (op, v) => if op == Not && !shape(v).Single? then Foreign("not", [v]) else One(op, v),
            (op, v, w) => GlslBinary(shape, op, v, w),
            (t, v, w) => if shape(t).Single? then Choice(t, v, w) else Foreign("choice", [t, v, w]))
  }

  function SameOf(shape: Term -> Shape): (string, seq<Term>) -> bool {
    (f, vs) => SameTerms(shape, f, vs)
  }

  /** Alike, in the free reading. */
  predicate AlikeTerms(env: Env, shape: Term -> Shape, e: Expr) {
    Alike(env, e, FreeHlsl(shape), shape, SameOf(shape))
  }

  lemma {:induction false} LeavesAreAtoms(shape: Term -> Shape, ts: seq<Token>)
    ensures Atoms(FreeHlsl(shape), ts) == Leaves(ts)
  {
    if ts != [] {
      LeavesAreAtoms(shape, ts[1..]);
    }
  }

  lemma {:induction false} FreeTexture(env: Env, bound: map<string, nat>, shape: Term -> Shape, n: string, m: string,
                                       cs: seq<Term>)
    requires TextureMethod(env, n, m)
    ensures TextureReads(env, bound, n, m, cs, FreeHlsl(shape), FreeGlsl(env, bound, shape))
  {
    hide TextureCall, TextureParam;
    if Ready(env, bound, n, m) && |cs| == Coordinates(m) {
      var vs := [Leaf(Ident(n))] + cs;
      assert vs[1..] == cs;
      LeavesAreAtoms(shape, SamplerOf(env, bound, n, m));
      MethodBack(env, n, m);
      ReadyCallable(env, bound, n, m);
      assert Samples(env, bound, TextureFn(env, n, m), vs);
    }
  }

  /** The GLSL function written for a texture method is the one that does what the method does. */
  lemma {:induction false} MethodBack(env: Env, n: string, m: string)
    requires TextureMethod(env, n, m)
    ensures TextureFn(env, n, m) in TEXTURE_FUNCTIONS && MethodFor(TextureFn(env, n, m), Coordinates(m)) == m
    ensures IsSampled(env, n, m) <==> !Unsampled(TextureFn(env, n, m))
  {
  }

  lemma {:induction false} ReadyCallable(env: Env, bound: map<string, nat>, n: string, m: string)
    requires TextureMethod(env, n, m)
    ensures Ready(env, bound, n, m) <==> Callable(env, bound, TextureFn(env, n, m), n, Coordinates(m))
    ensures Ready(env, bound, n, m) ==> SamplerOf(env, bound, n, m) == Using(env, bound, TextureFn(env, n, m), n)
  {
    MethodBack(env, n, m);
    hide TextureCall, TextureParam, Rename, MethodFor;
  }

  /** The free reading: the languages read an expression alike exactly where its operands are of shapes that they
      treat alike. So the hypothesis of the theorems about values can be met, by every such expression. */
  lemma {:induction false} FreeReads(env: Env, bound: map<string, nat>, shape: Term -> Shape, e: Expr)
    requires Hlsl(env, e) && Spoken(env, e)
    ensures Reads(env, bound, e, FreeHlsl(shape), FreeGlsl(env, bound, shape)) <==> AlikeTerms(env, shape, e)
    decreases e, 1
  {
    hide OperatorAlike, CallReads, TextureReads;
    match e
    case Atom(t) =>
    case Paren(x) => FreeReads(env, bound, shape, x);
    case Call(f, args) => FreeCallReads(env, bound, shape, e);
    case Method(o, m, args) =>
      hide TextureCall, TextureParam;
      TextureParts(env, e);
      SpokenCoords(env, e);
      var cs := CoordsOf(env, e);
      forall a | a in cs
        ensures Reads(env, bound, a, FreeHlsl(shape), FreeGlsl(env, bound, shape)) <==> AlikeTerms(env, shape, a)
      {
        FreeReads(env, bound, shape, a);
      }
      FreeTexture(env, bound, shape, o.tok.text, m, EvalArgs(cs, FreeHlsl(shape)));
      AlikeCoords(env, shape, e);
    case Member(o, m) => FreeReads(env, bound, shape, o);
    case Index(a, i) =>
      FreeReads(env, bound, shape, a);
      FreeReads(env, bound, shape, i);
    case Unary(op, x) => FreeReads(env, bound, shape, x);
    case Binary(op, l, r) =>
      FreeReads(env, bound, shape, l);
      FreeReads(env, bound, shape, r);
    case Cond(t, y, n) =>
      FreeReads(env, bound, shape, t);
      FreeReads(env, bound, shape, y);
      FreeReads(env, bound, shape, n);
  }

  lemma {:induction false} FreeCallReads(env: Env, bound: map<string, nat>, shape: Term -> Shape, e: Expr)
    requires e.Call? && Hlsl(env, e) && Spoken(env, e)
    ensures Reads(env, bound, e, FreeHlsl(shape), FreeGlsl(env, bound, shape)) <==> AlikeTerms(env, shape, e)
    decreases e, 0
  {
    hide OperatorAlike, Native, Rename, SameTerms, GlslCall;
    var f, args, h, g := e.fn, e.args, FreeHlsl(shape), FreeGlsl(env, bound, shape);
    var vs := EvalArgs(args, h);
    forall a | a in args
      ensures Reads(env, bound, a, h, g) <==> Alike(env, a, h, shape, SameOf(shape))
    {
      FreeReads(env, bound, shape, a);
      assert AlikeTerms(env, shape, a) <==> Alike(env, a, h, shape, SameOf(shape));
    }
    hide Alike, Reads;
    if !IsExpanded(f) {
      NamedExact(env, bound, shape, f, vs, vs);
    }
    FreeCall(env, bound, shape, f, vs);
    ReadsCall(env, bound, f, args, h, g);
    AlikeCall(env, f, args, h, shape, SameOf(shape));
  }

  lemma {:induction false} ReadsCall<V>(env: Env, bound: map<string, nat>, f: string, args: seq<Expr>, h: Meaning<V>,
                                        g: Meaning<V>)
    ensures Reads(env, bound, Call(f, args), h, g)
            <==> (forall a :: a in args ==> Reads(env, bound, a, h, g)) && CallReads(f, EvalArgs(args, h), h, g)
  {
  }

  lemma {:induction false} AlikeCall<V>(env: Env, f: string, args: seq<Expr>, h: Meaning<V>, shape: V -> Shape,
                                        same: (string, seq<V>) -> bool)
    ensures var vs := EvalArgs(args, h);
            Alike(env, Call(f, args), h, shape, same)
            <==> (forall a :: a in args ==> Alike(env, a, h, shape, same))
                 && if f == "mul" && |vs| == 2 then ProductAlike(shape(vs[0]), shape(vs[1]))
                    else if f == "mad" && |vs| == 3 then OperatorAlike(Times, shape(vs[0]), shape(vs[1]))
                    else IsExpanded(f) || same(f, vs)
  {
  }

  lemma {:induction false} FreeCall(env: Env, bound: map<string, nat>, shape: Term -> Shape, f: string, vs: seq<Term>)
    requires f != "sincos" && (IsExpanded(f) || Named(f, |vs|))
    requires IsExpanded(f) ==> |vs| == if f == "mul" then 2 else if f == "mad" then 3 else 1
    ensures CallReads(f, vs, FreeHlsl(shape), FreeGlsl(env, bound, shape))
            <==> if f == "mul" then ProductAlike(shape(vs[0]), shape(vs[1]))
                 else if f == "mad" then OperatorAlike(Times, shape(vs[0]), shape(vs[1]))
                 else IsExpanded(f) || SameTerms(shape, f, vs)
  {
    if f == "mul" {
      assert vs == [vs[0], vs[1]];
    } else if f == "mad" {
      assert vs == [vs[0], vs[1], vs[2]];
    } else if f == "saturate" {
      assert vs == [vs[0]];
      ClampTerms(env, bound, shape, vs[0], vs[0]);
    } else {
      NamedExact(env, bound, shape, f, vs, vs);
    }
  }

  // ---- equal values, exactly ----

  /** Whatever the shapes of its parts: in the free reading the translated tree has the value of the source tree if
      and only if its operands are of shapes that the languages treat alike, its functions exist in GLSL and read
      alike, and each of its texture calls names the sampler that ends up bound. */
  lemma {:induction false} MeansExact(env: Env, bound: map<string, nat>, shape: Term -> Shape, e: Expr)
    requires Hlsl(env, e) && Known(env, bound)
    ensures Eval(Translate(env, e), FreeGlsl(env, bound, shape)) == Eval(e, FreeHlsl(shape))
            <==> Agrees(env, bound, e) && AlikeTerms(env, shape, e)
    decreases e, 1
  {
    hide Known, Bindings, GlslCall, HlslCall, OperatorAlike;
    match e
    case Atom(t) => assert Bindings(bound, []) by { NoBindings(bound); }
    case Paren(x) => MeansExact(env, bound, shape, x);
    case Call(f, args) => CallExact(env, bound, shape, e);
    case Method(o, m, args) => TextureCallExact(env, bound, shape, e);
    case Member(o, m) => MeansExact(env, bound, shape, o);
    case Index(a, i) =>
      BindingsConcat(bound, Binds(env, a), Binds(env, i));
      MeansExact(env, bound, shape, a);
      MeansExact(env, bound, shape, i);
    case Unary(op, x) => MeansExact(env, bound, shape, x);
    case Binary(op, l, r) =>
      BindingsConcat(bound, Binds(env, l), Binds(env, r));
      MeansExact(env, bound, shape, l);
      MeansExact(env, bound, shape, r);
    case Cond(t, y, n) =>
      BindingsConcat(bound, Binds(env, t), Binds(env, y) + Binds(env, n));
      BindingsConcat(bound, Binds(env, y), Binds(env, n));
      MeansExact(env, bound, shape, t);
      MeansExact(env, bound, shape, y);
      MeansExact(env, bound, shape, n);
  }

  lemma {:induction false} NoBindings(bound: map<string, nat>)
    ensures Bindings(bound, [])
  {
  }

  lemma {:induction false} ArgsExact(env: Env, bound: map<string, nat>, shape: Term -> Shape, args: seq<Expr>)
    requires (forall a :: a in args ==> Hlsl(env, a)) && Known(env, bound)
    ensures EvalArgs(TranslateArgs(env, args), FreeGlsl(env, bound, shape)) == EvalArgs(args, FreeHlsl(shape))
            <==> (forall a :: a in args ==> Spoken(env, a)) && Bindings(bound, BindsArgs(env, args))
                 && forall a :: a in args ==> AlikeTerms(env, shape, a)
    decreases args, 0
  {
    hide Known, Bindings, Hlsl, Spoken, FreeGlsl, FreeHlsl, Eval, AlikeTerms;
    if args == [] {
      NoBindings(bound);
    } else {
      BindingsConcat(bound, Binds(env, args[0]), BindsArgs(env, args[1..]));
      MeansExact(env, bound, shape, args[0]);
      ArgsExact(env, bound, shape, args[1..]);
      var ts, g, h := TranslateArgs(env, args), FreeGlsl(env, bound, shape), FreeHlsl(shape);
      assert ts[1..] == TranslateArgs(env, args[1..]);
      assert forall a :: a in args <==> a == args[0] || a in args[1..];
      ConsEqual(Eval(ts[0], g), EvalArgs(ts[1..], g), Eval(args[0], h), EvalArgs(args[1..], h));
      assert (forall a :: a in args ==> Spoken(env, a))
          <==> Spoken(env, args[0]) && forall a :: a in args[1..] ==> Spoken(env, a);
      assert (forall a :: a in args ==> AlikeTerms(env, shape, a))
          <==> AlikeTerms(env, shape, args[0]) && forall a :: a in args[1..] ==> AlikeTerms(env, shape, a);
      assert EvalArgs(ts, g) == [Eval(ts[0], g)] + EvalArgs(ts[1..], g);
      assert EvalArgs(args, h) == [Eval(args[0], h)] + EvalArgs(args[1..], h);
    }
  }

  lemma {:induction false} ConsEqual(x: Term, xs: seq<Term>, y: Term, ys: seq<Term>)
    ensures [x] + xs == [y] + ys <==> x == y && xs == ys
  {
    assert ([x] + xs)[0] == x && ([x] + xs)[1..] == xs && ([y] + ys)[0] == y && ([y] + ys)[1..] == ys;
  }

  lemma {:induction false} CallExact(env: Env, bound: map<string, nat>, shape: Term -> Shape, e: Expr)
    requires e.Call? && Hlsl(env, e) && Known(env, bound)
    ensures Eval(Translate(env, e), FreeGlsl(env, bound, shape)) == Eval(e, FreeHlsl(shape))
            <==> Agrees(env, bound, e) && AlikeTerms(env, shape, e)
    decreases e, 0
  {
    hide Known, Bindings, Native, Rename, GlslCall, HlslCall, SameTerms, OperatorAlike;
    var f, args := e.fn, e.args;
    ArgsExact(env, bound, shape, args);
    var g, h := FreeGlsl(env, bound, shape), FreeHlsl(shape);
    var ts := TranslateArgs(env, args);
    var us, vs := EvalArgs(ts, g), EvalArgs(args, h);
    assert (forall a :: a in args ==> AlikeTerms(env, shape, a))
        <==> forall a :: a in args ==> Alike(env, a, h, shape, SameOf(shape));
    if IsExpanded(f) {
      forall i | 0 <= i < |args|
        ensures Eval(ts[i], g) == us[i]
      {
        EvalArgsAt(ts, g, i);
      }
      TranslateExpanded(env, e);
      ExpandedExact(env, bound, shape, f, ts, us, vs);
    } else {
      NamedExact(env, bound, shape, f, us, vs);
      assert Eval(Translate(env, e), g) == GlslCall(env, bound, shape, Rename(f), us);
      assert Eval(e, h) == HlslCall(shape, f, vs);
    }
  }

  lemma {:induction false} ExpandedExact(env: Env, bound: map<string, nat>, shape: Term -> Shape, f: string,
                                         ts: seq<Expr>, us: seq<Term>, vs: seq<Term>)
    requires IsExpanded(f) && f != "sincos" &&
             |ts| == |us| == |vs| == if f == "mul" then 2 else if f == "mad" then 3 else 1
    requires forall i :: 0 <= i < |ts| ==> Eval(ts[i], FreeGlsl(env, bound, shape)) == us[i]
    ensures Eval(Expanded(f, ts), FreeGlsl(env, bound, shape)) == FreeHlsl(shape).call(f, vs)
            <==> us == vs && (f == "mul" ==> ProductAlike(shape(vs[0]), shape(vs[1])))
                 && (f == "mad" ==> OperatorAlike(Times, shape(vs[0]), shape(vs[1])))
  {
    var g := FreeGlsl(env, bound, shape);
    if f == "mul" {
      EvalProducts(ts[0], ts[1], ts[1], g);
      assert us == [us[0], us[1]] && vs == [vs[0], vs[1]];
    } else if f == "mad" {
      EvalProducts(ts[0], ts[1], ts[2], g);
      assert us == [us[0], us[1], us[2]] && vs == [vs[0], vs[1], vs[2]];
    } else {
      ClampArgs(ts[0], g);
      assert us == [us[0]] && vs == [vs[0]];
      ClampTerms(env, bound, shape, us[0], vs[0]);
    }
  }

  lemma {:induction false} ClampTerms(env: Env, bound: map<string, nat>, shape: Term -> Shape, u: Term, v: Term)
    ensures (GlslCall(env, bound, shape, "clamp", [u, Leaf(Num1("0.0")), Leaf(Num1("1.0"))])
             == HlslCall(shape, "saturate", [v])) <==> u == v
  {
    ClampNative();
    hide Native;
    var a, b := [u, Leaf(Num1("0.0")), Leaf(Num1("1.0"))], [v, Leaf(Num1("0.0")), Leaf(Num1("1.0"))];
    assert GlslCall(env, bound, shape, "clamp", a) == Apply("clamp", a);
    assert HlslCall(shape, "saturate", [v]) == Apply("clamp", b);
    assert a[0] == u && b[0] == v;
  }

  lemma {:induction false} ClampNative()
    ensures Native("clamp", 3) == "clamp" && "clamp" !in TEXTURE_FUNCTIONS
  {
  }

  lemma {:induction false} NamedExact(env: Env, bound: map<string, nat>, shape: Term -> Shape, f: string,
                                      us: seq<Term>, vs: seq<Term>)
    requires !IsExpanded(f) && |us| == |vs|
    ensures GlslCall(env, bound, shape, Rename(f), us) == HlslCall(shape, f, vs)
            <==> us == vs && Named(f, |us|) && SameTerms(shape, f, vs)
  {
    NotExpanded(f, |us|);
    hide Native, Rename, Samples, SameTerms;
  }

  lemma {:induction false} NotExpanded(f: string, n: nat)
    requires !IsExpanded(f)
    ensures !IsExpanded(Native(Rename(f), n))
  {
  }

  lemma {:induction false} TextureCallExact(env: Env, bound: map<string, nat>, shape: Term -> Shape, e: Expr)
    requires e.Method? && Hlsl(env, e) && Known(env, bound)
    ensures Eval(Translate(env, e), FreeGlsl(env, bound, shape)) == Eval(e, FreeHlsl(shape))
            <==> Agrees(env, bound, e) && AlikeTerms(env, shape, e)
    decreases e, 0
  {
    hide TextureCall, TextureParam, Hlsl, Translate, EvalArgs, FindSampler, GlslCall, HlslCall, Bindings, Known;
    TextureParts(env, e);
    var n, m, cs := e.obj.tok.text, e.fn, CoordsOf(env, e);
    var g, h := FreeGlsl(env, bound, shape), FreeHlsl(shape);
    ArgsExact(env, bound, shape, cs);
    EvalCons(e.obj, TranslateArgs(env, cs), g);
    var us, vs := EvalArgs(TranslateArgs(env, cs), g), EvalArgs(cs, h);
    assert Eval(Translate(env, e), g) == GlslCall(env, bound, shape, TextureFn(env, n, m), [Leaf(Ident(n))] + us);
    MethodBack(env, n, m);
    SpokenExact(env, e);
    AlikeCoords(env, shape, e);
    if IsSampled(env, n, m) {
      BindingsConcat(bound, [(n, SamplerIndex(env, e.args[0].tok.text))], BindsArgs(env, cs));
      SampledExact(env, bound, shape, e, us, vs);
    } else {
      LoadedExact(env, bound, shape, e, us, vs);
    }
  }

  lemma {:induction false} AlikeCoords(env: Env, shape: Term -> Shape, e: Expr)
    requires e.Method? && IsTextureCall(env, e.obj, e.fn, e.args)
    ensures AlikeTerms(env, shape, e) <==> forall a :: a in CoordsOf(env, e) ==> AlikeTerms(env, shape, a)
  {
    hide IsTextureCall, CoordsOf;
  }

  lemma {:induction false} SpokenExact(env: Env, e: Expr)
    requires e.Method? && Hlsl(env, e)
    ensures TextureMethod(env, e.obj.tok.text, e.fn)
    ensures Spoken(env, e) <==>
            && |CoordsOf(env, e)| == Coordinates(e.fn) && TypeFits(env, e.obj.tok.text, e.fn)
            && forall a :: a in CoordsOf(env, e) ==> Spoken(env, a)
  {
    TextureParts(env, e);
    hide TextureCall, TextureParam, Hlsl, TypeFits;
    var cs := CoordsOf(env, e);
    if IsSampled(env, e.obj.tok.text, e.fn) {
      assert e.args == [e.args[0]] + cs && Spoken(env, e.args[0]);
      assert forall a :: a in e.args <==> a == e.args[0] || a in cs;
    }
  }

  lemma {:induction false} SampledExact(env: Env, bound: map<string, nat>, shape: Term -> Shape, e: Expr,
                                        us: seq<Term>, vs: seq<Term>)
    requires e.Method? && Hlsl(env, e) && Known(env, bound) && TextureMethod(env, e.obj.tok.text, e.fn)
    requires IsSampled(env, e.obj.tok.text, e.fn) && vs == EvalArgs(CoordsOf(env, e), FreeHlsl(shape)) && |us| == |vs|
    ensures (GlslCall(env, bound, shape, TextureFn(env, e.obj.tok.text, e.fn), [Leaf(Ident(e.obj.tok.text))] + us) ==
             Eval(e, FreeHlsl(shape)))
            <==> (us == vs && |us| == Coordinates(e.fn) && TypeFits(env, e.obj.tok.text, e.fn) &&
                  Bindings(bound, [(e.obj.tok.text, SamplerIndex(env, e.args[0].tok.text))]))
  {
    hide TextureCall, TextureParam, Hlsl, Translate, EvalArgs, HlslCall;
    TextureParts(env, e);
    var n, m := e.obj.tok.text, e.fn;
    var h, s := FreeHlsl(shape), e.args[0].tok;
    EvalCons(e.args[0], CoordsOf(env, e), h);
    assert Eval(e, h) == Use(Leaf(Ident(n)), m, [Leaf(s)] + vs);
    SamplerNamed(env, s.text);
    assert (n, SamplerIndex(env, s.text)) in [(n, SamplerIndex(env, s.text))];
    MethodBack(env, n, m);
    var all := [Leaf(Ident(n))] + us;
    assert all[1..] == us;
    if Ready(env, bound, n, m) && |us| == Coordinates(m) {
      var t := Ident(env.samplers[bound[n]]);
      assert Leaves([t]) == [Leaf(t)] by { assert [t][1..] == []; }
      var a, b := [Leaf(t)] + us, [Leaf(s)] + vs;
      assert a[0] == Leaf(t) && b[0] == Leaf(s) && a[1..] == us && b[1..] == vs;
      assert t == s <==> bound[n] == SamplerIndex(env, s.text);
    }
  }

  lemma {:induction false} LoadedExact(env: Env, bound: map<string, nat>, shape: Term -> Shape, e: Expr,
                                       us: seq<Term>, vs: seq<Term>)
    requires e.Method? && Hlsl(env, e) && TextureMethod(env, e.obj.tok.text, e.fn)
    requires !IsSampled(env, e.obj.tok.text, e.fn) && vs == EvalArgs(CoordsOf(env, e), FreeHlsl(shape)) && |us| == |vs|
    ensures GlslCall(env, bound, shape, TextureFn(env, e.obj.tok.text, e.fn), [Leaf(Ident(e.obj.tok.text))] + us) ==
            Eval(e, FreeHlsl(shape))
            <==> us == vs && |us| == Coordinates(e.fn) && TypeFits(env, e.obj.tok.text, e.fn)
  {
    hide TextureCall, TextureParam, Hlsl, Translate, EvalArgs, HlslCall;
    TextureParts(env, e);
    var n, m := e.obj.tok.text, e.fn;
    assert Eval(e, FreeHlsl(shape)) == Use(Leaf(Ident(n)), m, vs);
    MethodBack(env, n, m);
    var all := [Leaf(Ident(n))] + us;
    assert all[1..] == us && Leaves([]) + us == us;
  }
}
