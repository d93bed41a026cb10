/** What the transpiled expression means, given the sampler each texture ends up with. */
module GlMeaning {
  import opened Tokens
  import opened Expressions
  import opened GlStream
  import opened Options
  import opened GlTranslation
  import opened GlFrames
  import opened GlSettled
  import opened GlExact
  import GlBlanks

  // ---- the translation of a well-formed tree is well-formed ----

  lemma {:induction false} TranslateWellFormed(env: Env, e: Expr)
    requires WellFormed(e) && Hlsl(env, e)
    ensures WellFormed(Translate(env, e)) && Level(Translate(env, e)) == Level(e)
    decreases e
  {
    match e
    case Atom(_) =>
    case Paren(x) => TranslateWellFormed(env, x);
    case Call(f, args) =>
      forall i | 0 <= i < |args|
        ensures WellFormed(TranslateArgs(env, args)[i])
      {
        TranslateWellFormed(env, args[i]);
        TranslateArgsAt(env, args, i);
      }
      var ts := TranslateArgs(env, args);
      if f == "mul" {
        ProductsWellFormed(ts[0], ts[1], ts[1]);
      } else if f == "mad" {
        ProductsWellFormed(ts[0], ts[1], ts[2]);
      }
    case Method(o, m, args) =>
      forall i | 0 <= i < |args|
        ensures WellFormed(TranslateArgs(env, args)[i])
      {
        TranslateWellFormed(env, args[i]);
        TranslateArgsAt(env, args, i);
      }
    case Member(o, _) => TranslateWellFormed(env, o);
    case Index(a, i) =>
      TranslateWellFormed(env, a);
      TranslateWellFormed(env, i);
    case Unary(_, x) => TranslateWellFormed(env, x);
    case Binary(_, l, r) =>
      TranslateWellFormed(env, l);
      TranslateWellFormed(env, r);
    case Cond(t, y, n) =>
      TranslateWellFormed(env, t);
      TranslateWellFormed(env, y);
      TranslateWellFormed(env, n);
  }

  lemma {:induction false} ProductsWellFormed(x: Expr, y: Expr, z: Expr)
    requires WellFormed(x) && WellFormed(y) && WellFormed(z)
    ensures WellFormed(Product(x, y)) && WellFormed(ProductSum(x, y, z))
  {
    var p := Binary(Times, Paren(x), Paren(y));
    assert WellFormed(Paren(x)) && WellFormed(Paren(y)) && WellFormed(Paren(z));
    assert WellFormed(p);
    assert WellFormed(Binary(Plus, p, Paren(z)));
  }

  lemma {:induction false} TranslateArgsAt(env: Env, args: seq<Expr>, i: nat)
    requires i < |args|
    ensures TranslateArgs(env, args)[i] == Translate(env, args[i])
  {
    if i > 0 {
      TranslateArgsAt(env, args[1..], i - 1);
    }
  }

  // ---- meaning ----

  const TEXTURE_FUNCTIONS: set<string> := {"texture", "textureGrad", "textureLod", "obs_load_2d", "obs_load_3d"}

  /** The HLSL name of a GLSL type or function that the transpiler writes, by its number of arguments. */
  function Native(f: string, arity: nat): string {
    if f == "vec2" then "float2"
    else if f == "vec3" then "float3"
    else if f == "vec4" then "float4"
    else if f == "ivec2" then "int2"
    else if f == "ivec3" then "int3"
    else if f == "ivec4" then "int4"
    else if f == "uvec2" then "uint2"
    else if f == "uvec3" then "uint3"
    else if f == "uvec4" then "uint4"
    else if f == "mat3x3" then "float3x3"
    else if f == "mat3x4" then "float3x4"
    else if f == "mat4x4" then "float4x4"
    else if f == "sampler2D" then "texture2d"
    else if f == "sampler3D" then "texture3d"
    else if f == "samplerCube" then "texture_cube"
    else if f == "sampler2DRect" then "texture_rect"
    else if f == "atan" && arity == 2 then "atan2"
    else if f == "dFdx" then "ddx"
    else if f == "dFdy" then "ddy"
    else if f == "mod" then "fmod"
    else if f == "fract" then "frac"
    else if f == "mix" then "lerp"
    else if f == "inversesqrt" then "rsqrt"
    else f
  }

  /** How many coordinates the GLSL counterpart of a texture method takes. */
  function Coordinates(m: string): nat {
    if m == "SampleGrad" then 3 else if m == "SampleBias" || m == "SampleLevel" then 2 else 1
  }

  predicate TextureMethod(env: Env, n: string, m: string) {
    TextureParam(env, n).Some? && TextureCall(TextureParam(env, n).value, m).Some?
  }

  function TextureFn(env: Env, n: string, m: string): string
    requires TextureMethod(env, n, m)
  {
    TextureCall(TextureParam(env, n).value, m).value.0
  }

  predicate IsSampled(env: Env, n: string, m: string)
    requires TextureMethod(env, n, m)
  {
    TextureCall(TextureParam(env, n).value, m).value.1
  }

  /** GLSL 3.30 has this texture function for this type of sampler with so many coordinates: no levels of detail and no
      bias on rectangles, and each of the two functions that the transpiler defines takes one type. */
  predicate Takes(f: string, coords: nat, sampler: string) {
    if f == "obs_load_2d" then sampler == "sampler2D"
    else if f == "obs_load_3d" then sampler == "sampler3D"
    else if f == "textureLod" || coords == 2 then sampler in {"sampler2D", "sampler3D", "samplerCube"}
    else sampler in {"sampler2D", "sampler3D", "samplerCube", "sampler2DRect"}
  }

  /** The function that a texture method becomes is there for the type that the texture is declared with. */
  predicate TypeFits(env: Env, n: string, m: string)
    requires TextureMethod(env, n, m)
  {
    Takes(TextureFn(env, n, m), Coordinates(m), Rename(TextureParam(env, n).value.typ))
  }

  const TEXTURE_TYPES: set<string> := {"texture2d", "texture3d", "texture_cube", "texture_rect"}

  /** Exactly when that is so, for each type of texture and each method. */
  lemma {:induction false} FitsExact(env: Env, n: string, m: string)
    requires TextureMethod(env, n, m) && TextureParam(env, n).value.typ in TEXTURE_TYPES
    ensures var typ := TextureParam(env, n).value.typ;
            TypeFits(env, n, m)
            <==> m in {"Sample", "SampleGrad"} || (m in {"SampleBias", "SampleLevel"} && typ != "texture_rect") ||
                 (m == "Load" && typ in {"texture2d", "texture3d"})
  {
  }

  /** Samplers are known by the first index their name is declared at. */
  predicate Known(env: Env, bound: map<string, nat>) {
    forall n :: n in bound ==>
      bound[n] < |env.samplers| && FindSampler(env.samplers, env.samplers[bound[n]]) == Some(bound[n])
  }

  /** The texture is sampled the way GLSL does it: with the sampler bound to it. */
  predicate Ready(env: Env, bound: map<string, nat>, n: string, m: string) {
    TextureMethod(env, n, m) && TypeFits(env, n, m) &&
    (IsSampled(env, n, m) ==> n in bound && bound[n] < |env.samplers|)
  }

  function SamplerOf(env: Env, bound: map<string, nat>, n: string, m: string): seq<Token>
    requires Ready(env, bound, n, m)
  {
    if IsSampled(env, n, m) then [Ident(env.samplers[bound[n]])] else []
  }

  function Atoms<V>(h: Meaning<V>, ts: seq<Token>): (vs: seq<V>)
    ensures |vs| == |ts|
  {
    if ts == [] then [] else [h.atom(ts[0])] + Atoms(h, ts[1..])
  }

  // The dictionary of gl-shaderparser.c:246-269, read from GLSL: what the transpiler's GLSL names and operators mean
  // in HLSL terms. Each of its equations is asked for only at the values that the subexpressions of an expression
  // take, as the languages differ elsewhere.

  /** A function of the translation, at these arguments. */
  predicate CallReads<V(==)>(f: string, vs: seq<V>, h: Meaning<V>, g: Meaning<V>) {
    if f == "mul" && |vs| == 2 then h.call("mul", vs) == g.binary(Times, vs[0], vs[1])
    else if f == "mad" && |vs| == 3 then h.call("mad", vs) == g.binary(Plus, g.binary(Times, vs[0], vs[1]), vs[2])
    else if f == "saturate" && |vs| == 1 then
      h.call("saturate", vs) == g.call("clamp", [vs[0], g.atom(Num1("0.0")), g.atom(Num1("1.0"))])
    else g.call(Rename(f), vs) == h.call(Native(Rename(f), |vs|), vs)
  }

  /** A texture call at these coordinates. In GLSL it names no sampler: it uses the one bound to the texture, of
      which there is one for the whole shader. */
  predicate TextureReads<V(==)>(env: Env, bound: map<string, nat>, n: string, m: string, cs: seq<V>, h: Meaning<V>,
                                g: Meaning<V>) {
    && g.atom(Ident(n)) == h.atom(Ident(n))
    && (Ready(env, bound, n, m) && |cs| == Coordinates(m) ==>
          g.call(TextureFn(env, n, m), [h.atom(Ident(n))] + cs)
          == h.methodCall(h.atom(Ident(n)), m, Atoms(h, SamplerOf(env, bound, n, m)) + cs))
  }

  /** The two languages read every part of e alike, at the values that its subexpressions take. */
  predicate Reads<V(==)>(env: Env, bound: map<string, nat>, e: Expr, h: Meaning<V>, g: Meaning<V>) {
    match e
    case Atom(t) => g.atom(t) == h.atom(t)
    case Paren(x) => Reads(env, bound, x, h, g)
    case Call(f, args) =>
      (forall a :: a in args ==> Reads(env, bound, a, h, g)) && CallReads(f, EvalArgs(args, h), h, g)
    case Method(o, m, args) =>
      && IsTextureCall(env, o, m, args)
      && (forall a :: a in CoordsOf(env, e) ==> Reads(env, bound, a, h, g))
      && TextureReads(env, bound, o.tok.text, m, EvalArgs(CoordsOf(env, e), h), h, g)
    case Member(o, m) => Reads(env, bound, o, h, g) && g.member(Eval(o, h), m) == h.member(Eval(o, h), m)
    case Index(a, i) =>
      && Reads(env, bound, a, h, g) && Reads(env, bound, i, h, g)
      && g.index(Eval(a, h), Eval(i, h)) == h.index(Eval(a, h), Eval(i, h))
    case Unary(op, x) => Reads(env, bound, x, h, g) && g.unary(op, Eval(x, h)) == h.unary(op, Eval(x, h))
    case Binary(op, l, r) =>
      && Reads(env, bound, l, h, g) && Reads(env, bound, r, h, g)
      && g.binary(op, Eval(l, h), Eval(r, h)) == h.binary(op, Eval(l, h), Eval(r, h))
    case Cond(t, y, n) =>
      && Reads(env, bound, t, h, g) && Reads(env, bound, y, h, g) && Reads(env, bound, n, h, g)
      && g.cond(Eval(t, h), Eval(y, h), Eval(n, h)) == h.cond(Eval(t, h), Eval(y, h), Eval(n, h))
  }

  /** A function called by a name that comes back from GLSL: no function of the shader's own may take one of the
      GLSL names. */
  predicate Named(f: string, arity: nat) {
    Rename(f) !in TEXTURE_FUNCTIONS && Native(Rename(f), arity) == f
  }

  const HLSL_TYPES: set<string> := {
    "float2", "float3", "float4", "int2", "int3", "int4", "uint2", "uint3", "uint4", "float3x3", "float3x4", "float4x4",
    "texture2d", "texture3d", "texture_cube", "texture_rect"}

  const HLSL_FUNCTIONS: set<string> := {"ddx", "ddy", "fmod", "frac", "lerp", "rsqrt"}

  const GLSL_NAMES: set<string> := {
    "vec2", "vec3", "vec4", "ivec2", "ivec3", "ivec4", "uvec2", "uvec3", "uvec4", "mat3x3", "mat3x4", "mat4x4",
    "sampler2D", "sampler3D", "samplerCube", "sampler2DRect", "dFdx", "dFdy", "mod", "fract", "mix", "inversesqrt"}

  /** Exactly which functions have a counterpart: every type, every intrinsic that is renamed, and every function that
      does not have a name with another meaning in GLSL. */
  lemma {:induction false} NamedExactly(f: string, n: nat)
    ensures Named(f, n) <==>
            || f in HLSL_TYPES || f in HLSL_FUNCTIONS || (f == "atan2" && n == 2)
            || (f !in GLSL_NAMES && f !in TEXTURE_FUNCTIONS && f != "atan2" && !(f == "atan" && n == 2))
  {
    if f in HLSL_TYPES {
      TypeNamed(f, n);
    } else if f in HLSL_FUNCTIONS || f == "atan2" {
      FunctionNamed(f, n);
    } else {
      PlainNamed(f, n);
    }
  }

  lemma {:induction false} VectorsNamed(n: nat)
    ensures Rename("float2") == "vec2" && Rename("float3") == "vec3" && Rename("float4") == "vec4"
    ensures Named("float2", n) && Named("float3", n) && Named("float4", n)
  {
  }

  lemma {:induction false} IntVectorsNamed(n: nat)
    ensures Rename("int2") == "ivec2" && Rename("int3") == "ivec3" && Rename("int4") == "ivec4"
    ensures Named("int2", n) && Named("int3", n) && Named("int4", n)
  {
  }

  lemma {:induction false} UintVectorsNamed(n: nat)
    ensures Rename("uint2") == "uvec2" && Rename("uint3") == "uvec3" && Rename("uint4") == "uvec4"
    ensures Named("uint2", n) && Named("uint3", n) && Named("uint4", n)
  {
  }

  lemma {:induction false} MatricesNamed(n: nat)
    ensures Rename("float3x3") == "mat3x3" && Rename("float3x4") == "mat3x4" && Rename("float4x4") == "mat4x4"
    ensures Named("float3x3", n) && Named("float3x4", n) && Named("float4x4", n)
  {
  }

  lemma {:induction false} TexturesNamed(n: nat)
    ensures Rename("texture2d") == "sampler2D" && Rename("texture3d") == "sampler3D"
    ensures Rename("texture_cube") == "samplerCube" && Rename("texture_rect") == "sampler2DRect"
    ensures Named("texture2d", n) && Named("texture3d", n) && Named("texture_cube", n) && Named("texture_rect", n)
  {
  }

  lemma {:induction false} FunctionsNamed(n: nat)
    ensures Rename("ddx") == "dFdx" && Rename("ddy") == "dFdy" && Rename("fmod") == "mod"
    ensures Named("ddx", n) && Named("ddy", n) && Named("fmod", n)
  {
  }

  lemma {:induction false} MoreFunctionsNamed(n: nat)
    ensures Rename("frac") == "fract" && Rename("lerp") == "mix" && Rename("rsqrt") == "inversesqrt"
    ensures Named("frac", n) && Named("lerp", n) && Named("rsqrt", n)
  {
  }

  lemma {:induction false} AtanNamed(n: nat)
    ensures Rename("atan2") == "atan" && (Named("atan2", n) <==> n == 2)
  {
  }

  /** The name of each of the 16 types and 7 intrinsics in GLSL. */
  lemma {:induction false} Counterparts()
    ensures Rename("float2") == "vec2" && Rename("float3") == "vec3" && Rename("float4") == "vec4"
    ensures Rename("int2") == "ivec2" && Rename("int3") == "ivec3" && Rename("int4") == "ivec4"
    ensures Rename("uint2") == "uvec2" && Rename("uint3") == "uvec3" && Rename("uint4") == "uvec4"
    ensures Rename("float3x3") == "mat3x3" && Rename("float3x4") == "mat3x4" && Rename("float4x4") == "mat4x4"
    ensures Rename("texture2d") == "sampler2D" && Rename("texture3d") == "sampler3D"
    ensures Rename("texture_cube") == "samplerCube" && Rename("texture_rect") == "sampler2DRect"
    ensures Rename("atan2") == "atan" && Rename("ddx") == "dFdx" && Rename("ddy") == "dFdy"
    ensures Rename("fmod") == "mod" && Rename("frac") == "fract" && Rename("lerp") == "mix"
    ensures Rename("rsqrt") == "inversesqrt"
  {
    VectorsNamed(0);
    IntVectorsNamed(0);
    UintVectorsNamed(0);
    MatricesNamed(0);
    TexturesNamed(0);
    FunctionsNamed(0);
    MoreFunctionsNamed(0);
    AtanNamed(0);
    hide Rename;
  }

  lemma {:induction false} TypeNamed(f: string, n: nat)
    requires f in HLSL_TYPES
    ensures Named(f, n)
  {
    VectorsNamed(n);
    IntVectorsNamed(n);
    UintVectorsNamed(n);
    MatricesNamed(n);
    TexturesNamed(n);
    hide Named;
  }

  lemma {:induction false} FunctionNamed(f: string, n: nat)
    requires f in HLSL_FUNCTIONS || f == "atan2"
    ensures Named(f, n) <==> f != "atan2" || n == 2
  {
    FunctionsNamed(n);
    MoreFunctionsNamed(n);
    AtanNamed(n);
    hide Named;
  }

  lemma {:induction false} PlainNamed(f: string, n: nat)
    requires f !in HLSL_TYPES && f !in HLSL_FUNCTIONS && f != "atan2"
    ensures Rename(f) == f
    ensures Named(f, n) <==> f !in GLSL_NAMES && f !in TEXTURE_FUNCTIONS && !(f == "atan" && n == 2)
  {
  }

  /** All functions have a GLSL counterpart with as many arguments, and texture functions for the texture's type. */
  predicate Spoken(env: Env, e: Expr) {
    match e
    case Atom(_) => true
    case Paren(x) => Spoken(env, x)
    case Call(f, args) => (forall a :: a in args ==> Spoken(env, a)) && (IsExpanded(f) || Named(f, |args|))
    case Method(o, m, args) =>
      && (forall a :: a in args ==> Spoken(env, a))
      && (IsTextureCall(env, o, m, args) ==>
            |args| == Coordinates(m) + (if IsSampled(env, o.tok.text, m) then 1 else 0) && TypeFits(env, o.tok.text, m))
    case Member(o, _) => Spoken(env, o)
    case Index(a, i) => Spoken(env, a) && Spoken(env, i)
    case Unary(_, x) => Spoken(env, x)
    case Binary(_, l, r) => Spoken(env, l) && Spoken(env, r)
    case Cond(t, y, n) => Spoken(env, t) && Spoken(env, y) && Spoken(env, n)
  }

  /** Every use of a texture names the sampler that it ends up with. */
  predicate Bindings(bound: map<string, nat>, b: seq<(string, nat)>) {
    forall p :: p in b ==> p.0 in bound && bound[p.0] == p.1
  }

  predicate Agrees(env: Env, bound: map<string, nat>, e: Expr) {
    Spoken(env, e) && Bindings(bound, Binds(env, e))
  }

  /** Where the languages read an expression alike and its samplers agree, the value of the translated tree in
      GLSL is the value of the source tree in HLSL. */
  lemma {:induction false} TranslateMeans<V>(env: Env, bound: map<string, nat>, e: Expr, h: Meaning<V>, g: Meaning<V>)
    requires Hlsl(env, e) && Reads(env, bound, e, h, g) && Known(env, bound) && Agrees(env, bound, e)
    ensures Eval(Translate(env, e), g) == Eval(e, h)
    decreases e, 1
  {
    hide Known, Bindings, CallReads, TextureReads;
    match e
    case Atom(t) =>
    case Paren(x) => TranslateMeans(env, bound, x, h, g);
    case Call(f, args) => CallMeans(env, bound, e, h, g);
    case Method(o, m, args) => TextureMeans(env, bound, e, h, g);
    case Member(o, m) => TranslateMeans(env, bound, o, h, g);
    case Index(a, i) =>
      BindingsConcat(bound, Binds(env, a), Binds(env, i));
      TranslateMeans(env, bound, a, h, g);
      TranslateMeans(env, bound, i, h, g);
    case Unary(op, x) => TranslateMeans(env, bound, x, h, g);
    case Binary(op, l, r) =>
      BindingsConcat(bound, Binds(env, l), Binds(env, r));
      TranslateMeans(env, bound, l, h, g);
      TranslateMeans(env, bound, r, h, g);
    case Cond(t, y, n) =>
      BindingsConcat(bound, Binds(env, t), Binds(env, y) + Binds(env, n));
      BindingsConcat(bound, Binds(env, y), Binds(env, n));
      TranslateMeans(env, bound, t, h, g);
      TranslateMeans(env, bound, y, h, g);
      TranslateMeans(env, bound, n, h, g);
  }

  lemma {:induction false} BindingsConcat(bound: map<string, nat>, a: seq<(string, nat)>, b: seq<(string, nat)>)
    ensures Bindings(bound, a + b) <==> Bindings(bound, a) && Bindings(bound, b)
  {
    if Bindings(bound, a + b) {
      assert forall p :: p in a ==> p in a + b;
      assert forall p :: p in b ==> p in a + b;
    }
  }

  lemma {:induction false} ArgsMean<V>(env: Env, bound: map<string, nat>, args: seq<Expr>, h: Meaning<V>, g: Meaning<V>)
    requires (forall a :: a in args ==> Hlsl(env, a) && Spoken(env, a)) && Bindings(bound, BindsArgs(env, args))
    requires (forall a :: a in args ==> Reads(env, bound, a, h, g)) && Known(env, bound)
    ensures EvalArgs(TranslateArgs(env, args), g) == EvalArgs(args, h)
    decreases args, 0
  {
    hide Reads, Known, Bindings;
    if args != [] {
      BindingsConcat(bound, Binds(env, args[0]), BindsArgs(env, args[1..]));
      TranslateMeans(env, bound, args[0], h, g);
      ArgsMean(env, bound, args[1..], h, g);
      var ts := TranslateArgs(env, args);
      assert ts[1..] == TranslateArgs(env, args[1..]);
    }
  }

  lemma {:induction false} EvalArgsAt<V>(args: seq<Expr>, m: Meaning<V>, i: nat)
    requires i < |args|
    ensures EvalArgs(args, m)[i] == Eval(args[i], m)
  {
    if i > 0 {
      EvalArgsAt(args[1..], m, i - 1);
    }
  }

  lemma {:induction false} CallMeans<V>(env: Env, bound: map<string, nat>, e: Expr, h: Meaning<V>, g: Meaning<V>)
    requires e.Call? && Hlsl(env, e) && Reads(env, bound, e, h, g) && Known(env, bound) && Agrees(env, bound, e)
    ensures Eval(Translate(env, e), g) == Eval(e, h)
    decreases e, 0
  {
    hide Known, Bindings, Native, Rename;
    var f, args := e.fn, e.args;
    ArgsMean(env, bound, args, h, g);
    var ts, vs := TranslateArgs(env, args), EvalArgs(args, h);
    if IsExpanded(f) {
      forall i | 0 <= i < |args|
        ensures Eval(ts[i], g) == vs[i]
      {
        EvalArgsAt(ts, g, i);
      }
      ExpandedMeans(f, ts, vs, h, g);
      assert Translate(env, e) == Expanded(f, ts) by { TranslateExpanded(env, e); }
    }
  }

  /** What an expanded intrinsic becomes, from its translated arguments. */
  function Expanded(f: string, ts: seq<Expr>): Expr
    requires IsExpanded(f) && f != "sincos" && |ts| == if f == "mul" then 2 else if f == "mad" then 3 else 1
  {
    if f == "mul" then Product(ts[0], ts[1])
    else if f == "mad" then ProductSum(ts[0], ts[1], ts[2])
    else Call("clamp", [ts[0], Atom(Num1("0.0")), Atom(Num1("1.0"))])
  }

  lemma {:induction false} TranslateExpanded(env: Env, e: Expr)
    requires e.Call? && IsExpanded(e.fn) && Hlsl(env, e)
    ensures Translate(env, e) == Expanded(e.fn, TranslateArgs(env, e.args))
  {
  }

  lemma {:induction false} ExpandedMeans<V>(f: string, ts: seq<Expr>, vs: seq<V>, h: Meaning<V>, g: Meaning<V>)
    requires IsExpanded(f) && f != "sincos" && |ts| == |vs| == if f == "mul" then 2 else if f == "mad" then 3 else 1
    requires (forall i :: 0 <= i < |ts| ==> Eval(ts[i], g) == vs[i]) && CallReads(f, vs, h, g)
    ensures Eval(Expanded(f, ts), g) == h.call(f, vs)
  {
    hide Rename, Native;
    if f == "mul" {
      EvalProducts(ts[0], ts[1], ts[1], g);
    } else if f == "mad" {
      EvalProducts(ts[0], ts[1], ts[2], g);
    } else {
      ClampArgs(ts[0], g);
    }
  }

  lemma {:induction false} EvalProducts<V>(x: Expr, y: Expr, z: Expr, g: Meaning<V>)
    ensures Eval(Product(x, y), g) == g.binary(Times, Eval(x, g), Eval(y, g))
    ensures Eval(ProductSum(x, y, z), g) == g.binary(Plus, g.binary(Times, Eval(x, g), Eval(y, g)), Eval(z, g))
  {
    var p := Binary(Times, Paren(x), Paren(y));
    assert Eval(p, g) == g.binary(Times, Eval(Paren(x), g), Eval(Paren(y), g));
    assert Eval(Binary(Plus, p, Paren(z)), g) == g.binary(Plus, Eval(p, g), Eval(Paren(z), g));
  }

  lemma {:induction false} EvalCons<V>(x: Expr, xs: seq<Expr>, m: Meaning<V>)
    ensures EvalArgs([x] + xs, m) == [Eval(x, m)] + EvalArgs(xs, m)
  {
    assert ([x] + xs)[1..] == xs;
  }

  lemma {:induction false} ClampArgs<V>(x: Expr, g: Meaning<V>)
    ensures EvalArgs([x, Atom(Num1("0.0")), Atom(Num1("1.0"))], g) ==
            [Eval(x, g), g.atom(Num1("0.0")), g.atom(Num1("1.0"))]
  {
    var a := [x, Atom(Num1("0.0")), Atom(Num1("1.0"))];
    EvalArgsAt(a, g, 0);
    EvalArgsAt(a, g, 1);
    EvalArgsAt(a, g, 2);
  }

  /** A texture call taken apart: its coordinates, its translation and the sampler it names. */
  lemma {:induction false} TextureParts(env: Env, e: Expr)
    requires e.Method? && Hlsl(env, e)
    ensures IsTextureCall(env, e.obj, e.fn, e.args) && TextureMethod(env, e.obj.tok.text, e.fn)
    ensures e.obj == Atom(Ident(e.obj.tok.text))
    ensures forall a :: a in CoordsOf(env, e) ==> Hlsl(env, a)
    ensures Translate(env, e) ==
            Call(TextureFn(env, e.obj.tok.text, e.fn), [e.obj] + TranslateArgs(env, CoordsOf(env, e)))
    ensures if IsSampled(env, e.obj.tok.text, e.fn)
            then |e.args| >= 2 && e.args[0] == Atom(Ident(e.args[0].tok.text)) && e.args[0].tok.text in env.samplers
                 && e.args == [e.args[0]] + CoordsOf(env, e)
                 && Binds(env, e) ==
                   [(e.obj.tok.text, SamplerIndex(env, e.args[0].tok.text))] + BindsArgs(env, CoordsOf(env, e))
            else e.args == CoordsOf(env, e) && Binds(env, e) == BindsArgs(env, e.args)
  {
    hide TextureCall, TextureParam;
  }

  lemma {:induction false} TextureMeans<V>(env: Env, bound: map<string, nat>, e: Expr, h: Meaning<V>, g: Meaning<V>)
    requires e.Method? && Hlsl(env, e) && Reads(env, bound, e, h, g) && Known(env, bound) && Agrees(env, bound, e)
    ensures Eval(Translate(env, e), g) == Eval(e, h)
    decreases e, 0
  {
    hide TextureCall, TextureParam, Hlsl, Translate, EvalArgs, FindSampler;
    TextureParts(env, e);
    var n, m, cs := e.obj.tok.text, e.fn, CoordsOf(env, e);
    if IsSampled(env, n, m) {
      var s := SamplerIndex(env, e.args[0].tok.text);
      BindingsConcat(bound, [(n, s)], BindsArgs(env, cs));
      assert (n, s) in [(n, s)];
      SamplerNamed(env, e.args[0].tok.text);
      EvalCons(e.args[0], cs, h);
      AtomsOne(h, e.args[0].tok);
    }
    SpokenCoords(env, e);
    ArgsMean(env, bound, cs, h, g);
    EvalCons(e.obj, TranslateArgs(env, cs), g);
    assert Atoms(h, []) + EvalArgs(cs, h) == EvalArgs(cs, h);
  }

  lemma {:induction false} SamplerNamed(env: Env, name: string)
    requires name in env.samplers
    ensures SamplerIndex(env, name) < |env.samplers| && env.samplers[SamplerIndex(env, name)] == name
  {
  }

  lemma {:induction false} AtomsOne<V>(h: Meaning<V>, t: Token)
    ensures Atoms(h, [t]) == [h.atom(t)]
  {
    assert [t][1..] == [];
  }

  lemma {:induction false} SpokenCoords(env: Env, e: Expr)
    requires e.Method? && Hlsl(env, e) && Spoken(env, e)
    ensures |CoordsOf(env, e)| == Coordinates(e.fn) && forall a :: a in CoordsOf(env, e) ==> Spoken(env, a)
  {
  }

  // ---- from token stream to value ----

  /** Where an expression may end: at the token the streamer is looking for. */
  predicate EndsAt(k: seq<Token>, end: string) {
    Tail(k) && end in ENDS && k[0] == Token(Other, end)
  }

  /** Main theorem. Take any layout, blanks included, of the tokens of an expression that settles. They parse as
      that expression; the streamer stops right after it; and what it wrote parses as one GLSL expression, which
      has the same value if the languages read the expression alike and the samplers agree. */
  lemma {:induction false} MeaningPreserved<V>(env: Env, bound: map<string, nat>, s: seq<Token>, e: Expr,
                                               k: seq<Token>, end: string, c: nat, h: Meaning<V>, g: Meaning<V>)
    requires IsStream(s) && Lexed(s) && Strip(s) == Print(e, k)
    requires WellFormed(e) && Hlsl(env, e) && EndsAt(k, end) && Settled(env, e, end)
    requires Reads(env, bound, e, h, g) && Known(env, bound) && Agrees(env, bound, e)
    ensures ParseExpr(Strip(s)) == Parsed(e, k)
    ensures var q := Scan(env, s, end, c);
            && Strip(q.rest) == k && q.next == c && q.binds == Binds(env, e)
            && var p := ParseExpr(Strip(q.out));
               p.Parsed? && p.rest == [] && Eval(p.value, g) == Eval(e, h)
  {
    hide Scan, Strip, Print, ParseExpr, Hlsl, WellFormed, Reads, PeekOp, Settled, Known, Agrees, Translate, Binds,
         Text;
    PeekStop(env, e, k, end);
    ExprReads(e, k);
    GlBlanks.ScanSame(env, s, end, c);
    SettledExact(env, e, k, end, c);
    StopsHere(env, k, end, c);
    TextStrips(env, e);
    TranslateWellFormed(env, e);
    PeekEmpty();
    ExprReads(Translate(env, e), []);
    TranslateMeans(env, bound, e, h, g);
    assert Binds(env, e) + [] == Binds(env, e) && Text(env, e) + [] == Text(env, e);
  }

  lemma {:induction false} PeekStop(env: Env, e: Expr, k: seq<Token>, end: string)
    requires EndsAt(k, end)
    ensures EndsExpr(k) && (WellFormed(e) && Hlsl(env, e) ==> Fits(env, e, k, end))
  {
  }

  lemma {:induction false} PeekEmpty()
    ensures EndsExpr([])
  {
  }

  lemma {:induction false} StopsHere(env: Env, k: seq<Token>, end: string, c: nat)
    requires EndsAt(k, end)
    ensures Scan(env, k, end, c) == Step(k, [], c, [])
  {
  }

  // ---- a second factor that begins with a parenthesis ----

  /** What the streamer makes of mul(x, (p) op r): it takes the parenthesis behind p for the end of the call. */
  lemma {:induction false} LedProduct(env: Env, x: Expr, p: Expr, op: BinaryOp, r: Expr, k: seq<Token>, end: string,
                                      c: nat)
    requires Clean(env, x) && Clean(env, p) && Clean(env, r) && Level(r) > Prec(op) && EndsAt(k, end) && end != ")"
    ensures var s := Print(Call("mul", [x, Binary(op, Paren(p), r)]), k);
            && Tail(s)
            && Scan(env, s, end, c)
               == Step(k, [LPAREN, LPAREN] + Text(env, x) + BETWEEN + ([LPAREN] + (Text(env, p) + ([RPAREN, RPAREN]
                            + (OpTokens(op) + (Text(env, r) + [RPAREN]))))), c, Binds(env, x) +
                              (Binds(env, p) + Binds(env, r)))
  {
    hide Scan, Print, Text, Binds, Hlsl, WellFormed, Guarded, Settle, Resume, Begin, OpTokens, NextToken;
    var y := Binary(op, Paren(p), r);
    var k' := [RPAREN] + k;
    TailCons(RPAREN, k);
    PrintTail(r, k');
    TailOp(op, Print(r, k'));
    var m := OpTokens(op) + Print(r, k');
    TailCons(RPAREN, m);
    var s3 := Print(p, [RPAREN] + m);
    PrintTail(p, [RPAREN] + m);
    TailCons(LPAREN, s3);
    PrintLed(x, p, op, r, k);
    StreamRegion(env, x, false, [LPAREN] + s3, c);
    GuardedSecondFirst(env, x);
    var s1 := Print(x, [COMMA] + ([LPAREN] + s3));
    ResumeMul(env, s1, [], end, c);
    NextOfCons(COMMA, [LPAREN] + s3);
    TailTwo(Ident("mul"), LPAREN, s1);
    assert [Ident("mul"), LPAREN] + s1 == [Ident("mul")] + ([LPAREN] + s1);
    assert [Factor] + [] == [Factor];
    BeginOpen(env, s3, [Factor], end, c);
    FactorText(env, p, m, end, c);
    ResumeClose(env, m, Factor, [], end, c);
    LedTail(env, op, r, k, end, c);
    var z := Resume(env, m, [], end, c);
    ResumeRoot(env, [Ident("mul")] + ([LPAREN] + s1), end, c);
    LedBinds(Binds(env, x), Binds(env, p), Binds(env, r));
  }

  lemma {:induction false} LedBinds(a: seq<(string, nat)>, b: seq<(string, nat)>, c: seq<(string, nat)>)
    ensures [] + c == c && a + (b + ([] + c)) == a + (b + c)
  {
  }

  lemma {:induction false} ResumeRoot(env: Env, s: seq<Token>, end: string, c: nat)
    requires IsStream(s)
    ensures Resume(env, s, [], end, c) == Scan(env, s, end, c)
  {
  }

  lemma {:induction false} GuardedSecondFirst(env: Env, x: Expr)
    requires Clean(env, x)
    ensures Settles(env, x, false)
  {
    StartValid();
    GuardedSettles(env, x, false, START, ",");
  }

  lemma {:induction false} PrintLed(x: Expr, p: Expr, op: BinaryOp, r: Expr, k: seq<Token>)
    ensures Print(Call("mul", [x, Binary(op, Paren(p), r)]), k)
         == [Ident("mul")] +
           ([LPAREN] + Print(x, [COMMA] + ([LPAREN] + Print(p, [RPAREN] + (OpTokens(op) + Print(r, [RPAREN] + k))))))
  {
    PrintCall2("mul", x, Binary(op, Paren(p), r), k);
    PrintBinary(op, Paren(p), r, [RPAREN] + k);
    PrintParen(p, OpTokens(op) + Print(r, [RPAREN] + k));
  }

  /** The parenthesised part, inside the frame of the product. */
  lemma {:induction false} FactorText(env: Env, p: Expr, m: seq<Token>, end: string, c: nat)
    requires Clean(env, p) && Tail(m) && end in ENDS
    ensures Tail(Print(p, [RPAREN] + m))
    ensures Resume(env, Print(p, [RPAREN] + m), [Factor], end, c)
         == After(Text(env, p), Binds(env, p), Resume(env, [RPAREN] + m, [Factor], end, c))
  {
    hide Resume, Hlsl, WellFormed, Guarded, Settle, Text, Binds, Print;
    StartValid();
    var push := Push(START, Factor, false);
    TailCons(RPAREN, m);
    StreamExpr(env, p, false, push, [RPAREN] + m, end, c);
    GuardedSettles(env, p, false, push, end);
    assert Live(push.slots) == [Factor];
    var q, r := Resume(env, Print(p, [RPAREN] + m), [Factor], end, c), Resume(env, [RPAREN] + m, [Factor], end, c);
    assert [] + q.out == q.out && Text(env, p) + [] + r.out == Text(env, p) + r.out;
  }

  lemma {:induction false} LedTail(env: Env, op: BinaryOp, r: Expr, k: seq<Token>, end: string, c: nat)
    requires Clean(env, r) && EndsAt(k, end) && end != ")"
    ensures Tail(OpTokens(op) + Print(r, [RPAREN] + k))
    ensures Resume(env, OpTokens(op) + Print(r, [RPAREN] + k), [], end, c)
         == Step(k, OpTokens(op) + (Text(env, r) + [RPAREN]), c, Binds(env, r))
  {
    hide Resume, Hlsl, WellFormed, Guarded, Settle, Text, Binds, Print, OpTokens;
    StartValid();
    TailCons(RPAREN, k);
    StreamExpr(env, r, false, START, [RPAREN] + k, end, c);
    GuardedSettles(env, r, false, START, end);
    ResumeOp(env, op, Print(r, [RPAREN] + k), [], end, c);
    ResumeSymbol(env, RPAREN, k, [], end, c);
    ResumeRoot(env, k, end, c);
    StopsHere(env, k, end, c);
    var q := Resume(env, Print(r, [RPAREN] + k), [], end, c);
    assert [] + q.out == q.out && Text(env, r) + [] + [RPAREN] == Text(env, r) + [RPAREN];
    assert [RPAREN] + [] == [RPAREN] && Binds(env, r) + [] == Binds(env, r);
  }

  /** The misreading, by value: mul(x, (p) op r) comes out as GLSL's (x * p) op r. */
  lemma {:induction false} LedProductMeans<V>(env: Env, bound: map<string, nat>, x: Expr, p: Expr, op: BinaryOp,
                                              r: Expr, k: seq<Token>, end: string, c: nat, h: Meaning<V>,
                                              g: Meaning<V>)
    requires Clean(env, x) && Clean(env, p) && Clean(env, r) && Level(r) > Prec(op) && EndsAt(k, end) && end != ")"
    requires Reads(env, bound, x, h, g) && Reads(env, bound, p, h, g) && Reads(env, bound, r, h, g)
    requires Known(env, bound) && Agrees(env, bound, x) && Agrees(env, bound, p) && Agrees(env, bound, r)
    ensures Tail(Print(Call("mul", [x, Binary(op, Paren(p), r)]), k))
    ensures var q := Scan(env, Print(Call("mul", [x, Binary(op, Paren(p), r)]), k), end, c);
            && q.rest == k
            && var t := ParseExpr(Strip(q.out));
               && t.Parsed? && t.rest == []
               && Eval(t.value, g) == g.binary(op, g.binary(Times, Eval(x, h), Eval(p, h)), Eval(r, h))
  {
    hide Reads, Hlsl, Translate, Guarded, Text, Scan, Print, Strip, Binds, ParseExpr, Agrees, Known, EndsAt;
    LedProduct(env, x, p, op, r, k, end, c);
    var tx, tp, tr := Translate(env, x), Translate(env, p), Translate(env, r);
    TranslateWellFormed(env, x);
    TranslateWellFormed(env, p);
    TranslateWellFormed(env, r);
    TextStrips(env, x);
    TextStrips(env, p);
    TextStrips(env, r);
    WrongText(tx, tp, op, tr, Text(env, x), Text(env, p), Text(env, r));
    WrongShape(tx, tp, op, tr, g);
    var wrong := Paren(Binary(op, Binary(Times, Paren(tx), Paren(Paren(tp))), tr));
    PeekEmpty();
    ExprReads(wrong, []);
    TranslateMeans(env, bound, x, h, g);
    TranslateMeans(env, bound, p, h, g);
    TranslateMeans(env, bound, r, h, g);
  }

  lemma {:induction false} WrongText(x: Expr, p: Expr, op: BinaryOp, r: Expr, ox: seq<Token>, oz: seq<Token>,
                                     or: seq<Token>)
    requires Strip(ox) == Print(x, []) && Strip(oz) == Print(p, []) && Strip(or) == Print(r, [])
    ensures Strip([LPAREN, LPAREN] + ox + BETWEEN +
                  ([LPAREN] + (oz + ([RPAREN, RPAREN] + (OpTokens(op) + (or + [RPAREN]))))))
         == Print(Paren(Binary(op, Binary(Times, Paren(x), Paren(Paren(p))), r)), [])
  {
    hide Strip, Print, OpTokens;
    var w := OpTokens(op) + (or + [RPAREN]);
    StripConcat(or, [RPAREN]);
    StripOpTokens(op, or + [RPAREN]);
    StripPrefix([RPAREN, RPAREN], w);
    StripConcat(oz, [RPAREN, RPAREN] + w);
    StripPrefix([LPAREN], oz + ([RPAREN, RPAREN] + w));
    StripAll([LPAREN, LPAREN] + ox, BETWEEN, [LPAREN] + (oz + ([RPAREN, RPAREN] + w)));
    StripConcat([LPAREN, LPAREN], ox);
    StripSymbols();
    StripBetween();
    WrongPrints(x, p, op, r);
    WrongFlat(Print(x, []), Print(p, []), OpTokens(op) + (Print(r, []) + [RPAREN]));
  }

  lemma {:induction false} StripOpTokens(op: BinaryOp, o: seq<Token>)
    ensures Strip(OpTokens(op) + o) == OpTokens(op) + Strip(o)
  {
    StripPrefix(OpTokens(op), o);
  }

  lemma {:induction false} WrongPrints(x: Expr, p: Expr, op: BinaryOp, r: Expr)
    ensures var w := OpTokens(op) + (Print(r, []) + [RPAREN]);
            Print(Paren(Binary(op, Binary(Times, Paren(x), Paren(Paren(p))), r)), [])
            == [LPAREN] + ([LPAREN] +
                           (Print(x, []) +
                            ([RPAREN] + ([Sym("*")] +
                                         ([LPAREN] + ([LPAREN] + (Print(p, []) + ([RPAREN] + ([RPAREN] + w)))))))))
  {
    hide Print;
    var l := Binary(Times, Paren(x), Paren(Paren(p)));
    assert [RPAREN] + [] == [RPAREN];
    PrintParen(Binary(op, l, r), []);
    PrintBinary(op, l, r, [RPAREN]);
    PrintThen(r, [RPAREN]);
    var w := OpTokens(op) + (Print(r, []) + [RPAREN]);
    PrintBinary(Times, Paren(x), Paren(Paren(p)), w);
    PrintParen(x, [Sym("*")] + Print(Paren(Paren(p)), w));
    PrintThen(x, [RPAREN] + ([Sym("*")] + Print(Paren(Paren(p)), w)));
    PrintParen(Paren(p), w);
    PrintParen(p, [RPAREN] + w);
    PrintThen(p, [RPAREN] + ([RPAREN] + w));
  }

  lemma {:induction false} WrongFlat(x: seq<Token>, p: seq<Token>, w: seq<Token>)
    ensures [LPAREN, LPAREN] + x + ([RPAREN, Sym("*"), LPAREN] + ([LPAREN] + (p + ([RPAREN, RPAREN] + w))))
         == [LPAREN] + ([LPAREN] +
                        (x + ([RPAREN] + ([Sym("*")] + ([LPAREN] + ([LPAREN] + (p + ([RPAREN] + ([RPAREN] + w)))))))))
  {
  }

  lemma {:induction false} WrongShape<V>(x: Expr, p: Expr, op: BinaryOp, r: Expr, g: Meaning<V>)
    requires WellFormed(x) && WellFormed(p) && WellFormed(r) && Level(r) > Prec(op)
    ensures var w := Paren(Binary(op, Binary(Times, Paren(x), Paren(Paren(p))), r));
            WellFormed(w) && Eval(w, g) == g.binary(op, g.binary(Times, Eval(x, g), Eval(p, g)), Eval(r, g))
  {
    var q := Paren(p);
    assert WellFormed(q) && WellFormed(Paren(q)) && WellFormed(Paren(x));
    assert Eval(q, g) == Eval(p, g) && Eval(Paren(q), g) == Eval(q, g);
    var l := Binary(Times, Paren(x), Paren(q));
    assert WellFormed(l) && Eval(l, g) == g.binary(Times, Eval(Paren(x), g), Eval(Paren(q), g));
    assert WellFormed(Binary(op, l, r)) && Eval(Binary(op, l, r), g) == g.binary(op, Eval(l, g), Eval(r, g));
  }
}
