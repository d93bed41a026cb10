/** What gl_write_function_contents and the intrinsic writers do to a token stream, as pure
    recursion (libobs-opengl/gl-shaderparser.c:271-523). A cursor is the stream from it onward;
    every function returns the stream it stops on and what it appended. */
module GlStream {
  import opened Tokens
  import opened Expressions
  import opened Decimals
  import opened Options

  datatype Param = Param(name: string, typ: string)

  /** The parts of the parsed shader the writers look at. */
  datatype Env = Env(params: seq<Param>, samplers: seq<string>)

  /** Where the cursor stops, the tokens appended to gl_string, the sincos counter, and the
      gl_sampler_id assignments (texture name, sampler index) in order. */
  datatype Step = Step(rest: seq<Token>, out: seq<Token>, next: nat, binds: seq<(string, nat)>)

  /** An intrinsic writer's answer; a writer that gives up may already have appended something. */
  datatype Attempt = Attempt(written: bool, step: Step)

  function After(out: seq<Token>, binds: seq<(string, nat)>, r: Step): Step {
    Step(r.rest, out + r.out, r.next, binds + r.binds)
  }

  /** dstr_cat_strref of the end token appends nothing. */
  function Emit(t: Token): seq<Token> {
    if t.kind.End? then [] else [t]
  }

  // ---- tables ----

  function GlslType(name: string): Option<string> {
    if name == "float2" then Some("vec2")
    else if name == "float3" then Some("vec3")
    else if name == "float4" then Some("vec4")
    else if name == "int2" then Some("ivec2")
    else if name == "int3" then Some("ivec3")
    else if name == "int4" then Some("ivec4")
    else if name == "uint2" then Some("uvec2")
    else if name == "uint3" then Some("uvec3")
    else if name == "uint4" then Some("uvec4")
    else if name == "float3x3" then Some("mat3x3")
    else if name == "float3x4" then Some("mat3x4")
    else if name == "float4x4" then Some("mat4x4")
    else if name == "texture2d" then Some("sampler2D")
    else if name == "texture3d" then Some("sampler3D")
    else if name == "texture_cube" then Some("samplerCube")
    else if name == "texture_rect" then Some("sampler2DRect")
    else None
  }

  function GlslFunction(name: string): Option<string> {
    if name == "atan2" then Some("atan")
    else if name == "ddx" then Some("dFdx")
    else if name == "ddy" then Some("dFdy")
    else if name == "fmod" then Some("mod")
    else if name == "frac" then Some("fract")
    else if name == "lerp" then Some("mix")
    else if name == "rsqrt" then Some("inversesqrt")
    else None
  }

  predicate IsExpanded(name: string) {
    name == "mad" || name == "mul" || name == "saturate" || name == "sincos"
  }

  function FindParam(params: seq<Param>, name: string): (r: Option<Param>)
    ensures r.Some? ==> r.value in params && r.value.name == name
  {
    if params == [] then None
    else if params[0].name == name then Some(params[0])
    else FindParam(params[1..], name)
  }

  function FindSampler(samplers: seq<string>, name: string): (r: Option<nat>)
    ensures r.Some? ==> r.value < |samplers| && samplers[r.value] == name
    ensures r.None? ==> name !in samplers
  {
    if samplers == [] then None
    else if samplers[0] == name then Some(0)
    else
      match FindSampler(samplers[1..], name)
      case None => None
      case Some(i) => Some(i + 1)
  }

  function TextureParam(env: Env, name: string): (r: Option<Param>)
    ensures r.Some? ==> r.value.name == name
  {
    match FindParam(env.params, name)
    case None => None
    case Some(p) => if "texture" <= p.typ then Some(p) else None
  }

  /** The GLSL function for a texture method, and whether a sampler argument comes first. */
  function TextureCall(p: Param, fn: string): Option<(string, bool)> {
    if fn == "Sample" || fn == "SampleBias" then Some(("texture", true))
    else if fn == "SampleGrad" then Some(("textureGrad", true))
    else if fn == "SampleLevel" then Some(("textureLod", true))
    else if fn == "Load" then Some((if p.typ == "texture3d" then "obs_load_3d" else "obs_load_2d", false))
    else None
  }

  function SincosVar(n: nat): Token { Ident("sincos_var_internal_" + Digits(n)) }

  function Num1(text: string): Token { Token(Num, text) }

  const BETWEEN := [RPAREN, BLANK, Sym("*"), BLANK, LPAREN]
  const BETWEEN_ADD := [RPAREN, BLANK, Sym("+"), BLANK, LPAREN]
  const CLAMP_TAIL := [COMMA, BLANK, Num1("0.0"), COMMA, BLANK, Num1("1.0"), RPAREN]

  // ---- the writers ----

  /** gl_write_function_contents: the first token is written without looking for a bracket. */
  function Contents(env: Env, s: seq<Token>, end: string, c: nat): (r: Step)
    requires IsStream(s)
    ensures IsStream(r.rest) && |r.rest| <= |s| && r.next >= c
    decreases |s|, 6
  {
    if s[0].kind.Name? then
      var w := WriteName(env, s, c);
      After(w.out, w.binds, Advance(env, w.rest, end, w.next))
    else
      After(Emit(s[0]), [], Advance(env, s, end, c))
  }

  /** The loop head: stop at the end token, otherwise move on by one. */
  function Advance(env: Env, u: seq<Token>, end: string, c: nat): (r: Step)
    requires IsStream(u)
    ensures IsStream(r.rest) && |r.rest| <= |u| && r.next >= c
    decreases |u|, 5
  {
    if u[0].kind.End? then Step(u, [], c, []) else Scan(env, u[1..], end, c)
  }

  /** The loop body for the token the cursor has just reached. */
  function Scan(env: Env, t: seq<Token>, end: string, c: nat): (r: Step)
    requires IsStream(t)
    ensures IsStream(r.rest) && |r.rest| <= |t| && r.next >= c
    decreases |t|, 7
  {
    if t[0].text == end then Step(t, [], c, [])
    else if t[0].kind.Name? then
      var w := WriteName(env, t, c);
      After(w.out, w.binds, Advance(env, w.rest, end, w.next))
    else if t[0] == LBRACE || t[0] == LPAREN then
      var b := Contents(env, t, if t[0] == LBRACE then "}" else ")", c);
      After(b.out + Emit(b.rest[0]), b.binds, Advance(env, b.rest, end, b.next))
    else
      After(Emit(t[0]), [], Advance(env, t, end, c))
  }

  /** A name is a type, else an intrinsic, else itself. */
  function WriteName(env: Env, s: seq<Token>, c: nat): (r: Step)
    requires IsStream(s) && s[0].kind.Name?
    ensures IsStream(r.rest) && |r.rest| <= |s| && r.next >= c
    decreases |s|, 4
  {
    match GlslType(s[0].text)
    case Some(t) => Step(s, [Ident(t)], c, [])
    case None =>
      var a := Intrinsic(env, s, c);
      if a.written then a.step else Step(s, a.step.out + [s[0]], a.step.next, a.step.binds)
  }

  /** gl_write_intrinsic. */
  function Intrinsic(env: Env, s: seq<Token>, c: nat): (a: Attempt)
    requires IsStream(s) && s[0].kind.Name?
    ensures IsStream(a.step.rest) && |a.step.rest| <= |s| && a.step.next >= c
    decreases |s|, 3
  {
    match GlslFunction(s[0].text)
    case Some(f) => Attempt(true, Step(s, [Ident(f)], c, []))
    case None =>
      if s[0].text == "mad" then Mad(env, s, c)
      else if s[0].text == "mul" then Mul(env, s, c)
      else if s[0].text == "saturate" then Saturate(env, s, c)
      else if s[0].text == "sincos" then Sincos(env, s, c)
      else
        match TextureParam(env, s[0].text)
        case Some(p) => Texture(env, s, p, c)
        case None => GiveUp(s, [], c, [])
  }

  function GiveUp(s: seq<Token>, out: seq<Token>, c: nat, binds: seq<(string, nat)>): Attempt {
    Attempt(false, Step(s, out, c, binds))
  }

  /** gl_write_mul. */
  function Mul(env: Env, s: seq<Token>, c: nat): (a: Attempt)
    requires IsStream(s) && s[0].kind.Name?
    ensures IsStream(a.step.rest) && |a.step.rest| <= |s| && a.step.next >= c
    decreases |s|, 2
  {
    var s1 := NextToken(s);
    if s1[0].kind.End? || s1[0].text != "(" then GiveUp(s, [], c, [])
    else
      var x := Contents(env, s1, ",", c);
      var y := Contents(env, NextToken(x.rest), ")", x.next);
      Attempt(true, Step(y.rest, [LPAREN] + x.out + BETWEEN + y.out + [RPAREN, RPAREN], y.next, x.binds + y.binds))
  }

  /** gl_write_mad. */
  function Mad(env: Env, s: seq<Token>, c: nat): (a: Attempt)
    requires IsStream(s) && s[0].kind.Name?
    ensures IsStream(a.step.rest) && |a.step.rest| <= |s| && a.step.next >= c
    decreases |s|, 2
  {
    var s1 := NextToken(s);
    if s1[0].kind.End? || s1[0].text != "(" then GiveUp(s, [], c, [])
    else
      var x := Contents(env, s1, ",", c);
      var y := Contents(env, NextToken(x.rest), ",", x.next);
      var z := Contents(env, NextToken(y.rest), ")", y.next);
      Attempt(true, Step(z.rest,
                         [LPAREN] + x.out + BETWEEN + y.out + BETWEEN_ADD + z.out + [RPAREN, RPAREN],
                         z.next, x.binds + y.binds + z.binds))
  }

  /** gl_write_saturate. */
  function Saturate(env: Env, s: seq<Token>, c: nat): (a: Attempt)
    requires IsStream(s) && s[0].kind.Name?
    ensures IsStream(a.step.rest) && |a.step.rest| <= |s| && a.step.next >= c
    decreases |s|, 2
  {
    var s1 := NextToken(s);
    if s1[0].kind.End? || s1[0].text != "(" then GiveUp(s, [], c, [])
    else
      var x := Contents(env, s1, ")", c);
      Attempt(true, Step(x.rest, [Ident("clamp")] + x.out + CLAMP_TAIL, x.next, x.binds))
  }

  /** gl_write_sincos; the counter moves even when the call turns out to be cut short. */
  function Sincos(env: Env, s: seq<Token>, c: nat): (a: Attempt)
    requires IsStream(s) && s[0].kind.Name?
    ensures IsStream(a.step.rest) && |a.step.rest| <= |s| && a.step.next >= c
    decreases |s|, 2
  {
    var s1 := NextToken(s);
    if s1[0].kind.End? || s1[0].text != "(" then GiveUp(s, [], c, [])
    else
      var v := SincosVar(c);
      var x := Contents(env, s1, ",", c + 1);
      var o1 := [Ident("float"), BLANK, v, BLANK, EQUALS, BLANK] + x.out + [RPAREN, SEMICOLON, BLANK];
      var s2 := NextToken(x.rest);
      if s2[0].kind.End? then GiveUp(s, o1, x.next, x.binds)
      else
        var y := Contents(env, s2, ",", x.next);
        var o2 := o1 + y.out + AssignOf("sin", v) + [SEMICOLON, BLANK];
        var s3 := NextToken(y.rest);
        if s3[0].kind.End? then GiveUp(s, o2, y.next, x.binds + y.binds)
        else
          var z := Contents(env, s3, ")", y.next);
          Attempt(true, Step(z.rest, o2 + z.out + AssignOf("cos", v), z.next, x.binds + y.binds + z.binds))
  }

  function AssignOf(fn: string, v: Token): seq<Token> {
    [BLANK, EQUALS, BLANK, Ident(fn), LPAREN, v, RPAREN]
  }

  /** The opening of a texture call: the token before the coordinates, the GLSL function and the
      sampler assignment. */
  datatype Opening = Opening(at: seq<Token>, call: string, binds: seq<(string, nat)>)

  /** The sampler argument after the opening parenthesis, up to its comma. */
  function SamplerOpening(env: Env, s: seq<Token>, name: string, call: string): (r: Option<Opening>)
    requires IsStream(s)
    ensures r.Some? ==> IsStream(r.value.at) && |r.value.at| <= |s|
  {
    var s1 := NextToken(s);
    if s1[0].kind.End? || FindSampler(env.samplers, s1[0].text).None? then None
    else
      var s2 := NextToken(s1);
      if s2[0].kind.End? || s2[0].text != "," then None
      else Some(Opening(s2, call, [(name, FindSampler(env.samplers, s1[0].text).value)]))
  }

  /** From the method name to the token before the coordinates (gl_write_texture_call). */
  function CallOpening(env: Env, s: seq<Token>, name: string, call: string, sampled: bool): (r: Option<Opening>)
    requires IsStream(s)
    ensures r.Some? ==> IsStream(r.value.at) && |r.value.at| <= |s|
  {
    var s1 := NextToken(s);
    if s1[0].kind.End? || s1[0].text != "(" then None
    else if sampled then SamplerOpening(env, s1, name, call)
    else Some(Opening(s1, call, []))
  }

  /** From the texture name to the method name and on. */
  function TextureOpening(env: Env, s: seq<Token>, p: Param): (r: Option<Opening>)
    requires IsStream(s) && s[0].kind.Name?
    ensures r.Some? ==> IsStream(r.value.at) && |r.value.at| < |s|
  {
    var s1 := NextToken(s);
    if s1[0].kind.End? || s1[0].text != "." then None
    else
      var s2 := NextToken(s1);
      if s2[0].kind.End? || TextureCall(p, s2[0].text).None? then None
      else
        var (call, sampled) := TextureCall(p, s2[0].text).value;
        CallOpening(env, s2, p.name, call, sampled)
  }

  function OpeningTokens(call: string, name: string): seq<Token> {
    [Ident(call), LPAREN, Ident(name), COMMA, BLANK]
  }

  /** gl_write_texture_code with gl_write_texture_call. */
  function Texture(env: Env, s: seq<Token>, p: Param, c: nat): (a: Attempt)
    requires IsStream(s) && s[0].kind.Name?
    ensures IsStream(a.step.rest) && |a.step.rest| <= |s| && a.step.next >= c
    decreases |s|, 2
  {
    match TextureOpening(env, s, p)
    case None => GiveUp(s, [], c, [])
    case Some(o) =>
      var opening := OpeningTokens(o.call, p.name);
      var v := NextToken(o.at);
      if v[0].kind.End? then GiveUp(s, opening, c, o.binds)
      else
        var x := Contents(env, v, ")", c);
        Attempt(true, Step(x.rest, opening + x.out + [RPAREN], x.next, o.binds + x.binds))
  }
}
