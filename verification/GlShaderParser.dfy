/** The token streamer as the source has it: one shared cursor, one growing string
    (libobs-opengl/gl-shaderparser.c:271-523). Each method is proved against the pure function of
    GlStream, so nested writers overwriting the shared cursor never matters. */
module GlShaderParser {
  import opened Tokens
  import opened Expressions
  import opened GlStream
  import opened Options

  /** gl_sampler_id of every texture parameter after a list of assignments. */
  function Bound(ids: map<string, nat>, binds: seq<(string, nat)>): map<string, nat>
    decreases binds
  {
    if binds == [] then ids else Bound(ids[binds[0].0 := binds[0].1], binds[1..])
  }

  lemma {:induction false} BoundConcat(ids: map<string, nat>, a: seq<(string, nat)>, b: seq<(string, nat)>)
    ensures Bound(ids, a + b) == Bound(Bound(ids, a), b)
    decreases a
  {
    if a == [] {
      assert a + b == b;
    } else {
      assert (a + b)[1..] == a[1..] + b;
      BoundConcat(ids[a[0].0 := a[0].1], a[1..], b);
    }
  }

  lemma {:induction false} Cat5(o: seq<Token>, a: seq<Token>, b: seq<Token>, c: seq<Token>, d: seq<Token>,
                                e: seq<Token>)
    ensures o + a + b + c + d + e == o + (a + b + c + d + e)
  {
    Cat3(o, a, b, c);
    Cat3(o, a + b + c, d, e);
  }

  lemma {:induction false} Cat3(o: seq<Token>, a: seq<Token>, b: seq<Token>, c: seq<Token>)
    ensures o + a + b + c == o + (a + b + c)
  {
  }

  class Writer {
    const env: Env
    const tokens: seq<Token>
    /** parser.cfp.cur_token, as an index. */
    var curToken: nat
    /** gl_string, as the tokens whose texts it is made of. */
    var glString: seq<Token>
    var sincosCounter: nat
    var samplerIds: map<string, nat>

    predicate Valid()
      reads this
    {
      IsStream(tokens) && curToken < |tokens|
    }

    constructor (env: Env, tokens: seq<Token>)
      requires IsStream(tokens)
      ensures Valid() && this.env == env && this.tokens == tokens
      ensures glString == [] && sincosCounter == 1 && samplerIds == map[]
    {
      this.env, this.tokens := env, tokens;
      curToken, glString, sincosCounter, samplerIds := 0, [], 1, map[];
    }

    /** The tokens from a position on. */
    function From(p: nat): (s: seq<Token>)
      requires IsStream(tokens) && p < |tokens|
      ensures IsStream(s) && |s| == |tokens| - p && s[0] == tokens[p]
    {
      tokens[p..]
    }

    lemma {:induction false} FromTail(p: nat)
      requires IsStream(tokens) && p < |tokens| && !tokens[p].kind.End?
      ensures p + 1 < |tokens| && From(p)[1..] == From(p + 1)
    {
    }

    /** The state now, with the cursor returned at q, is the old state plus what step says. */
    twostate predicate Did(q: nat, step: Step)
      reads this
    {
      && Valid() && q < |tokens| && From(q) == step.rest
      && glString == old(glString) + step.out
      && sincosCounter == step.next
      && samplerIds == Bound(old(samplerIds), step.binds)
    }

    method Append(text: seq<Token>)
      modifies this`glString
      ensures glString == old(glString) + text
    {
      glString := glString + text;
    }

    lemma {:induction false} SkipStep(p: nat)
      requires IsStream(tokens) && p < |tokens| && IsSpace(tokens[p])
      ensures p + 1 < |tokens| && SkipSpaces(From(p)) == SkipSpaces(From(p + 1))
    {
      FromTail(p);
    }

    /** cf_next_token. */
    method Next() returns (ok: bool)
      requires Valid()
      modifies this`curToken
      ensures Valid() && From(curToken) == NextToken(old(From(curToken))) && curToken >= old(curToken)
      ensures ok <==> !tokens[curToken].kind.End?
      ensures old(!IsSpace(tokens[curToken]) && !tokens[curToken].kind.End?) ==> curToken > old(curToken)
    {
      hide SkipSpaces;
      if !IsSpace(tokens[curToken]) && !tokens[curToken].kind.End? {
        FromTail(curToken);
        curToken := curToken + 1;
      }
      ghost var start := curToken;
      while IsSpace(tokens[curToken])
        invariant Valid() && start <= curToken
        invariant SkipSpaces(From(curToken)) == SkipSpaces(From(start))
        decreases |tokens| - curToken
      {
        SkipStep(curToken);
        curToken := curToken + 1;
      }
      SkipDone(From(curToken));
      ok := !tokens[curToken].kind.End?;
    }

    lemma {:induction false} SkipDone(s: seq<Token>)
      requires IsStream(s) && !IsSpace(s[0])
      ensures SkipSpaces(s) == s
    {
    }

    /** gl_write_type_token. */
    method WriteType(p: nat) returns (written: bool)
      requires Valid() && p < |tokens|
      modifies this`glString
      ensures written <==> GlslType(tokens[p].text).Some?
      ensures glString == old(glString) + if written then [Ident(GlslType(tokens[p].text).value)] else []
    {
      match GlslType(tokens[p].text)
      case Some(t) =>
        Append([Ident(t)]);
        written := true;
      case None =>
        written := false;
    }

    /** The first token of gl_write_function_contents. */
    method WriteFirst(p: nat, end: string) returns (token: nat, ghost step: Step)
      requires Valid() && p < |tokens|
      modifies this
      ensures p <= token && Did(token, step)
      ensures Contents(env, From(p), end, old(sincosCounter))
           == After(step.out, step.binds, Advance(env, From(token), end, sincosCounter))
      decreases |tokens| - p, 4
    {
      hide Advance, WriteName, Bound;
      if tokens[p].kind.Name? {
        token := WriteWord(p);
        step := WriteName(env, From(p), old(sincosCounter));
      } else {
        token := p;
        Append(Emit(tokens[p]));
        step := Step(From(p), Emit(tokens[p]), sincosCounter, []);
        NothingBound(samplerIds);
      }
    }

    /** gl_write_function_contents. */
    method WriteFunctionContents(p: nat, end: string) returns (q: nat)
      requires Valid() && p < |tokens|
      modifies this
      ensures p <= q && Did(q, Contents(env, From(p), end, old(sincosCounter)))
      decreases |tokens| - p, 6
    {
      hide Scan, WriteName, Bound, Contents, Emit;
      ghost var step: Step;
      var token;
      token, step := WriteFirst(p, end);
      ghost var out, binds := step.out, step.binds;
      while !tokens[token].kind.End?
        invariant Valid() && p <= token < |tokens|
        invariant glString == old(glString) + out && samplerIds == Bound(old(samplerIds), binds)
        invariant Contents(env, From(p), end, old(sincosCounter))
               == After(out, binds, Advance(env, From(token), end, sincosCounter))
        decreases |tokens| - token
      {
        FromTail(token);
        token := token + 1;
        if tokens[token].text == end {
          ScanStops(From(token), end, sincosCounter);
          break;
        }
        token, step := WriteOne(token, end);
        BoundConcat(old(samplerIds), binds, step.binds);
        AfterAfter(old(glString), out, binds, step, Advance(env, From(token), end, sincosCounter));
        out, binds := out + step.out, binds + step.binds;
      }
      q := token;
      assert out + [] == out && binds + [] == binds;
    }

    lemma {:induction false} ScanStops(t: seq<Token>, end: string, c: nat)
      requires IsStream(t) && t[0].text == end
      ensures Scan(env, t, end, c) == Step(t, [], c, [])
    {
    }

    lemma {:induction false} NothingBound(ids: map<string, nat>)
      ensures Bound(ids, []) == ids
    {
    }

    lemma {:induction false} AfterAfter(text: seq<Token>, out: seq<Token>, binds: seq<(string, nat)>, a: Step, r: Step)
      ensures After(out, binds, After(a.out, a.binds, r)) == After(out + a.out, binds + a.binds, r)
      ensures text + out + a.out == text + (out + a.out)
    {
      assert out + (a.out + r.out) == out + a.out + r.out;
      assert binds + (a.binds + r.binds) == binds + a.binds + r.binds;
    }

    /** The loop body of gl_write_function_contents at a token other than the end token. */
    method WriteOne(p: nat, end: string) returns (token: nat, ghost step: Step)
      requires Valid() && p < |tokens| && tokens[p].text != end
      modifies this
      ensures p <= token && Did(token, step)
      ensures Scan(env, From(p), end, old(sincosCounter))
           == After(step.out, step.binds, Advance(env, From(token), end, sincosCounter))
      decreases |tokens| - p, 7
    {
      hide Contents, WriteName, Advance, Bound;
      token := p;
      if tokens[p].kind.Name? {
        token := WriteWord(p);
        step := WriteName(env, From(p), old(sincosCounter));
      } else if tokens[p].kind.Other? {
        if tokens[p].text == "{" {
          token := WriteFunctionContents(token, "}");
          step := Contents(env, From(p), "}", old(sincosCounter));
        } else if tokens[p].text == "(" {
          token := WriteFunctionContents(token, ")");
          step := Contents(env, From(p), ")", old(sincosCounter));
        } else {
          step := Step(From(p), [], sincosCounter, []);
          NothingBound(samplerIds);
        }
        Append(Emit(tokens[token]));
        assert old(glString) + step.out + Emit(tokens[token]) == old(glString) + (step.out + Emit(tokens[token]));
        step := step.(out := step.out + Emit(tokens[token]));
      } else {
        Append(Emit(tokens[token]));
        step := Step(From(p), Emit(tokens[p]), sincosCounter, []);
        NothingBound(samplerIds);
      }
    }

    /** A name: a type, else an intrinsic, else copied. */
    method WriteWord(p: nat) returns (q: nat)
      requires Valid() && p < |tokens| && tokens[p].kind.Name?
      modifies this
      ensures p <= q && Did(q, WriteName(env, From(p), old(sincosCounter)))
      decreases |tokens| - p, 3
    {
      hide Intrinsic, Bound;
      q := p;
      NothingBound(samplerIds);
      var isType := WriteType(p);
      if !isType {
        var written;
        written, q := WriteIntrinsic(p);
        if !written {
          Append([tokens[p]]);
          ghost var a := Intrinsic(env, From(p), old(sincosCounter)).step.out;
          assert old(glString) + a + [tokens[p]] == old(glString) + (a + [tokens[p]]);
        }
      }
    }

    /** gl_write_intrinsic; without success the caller's cursor stays where it was. */
    method WriteIntrinsic(p: nat) returns (written: bool, q: nat)
      requires Valid() && p < |tokens| && tokens[p].kind.Name?
      modifies this
      ensures p <= q && (!written ==> q == p)
      ensures var a := Intrinsic(env, From(p), old(sincosCounter));
              written == a.written && Did(q, if written then a.step else a.step.(rest := From(p)))
      decreases |tokens| - p, 2
    {
      hide Mad, Mul, Saturate, Sincos, Texture, Bound;
      NothingBound(samplerIds);
      var name := tokens[p].text;
      match GlslFunction(name)
      case Some(f) =>
        Append([Ident(f)]);
        written, q := true, p;
      case None =>
        if name == "mad" {
          written, q := WriteMad(p);
        } else if name == "mul" {
          written, q := WriteMul(p);
        } else if name == "saturate" {
          written, q := WriteSaturate(p);
        } else if name == "sincos" {
          written, q := WriteSincos(p);
        } else {
          match TextureParam(env, name)
          case Some(param) =>
            written, q := WriteTextureCode(p, param);
          case None =>
            written, q := false, p;
        }
    }

    /** gl_write_mul. */
    method WriteMul(p: nat) returns (written: bool, q: nat)
      requires Valid() && p < |tokens| && tokens[p].kind.Name?
      modifies this
      ensures p <= q && (!written ==> q == p)
      ensures var a := Mul(env, From(p), old(sincosCounter));
              written == a.written && Did(q, if written then a.step else a.step.(rest := From(p)))
      decreases |tokens| - p, 1
    {
      hide Contents, NextToken, Bound;
      NothingBound(samplerIds);
      curToken := p;
      var ok := Next();
      if !ok || tokens[curToken].text != "(" {
        return false, p;
      }
      Append([LPAREN]);
      var x := WriteFunctionContents(curToken, ",");
      curToken := x;
      Append(BETWEEN);
      ok := Next();
      var y := WriteFunctionContents(curToken, ")");
      curToken := y;
      Append([RPAREN, RPAREN]);
      ghost var a := Contents(env, NextToken(From(p)), ",", old(sincosCounter));
      ghost var b := Contents(env, NextToken(a.rest), ")", a.next);
      BoundConcat(old(samplerIds), a.binds, b.binds);
      Cat5(old(glString), [LPAREN], a.out, BETWEEN, b.out, [RPAREN, RPAREN]);
      return true, curToken;
    }

    /** gl_write_mad. */
    method WriteMad(p: nat) returns (written: bool, q: nat)
      requires Valid() && p < |tokens| && tokens[p].kind.Name?
      modifies this
      ensures p <= q && (!written ==> q == p)
      ensures var a := Mad(env, From(p), old(sincosCounter));
              written == a.written && Did(q, if written then a.step else a.step.(rest := From(p)))
      decreases |tokens| - p, 1
    {
      hide Contents, NextToken, Bound;
      NothingBound(samplerIds);
      curToken := p;
      var ok := Next();
      if !ok || tokens[curToken].text != "(" {
        return false, p;
      }
      Append([LPAREN]);
      var x := WriteFunctionContents(curToken, ",");
      curToken := x;
      Append(BETWEEN);
      ok := Next();
      var y := WriteFunctionContents(curToken, ",");
      curToken := y;
      Append(BETWEEN_ADD);
      ok := Next();
      var z := WriteFunctionContents(curToken, ")");
      curToken := z;
      Append([RPAREN, RPAREN]);
      ghost var a := Contents(env, NextToken(From(p)), ",", old(sincosCounter));
      ghost var b := Contents(env, NextToken(a.rest), ",", a.next);
      ghost var d := Contents(env, NextToken(b.rest), ")", b.next);
      BoundConcat(old(samplerIds), a.binds, b.binds);
      BoundConcat(old(samplerIds), a.binds + b.binds, d.binds);
      Cat5(old(glString), [LPAREN], a.out, BETWEEN, b.out, BETWEEN_ADD);
      Cat3(old(glString), [LPAREN] + a.out + BETWEEN + b.out + BETWEEN_ADD, d.out, [RPAREN, RPAREN]);
      return true, curToken;
    }

    /** gl_write_saturate. */
    method WriteSaturate(p: nat) returns (written: bool, q: nat)
      requires Valid() && p < |tokens| && tokens[p].kind.Name?
      modifies this
      ensures p <= q && (!written ==> q == p)
      ensures var a := Saturate(env, From(p), old(sincosCounter));
              written == a.written && Did(q, if written then a.step else a.step.(rest := From(p)))
      decreases |tokens| - p, 1
    {
      hide Contents, NextToken, Bound;
      NothingBound(samplerIds);
      curToken := p;
      var ok := Next();
      if !ok || tokens[curToken].text != "(" {
        return false, p;
      }
      Append([Ident("clamp")]);
      var x := WriteFunctionContents(curToken, ")");
      curToken := x;
      Append(CLAMP_TAIL);
      ghost var a := Contents(env, NextToken(From(p)), ")", old(sincosCounter));
      Cat3(old(glString), [Ident("clamp")], a.out, CLAMP_TAIL);
      return true, curToken;
    }

    // gl_write_sincos in three parts, by how far the call goes.

    function SincosStart(v: Token, x: Step): seq<Token> {
      [Ident("float"), BLANK, v, BLANK, EQUALS, BLANK] + x.out + [RPAREN, SEMICOLON, BLANK]
    }

    function SincosMiddle(v: Token, x: Step, y: Step): seq<Token> {
      SincosStart(v, x) + y.out + AssignOf("sin", v) + [SEMICOLON, BLANK]
    }

    lemma {:induction false} SincosNone(s: seq<Token>, c: nat)
      requires IsStream(s) && s[0].kind.Name?
      requires NextToken(s)[0].kind.End? || NextToken(s)[0].text != "("
      ensures Sincos(env, s, c) == GiveUp(s, [], c, [])
    {
      hide Contents, NextToken;
    }

    predicate SincosOpened(s: seq<Token>, c: nat, x: Step) {
      && IsStream(s) && s[0].kind.Name?
      && !NextToken(s)[0].kind.End? && NextToken(s)[0].text == "("
      && x == Contents(env, NextToken(s), ",", c + 1)
    }

    lemma {:induction false} SincosCutEarly(s: seq<Token>, c: nat, x: Step)
      requires SincosOpened(s, c, x) && NextToken(x.rest)[0].kind.End?
      ensures Sincos(env, s, c) == GiveUp(s, SincosStart(SincosVar(c), x), x.next, x.binds)
    {
      hide Contents, NextToken, SincosVar, AssignOf;
    }

    lemma {:induction false} SincosCutLate(s: seq<Token>, c: nat, x: Step, y: Step)
      requires SincosOpened(s, c, x) && !NextToken(x.rest)[0].kind.End?
      requires y == Contents(env, NextToken(x.rest), ",", x.next) && NextToken(y.rest)[0].kind.End?
      ensures Sincos(env, s, c) == GiveUp(s, SincosMiddle(SincosVar(c), x, y), y.next, x.binds + y.binds)
    {
      hide Contents, NextToken, SincosVar, AssignOf;
    }

    lemma {:induction false} SincosWhole(s: seq<Token>, c: nat, x: Step, y: Step, z: Step)
      requires SincosOpened(s, c, x) && !NextToken(x.rest)[0].kind.End?
      requires y == Contents(env, NextToken(x.rest), ",", x.next) && !NextToken(y.rest)[0].kind.End?
      requires z == Contents(env, NextToken(y.rest), ")", y.next)
      ensures Sincos(env, s, c) ==
              Attempt(true, Step(z.rest, SincosMiddle(SincosVar(c), x, y) + z.out + AssignOf("cos", SincosVar(c)),
                                                      z.next, x.binds + y.binds + z.binds))
    {
      hide Contents, NextToken, SincosVar, AssignOf;
    }

    /** gl_write_sincos. */
    method WriteSincos(p: nat) returns (written: bool, q: nat)
      requires Valid() && p < |tokens| && tokens[p].kind.Name?
      modifies this
      ensures p <= q && (!written ==> q == p)
      ensures var a := Sincos(env, From(p), old(sincosCounter));
              written == a.written && Did(q, if written then a.step else a.step.(rest := From(p)))
      decreases |tokens| - p, 1
    {
      hide Contents, NextToken, Bound, SincosVar, AssignOf, Sincos, SincosMiddle, SincosStart;
      NothingBound(samplerIds);
      curToken := p;
      var ok := Next();
      if !ok || tokens[curToken].text != "(" {
        SincosNone(From(p), sincosCounter);
        assert glString + [] == glString;
        return false, p;
      }
      var v := SincosVar(sincosCounter);
      sincosCounter := sincosCounter + 1;
      ghost var x := Contents(env, From(curToken), ",", sincosCounter);
      WriteAngle(v);
      ok := Next();
      if !ok {
        SincosCutEarly(From(p), old(sincosCounter), x);
        return false, p;
      }
      ghost var y := Contents(env, From(curToken), ",", sincosCounter);
      WriteSine(v, old(glString), x);
      BoundConcat(old(samplerIds), x.binds, y.binds);
      ok := Next();
      if !ok {
        SincosCutLate(From(p), old(sincosCounter), x, y);
        return false, p;
      }
      ghost var z := Contents(env, From(curToken), ")", sincosCounter);
      SincosWhole(From(p), old(sincosCounter), x, y, z);
      WriteCosine(v, old(glString), SincosMiddle(v, x, y));
      BoundConcat(old(samplerIds), x.binds + y.binds, z.binds);
      return true, curToken;
    }

    method WriteCosine(v: Token, ghost text: seq<Token>, ghost middle: seq<Token>)
      requires Valid() && glString == text + middle
      modifies this
      ensures var z := Contents(env, old(From(curToken)), ")", old(sincosCounter));
              && curToken >= old(curToken) && Valid() && From(curToken) == z.rest
              && glString == text + (middle + z.out + AssignOf("cos", v))
              && sincosCounter == z.next && samplerIds == Bound(old(samplerIds), z.binds)
      decreases |tokens| - curToken, 7
    {
      hide Contents, Bound, AssignOf;
      ghost var z := Contents(env, From(curToken), ")", sincosCounter);
      var r := WriteFunctionContents(curToken, ")");
      curToken := r;
      Append(AssignOf("cos", v));
      Cat3(text, middle, z.out, AssignOf("cos", v));
    }

    method WriteAngle(v: Token)
      requires Valid()
      modifies this
      ensures var x := Contents(env, old(From(curToken)), ",", old(sincosCounter));
              && curToken >= old(curToken) && Did(curToken, x.(out := SincosStart(v, x)))
      decreases |tokens| - curToken, 7
    {
      hide Contents, Bound;
      ghost var x := Contents(env, From(curToken), ",", sincosCounter);
      Append([Ident("float"), BLANK, v, BLANK, EQUALS, BLANK]);
      var q := WriteFunctionContents(curToken, ",");
      curToken := q;
      Append([RPAREN, SEMICOLON, BLANK]);
      Cat3(old(glString), [Ident("float"), BLANK, v, BLANK, EQUALS, BLANK], x.out, [RPAREN, SEMICOLON, BLANK]);
    }

    method WriteSine(v: Token, ghost text: seq<Token>, ghost x: Step)
      requires Valid() && glString == text + SincosStart(v, x)
      modifies this
      ensures var y := Contents(env, old(From(curToken)), ",", old(sincosCounter));
              && curToken >= old(curToken) && Valid() && From(curToken) == y.rest
              && glString == text + SincosMiddle(v, x, y)
              && sincosCounter == y.next && samplerIds == Bound(old(samplerIds), y.binds)
      decreases |tokens| - curToken, 7
    {
      hide Contents, Bound, SincosStart, AssignOf;
      ghost var y := Contents(env, From(curToken), ",", sincosCounter);
      var q := WriteFunctionContents(curToken, ",");
      curToken := q;
      Append(AssignOf("sin", v));
      Append([SEMICOLON, BLANK]);
      Cat5(text, SincosStart(v, x), y.out, AssignOf("sin", v), [SEMICOLON, BLANK], []);
      assert SincosMiddle(v, x, y) + [] == SincosMiddle(v, x, y);
    }

    /** gl_write_texture_call. */
    method WriteTextureCall(name: string, call: string, sampled: bool) returns (written: bool)
      requires Valid()
      modifies this
      ensures Valid() && sincosCounter == old(sincosCounter) && curToken >= old(curToken)
      ensures match CallOpening(env, old(From(curToken)), name, call, sampled)
              case None => !written && glString == old(glString) && samplerIds == old(samplerIds)
              case Some(o) =>
                && written && From(curToken) == o.at && o.call == call
                && glString == old(glString) + OpeningTokens(call, name)
                && samplerIds == Bound(old(samplerIds), o.binds)
    {
      hide NextToken, FindSampler;
      NothingBound(samplerIds);
      var ok := Next();
      if !ok || tokens[curToken].text != "(" {
        return false;
      }
      if sampled {
        ok := Next();
        if !ok {
          return false;
        }
        var id := FindSampler(env.samplers, tokens[curToken].text);
        if id.None? {
          return false;
        }
        ok := Next();
        if !ok || tokens[curToken].text != "," {
          return false;
        }
        BoundOne(samplerIds, name, id.value);
        samplerIds := samplerIds[name := id.value];
      }
      Append(OpeningTokens(call, name));
      return true;
    }

    lemma {:induction false} BoundOne(ids: map<string, nat>, name: string, id: nat)
      ensures Bound(ids, [(name, id)]) == ids[name := id]
    {
      var b := [(name, id)];
      assert b[1..] == [];
      assert Bound(ids[name := id], []) == ids[name := id];
    }

    lemma {:induction false} NoOpening(s: seq<Token>, p: Param, c: nat)
      requires IsStream(s) && s[0].kind.Name? && TextureOpening(env, s, p).None?
      ensures Texture(env, s, p, c) == GiveUp(s, [], c, [])
    {
      hide TextureOpening;
    }

    lemma {:induction false} OpeningVia(s: seq<Token>, p: Param)
      requires IsStream(s) && s[0].kind.Name?
      requires !NextToken(s)[0].kind.End? && NextToken(s)[0].text == "."
      requires var m := NextToken(NextToken(s))[0]; !m.kind.End? && TextureCall(p, m.text).Some?
      ensures var m := NextToken(NextToken(s));
              TextureOpening(env, s, p)
              == CallOpening(env, m, p.name, TextureCall(p, m[0].text).value.0, TextureCall(p, m[0].text).value.1)
    {
      hide NextToken, TextureCall, CallOpening;
    }

    lemma {:induction false} TextureOpened(s: seq<Token>, p: Param, o: Opening, c: nat)
      requires IsStream(s) && s[0].kind.Name? && TextureOpening(env, s, p) == Some(o)
      ensures NextToken(o.at)[0].kind.End? ==>
                Texture(env, s, p, c) == GiveUp(s, OpeningTokens(o.call, p.name), c, o.binds)
      ensures !NextToken(o.at)[0].kind.End? ==>
                var x := Contents(env, NextToken(o.at), ")", c);
                Texture(env, s, p, c) == Attempt(true, Step(x.rest, OpeningTokens(o.call, p.name) + x.out + [RPAREN],
                                                            x.next, o.binds + x.binds))
    {
      hide NextToken, TextureOpening, Contents;
    }

    /** gl_write_texture_code. */
    method WriteTextureCode(p: nat, param: Param) returns (written: bool, q: nat)
      requires Valid() && p < |tokens| && tokens[p].kind.Name?
      modifies this
      ensures p <= q && (!written ==> q == p)
      ensures var a := Texture(env, From(p), param, old(sincosCounter));
              written == a.written && Did(q, if written then a.step else a.step.(rest := From(p)))
      decreases |tokens| - p, 1
    {
      hide Contents, NextToken, Bound, CallOpening, TextureCall, Texture, OpeningTokens;
      NothingBound(samplerIds);
      assert glString + [] == glString;
      curToken := p;
      var ok := Next();
      if !ok || tokens[curToken].text != "." {
        NoOpening(From(p), param, sincosCounter);
        return false, p;
      }
      ok := Next();
      if !ok || TextureCall(param, tokens[curToken].text).None? {
        NoOpening(From(p), param, sincosCounter);
        return false, p;
      }
      OpeningVia(From(p), param);
      hide TextureOpening;
      var (call, sampled) := TextureCall(param, tokens[curToken].text).value;
      ok := WriteTextureCall(param.name, call, sampled);
      if !ok {
        NoOpening(From(p), param, sincosCounter);
        return false, p;
      }
      ghost var o := TextureOpening(env, From(p), param).value;
      TextureOpened(From(p), param, o, sincosCounter);
      ok := Next();
      if !ok {
        return false, p;
      }
      WriteCoordinates(old(glString), OpeningTokens(call, param.name), old(samplerIds), o.binds);
      return true, curToken;
    }

    /** The coordinates and the closing parenthesis of a texture call. */
    method WriteCoordinates(ghost text: seq<Token>, ghost opening: seq<Token>,
                            ghost ids: map<string, nat>, ghost binds: seq<(string, nat)>)
      requires Valid() && glString == text + opening && samplerIds == Bound(ids, binds)
      modifies this
      ensures var x := Contents(env, old(From(curToken)), ")", old(sincosCounter));
              && curToken >= old(curToken) && Valid() && From(curToken) == x.rest
              && glString == text + (opening + x.out + [RPAREN])
              && sincosCounter == x.next && samplerIds == Bound(ids, binds + x.binds)
      decreases |tokens| - curToken, 7
    {
      hide Contents, Bound;
      ghost var x := Contents(env, From(curToken), ")", sincosCounter);
      var r := WriteFunctionContents(curToken, ")");
      curToken := r;
      Append([RPAREN]);
      Cat3(text, opening, x.out, [RPAREN]);
      BoundConcat(ids, binds, x.binds);
    }
  }
}
