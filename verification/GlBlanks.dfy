/** Blanks do not steer the transpiler: on any token stream, even a malformed one, it stops at the
    same token and writes the same tokens, blanks aside, as on the stream without blanks. */
module GlBlanks {
  import opened Tokens
  import opened Expressions
  import opened GlStream
  import opened Options

  /** b is what a becomes when blanks are ignored. */
  predicate Same(a: Step, b: Step) {
    && b.rest == Strip(a.rest) && Strip(a.out) == Strip(b.out)
    && a.next == b.next && a.binds == b.binds
  }

  predicate SameAttempt(a: Attempt, b: Attempt) {
    a.written == b.written && Same(a.step, b.step)
  }

  /** A position a writer can start or stop at. */
  predicate Solid(s: seq<Token>) {
    IsStream(s) && Lexed(s) && !IsSpace(s[0])
  }

  lemma {:induction false} AfterSame(o1: seq<Token>, o2: seq<Token>, binds: seq<(string, nat)>, a: Step, b: Step)
    requires Strip(o1) == Strip(o2) && Same(a, b)
    ensures Same(After(o1, binds, a), After(o2, binds, b))
  {
    StripConcat(o1, a.out);
    StripConcat(o2, b.out);
  }

  lemma {:induction false} StripTail(s: seq<Token>)
    requires Solid(s) && !s[0].kind.End?
    ensures IsStream(s[1..]) && Lexed(s[1..]) && Strip(s) == [s[0]] + Strip(s[1..]) && Strip(s)[1..] == Strip(s[1..])
    ensures IsStream(Strip(s[1..]))
  {
    StripStream(s[1..]);
  }

  lemma {:induction false} ContentsSame(env: Env, s: seq<Token>, end: string, c: nat)
    requires Solid(s) && end in DELIMITERS
    ensures IsStream(Strip(s)) && Strip(s)[0] == s[0]
    ensures Same(Contents(env, s, end, c), Contents(env, Strip(s), end, c))
    ensures Solid(Contents(env, s, end, c).rest)
    decreases |s|, 6
  {
    StripStream(s);
    if s[0].kind.Name? {
      var w := WriteName(env, s, c);
      var w' := WriteName(env, Strip(s), c);
      NameSame(env, s, c);
      AdvanceSame(env, w.rest, end, w.next);
      AfterSame(w.out, w'.out, w.binds, Advance(env, w.rest, end, w.next), Advance(env, w'.rest, end, w.next));
    } else {
      AdvanceSame(env, s, end, c);
      AfterSame(Emit(s[0]), Emit(s[0]), [], Advance(env, s, end, c), Advance(env, Strip(s), end, c));
    }
  }

  lemma {:induction false} AdvanceSame(env: Env, u: seq<Token>, end: string, c: nat)
    requires Solid(u) && end in DELIMITERS
    ensures IsStream(Strip(u))
    ensures Same(Advance(env, u, end, c), Advance(env, Strip(u), end, c))
    ensures Solid(Advance(env, u, end, c).rest)
    decreases |u|, 5
  {
    StripStream(u);
    if !u[0].kind.End? {
      StripTail(u);
      ScanSame(env, u[1..], end, c);
    }
  }

  lemma {:induction false} ScanSame(env: Env, t: seq<Token>, end: string, c: nat)
    requires IsStream(t) && Lexed(t) && end in DELIMITERS
    ensures IsStream(Strip(t))
    ensures Same(Scan(env, t, end, c), Scan(env, Strip(t), end, c))
    ensures Solid(Scan(env, t, end, c).rest)
    decreases |t|, 8
  {
    StripStream(t);
    if IsSpace(t[0]) {
      assert t[0].text != end;
      ScanSame(env, t[1..], end, c);
      assert Strip(t) == Strip(t[1..]);
      var a := Scan(env, t[1..], end, c);
      assert Scan(env, t, end, c) == After([t[0]], [], a);
      AfterSame([t[0]], [], [], a, Scan(env, Strip(t), end, c));
      assert After([], [], Scan(env, Strip(t), end, c)) == Scan(env, Strip(t), end, c);
    } else if t[0].text == end {
    } else if t[0].kind.Name? {
      var w := WriteName(env, t, c);
      var w' := WriteName(env, Strip(t), c);
      NameSame(env, t, c);
      AdvanceSame(env, w.rest, end, w.next);
      AfterSame(w.out, w'.out, w.binds, Advance(env, w.rest, end, w.next), Advance(env, w'.rest, end, w.next));
    } else if t[0] == LBRACE || t[0] == LPAREN {
      BracketSame(env, t, end, c);
    } else {
      AdvanceSame(env, t, end, c);
      AfterSame(Emit(t[0]), Emit(t[0]), [], Advance(env, t, end, c), Advance(env, Strip(t), end, c));
    }
  }

  lemma {:induction false} BracketSame(env: Env, t: seq<Token>, end: string, c: nat)
    requires Solid(t) && end in DELIMITERS && t[0].text != end && (t[0] == LBRACE || t[0] == LPAREN)
    ensures IsStream(Strip(t))
    ensures Same(Scan(env, t, end, c), Scan(env, Strip(t), end, c))
    ensures Solid(Scan(env, t, end, c).rest)
    decreases |t|, 7
  {
    StripStream(t);
    var close := if t[0] == LBRACE then "}" else ")";
    ContentsSame(env, t, close, c);
    var b := Contents(env, t, close, c);
    var b' := Contents(env, Strip(t), close, c);
    StripStream(b.rest);
    AdvanceSame(env, b.rest, end, b.next);
    var o := Emit(b.rest[0]);
    StripConcat(b.out, o);
    StripConcat(b'.out, o);
    AfterSame(b.out + o, b'.out + o, b.binds, Advance(env, b.rest, end, b.next), Advance(env, b'.rest, end, b.next));
  }

  lemma {:induction false} NameSame(env: Env, s: seq<Token>, c: nat)
    requires Solid(s) && s[0].kind.Name?
    ensures IsStream(Strip(s)) && Strip(s)[0] == s[0]
    ensures Same(WriteName(env, s, c), WriteName(env, Strip(s), c))
    ensures Solid(WriteName(env, s, c).rest)
    decreases |s|, 4
  {
    StripStream(s);
    if GlslType(s[0].text).None? {
      IntrinsicSame(env, s, c);
      StripConcat(Intrinsic(env, s, c).step.out, [s[0]]);
      StripConcat(Intrinsic(env, Strip(s), c).step.out, [s[0]]);
    }
  }

  lemma {:induction false} IntrinsicSame(env: Env, s: seq<Token>, c: nat)
    requires Solid(s) && s[0].kind.Name?
    ensures IsStream(Strip(s)) && Strip(s)[0] == s[0]
    ensures SameAttempt(Intrinsic(env, s, c), Intrinsic(env, Strip(s), c))
    ensures Solid(Intrinsic(env, s, c).step.rest)
    decreases |s|, 3
  {
    StripStream(s);
    if GlslFunction(s[0].text).None? {
      if s[0].text == "mad" {
        MadSame(env, s, c);
      } else if s[0].text == "mul" {
        MulSame(env, s, c);
      } else if s[0].text == "saturate" {
        SaturateSame(env, s, c);
      } else if s[0].text == "sincos" {
        SincosSame(env, s, c);
      } else if TextureParam(env, s[0].text).Some? {
        TextureSame(env, s, TextureParam(env, s[0].text).value, c);
      }
    }
  }

  /** The step every writer starts with. */
  lemma {:induction false} NextSame(s: seq<Token>)
    requires Solid(s)
    ensures IsStream(Strip(s)) && Strip(s)[0] == s[0]
    ensures Solid(NextToken(s)) && IsStream(Strip(NextToken(s))) && Strip(NextToken(s))[0] == NextToken(s)[0]
    ensures NextToken(Strip(s)) == Strip(NextToken(s))
  {
    StripStream(s);
    StripNext(s);
    LexedNext(s);
    StripStream(NextToken(s));
  }

  lemma {:induction false} MulSame(env: Env, s: seq<Token>, c: nat)
    requires Solid(s) && s[0].kind.Name?
    ensures IsStream(Strip(s)) && Strip(s)[0] == s[0]
    ensures SameAttempt(Mul(env, s, c), Mul(env, Strip(s), c))
    ensures Solid(Mul(env, s, c).step.rest)
    decreases |s|, 2
  {
    NextSame(s);
    var s1 := NextToken(s);
    if !s1[0].kind.End? && s1[0].text == "(" {
      ContentsSame(env, s1, ",", c);
      var x := Contents(env, s1, ",", c);
      var x' := Contents(env, Strip(s1), ",", c);
      NextSame(x.rest);
      ContentsSame(env, NextToken(x.rest), ")", x.next);
      var y := Contents(env, NextToken(x.rest), ")", x.next);
      var y' := Contents(env, NextToken(x'.rest), ")", x.next);
      StripJoin5([LPAREN], x.out, BETWEEN, y.out, [RPAREN, RPAREN]);
      StripJoin5([LPAREN], x'.out, BETWEEN, y'.out, [RPAREN, RPAREN]);
    }
  }

  lemma {:induction false} StripJoin3(a: seq<Token>, b: seq<Token>, c: seq<Token>)
    ensures Strip(a + b + c) == Strip(a) + Strip(b) + Strip(c)
  {
    StripConcat(a, b);
    StripConcat(a + b, c);
  }

  lemma {:induction false} StripJoin5(a: seq<Token>, b: seq<Token>, c: seq<Token>, d: seq<Token>, e: seq<Token>)
    ensures Strip(a + b + c + d + e) == Strip(a) + Strip(b) + Strip(c) + Strip(d) + Strip(e)
  {
    StripJoin3(a, b, c);
    StripJoin3(a + b + c, d, e);
  }

  lemma {:induction false} MadSame(env: Env, s: seq<Token>, c: nat)
    requires Solid(s) && s[0].kind.Name?
    ensures IsStream(Strip(s)) && Strip(s)[0] == s[0]
    ensures SameAttempt(Mad(env, s, c), Mad(env, Strip(s), c))
    ensures Solid(Mad(env, s, c).step.rest)
    decreases |s|, 2
  {
    NextSame(s);
    var s1 := NextToken(s);
    if !s1[0].kind.End? && s1[0].text == "(" {
      ContentsSame(env, s1, ",", c);
      var x := Contents(env, s1, ",", c);
      var x' := Contents(env, Strip(s1), ",", c);
      NextSame(x.rest);
      ContentsSame(env, NextToken(x.rest), ",", x.next);
      var y := Contents(env, NextToken(x.rest), ",", x.next);
      var y' := Contents(env, NextToken(x'.rest), ",", x.next);
      NextSame(y.rest);
      ContentsSame(env, NextToken(y.rest), ")", y.next);
      var z := Contents(env, NextToken(y.rest), ")", y.next);
      var z' := Contents(env, NextToken(y'.rest), ")", y.next);
      StripJoin5([LPAREN], x.out, BETWEEN, y.out, BETWEEN_ADD);
      StripJoin5([LPAREN], x'.out, BETWEEN, y'.out, BETWEEN_ADD);
      StripJoin3([LPAREN] + x.out + BETWEEN + y.out + BETWEEN_ADD, z.out, [RPAREN, RPAREN]);
      StripJoin3([LPAREN] + x'.out + BETWEEN + y'.out + BETWEEN_ADD, z'.out, [RPAREN, RPAREN]);
    }
  }

  lemma {:induction false} SaturateSame(env: Env, s: seq<Token>, c: nat)
    requires Solid(s) && s[0].kind.Name?
    ensures IsStream(Strip(s)) && Strip(s)[0] == s[0]
    ensures SameAttempt(Saturate(env, s, c), Saturate(env, Strip(s), c))
    ensures Solid(Saturate(env, s, c).step.rest)
    decreases |s|, 2
  {
    NextSame(s);
    var s1 := NextToken(s);
    if !s1[0].kind.End? && s1[0].text == "(" {
      ContentsSame(env, s1, ")", c);
      StripJoin3([Ident("clamp")], Contents(env, s1, ")", c).out, CLAMP_TAIL);
      StripJoin3([Ident("clamp")], Contents(env, Strip(s1), ")", c).out, CLAMP_TAIL);
    }
  }

  lemma {:induction false} SincosSame(env: Env, s: seq<Token>, c: nat)
    requires Solid(s) && s[0].kind.Name?
    ensures IsStream(Strip(s)) && Strip(s)[0] == s[0]
    ensures SameAttempt(Sincos(env, s, c), Sincos(env, Strip(s), c))
    ensures Solid(Sincos(env, s, c).step.rest)
    decreases |s|, 2
  {
    NextSame(s);
    var s1 := NextToken(s);
    if !s1[0].kind.End? && s1[0].text == "(" {
      var v := SincosVar(c);
      var head := [Ident("float"), BLANK, v, BLANK, EQUALS, BLANK];
      var mid := [RPAREN, SEMICOLON, BLANK];
      ContentsSame(env, s1, ",", c + 1);
      var x := Contents(env, s1, ",", c + 1);
      var x' := Contents(env, Strip(s1), ",", c + 1);
      StripJoin3(head, x.out, mid);
      StripJoin3(head, x'.out, mid);
      var o1, o1' := head + x.out + mid, head + x'.out + mid;
      NextSame(x.rest);
      var s2 := NextToken(x.rest);
      if !s2[0].kind.End? {
        ContentsSame(env, s2, ",", x.next);
        var y := Contents(env, s2, ",", x.next);
        var y' := Contents(env, Strip(s2), ",", x.next);
        var semi := [SEMICOLON, BLANK];
        StripJoin3(o1, y.out, AssignOf("sin", v));
        StripConcat(o1 + y.out + AssignOf("sin", v), semi);
        StripJoin3(o1', y'.out, AssignOf("sin", v));
        StripConcat(o1' + y'.out + AssignOf("sin", v), semi);
        var o2, o2' := o1 + y.out + AssignOf("sin", v) + semi, o1' + y'.out + AssignOf("sin", v) + semi;
        NextSame(y.rest);
        var s3 := NextToken(y.rest);
        if !s3[0].kind.End? {
          ContentsSame(env, s3, ")", y.next);
          StripJoin3(o2, Contents(env, s3, ")", y.next).out, AssignOf("cos", v));
          StripJoin3(o2', Contents(env, Strip(s3), ")", y.next).out, AssignOf("cos", v));
        }
      }
    }
  }

  predicate SameOpening(a: Option<Opening>, b: Option<Opening>) {
    match (a, b)
    case (None, None) => true
    case (Some(x), Some(y)) => Solid(x.at) && y == x.(at := Strip(x.at))
    case _ => false
  }

  lemma {:induction false} SamplerOpeningSame(env: Env, s: seq<Token>, name: string, call: string)
    requires Solid(s)
    ensures IsStream(Strip(s))
    ensures SameOpening(SamplerOpening(env, s, name, call), SamplerOpening(env, Strip(s), name, call))
  {
    NextSame(s);
    NextSame(NextToken(s));
  }

  lemma {:induction false} CallOpeningSame(env: Env, s: seq<Token>, name: string, call: string, sampled: bool)
    requires Solid(s)
    ensures IsStream(Strip(s))
    ensures SameOpening(CallOpening(env, s, name, call, sampled), CallOpening(env, Strip(s), name, call, sampled))
  {
    NextSame(s);
    if sampled {
      SamplerOpeningSame(env, NextToken(s), name, call);
    }
  }

  lemma {:induction false} TextureOpeningSame(env: Env, s: seq<Token>, p: Param)
    requires Solid(s) && s[0].kind.Name?
    ensures IsStream(Strip(s)) && Strip(s)[0] == s[0]
    ensures SameOpening(TextureOpening(env, s, p), TextureOpening(env, Strip(s), p))
  {
    NextSame(s);
    var s1 := NextToken(s);
    if !s1[0].kind.End? && s1[0].text == "." {
      NextSame(s1);
      var s2 := NextToken(s1);
      if !s2[0].kind.End? && TextureCall(p, s2[0].text).Some? {
        var (call, sampled) := TextureCall(p, s2[0].text).value;
        CallOpeningSame(env, s2, p.name, call, sampled);
      }
    }
  }

  lemma {:induction false} TextureSame(env: Env, s: seq<Token>, p: Param, c: nat)
    requires Solid(s) && s[0].kind.Name?
    ensures IsStream(Strip(s)) && Strip(s)[0] == s[0]
    ensures SameAttempt(Texture(env, s, p, c), Texture(env, Strip(s), p, c))
    ensures Solid(Texture(env, s, p, c).step.rest)
    decreases |s|, 2
  {
    TextureOpeningSame(env, s, p);
    var o := TextureOpening(env, s, p);
    if o.Some? {
      NextSame(o.value.at);
      var opening := OpeningTokens(o.value.call, p.name);
      var v := NextToken(o.value.at);
      if !v[0].kind.End? {
        ContentsSame(env, v, ")", c);
        StripJoin3(opening, Contents(env, v, ")", c).out, [RPAREN]);
        StripJoin3(opening, Contents(env, Strip(v), ")", c).out, [RPAREN]);
      }
    }
  }
}
