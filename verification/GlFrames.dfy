/** The streamer inside its own recursion: what it goes on to do when the brackets it is waiting for close
    one after the other (libobs-opengl/gl-shaderparser.c:271-523). Every frame waits for a closing
    parenthesis; the outermost end token may be another one. */
module GlFrames {
  import opened Tokens
  import opened Expressions
  import opened GlStream
  import opened Options
  import opened GlTranslation

  /** A copied bracket, the last argument of mul or mad, the coordinates of a texture call, the argument of
      saturate. */
  datatype Frame = Bracket | Factor | Coords | Clamp

  /** What is written when the frame ends. */
  function Close(f: Frame): seq<Token> {
    match f
    case Bracket | Coords => [RPAREN]
    case Factor => [RPAREN, RPAREN]
    case Clamp => CLAMP_TAIL
  }

  function Top(fs: seq<Frame>, end: string): string {
    if fs == [] then end else ")"
  }

  /** From the result of the innermost frame outwards. */
  function Leave(env: Env, q: Step, fs: seq<Frame>, end: string): (r: Step)
    requires IsStream(q.rest)
    ensures IsStream(r.rest) && |r.rest| <= |q.rest|
    decreases |fs|
  {
    if fs == [] then q
    else After(q.out + (if fs[0].Bracket? then Emit(q.rest[0]) else Close(fs[0])), q.binds,
               Leave(env, Advance(env, q.rest, Top(fs[1..], end), q.next), fs[1..], end))
  }

  /** Reaching a token in the loop, inside the given frames. */
  function Resume(env: Env, s: seq<Token>, fs: seq<Frame>, end: string, c: nat): (r: Step)
    requires IsStream(s)
    ensures IsStream(r.rest) && |r.rest| <= |s|
  {
    Leave(env, Scan(env, s, Top(fs, end), c), fs, end)
  }

  /** Starting on a token that is written unexamined, inside the given frames. */
  function Begin(env: Env, s: seq<Token>, fs: seq<Frame>, end: string, c: nat): (r: Step)
    requires IsStream(s)
    ensures IsStream(r.rest) && |r.rest| <= |s|
  {
    Leave(env, Contents(env, s, Top(fs, end), c), fs, end)
  }

  function Go(env: Env, led: bool, s: seq<Token>, fs: seq<Frame>, end: string, c: nat): (r: Step)
    requires IsStream(s)
    ensures IsStream(r.rest) && |r.rest| <= |s|
  {
    if led then Begin(env, s, fs, end, c) else Resume(env, s, fs, end, c)
  }

  lemma {:induction false} LeaveAfter(env: Env, o: seq<Token>, b: seq<(string, nat)>, q: Step, fs: seq<Frame>,
                                      end: string)
    requires IsStream(q.rest)
    ensures Leave(env, After(o, b, q), fs, end) == After(o, b, Leave(env, q, fs, end))
  {
    if fs != [] {
      var r := Leave(env, Advance(env, q.rest, Top(fs[1..], end), q.next), fs[1..], end);
      var z := if fs[0].Bracket? then Emit(q.rest[0]) else Close(fs[0]);
      assert (o + q.out + z) + r.out == o + ((q.out + z) + r.out);
      assert (b + q.binds) + r.binds == b + (q.binds + r.binds);
    }
  }

  // ---- one token at a time ----

  lemma {:induction false} ResumeSymbol(env: Env, t: Token, k: seq<Token>, fs: seq<Frame>, end: string, c: nat)
    requires IsStream(k) && !t.kind.End? && !t.kind.Name? && t != LPAREN && t != LBRACE && t.text != Top(fs, end)
    ensures Resume(env, [t] + k, fs, end, c) == Put([t], Resume(env, k, fs, end, c))
  {
    hide Scan, Leave;
    ScanSymbol(env, t, k, Top(fs, end), c);
    var q := Scan(env, k, Top(fs, end), c);
    PutIsAfter([t], q);
    LeaveAfter(env, [t], [], q, fs, end);
    PutIsAfter([t], Leave(env, q, fs, end));
  }

  lemma {:induction false} PutIsAfter(o: seq<Token>, q: Step)
    ensures Put(o, q) == After(o, [], q)
  {
    assert [] + q.binds == q.binds;
  }

  lemma {:induction false} ResumeName(env: Env, n: string, k: seq<Token>, fs: seq<Frame>, end: string, c: nat)
    requires Tail(k) && !IsExpanded(n) && n != Top(fs, end)
    requires TextureParam(env, n).Some? ==> k[0].text != "."
    ensures Resume(env, [Ident(n)] + k, fs, end, c) == Put([Ident(Rename(n))], Resume(env, k, fs, end, c))
  {
    hide Scan, Leave;
    ScanName(env, n, k, Top(fs, end), c);
    var q := Scan(env, k, Top(fs, end), c);
    PutIsAfter([Ident(Rename(n))], q);
    LeaveAfter(env, [Ident(Rename(n))], [], q, fs, end);
    PutIsAfter([Ident(Rename(n))], Leave(env, q, fs, end));
  }

  lemma {:induction false} ResumeOp(env: Env, op: BinaryOp, k: seq<Token>, fs: seq<Frame>, end: string, c: nat)
    requires Tail(k) && end in ENDS
    ensures Tail(OpTokens(op) + k) && (OpTokens(op) + k)[0].text != "."
    ensures Resume(env, OpTokens(op) + k, fs, end, c) == Put(OpTokens(op), Resume(env, k, fs, end, c))
  {
    hide Scan, Leave;
    ScanOp(env, op, k, Top(fs, end), c);
    var q := Scan(env, k, Top(fs, end), c);
    PutIsAfter(OpTokens(op), q);
    LeaveAfter(env, OpTokens(op), [], q, fs, end);
    PutIsAfter(OpTokens(op), Leave(env, q, fs, end));
  }

  /** An examined opening parenthesis opens a bracket. */
  lemma {:induction false} ResumeOpen(env: Env, s: seq<Token>, fs: seq<Frame>, end: string, c: nat)
    requires IsStream(s) && end in ENDS
    ensures Resume(env, [LPAREN] + s, fs, end, c) == Put([LPAREN], Resume(env, s, [Bracket] + fs, end, c))
  {
    hide Scan, Leave, Contents, Advance;
    ContentsOpen(env, s, ")", c);
    ScanBracket(env, [LPAREN] + s, Top(fs, end), c);
    var q := Scan(env, s, ")", c);
    var v := Advance(env, q.rest, Top(fs, end), q.next);
    LeaveAfter(env, [LPAREN] + q.out + Emit(q.rest[0]), q.binds, v, fs, end);
    LeaveFrame(env, q, Bracket, fs, end);
    assert [LPAREN] + q.out + Emit(q.rest[0]) + Leave(env, v, fs, end).out
        == [LPAREN] + (q.out + Emit(q.rest[0]) + Leave(env, v, fs, end).out);
  }

  lemma {:induction false} LeaveFrame(env: Env, q: Step, f: Frame, fs: seq<Frame>, end: string)
    requires IsStream(q.rest)
    ensures Leave(env, q, [f] + fs, end)
         == After(q.out + (if f.Bracket? then Emit(q.rest[0]) else Close(f)), q.binds,
                  Leave(env, Advance(env, q.rest, Top(fs, end), q.next), fs, end))
  {
    assert ([f] + fs)[1..] == fs;
  }

  /** An unexamined one does not. */
  lemma {:induction false} BeginOpen(env: Env, s: seq<Token>, fs: seq<Frame>, end: string, c: nat)
    requires IsStream(s)
    ensures Begin(env, [LPAREN] + s, fs, end, c) == Put([LPAREN], Resume(env, s, fs, end, c))
  {
    hide Scan, Leave, Contents;
    ContentsOpen(env, s, Top(fs, end), c);
    var q := Scan(env, s, Top(fs, end), c);
    PutIsAfter([LPAREN], q);
    LeaveAfter(env, [LPAREN], [], q, fs, end);
    PutIsAfter([LPAREN], Leave(env, q, fs, end));
  }

  /** Any other first token is the same either way. */
  lemma {:induction false} BeginIsResume(env: Env, s: seq<Token>, fs: seq<Frame>, end: string, c: nat)
    requires IsStream(s) && s[0] != LPAREN && s[0] != LBRACE && s[0].text != Top(fs, end)
    ensures Begin(env, s, fs, end, c) == Resume(env, s, fs, end, c)
  {
    hide Leave;
    ContentsIsScan(env, s, Top(fs, end), c);
  }

  /** A closing parenthesis ends the innermost frame. */
  lemma {:induction false} ResumeClose(env: Env, k: seq<Token>, f: Frame, fs: seq<Frame>, end: string, c: nat)
    requires IsStream(k)
    ensures Resume(env, [RPAREN] + k, [f] + fs, end, c) == Put(Close(f), Resume(env, k, fs, end, c))
  {
    hide Leave, WriteName, Contents;
    var u := [RPAREN] + k;
    assert u[1..] == k;
    var q := Scan(env, u, ")", c);
    assert q == Step(u, [], c, []);
    LeaveFrame(env, q, f, fs, end);
    assert Advance(env, u, Top(fs, end), c) == Scan(env, k, Top(fs, end), c);
    assert [] + Close(f) == Close(f);
    PutIsAfter(Close(f), Resume(env, k, fs, end, c));
  }

  // ---- calls ----

  /** How the streamer gets past an intrinsic that was written. */
  lemma {:induction false} ResumeAttempt(env: Env, f: string, k: seq<Token>, fs: seq<Frame>, end: string, c: nat,
                                         a: Step)
    requires GlslType(f).None? && f != Top(fs, end) && IsStream(k) && IsStream(a.rest)
    requires Intrinsic(env, [Ident(f)] + k, c) == Attempt(true, a)
    ensures Resume(env, [Ident(f)] + k, fs, end, c)
         == After(a.out, a.binds, Leave(env, Advance(env, a.rest, Top(fs, end), a.next), fs, end))
  {
    hide Intrinsic, Leave, Advance;
    assert WriteName(env, [Ident(f)] + k, c) == a;
    LeaveAfter(env, a.out, a.binds, Advance(env, a.rest, Top(fs, end), a.next), fs, end);
  }

  /** The rest of a call whose last argument gave x, as a frame. */
  lemma {:induction false} CallFrame(env: Env, o: seq<Token>, b: seq<(string, nat)>, x: Step, f: Frame, fs: seq<Frame>,
                                     end: string)
    requires IsStream(x.rest) && !f.Bracket?
    ensures After(o + x.out + Close(f), b + x.binds, Leave(env, Advance(env, x.rest, Top(fs, end), x.next), fs, end))
         == After(o, b, Leave(env, x, [f] + fs, end))
  {
    hide Leave, Advance;
    LeaveFrame(env, x, f, fs, end);
    var r := Leave(env, Advance(env, x.rest, Top(fs, end), x.next), fs, end);
    assert (o + x.out + Close(f)) + r.out == o + ((x.out + Close(f)) + r.out);
    assert (b + x.binds) + r.binds == b + (x.binds + r.binds);
  }

  /** gl_write_mul, whatever its arguments are. */
  lemma {:induction false} ResumeMul(env: Env, s1: seq<Token>, fs: seq<Frame>, end: string, c: nat)
    requires Tail(s1) && end in ENDS
    ensures var x := Scan(env, s1, ",", c);
            Resume(env, [Ident("mul")] + ([LPAREN] + s1), fs, end, c)
            == After([LPAREN, LPAREN] + x.out + BETWEEN, x.binds,
                     Begin(env, NextToken(x.rest), [Factor] + fs, end, x.next))
  {
    hide Scan, Contents, NextToken, Intrinsic, Leave, Advance;
    var s := [Ident("mul")] + ([LPAREN] + s1);
    CallStarts(env, "mul", s1, ",", c);
    IntrinsicIs(env, s, c);
    var x := Scan(env, s1, ",", c);
    var y := Contents(env, NextToken(x.rest), ")", x.next);
    var o := [LPAREN, LPAREN] + x.out + BETWEEN;
    assert [LPAREN] + ([LPAREN] + x.out) == [LPAREN, LPAREN] + x.out;
    var a := Step(y.rest, o + y.out + Close(Factor), y.next, x.binds + y.binds);
    assert Mul(env, s, c) == Attempt(true, a);
    ResumeAttempt(env, "mul", [LPAREN] + s1, fs, end, c, a);
    CallFrame(env, o, x.binds, y, Factor, fs, end);
  }

  /** gl_write_mad likewise. */
  lemma {:induction false} ResumeMad(env: Env, s1: seq<Token>, fs: seq<Frame>, end: string, c: nat)
    requires Tail(s1) && end in ENDS
    ensures var x := Scan(env, s1, ",", c);
            var y := Contents(env, NextToken(x.rest), ",", x.next);
            Resume(env, [Ident("mad")] + ([LPAREN] + s1), fs, end, c)
            == After([LPAREN, LPAREN] + x.out + BETWEEN + y.out + BETWEEN_ADD, x.binds + y.binds,
                     Begin(env, NextToken(y.rest), [Factor] + fs, end, y.next))
  {
    hide Scan, Contents, NextToken, Intrinsic, Leave, Advance;
    var s := [Ident("mad")] + ([LPAREN] + s1);
    CallStarts(env, "mad", s1, ",", c);
    IntrinsicIs(env, s, c);
    var x := Scan(env, s1, ",", c);
    var y := Contents(env, NextToken(x.rest), ",", x.next);
    var z := Contents(env, NextToken(y.rest), ")", y.next);
    var o := [LPAREN, LPAREN] + x.out + BETWEEN + y.out + BETWEEN_ADD;
    assert [LPAREN] + ([LPAREN] + x.out) == [LPAREN, LPAREN] + x.out;
    var a := Step(z.rest, o + z.out + Close(Factor), z.next, x.binds + y.binds + z.binds);
    assert Mad(env, s, c) == Attempt(true, a);
    ResumeAttempt(env, "mad", [LPAREN] + s1, fs, end, c, a);
    CallFrame(env, o, x.binds + y.binds, z, Factor, fs, end);
  }

  lemma {:induction false} ResumeSaturate(env: Env, s1: seq<Token>, fs: seq<Frame>, end: string, c: nat)
    requires Tail(s1) && end in ENDS
    ensures Resume(env, [Ident("saturate")] + ([LPAREN] + s1), fs, end, c)
         == Put([Ident("clamp"), LPAREN], Resume(env, s1, [Clamp] + fs, end, c))
  {
    hide Scan, Contents, NextToken, Intrinsic, Leave, Advance;
    var s := [Ident("saturate")] + ([LPAREN] + s1);
    CallStarts(env, "saturate", s1, ")", c);
    IntrinsicIs(env, s, c);
    var x := Scan(env, s1, ")", c);
    var o := [Ident("clamp"), LPAREN];
    assert [Ident("clamp")] + ([LPAREN] + x.out) == o + x.out;
    var a := Step(x.rest, o + x.out + Close(Clamp), x.next, x.binds);
    assert Saturate(env, s, c) == Attempt(true, a);
    ResumeAttempt(env, "saturate", [LPAREN] + s1, fs, end, c, a);
    assert [] + x.binds == x.binds;
    CallFrame(env, o, [], x, Clamp, fs, end);
    PutIsAfter(o, Leave(env, x, [Clamp] + fs, end));
  }

  /** What a texture call writes. */
  lemma {:induction false} TextureReads(env: Env, p: Param, m: string, sampler: Option<string>, v: seq<Token>, c: nat)
    requires Tail(v) && !v[0].kind.End? && TextureCall(p, m).Some?
    requires sampler.Some? == TextureCall(p, m).value.1
    requires sampler.Some? ==> sampler.value in env.samplers
    ensures IsStream(TextureHead(p.name, m, sampler, v))
    ensures var x := Contents(env, v, ")", c);
            Texture(env, TextureHead(p.name, m, sampler, v), p, c) ==
            Attempt(true, Step(x.rest, OpeningTokens(TextureCall(p, m).value.0, p.name) + x.out + Close(Coords), x.next,
                               SamplerBind(env, p.name, sampler) + x.binds))
  {
    hide Contents, NextToken, TextureOpening, TextureCall, FindSampler;
    OpeningReads(env, p, m, sampler, v);
    NextOfCons(if sampler.Some? then COMMA else LPAREN, v);
  }

  /** A texture call up to its coordinates, which start on v. */
  lemma {:induction false} ResumeTexture(env: Env, p: Param, m: string, sampler: Option<string>, v: seq<Token>,
                                         fs: seq<Frame>, end: string, c: nat)
    requires Tail(v) && !v[0].kind.End? && TextureCall(p, m).Some? && end in ENDS
    requires sampler.Some? == TextureCall(p, m).value.1
    requires sampler.Some? ==> sampler.value in env.samplers
    requires PlainName(p.name) && TextureParam(env, p.name) == Some(p)
    ensures IsStream(TextureHead(p.name, m, sampler, v))
    ensures Resume(env, TextureHead(p.name, m, sampler, v), fs, end, c)
         == After(OpeningTokens(TextureCall(p, m).value.0, p.name), SamplerBind(env, p.name, sampler),
                  Begin(env, v, [Coords] + fs, end, c))
  {
    hide Scan, Contents, NextToken, Intrinsic, Leave, Advance, TextureOpening, TextureCall, FindSampler, TextureParam;
    hide Texture;
    var s := TextureHead(p.name, m, sampler, v);
    IntrinsicIs(env, s, c);
    TextureReads(env, p, m, sampler, v, c);
    var x := Contents(env, v, ")", c);
    var o := OpeningTokens(TextureCall(p, m).value.0, p.name);
    var a := Step(x.rest, o + x.out + Close(Coords), x.next, SamplerBind(env, p.name, sampler) + x.binds);
    ResumeAttempt(env, p.name, [DOT] + ([Ident(m)] + ([LPAREN] + SamplerThen(sampler, v))), fs, end, c, a);
    CallFrame(env, o, SamplerBind(env, p.name, sampler), x, Coords, fs, end);
  }
}
