/** What the streamer writes for any expression, also where an argument that begins with a parenthesis makes a
    call end early (libobs-opengl/gl-shaderparser.c:271-523): the text is right exactly when the expression
    settles. */
module GlSettled {
  import opened Tokens
  import opened Expressions
  import opened GlStream
  import opened Options
  import opened GlTranslation
  import opened GlFrames

  // ---- the text of a translated tree, blanks included ----

  function Text(env: Env, e: Expr): seq<Token>
    decreases e, 2
  {
    if Continues(e) then Text(env, Leftmost(e)) + TextLater(env, e)
    else if e.Atom? then [e.tok]
    else if e.Paren? then [LPAREN] + Text(env, e.inner) + [RPAREN]
    else if e.Call? then
      if e.fn == "mul" && |e.args| == 2 then
        [LPAREN, LPAREN] + Text(env, e.args[0]) + BETWEEN + Text(env, e.args[1]) + [RPAREN, RPAREN]
      else if e.fn == "mad" && |e.args| == 3 then
        [LPAREN, LPAREN] + Text(env, e.args[0]) + BETWEEN + Text(env, e.args[1]) + BETWEEN_ADD + Text(env, e.args[2])
        + [RPAREN, RPAREN]
      else if e.fn == "saturate" && |e.args| == 1 then
        [Ident("clamp"), LPAREN] + Text(env, e.args[0]) + CLAMP_TAIL
      else [Ident(Rename(e.fn)), LPAREN] + Texts(env, e.args) + [RPAREN]
    else if e.Method? then
      if IsTextureCall(env, e.obj, e.fn, e.args) then
        var (call, sampled) := TextureCall(TextureParam(env, e.obj.tok.text).value, e.fn).value;
        OpeningTokens(call, e.obj.tok.text) + Texts(env, if sampled then e.args[1..] else e.args) + [RPAREN]
      else []
    else [UnaryToken(e.uop)] + Text(env, e.operand)
  }

  function TextLater(env: Env, e: Expr): seq<Token>
    requires Continues(e)
    decreases e, 1
  {
    match e
    case Member(_, m) => [DOT, Ident(m)]
    case Index(_, i) => [LBRACKET] + Text(env, i) + [RBRACKET]
    case Binary(op, _, r) => OpTokens(op) + Text(env, r)
    case Cond(_, y, n) => [Sym("?")] + Text(env, y) + [Sym(":")] + Text(env, n)
  }

  function Texts(env: Env, args: seq<Expr>): seq<Token>
    decreases args, 0
  {
    if args == [] then []
    else if |args| == 1 then Text(env, args[0])
    else Text(env, args[0]) + [COMMA] + Texts(env, args[1..])
  }

  // ---- closing early ----

  /** A frame of the source; gone when the streamer has left it already. */
  datatype Slot = Slot(frame: Frame, gone: bool)

  /** The frames a source position is inside of, and the text written ahead of it. */
  datatype State = State(slots: seq<Slot>, ahead: seq<Token>)

  const START := State([], [])

  /** The frames the streamer itself is inside of. */
  function Live(slots: seq<Slot>): seq<Frame> {
    if slots == [] then [] else (if slots[0].gone then [] else [slots[0].frame]) + Live(slots[1..])
  }

  function Owed(slots: seq<Slot>): nat {
    if slots == [] then 0 else (if slots[0].gone then |Close(slots[0].frame)| - 1 else 0) + Owed(slots[1..])
  }

  /** Text written ahead is made of closing texts. */
  predicate Closers(w: seq<Token>) {
    || w == []
    || (w[0] == RPAREN && Closers(w[1..]))
    || (CLAMP_TAIL <= w && Closers(w[|CLAMP_TAIL|..]))
  }

  predicate Valid(st: State) {
    Closers(st.ahead) && |st.ahead| == Owed(st.slots)
  }

  predicate Alike(a: seq<Slot>, b: seq<Slot>) {
    |a| == |b| && forall i :: 0 <= i < |a| ==> a[i].frame == b[i].frame
  }

  function Push(st: State, f: Frame, gone: bool): (r: State)
    requires gone ==> f.Bracket?
    ensures Owed(r.slots) == Owed(st.slots)
    ensures Live(r.slots) == (if gone then [] else [f]) + Live(st.slots)
  {
    var r := st.(slots := [Slot(f, gone)] + st.slots);
    assert r.slots[1..] == st.slots;
    r
  }

  /** The streamer leaves its innermost frame. */
  function Lose(slots: seq<Slot>): (r: seq<Slot>)
    requires Live(slots) != []
    ensures Alike(slots, r) && Live(slots) == [Live(slots)[0]] + Live(r)
    ensures Owed(r) == Owed(slots) + |Close(Live(slots)[0])| - 1
  {
    if slots[0].gone then
      var r := [slots[0]] + Lose(slots[1..]);
      assert r[1..] == Lose(slots[1..]);
      r
    else
      var r := [slots[0].(gone := true)] + slots[1..];
      assert r[1..] == slots[1..];
      r
  }

  /** Writing one text where another is due. */
  function Catch(ahead: seq<Token>, written: seq<Token>, due: seq<Token>, slots: seq<Slot>): Option<State> {
    if due <= ahead + written then Some(State(slots, (ahead + written)[|due|..])) else None
  }

  /** A closing parenthesis of the source. The frame it closes writes its closing text now; if the streamer
      has left that frame, it leaves the next one instead, or copies the parenthesis. */
  function Shut(st: State, end: string): (r: Option<State>)
    requires Valid(st) && st.slots != []
    ensures r.Some? ==> Valid(r.value) && Alike(st.slots[1..], r.value.slots)
  {
    var top, below := st.slots[0], st.slots[1..];
    if !top.gone then
      CatchClosers(st.ahead, top.frame, top.frame);
      Catch(st.ahead, Close(top.frame), Close(top.frame), below)
    else if Live(below) != [] then
      CatchClosers(st.ahead, Live(below)[0], top.frame);
      Catch(st.ahead, Close(Live(below)[0]), Close(top.frame), Lose(below))
    else if end == ")" then None
    else
      CatchClosers(st.ahead, Bracket, top.frame);
      Catch(st.ahead, [RPAREN], Close(top.frame), below)
  }

  function ShutAfter(o: Option<State>, end: string): (r: Option<State>)
    requires o.Some? ==> Valid(o.value) && o.value.slots != []
    ensures r.Some? ==> o.Some? && Valid(r.value) && Alike(o.value.slots[1..], r.value.slots)
  {
    match o
    case None => None
    case Some(st) => Shut(st, end)
  }

  /** A comma of the source is copied where nothing else is due, unless the streamer is looking for it. */
  predicate CommaDue(st: State, end: string) {
    st.ahead == [] && (end == "," ==> Live(st.slots) != [])
  }

  /** The state after an expression; none if something comes out of place. Led expressions have their first
      token written unexamined. */
  function Settle(env: Env, e: Expr, led: bool, st: State, end: string): (r: Option<State>)
    requires Valid(st)
    ensures r.Some? ==> Valid(r.value) && Alike(st.slots, r.value.slots)
    decreases e, 2
  {
    if Continues(e) then
      match Settle(env, Leftmost(e), led, st, end)
      case None => None
      case Some(gs) => SettleLater(env, e, gs, end)
    else if st.ahead != [] then None
    else if e.Atom? then Some(st)
    else if e.Paren? then ShutAfter(Settle(env, e.inner, false, Push(st, Bracket, led), end), end)
    else if e.Call? then
      if e.fn == "mul" && |e.args| == 2 then
        if !Settles(env, e.args[0], false) then None
        else ShutAfter(Settle(env, e.args[1], true, Push(st, Factor, false), end), end)
      else if e.fn == "mad" && |e.args| == 3 then
        if !Settles(env, e.args[0], false) || !Settles(env, e.args[1], true) then None
        else ShutAfter(Settle(env, e.args[2], true, Push(st, Factor, false), end), end)
      else if e.fn == "saturate" && |e.args| == 1 then
        ShutAfter(Settle(env, e.args[0], false, Push(st, Clamp, false), end), end)
      else ShutAfter(SettleArgs(env, e.args, false, Push(st, Bracket, false), end), end)
    else if e.Method? then SettleMethod(env, e, st, end)
    else Settle(env, e.operand, false, st, end)
  }

  function SettleMethod(env: Env, e: Expr, st: State, end: string): (r: Option<State>)
    requires e.Method? && Valid(st)
    ensures r.Some? ==> Valid(r.value) && Alike(st.slots, r.value.slots)
    decreases e, 1
  {
    if IsTextureCall(env, e.obj, e.fn, e.args) then
      var sampled := TextureCall(TextureParam(env, e.obj.tok.text).value, e.fn).value.1;
      ShutAfter(SettleArgs(env, if sampled then e.args[1..] else e.args, true, Push(st, Coords, false), end), end)
    else None
  }

  function SettleLater(env: Env, e: Expr, st: State, end: string): (r: Option<State>)
    requires Continues(e) && Valid(st)
    ensures r.Some? ==> Valid(r.value) && Alike(st.slots, r.value.slots)
    decreases e, 1
  {
    if st.ahead != [] then None
    else
      match e
      case Member(_, _) => Some(st)
      case Index(_, i) =>
        var r := Settle(env, i, false, st, end);
        if r.Some? && r.value.ahead != [] then None else r
      case Binary(_, _, r) => Settle(env, r, false, st, end)
      case Cond(_, y, n) =>
        match Settle(env, y, false, st, end)
        case None => None
        case Some(gs) => if gs.ahead != [] then None else Settle(env, n, false, gs, end)
  }

  function SettleArgs(env: Env, args: seq<Expr>, led: bool, st: State, end: string): (r: Option<State>)
    requires Valid(st)
    ensures r.Some? ==> Valid(r.value) && Alike(st.slots, r.value.slots)
    decreases args, 0
  {
    if args == [] then Some(st)
    else
      match Settle(env, args[0], led, st, end)
      case None => None
      case Some(gs) =>
        if |args| == 1 then Some(gs)
        else if CommaDue(gs, end) then SettleArgs(env, args[1..], false, gs, end)
        else None
  }

  /** An argument up to its comma. */
  predicate Settles(env: Env, e: Expr, led: bool)
    decreases e, 3
  {
    Settle(env, e, led, START, ",").Some?
  }

  lemma {:induction false} CatchClosers(ahead: seq<Token>, written: Frame, due: Frame)
    requires Closers(ahead)
    ensures Close(due) <= ahead + Close(written) ==> Closers((ahead + Close(written))[|Close(due)|..])
  {
    ClosersAppend(ahead, written);
    var w := ahead + Close(written);
    if Close(due) <= w {
      if due.Factor? {
        assert w[0] == RPAREN && w[1] == RPAREN;
        assert w[1..][1..] == w[2..];
      } else if due.Clamp? {
        assert w[0] == CLAMP_TAIL[0];
      } else {
        assert w[0] == RPAREN;
      }
    }
  }

  lemma {:induction false} ClosersAppend(w: seq<Token>, f: Frame)
    requires Closers(w)
    ensures Closers(w + Close(f))
  {
    hide Close;
    if w == [] {
      CloseIsClosers(f);
      assert w + Close(f) == Close(f);
    } else if w[0] == RPAREN {
      ClosersAppend(w[1..], f);
      ClosersParen(w[1..] + Close(f));
      FrontOf([RPAREN], w);
      FrontThen([RPAREN], w[1..], Close(f));
    } else {
      var tail := w[|CLAMP_TAIL|..];
      ClosersAppend(tail, f);
      ClosersClamp(tail + Close(f));
      FrontOf(CLAMP_TAIL, w);
      FrontThen(CLAMP_TAIL, tail, Close(f));
    }
  }

  lemma {:induction false} FrontOf(a: seq<Token>, w: seq<Token>)
    requires a <= w
    ensures w == a + w[|a|..]
  {
  }

  lemma {:induction false} FrontThen(a: seq<Token>, b: seq<Token>, c: seq<Token>)
    ensures a + b + c == a + (b + c)
  {
  }

  lemma {:induction false} ClosersParen(w: seq<Token>)
    requires Closers(w)
    ensures Closers([RPAREN] + w)
  {
    var v := [RPAREN] + w;
    assert v[1..] == w;
  }

  lemma {:induction false} ClosersClamp(w: seq<Token>)
    requires Closers(w)
    ensures Closers(CLAMP_TAIL + w)
  {
    var v := CLAMP_TAIL + w;
    assert v[|CLAMP_TAIL|..] == w;
  }

  lemma {:induction false} CloseIsClosers(f: Frame)
    ensures Closers(Close(f))
  {
    var c := Close(f);
    if f.Clamp? {
      assert c[|CLAMP_TAIL|..] == [];
    } else if f.Factor? {
      assert c[1..] == [RPAREN] && [RPAREN][1..] == [];
    } else {
      assert c[1..] == [];
    }
  }

  // ---- what the streamer does against the state ----

  /** a goes off the text t, or stops before a comma of it. */
  predicate OffAt(a: seq<Token>, t: seq<Token>, end: string, i: nat) {
    && i <= |a| && i < |t| && a[..i] == t[..i]
    && if i < |a| then a[i] != t[i] else end == "," && t[i] == COMMA
  }

  ghost predicate Off(a: seq<Token>, t: seq<Token>, end: string) {
    exists i: nat :: OffAt(a, t, end, i)
  }

  /** Wrong text, or a stop before k. */
  ghost predicate Fails(ahead: seq<Token>, q: Step, t: seq<Token>, k: seq<Token>, end: string) {
    Off(ahead + q.out, t, end) || (end == ")" && |k| < |q.rest|)
  }

  /** Having written t where it was due, apart from what is ahead. */
  predicate Writes(st: State, q: Step, t: seq<Token>, b: seq<(string, nat)>, gs: State, r: Step) {
    q.rest == r.rest && q.next == r.next && q.binds == b + r.binds && st.ahead + q.out == t + gs.ahead + r.out
  }

  ghost predicate Outcome(env: Env, st: State, q: Step, t: seq<Token>, b: seq<(string, nat)>, o: Option<State>,
                          k: seq<Token>, end: string, c: nat)
    requires IsStream(k)
  {
    match o
    case Some(gs) => Writes(st, q, t, b, gs, Resume(env, k, Live(gs.slots), end, c))
    case None => Fails(st.ahead, q, t, k, end)
  }

  lemma {:induction false} OffShift(p: seq<Token>, a: seq<Token>, t: seq<Token>, end: string)
    requires Off(a, t, end)
    ensures Off(p + a, p + t, end)
  {
    var i: nat :| OffAt(a, t, end, i);
    var n := |p| + i;
    assert (p + a)[..n] == p + a[..i] && (p + t)[..n] == p + t[..i];
    assert OffAt(p + a, p + t, end, n);
  }

  lemma {:induction false} OffMore(a: seq<Token>, t: seq<Token>, u: seq<Token>, end: string)
    requires Off(a, t, end)
    ensures Off(a, t + u, end)
  {
    var i: nat :| OffAt(a, t, end, i);
    assert (t + u)[..i] == t[..i];
    assert OffAt(a, t + u, end, i);
  }

  /** A failure stays one when more is expected. */
  lemma {:induction false} FailsMore(ahead: seq<Token>, q: Step, t: seq<Token>, u: seq<Token>, k: seq<Token>,
                                     m: seq<Token>, end: string)
    requires Fails(ahead, q, t, k, end) && |m| <= |k|
    ensures Fails(ahead, q, t + u, m, end)
  {
    if Off(ahead + q.out, t, end) {
      OffMore(ahead + q.out, t, u, end);
    }
  }

  lemma {:induction false} Compose(env: Env, st: State, q: Step, t1: seq<Token>, b1: seq<(string, nat)>, gs: State,
                                   r: Step, t2: seq<Token>, b2: seq<(string, nat)>, o: Option<State>, k: seq<Token>,
                                   end: string, c: nat)
    requires IsStream(k)
    requires Writes(st, q, t1, b1, gs, r) && Outcome(env, gs, r, t2, b2, o, k, end, c)
    ensures Outcome(env, st, q, t1 + t2, b1 + b2, o, k, end, c)
  {
    hide Resume;
    match o
    case Some(hs) =>
      var z := Resume(env, k, Live(hs.slots), end, c);
      assert t1 + gs.ahead + r.out == t1 + (gs.ahead + r.out);
      assert t1 + (t2 + hs.ahead + z.out) == t1 + t2 + hs.ahead + z.out;
      assert b1 + (b2 + z.binds) == b1 + b2 + z.binds;
    case None =>
      if Off(gs.ahead + r.out, t2, end) {
        OffShift(t1, gs.ahead + r.out, t2, end);
        assert t1 + gs.ahead + r.out == t1 + (gs.ahead + r.out);
      }
  }

  /** The first of two steps decides when it fails. */
  lemma {:induction false} Then(env: Env, st: State, q: Step, t1: seq<Token>, b1: seq<(string, nat)>, o1: Option<State>,
                                k1: seq<Token>, t2: seq<Token>, b2: seq<(string, nat)>, o2: Option<State>,
                                k2: seq<Token>, end: string, c: nat)
    requires IsStream(k1) && IsStream(k2) && |k2| <= |k1|
    requires Outcome(env, st, q, t1, b1, o1, k1, end, c)
    requires o1.None? ==> o2.None?
    requires o1.Some? ==> Outcome(env, o1.value, Resume(env, k1, Live(o1.value.slots), end, c), t2, b2, o2, k2, end, c)
    ensures Outcome(env, st, q, t1 + t2, b1 + b2, o2, k2, end, c)
  {
    match o1
    case Some(gs) =>
      Compose(env, st, q, t1, b1, gs, Resume(env, k1, Live(gs.slots), end, c), t2, b2, o2, k2, end, c);
    case None =>
      FailsMore(st.ahead, q, t1, t2, k1, k2, end);
  }

  /** Text written where it was due. */
  lemma {:induction false} Said(st: State, o: seq<Token>, b: seq<(string, nat)>, gs: State, r: Step)
    requires st.ahead == [] && gs.ahead == []
    ensures Writes(st, After(o, b, r), o, b, gs, r)
    ensures b == [] ==> Writes(st, Put(o, r), o, [], gs, r)
  {
    assert [] + (o + r.out) == o + [] + r.out;
    PutIsAfter(o, r);
  }

  /** Other text than closing text is out of place while something is ahead. */
  lemma {:induction false} NotDue(st: State, q: Step, t: seq<Token>, k: seq<Token>, end: string)
    requires st.ahead != [] && Closers(st.ahead) && t != [] && t[0] != RPAREN && t[0] != COMMA
    ensures Fails(st.ahead, q, t, k, end)
  {
    var a := st.ahead + q.out;
    assert CLAMP_TAIL[0] == COMMA;
    assert a[0] == RPAREN || a[0] == COMMA;
    assert OffAt(a, t, end, 0);
  }

  lemma {:induction false} FirstDifference(a: seq<Token>, t: seq<Token>, end: string)
    requires |t| <= |a| && !(t <= a)
    ensures Off(a, t, end)
  {
    if a[0] != t[0] {
      assert OffAt(a, t, end, 0);
    } else {
      assert a == [a[0]] + a[1..] && t == [a[0]] + t[1..];
      FirstDifference(a[1..], t[1..], end);
      OffShift([a[0]], a[1..], t[1..], end);
    }
  }

  lemma {:induction false} Caught(env: Env, st: State, written: seq<Token>, due: seq<Token>, slots: seq<Slot>, r: Step,
                                  k: seq<Token>, end: string, c: nat)
    requires IsStream(k) && |due| <= |st.ahead| + |written|
    requires r == Resume(env, k, Live(slots), end, c)
    ensures Outcome(env, st, Put(written, r), due, [], Catch(st.ahead, written, due, slots), k, end, c)
  {
    hide Resume;
    var w := st.ahead + written;
    assert st.ahead + (written + r.out) == w + r.out;
    if due <= w {
      assert w == due + w[|due|..];
    } else {
      FirstDifference(w, due, end);
      OffPrefix(w, r.out, due, end);
    }
  }

  lemma {:induction false} OffPrefix(a: seq<Token>, z: seq<Token>, t: seq<Token>, end: string)
    requires Off(a, t, end) && |t| <= |a|
    ensures Off(a + z, t, end)
  {
    var i: nat :| OffAt(a, t, end, i);
    assert (a + z)[..i] == a[..i];
    assert OffAt(a + z, t, end, i);
  }

  /** A closing parenthesis of the source. */
  lemma {:induction false} Shuts(env: Env, st: State, k: seq<Token>, end: string, c: nat)
    requires Valid(st) && st.slots != [] && Tail(k) && end in ENDS
    ensures Outcome(env, st, Resume(env, [RPAREN] + k, Live(st.slots), end, c), Close(st.slots[0].frame), [],
                    Shut(st, end), k, end, c)
  {
    hide Resume, Closers;
    var top, below := st.slots[0], st.slots[1..];
    var due := Close(top.frame);
    if !top.gone {
      assert Live(st.slots) == [top.frame] + Live(below);
      ResumeClose(env, k, top.frame, Live(below), end, c);
      Caught(env, st, due, due, below, Resume(env, k, Live(below), end, c), k, end, c);
    } else {
      assert Live(st.slots) == Live(below) && |due| <= |st.ahead| + 1;
      if Live(below) != [] {
        var f, fs := Live(below)[0], Live(Lose(below));
        ResumeClose(env, k, f, fs, end, c);
        Caught(env, st, Close(f), due, Lose(below), Resume(env, k, fs, end, c), k, end, c);
      } else if end == ")" {
        StopsAt(env, RPAREN, k, c);
      } else {
        ResumeSymbol(env, RPAREN, k, [], end, c);
        Caught(env, st, [RPAREN], due, below, Resume(env, k, [], end, c), k, end, c);
      }
    }
  }

  lemma {:induction false} StopsAt(env: Env, t: Token, k: seq<Token>, c: nat)
    requires IsStream(k)
    ensures IsStream([t] + k) && Resume(env, [t] + k, [], t.text, c) == Step([t] + k, [], c, [])
  {
  }

  /** Everything that puts an argument in a frame. */
  lemma {:induction false} Enclosed(env: Env, st: State, q: Step, open: seq<Token>, b: seq<(string, nat)>, push: State,
                                    r: Step, t: seq<Token>, b2: seq<(string, nat)>, o: Option<State>, k: seq<Token>,
                                    end: string, c: nat)
    requires Tail(k) && end in ENDS && push.slots != []
    requires Writes(st, q, open, b, push, r) && Outcome(env, push, r, t, b2, o, [RPAREN] + k, end, c)
    requires o.Some? ==> Valid(o.value) && Alike(push.slots, o.value.slots)
    ensures Outcome(env, st, q, open + t + Close(push.slots[0].frame), b + b2, ShutAfter(o, end), k, end, c)
  {
    hide Resume, Close, Shut;
    Compose(env, st, q, open, b, push, r, t, b2, o, [RPAREN] + k, end, c);
    if o.Some? {
      Shuts(env, o.value, k, end, c);
    }
    Then(env, st, q, open + t, b + b2, o, [RPAREN] + k, Close(push.slots[0].frame), [], ShutAfter(o, end), k, end, c);
    assert b + b2 + [] == b + b2;
  }

  // ---- the streamer on an expression ----

  /** Where an expression may stand. */
  predicate Fits(env: Env, e: Expr, k: seq<Token>, end: string) {
    && WellFormed(e) && Hlsl(env, e) && Tail(k) && end in ENDS
    && (EndsBare(env, e) ==> k[0].text != ".")
  }

  /** Main theorem, expression part: from the first token of any expression, in any state and bracket context,
      the streamer writes the expected text if the expression settles, and goes wrong if it does not. */
  lemma {:induction false} StreamExpr(env: Env, e: Expr, led: bool, st: State, k: seq<Token>, end: string, c: nat)
    requires Fits(env, e, k, end) && Valid(st)
    ensures Tail(Print(e, k))
    ensures Outcome(env, st, Go(env, led, Print(e, k), Live(st.slots), end, c), Text(env, e), Binds(env, e),
                    Settle(env, e, led, st, end), k, end, c)
    decreases e, 5
  {
    hide Resume, Begin, Print, Text, Binds, Settle, Outcome, WellFormed, Hlsl, NoSpace, Closers;
    PrintTail(e, k);
    if Continues(e) {
      StreamContinued(env, e, led, st, k, end, c);
    } else if e.Paren? {
      StreamParen(env, e, led, st, k, end, c);
    } else {
      if led {
        PrintFirst(env, e, k);
        NotLed(env, e);
        BeginIsResume(env, Print(e, k), Live(st.slots), end, c);
      }
      if st.ahead != [] {
        TextStarts(env, e);
        SettleDue(env, e, led, st, end);
        NotDue(st, Resume(env, Print(e, k), Live(st.slots), end, c), Text(env, e), k, end);
        OutcomeFails(env, st, Resume(env, Print(e, k), Live(st.slots), end, c), Text(env, e), Binds(env, e), k, end, c);
      } else if e.Atom? {
        StreamAtom(env, e, led, st, k, end, c);
      } else if e.Call? {
        StreamCall(env, e, led, st, k, end, c);
      } else if e.Method? {
        StreamTexture(env, e, led, st, k, end, c);
      } else {
        StreamUnary(env, e, led, st, k, end, c);
      }
    }
  }

  lemma {:induction false} NotLed(env: Env, e: Expr)
    requires Hlsl(env, e) && !Continues(e) && !e.Paren?
    ensures !LeadParen(e)
  {
  }

  lemma {:induction false} OutcomeFails(env: Env, st: State, q: Step, t: seq<Token>, b: seq<(string, nat)>,
                                        k: seq<Token>, end: string, c: nat)
    requires IsStream(k) && Fails(st.ahead, q, t, k, end)
    ensures Outcome(env, st, q, t, b, None, k, end, c)
  {
  }

  lemma {:induction false} SettleDue(env: Env, e: Expr, led: bool, st: State, end: string)
    requires Valid(st) && st.ahead != [] && !Continues(e)
    ensures Settle(env, e, led, st, end).None?
  {
  }

  /** No expression's text begins with a closing text or a blank. */
  lemma {:induction false} TextStarts(env: Env, e: Expr)
    requires WellFormed(e) && Hlsl(env, e)
    ensures Text(env, e) != [] && Text(env, e)[0] !in {RPAREN, COMMA, BLANK}
    decreases e
  {
    if Continues(e) {
      TextStarts(env, Leftmost(e));
    }
  }

  lemma {:induction false} StreamAtom(env: Env, e: Expr, led: bool, st: State, k: seq<Token>, end: string, c: nat)
    requires Fits(env, e, k, end) && Valid(st) && st.ahead == [] && e.Atom? && Tail(Print(e, k))
    ensures Outcome(env, st, Resume(env, Print(e, k), Live(st.slots), end, c), Text(env, e), Binds(env, e),
                    Settle(env, e, led, st, end), k, end, c)
  {
    hide Resume;
    var t := e.tok;
    if t.kind.Name? {
      assert t == Ident(t.text);
      ResumeName(env, t.text, k, Live(st.slots), end, c);
    } else {
      ResumeSymbol(env, t, k, Live(st.slots), end, c);
    }
    Said(st, [t], [], st, Resume(env, k, Live(st.slots), end, c));
  }

  lemma {:induction false} StreamParen(env: Env, e: Expr, led: bool, st: State, k: seq<Token>, end: string, c: nat)
    requires Fits(env, e, k, end) && Valid(st) && e.Paren? && Tail(Print(e, k))
    ensures Outcome(env, st, Go(env, led, Print(e, k), Live(st.slots), end, c), Text(env, e), Binds(env, e),
                    Settle(env, e, led, st, end), k, end, c)
    decreases e, 0
  {
    hide Resume, Begin, Outcome, Closers, NoSpace;
    var x := e.inner;
    var q := Go(env, led, Print(e, k), Live(st.slots), end, c);
    if st.ahead != [] {
      NotDue(st, q, Text(env, e), k, end);
      OutcomeFails(env, st, q, Text(env, e), Binds(env, e), k, end, c);
    } else {
      var push := Push(st, Bracket, led);
      TailCons(RPAREN, k);
      var s := Print(x, [RPAREN] + k);
      StreamExpr(env, x, false, push, [RPAREN] + k, end, c);
      var r := Resume(env, s, Live(push.slots), end, c);
      if led {
        assert Live(push.slots) == Live(st.slots);
        BeginOpen(env, s, Live(st.slots), end, c);
      } else {
        ResumeOpen(env, s, Live(st.slots), end, c);
      }
      Said(st, [LPAREN], [], push, r);
      Enclosed(env, st, q, [LPAREN], [], push, r, Text(env, x), Binds(env, x), Settle(env, x, false, push, end), k, end,
               c);
      assert [] + Binds(env, x) == Binds(env, x);
    }
  }

  lemma {:induction false} StreamUnary(env: Env, e: Expr, led: bool, st: State, k: seq<Token>, end: string, c: nat)
    requires Fits(env, e, k, end) && Valid(st) && st.ahead == [] && e.Unary? && Tail(Print(e, k))
    ensures Outcome(env, st, Resume(env, Print(e, k), Live(st.slots), end, c), Text(env, e), Binds(env, e),
                    Settle(env, e, led, st, end), k, end, c)
    decreases e, 0
  {
    hide Resume, Outcome, Closers, NoSpace;
    var x, t := e.operand, UnaryToken(e.uop);
    StreamExpr(env, x, false, st, k, end, c);
    ResumeSymbol(env, t, Print(x, k), Live(st.slots), end, c);
    var r := Resume(env, Print(x, k), Live(st.slots), end, c);
    Said(st, [t], [], st, r);
    Compose(env, st, Put([t], r), [t], [], st, r, Text(env, x), Binds(env, x), Settle(env, x, false, st, end), k, end,
            c);
    assert [] + Binds(env, x) == Binds(env, x);
  }

  // Members, subscripts, operators and conditionals.

  lemma {:induction false} StreamContinued(env: Env, e: Expr, led: bool, st: State, k: seq<Token>, end: string, c: nat)
    requires Fits(env, e, k, end) && Valid(st) && Continues(e) && Tail(Print(e, k))
    ensures Outcome(env, st, Go(env, led, Print(e, k), Live(st.slots), end, c), Text(env, e), Binds(env, e),
                    Settle(env, e, led, st, end), k, end, c)
    decreases e, 3
  {
    hide Resume, Begin, Outcome, Print, Continuation, BindsLater, SettleLater, TextLater, Hlsl, WellFormed, Closers,
         NoSpace;
    LeftFits(env, e, k, end);
    var l, m := Leftmost(e), Continuation(e, k);
    StreamExpr(env, l, led, st, m, end, c);
    ContinuesPrint(env, e, k);
    var o := Settle(env, l, led, st, end);
    if o.Some? {
      StreamLater(env, e, o.value, k, end, c);
    }
    Then(env, st, Go(env, led, Print(e, k), Live(st.slots), end, c), Text(env, l), Binds(env, l), o, m,
         TextLater(env, e), BindsLater(env, e), Settle(env, e, led, st, end), k, end, c);
  }

  lemma {:induction false} LeftFits(env: Env, e: Expr, k: seq<Token>, end: string)
    requires Fits(env, e, k, end) && Continues(e)
    ensures Fits(env, Leftmost(e), Continuation(e, k), end) && |k| <= |Continuation(e, k)|
  {
    hide Print, NoSpace;
    match e
    case Member(o, m) =>
      TailTwo(DOT, Ident(m), k);
    case Index(a, i) =>
      TailCons(RBRACKET, k);
      PrintTail(i, [RBRACKET] + k);
      PrintLonger(i, [RBRACKET] + k);
      TailCons(LBRACKET, Print(i, [RBRACKET] + k));
    case Binary(op, l, r) =>
      PrintTail(r, k);
      PrintLonger(r, k);
      TailOp(op, Print(r, k));
    case Cond(t, y, n) =>
      PrintTail(n, k);
      PrintLonger(n, k);
      TailCons(Sym(":"), Print(n, k));
      PrintTail(y, [Sym(":")] + Print(n, k));
      PrintLonger(y, [Sym(":")] + Print(n, k));
      TailCons(Sym("?"), Print(y, [Sym(":")] + Print(n, k)));
  }

  lemma {:induction false} PrintLonger(e: Expr, k: seq<Token>)
    ensures |k| <= |Print(e, k)|
  {
    PrintThen(e, k);
  }

  lemma {:induction false} StreamLater(env: Env, e: Expr, st: State, k: seq<Token>, end: string, c: nat)
    requires Fits(env, e, k, end) && Valid(st) && Continues(e) && Tail(Continuation(e, k))
    ensures Outcome(env, st, Resume(env, Continuation(e, k), Live(st.slots), end, c), TextLater(env, e),
                    BindsLater(env, e), SettleLater(env, e, st, end), k, end, c)
    decreases e, 2
  {
    hide Resume, Outcome, Print, NoSpace, Closers;
    var q := Resume(env, Continuation(e, k), Live(st.slots), end, c);
    if st.ahead != [] {
      LaterStarts(env, e);
      NotDue(st, q, TextLater(env, e), k, end);
      OutcomeFails(env, st, q, TextLater(env, e), BindsLater(env, e), k, end, c);
    } else if e.Member? {
      StreamMember(env, e, st, k, end, c);
    } else if e.Index? {
      StreamIndex(env, e, st, k, end, c);
    } else if e.Binary? {
      StreamBinary(env, e, st, k, end, c);
    } else {
      StreamCond(env, e, st, k, end, c);
    }
  }

  lemma {:induction false} LaterStarts(env: Env, e: Expr)
    requires Continues(e)
    ensures TextLater(env, e) != [] && TextLater(env, e)[0] != RPAREN && TextLater(env, e)[0] != COMMA
  {
  }

  lemma {:induction false} StreamMember(env: Env, e: Expr, st: State, k: seq<Token>, end: string, c: nat)
    requires Fits(env, e, k, end) && Valid(st) && e.Member? && st.ahead == [] && Tail(Continuation(e, k))
    ensures Outcome(env, st, Resume(env, Continuation(e, k), Live(st.slots), end, c), TextLater(env, e),
                    BindsLater(env, e), SettleLater(env, e, st, end), k, end, c)
  {
    hide Resume, Outcome, Print, Closers, NoSpace;
    var m := e.field;
    assert [DOT, Ident(m)] + k == [DOT] + ([Ident(m)] + k);
    ResumeName(env, m, k, Live(st.slots), end, c);
    ResumeSymbol(env, DOT, [Ident(m)] + k, Live(st.slots), end, c);
    hide WellFormed, Hlsl;
    var r := Resume(env, k, Live(st.slots), end, c);
    assert [DOT] + ([Ident(m)] + r.out) == [DOT, Ident(m)] + r.out;
    Said(st, [DOT, Ident(m)], [], st, r);
    OutcomeWrites(env, st, Put([DOT, Ident(m)], r), [DOT, Ident(m)], [], st, k, end, c);
  }

  /** A symbol, then an expression. */
  lemma {:induction false} StreamAfter(env: Env, o: seq<Token>, e: Expr, st: State, s: seq<Token>, k: seq<Token>,
                                       end: string, c: nat)
    requires Fits(env, e, k, end) && Valid(st) && st.ahead == [] && IsStream(s)
    requires Tail(Print(e, k))
        ==> Resume(env, s, Live(st.slots), end, c) == Put(o, Resume(env, Print(e, k), Live(st.slots), end, c))
    ensures Outcome(env, st, Resume(env, s, Live(st.slots), end, c), o + Text(env, e), Binds(env, e),
                    Settle(env, e, false, st, end), k, end, c)
    decreases e, 6
  {
    hide Resume, Outcome, Print, Closers, NoSpace;
    StreamExpr(env, e, false, st, k, end, c);
    var r := Resume(env, Print(e, k), Live(st.slots), end, c);
    Said(st, o, [], st, r);
    Compose(env, st, Put(o, r), o, [], st, r, Text(env, e), Binds(env, e), Settle(env, e, false, st, end), k, end, c);
    assert [] + Binds(env, e) == Binds(env, e);
  }

  lemma {:induction false} StreamIndex(env: Env, e: Expr, st: State, k: seq<Token>, end: string, c: nat)
    requires Fits(env, e, k, end) && Valid(st) && e.Index? && st.ahead == [] && Tail(Continuation(e, k))
    ensures Outcome(env, st, Resume(env, Continuation(e, k), Live(st.slots), end, c), TextLater(env, e),
                    BindsLater(env, e), SettleLater(env, e, st, end), k, end, c)
    decreases e, 0
  {
    hide Resume, Outcome, Print, Closers, NoSpace;
    var i, m := e.idx, [RBRACKET] + k;
    TailCons(RBRACKET, k);
    var s := Print(i, m);
    assert Fits(env, i, m, end);
    PrintTail(i, m);
    ResumeSymbol(env, LBRACKET, s, Live(st.slots), end, c);
    StreamAfter(env, [LBRACKET], i, st, [LBRACKET] + s, m, end, c);
    var o := Settle(env, i, false, st, end);
    if o.Some? {
      var gs := o.value;
      var r := Resume(env, k, Live(gs.slots), end, c);
      ResumeSymbol(env, RBRACKET, k, Live(gs.slots), end, c);
      if gs.ahead == [] {
        Said(gs, [RBRACKET], [], gs, r);
        OutcomeWrites(env, gs, Put([RBRACKET], r), [RBRACKET], [], gs, k, end, c);
      } else {
        NotDue(gs, Put([RBRACKET], r), [RBRACKET], k, end);
        OutcomeFails(env, gs, Put([RBRACKET], r), [RBRACKET], [], k, end, c);
      }
    }
    Then(env, st, Resume(env, [LBRACKET] + s, Live(st.slots), end, c), [LBRACKET] + Text(env, i), Binds(env, i), o, m,
         [RBRACKET], [], SettleLater(env, e, st, end), k, end, c);
    assert Binds(env, i) + [] == Binds(env, i);
  }

  lemma {:induction false} OutcomeWrites(env: Env, st: State, q: Step, t: seq<Token>, b: seq<(string, nat)>, gs: State,
                                         k: seq<Token>, end: string, c: nat)
    requires IsStream(k) && Writes(st, q, t, b, gs, Resume(env, k, Live(gs.slots), end, c))
    ensures Outcome(env, st, q, t, b, Some(gs), k, end, c)
  {
  }

  lemma {:induction false} StreamBinary(env: Env, e: Expr, st: State, k: seq<Token>, end: string, c: nat)
    requires Fits(env, e, k, end) && Valid(st) && e.Binary? && st.ahead == [] && Tail(Continuation(e, k))
    ensures Outcome(env, st, Resume(env, Continuation(e, k), Live(st.slots), end, c), TextLater(env, e),
                    BindsLater(env, e), SettleLater(env, e, st, end), k, end, c)
    decreases e, 0
  {
    hide Resume, Outcome, Print, Closers, NoSpace, OpTokens;
    PrintTail(e.right, k);
    ResumeOp(env, e.op, Print(e.right, k), Live(st.slots), end, c);
    StreamAfter(env, OpTokens(e.op), e.right, st, OpTokens(e.op) + Print(e.right, k), k, end, c);
  }

  lemma {:induction false} StreamCond(env: Env, e: Expr, st: State, k: seq<Token>, end: string, c: nat)
    requires Fits(env, e, k, end) && Valid(st) && e.Cond? && st.ahead == [] && Tail(Continuation(e, k))
    ensures Outcome(env, st, Resume(env, Continuation(e, k), Live(st.slots), end, c), TextLater(env, e),
                    BindsLater(env, e), SettleLater(env, e, st, end), k, end, c)
    decreases e, 0
  {
    hide Resume, Outcome, Print, Closers, NoSpace, Fits, EndsBare, WellFormed, Hlsl, Text, Binds, Settle;
    var y, n, m := e.yes, e.no, [Sym(":")] + Print(e.no, k);
    CondFits(env, e, k, end);
    ResumeSymbol(env, Sym("?"), Print(y, m), Live(st.slots), end, c);
    StreamAfter(env, [Sym("?")], y, st, [Sym("?")] + Print(y, m), m, end, c);
    var o := Settle(env, y, false, st, end);
    if o.Some? {
      StreamColon(env, n, o.value, k, end, c);
    }
    Then(env, st, Resume(env, [Sym("?")] + Print(y, m), Live(st.slots), end, c), [Sym("?")] + Text(env, y),
         Binds(env, y), o, m, [Sym(":")] + Text(env, n), Binds(env, n), SettleLater(env, e, st, end), k, end, c);
    assert [Sym("?")] + Text(env, y) + ([Sym(":")] + Text(env, n)) ==
           [Sym("?")] + Text(env, y) + [Sym(":")] + Text(env, n);
  }

  lemma {:induction false} CondFits(env: Env, e: Expr, k: seq<Token>, end: string)
    requires Fits(env, e, k, end) && e.Cond?
    ensures var m := [Sym(":")] + Print(e.no, k);
            && Continuation(e, k) == [Sym("?")] + Print(e.yes, m) && Tail(Print(e.yes, m))
            && Tail(k) && Tail(m) && |k| <= |m| && end in ENDS && Fits(env, e.yes, m, end) && Fits(env, e.no, k, end)
  {
    hide Print;
    PrintTail(e.no, k);
    PrintLonger(e.no, k);
    TailCons(Sym(":"), Print(e.no, k));
    PrintTail(e.yes, [Sym(":")] + Print(e.no, k));
  }

  lemma {:induction false} StreamColon(env: Env, e: Expr, st: State, k: seq<Token>, end: string, c: nat)
    requires Fits(env, e, k, end) && Valid(st)
    ensures Tail([Sym(":")] + Print(e, k))
    ensures Outcome(env, st, Resume(env, [Sym(":")] + Print(e, k), Live(st.slots), end, c), [Sym(":")] + Text(env, e),
                    Binds(env, e), if st.ahead == [] then Settle(env, e, false, st, end) else None, k, end, c)
    decreases e, 7
  {
    hide Resume, Outcome, Print, Closers, NoSpace;
    var m := [Sym(":")] + Print(e, k);
    PrintTail(e, k);
    TailCons(Sym(":"), Print(e, k));
    ResumeSymbol(env, Sym(":"), Print(e, k), Live(st.slots), end, c);
    if st.ahead == [] {
      StreamAfter(env, [Sym(":")], e, st, m, k, end, c);
    } else {
      var q := Resume(env, m, Live(st.slots), end, c);
      NotDue(st, q, [Sym(":")] + Text(env, e), k, end);
      OutcomeFails(env, st, q, [Sym(":")] + Text(env, e), Binds(env, e), k, end, c);
    }
  }

  // ---- calls ----

  lemma {:induction false} StreamArgs(env: Env, args: seq<Expr>, led: bool, st: State, k: seq<Token>, end: string,
                                      c: nat)
    requires (forall a :: a in args ==> WellFormed(a) && Hlsl(env, a)) && Tail(k) && end in ENDS && Valid(st)
    requires led ==> args != []
    ensures Tail(PrintArgs(args, [RPAREN] + k))
    ensures Outcome(env, st, Go(env, led, PrintArgs(args, [RPAREN] + k), Live(st.slots), end, c), Texts(env, args),
                    BindsArgs(env, args), SettleArgs(env, args, led, st, end), [RPAREN] + k, end, c)
    decreases args, 6
  {
    hide Resume, Begin, Outcome, Print, Text, Binds, Settle, WellFormed, Hlsl, Closers, NoSpace;
    var m := [RPAREN] + k;
    TailCons(RPAREN, k);
    PrintArgsTail(args, m);
    if args == [] {
      NothingSaid(st, Resume(env, m, Live(st.slots), end, c));
      OutcomeWrites(env, st, Resume(env, m, Live(st.slots), end, c), [], [], st, m, end, c);
    } else if |args| == 1 {
      StreamExpr(env, args[0], led, st, m, end, c);
      OneArg(env, args[0]);
      assert args == [args[0]];
    } else {
      StreamMoreArgs(env, args, led, st, k, end, c);
    }
  }

  lemma {:induction false} NothingSaid(st: State, q: Step)
    ensures Writes(st, q, [], [], st, q)
  {
    assert [] + st.ahead + q.out == st.ahead + q.out && [] + q.binds == q.binds;
  }

  lemma {:induction false} StreamMoreArgs(env: Env, args: seq<Expr>, led: bool, st: State, k: seq<Token>, end: string,
                                          c: nat)
    requires (forall a :: a in args ==> WellFormed(a) && Hlsl(env, a)) && Tail(k) && end in ENDS && Valid(st)
    requires |args| > 1 && Tail(PrintArgs(args, [RPAREN] + k))
    ensures Outcome(env, st, Go(env, led, PrintArgs(args, [RPAREN] + k), Live(st.slots), end, c), Texts(env, args),
                    BindsArgs(env, args), SettleArgs(env, args, led, st, end), [RPAREN] + k, end, c)
    decreases args, 5
  {
    hide Resume, Begin, Outcome, Print, Text, Binds, Settle, WellFormed, Hlsl, Closers, NoSpace;
    var m, rest := [RPAREN] + k, args[1..];
    var s := PrintArgs(rest, m);
    TailCons(RPAREN, k);
    PrintArgsTail(rest, m);
    TailCons(COMMA, s);
    StreamExpr(env, args[0], led, st, [COMMA] + s, end, c);
    var o := Settle(env, args[0], led, st, end);
    var t := [COMMA] + Texts(env, rest);
    ArgsLonger(rest, m);
    if o.Some? {
      StreamComma(env, rest, o.value, k, end, c);
    }
    Then(env, st, Go(env, led, PrintArgs(args, m), Live(st.slots), end, c), Text(env, args[0]), Binds(env, args[0]), o,
         [COMMA] + s, t, BindsArgs(env, rest), SettleArgs(env, args, led, st, end), m, end, c);
    assert Text(env, args[0]) + t == Text(env, args[0]) + [COMMA] + Texts(env, rest);
  }

  lemma {:induction false} ArgsLonger(args: seq<Expr>, k: seq<Token>)
    ensures |k| <= |PrintArgs(args, k)|
  {
    PrintArgsThen(args, k);
  }

  /** A comma and the arguments after it. */
  lemma {:induction false} StreamComma(env: Env, args: seq<Expr>, st: State, k: seq<Token>, end: string, c: nat)
    requires (forall a :: a in args ==> WellFormed(a) && Hlsl(env, a)) && Tail(k) && end in ENDS && Valid(st)
    requires args != [] && Tail(PrintArgs(args, [RPAREN] + k))
    ensures Outcome(env, st, Resume(env, [COMMA] + PrintArgs(args, [RPAREN] + k), Live(st.slots), end, c),
                    [COMMA] + Texts(env, args), BindsArgs(env, args),
                    if CommaDue(st, end) then SettleArgs(env, args, false, st, end) else None, [RPAREN] + k, end, c)
    decreases args, 7
  {
    hide Resume, Outcome, Print, Text, Binds, Settle, WellFormed, Hlsl, Closers, NoSpace, PrintArgs, Texts, BindsArgs,
         SettleArgs;
    var m := [RPAREN] + k;
    var s := PrintArgs(args, m);
    var q := Resume(env, [COMMA] + s, Live(st.slots), end, c);
    if CommaDue(st, end) {
      StreamArgs(env, args, false, st, k, end, c);
      ResumeSymbol(env, COMMA, s, Live(st.slots), end, c);
      var r := Resume(env, s, Live(st.slots), end, c);
      Said(st, [COMMA], [], st, r);
      Compose(env, st, q, [COMMA], [], st, r, Texts(env, args), BindsArgs(env, args),
              SettleArgs(env, args, false, st, end), m, end, c);
      assert [] + BindsArgs(env, args) == BindsArgs(env, args);
    } else {
      if st.ahead != [] {
        CommaNotDue(env, args, st, q, m, end);
      } else {
        StopsAt(env, COMMA, s, c);
        assert OffAt(st.ahead + q.out, [COMMA] + Texts(env, args), end, 0);
      }
      OutcomeFails(env, st, q, [COMMA] + Texts(env, args), BindsArgs(env, args), m, end, c);
    }
  }

  /** Even the comma of a clamp written ahead is told apart, by the blank after it. */
  lemma {:induction false} CommaNotDue(env: Env, args: seq<Expr>, st: State, q: Step, k: seq<Token>, end: string)
    requires (forall a :: a in args ==> WellFormed(a) && Hlsl(env, a)) && args != []
    requires st.ahead != [] && Closers(st.ahead)
    ensures Fails(st.ahead, q, [COMMA] + Texts(env, args), k, end)
  {
    hide Text;
    TextStarts(env, args[0]);
    var a, t := st.ahead + q.out, [COMMA] + Texts(env, args);
    assert t[1] == Text(env, args[0])[0];
    if a[0] == RPAREN {
      assert OffAt(a, t, end, 0);
    } else {
      assert CLAMP_TAIL[0] == COMMA && CLAMP_TAIL[1] == BLANK;
      assert a[..1] == [COMMA] == t[..1];
      assert OffAt(a, t, end, 1);
    }
  }

  lemma {:induction false} StartValid()
    ensures Valid(START) && Live(START.slots) == []
  {
  }

  /** An argument up to its comma, however it begins. */
  lemma {:induction false} StreamRegion(env: Env, e: Expr, led: bool, k: seq<Token>, c: nat)
    requires WellFormed(e) && Hlsl(env, e) && Tail(k)
    ensures Tail(Print(e, [COMMA] + k))
    ensures var s := Print(e, [COMMA] + k);
            var q := if led then Contents(env, s, ",", c) else Scan(env, s, ",", c);
            if Settles(env, e, led) then q == Step([COMMA] + k, Text(env, e), c, Binds(env, e))
            else Off(q.out, Text(env, e), ",")
    decreases e, 6
  {
    hide Text, Binds, Print, WellFormed, Hlsl, Closers, Settle, Scan, Contents;
    TailCons(COMMA, k);
    StartValid();
    StreamExpr(env, e, led, START, [COMMA] + k, ",", c);
    var s := Print(e, [COMMA] + k);
    var q := if led then Contents(env, s, ",", c) else Scan(env, s, ",", c);
    assert q == Go(env, led, s, [], ",", c);
    StopsAt(env, COMMA, k, c);
    assert [] + q.out == q.out;
    if Settles(env, e, led) {
      var gs := Settle(env, e, led, START, ",").value;
      assert gs.slots == [] && gs.ahead == [];
      assert Text(env, e) + [] + [] == Text(env, e) && Binds(env, e) + [] == Binds(env, e);
    }
  }

  lemma {:induction false} OffRegion(o: seq<Token>, a: seq<Token>, t: seq<Token>, z: seq<Token>, u: seq<Token>,
                                     end: string)
    requires Off(a, t, ",") && z != [] && z[0] != COMMA
    ensures Off(o + a + z, o + t + u, end)
  {
    var i: nat :| OffAt(a, t, ",", i);
    var n := |o| + i;
    assert (o + a + z)[..n] == o + a[..i] && (o + t + u)[..n] == o + t[..i];
    assert OffAt(o + a + z, o + t + u, end, n);
  }

  lemma {:induction false} StreamCall(env: Env, e: Expr, led: bool, st: State, k: seq<Token>, end: string, c: nat)
    requires Fits(env, e, k, end) && Valid(st) && st.ahead == [] && e.Call? && Tail(Print(e, k))
    ensures Outcome(env, st, Resume(env, Print(e, k), Live(st.slots), end, c), Text(env, e), Binds(env, e),
                    Settle(env, e, led, st, end), k, end, c)
    decreases e, 1
  {
    hide Resume, Outcome, Print, Text, Binds, Settle, Closers, NoSpace;
    if e.fn == "mul" {
      StreamMul(env, e, led, st, k, end, c);
    } else if e.fn == "mad" {
      StreamMad(env, e, led, st, k, end, c);
    } else if e.fn == "saturate" {
      StreamSaturate(env, e, led, st, k, end, c);
    } else {
      StreamPlainCall(env, e, led, st, k, end, c);
    }
  }

  lemma {:induction false} StreamMul(env: Env, e: Expr, led: bool, st: State, k: seq<Token>, end: string, c: nat)
    requires Fits(env, e, k, end) && Valid(st) && st.ahead == [] && e.Call? && e.fn == "mul" && Tail(Print(e, k))
    ensures Outcome(env, st, Resume(env, Print(e, k), Live(st.slots), end, c), Text(env, e), Binds(env, e),
                    Settle(env, e, led, st, end), k, end, c)
    decreases e, 0
  {
    hide Resume, Begin, Outcome, Print, Scan, Contents, NextToken, Closers, NoSpace, Settles;
    var x, y := e.args[0], e.args[1];
    assert e.args == [x, y];
    TailCons(RPAREN, k);
    var s2 := Print(y, [RPAREN] + k);
    var push := Push(st, Factor, false);
    StreamExpr(env, y, true, push, [RPAREN] + k, end, c);
    StreamRegion(env, x, false, s2, c);
    var s1 := Print(x, [COMMA] + s2);
    PrintCall2("mul", x, y, k);
    ResumeMul(env, s1, Live(st.slots), end, c);
    NextOfCons(COMMA, s2);
    ArgLists(env, [x, y]);
    var q, qx := Resume(env, Print(e, k), Live(st.slots), end, c), Scan(env, s1, ",", c);
    var r := Begin(env, s2, Live(push.slots), end, c);
    var t := [LPAREN, LPAREN] + Text(env, x) + BETWEEN;
    hide WellFormed, Hlsl;
    if Settles(env, x, false) {
      Said(st, t, Binds(env, x), push, r);
      Enclosed(env, st, q, t, Binds(env, x), push, r, Text(env, y), Binds(env, y), Settle(env, y, true, push, end), k,
               end, c);
    } else {
      var z := Begin(env, NextToken(qx.rest), Live(push.slots), end, qx.next);
      CallOff([LPAREN, LPAREN], qx.out, Text(env, x), BETWEEN, z.out, BETWEEN + Text(env, y) + [RPAREN, RPAREN], end);
      MadJoin([LPAREN, LPAREN] + Text(env, x), BETWEEN, Text(env, y), [RPAREN, RPAREN]);
      assert [] + q.out == q.out;
      OutcomeFails(env, st, q, Text(env, e), Binds(env, e), k, end, c);
    }
  }

  lemma {:induction false} CallOff(o: seq<Token>, a: seq<Token>, t: seq<Token>, sep: seq<Token>, z: seq<Token>,
                                   u: seq<Token>, end: string)
    requires Off(a, t, ",") && sep != [] && sep[0] != COMMA
    ensures Off(o + a + sep + z, o + t + u, end)
  {
    OffRegion(o, a, t, sep + z, u, end);
    assert o + a + (sep + z) == o + a + sep + z;
  }

  lemma {:induction false} StreamMad(env: Env, e: Expr, led: bool, st: State, k: seq<Token>, end: string, c: nat)
    requires Fits(env, e, k, end) && Valid(st) && st.ahead == [] && e.Call? && e.fn == "mad" && Tail(Print(e, k))
    ensures Outcome(env, st, Resume(env, Print(e, k), Live(st.slots), end, c), Text(env, e), Binds(env, e),
                    Settle(env, e, led, st, end), k, end, c)
    decreases e, 0
  {
    hide Resume, Begin, Outcome, Print, Scan, Contents, NextToken, Closers, NoSpace, Settles;
    var x, y, z := e.args[0], e.args[1], e.args[2];
    assert e.args == [x, y, z];
    TailCons(RPAREN, k);
    var s3 := Print(z, [RPAREN] + k);
    var push := Push(st, Factor, false);
    StreamExpr(env, z, true, push, [RPAREN] + k, end, c);
    StreamRegion(env, y, true, s3, c);
    var s2 := Print(y, [COMMA] + s3);
    StreamRegion(env, x, false, s2, c);
    var s1 := Print(x, [COMMA] + s2);
    PrintCall3("mad", x, y, z, k);
    ResumeMad(env, s1, Live(st.slots), end, c);
    NextOfCons(COMMA, s2);
    NextOfCons(COMMA, s3);
    ArgLists(env, [x, y, z]);
    var q, qx := Resume(env, Print(e, k), Live(st.slots), end, c), Scan(env, s1, ",", c);
    var tx, ty, tz := Text(env, x), Text(env, y), Text(env, z);
    var t := [LPAREN, LPAREN] + tx + BETWEEN + ty + BETWEEN_ADD;
    var qy := Contents(env, NextToken(qx.rest), ",", qx.next);
    var w := Begin(env, NextToken(qy.rest), Live(push.slots), end, qy.next);
    assert [] + q.out == q.out;
    if Settles(env, x, false) && Settles(env, y, true) {
      Said(st, t, Binds(env, x) + Binds(env, y), push, w);
      Enclosed(env, st, q, t, Binds(env, x) + Binds(env, y), push, w, tz, Binds(env, z),
               Settle(env, z, true, push, end), k, end, c);
    } else {
      if !Settles(env, x, false) {
        CallOff([LPAREN, LPAREN], qx.out, tx, BETWEEN, qy.out + BETWEEN_ADD + w.out,
                BETWEEN + ty + BETWEEN_ADD + tz + [RPAREN, RPAREN], end);
        MadJoin([LPAREN, LPAREN] + qx.out + BETWEEN, qy.out, BETWEEN_ADD, w.out);
        MadJoin([LPAREN, LPAREN] + tx, BETWEEN, ty, BETWEEN_ADD + tz + [RPAREN, RPAREN]);
        MadSplit([LPAREN, LPAREN] + tx, BETWEEN, ty, BETWEEN_ADD, tz, [RPAREN, RPAREN]);
      } else {
        CallOff([LPAREN, LPAREN] + tx + BETWEEN, qy.out, ty, BETWEEN_ADD, w.out, BETWEEN_ADD + tz + [RPAREN, RPAREN],
                end);
        MadJoin([LPAREN, LPAREN] + tx + BETWEEN + ty, BETWEEN_ADD, tz, [RPAREN, RPAREN]);
      }
      OutcomeFails(env, st, q, Text(env, e), Binds(env, e), k, end, c);
    }
  }

  lemma {:induction false} MadJoin(a: seq<Token>, b: seq<Token>, c: seq<Token>, d: seq<Token>)
    ensures a + b + c + d == a + (b + c + d)
  {
  }

  lemma {:induction false} MadSplit(a: seq<Token>, b: seq<Token>, c: seq<Token>, d: seq<Token>, e: seq<Token>,
                                    f: seq<Token>)
    ensures a + b + c + d + e + f == a + (b + c + d + e + f)
  {
  }

  lemma {:induction false} StreamSaturate(env: Env, e: Expr, led: bool, st: State, k: seq<Token>, end: string, c: nat)
    requires Fits(env, e, k, end) && Valid(st) && st.ahead == [] && e.Call? && e.fn == "saturate" && Tail(Print(e, k))
    ensures Outcome(env, st, Resume(env, Print(e, k), Live(st.slots), end, c), Text(env, e), Binds(env, e),
                    Settle(env, e, led, st, end), k, end, c)
    decreases e, 0
  {
    hide Resume, Outcome, Print, Closers, NoSpace;
    var x := e.args[0];
    assert e.args == [x];
    TailCons(RPAREN, k);
    var s := Print(x, [RPAREN] + k);
    var push := Push(st, Clamp, false);
    StreamExpr(env, x, false, push, [RPAREN] + k, end, c);
    PrintCall1("saturate", x, k);
    ResumeSaturate(env, s, Live(st.slots), end, c);
    OneArg(env, x);
    var q, r := Resume(env, Print(e, k), Live(st.slots), end, c), Resume(env, s, Live(push.slots), end, c);
    Said(st, [Ident("clamp"), LPAREN], [], push, r);
    Enclosed(env, st, q, [Ident("clamp"), LPAREN], [], push, r, Text(env, x), Binds(env, x),
             Settle(env, x, false, push, end), k, end, c);
    assert [] + Binds(env, x) == Binds(env, x);
  }

  lemma {:induction false} StreamPlainCall(env: Env, e: Expr, led: bool, st: State, k: seq<Token>, end: string, c: nat)
    requires Fits(env, e, k, end) && Valid(st) && st.ahead == [] && e.Call? && !IsExpanded(e.fn) && Tail(Print(e, k))
    ensures Outcome(env, st, Resume(env, Print(e, k), Live(st.slots), end, c), Text(env, e), Binds(env, e),
                    Settle(env, e, led, st, end), k, end, c)
    decreases e, 0
  {
    hide Resume, Outcome, Closers, NoSpace;
    var f, args := e.fn, e.args;
    var s := PrintArgs(args, [RPAREN] + k);
    var push := Push(st, Bracket, false);
    StreamArgs(env, args, false, push, k, end, c);
    assert Print(e, k) == [Ident(f)] + ([LPAREN] + s);
    TailCons(LPAREN, s);
    ResumeName(env, f, [LPAREN] + s, Live(st.slots), end, c);
    ResumeOpen(env, s, Live(st.slots), end, c);
    var q, r := Resume(env, Print(e, k), Live(st.slots), end, c), Resume(env, s, Live(push.slots), end, c);
    var o := [Ident(Rename(f)), LPAREN];
    assert [Ident(Rename(f))] + ([LPAREN] + r.out) == o + r.out;
    Said(st, o, [], push, r);
    Enclosed(env, st, q, o, [], push, r, Texts(env, args), BindsArgs(env, args),
             SettleArgs(env, args, false, push, end), k, end, c);
    assert [] + BindsArgs(env, args) == BindsArgs(env, args);
  }

  lemma {:induction false} StreamTexture(env: Env, e: Expr, led: bool, st: State, k: seq<Token>, end: string, c: nat)
    requires Fits(env, e, k, end) && Valid(st) && st.ahead == [] && e.Method? && Tail(Print(e, k))
    ensures Outcome(env, st, Resume(env, Print(e, k), Live(st.slots), end, c), Text(env, e), Binds(env, e),
                    Settle(env, e, led, st, end), k, end, c)
    decreases e, 0
  {
    hide Resume, Begin, Outcome, Print, Closers, NoSpace, FindParam, TextureCall, SamplerBind, Texts, BindsArgs;
    var name, m := e.obj.tok.text, e.fn;
    var p := TextureParam(env, name).value;
    var (call, sampled) := TextureCall(p, m).value;
    var sampler := if sampled then Some(e.args[0].tok.text) else None;
    var coords := if sampled then e.args[1..] else e.args;
    TextureTokens(e, sampler, k);
    var v := PrintArgs(coords, [RPAREN] + k);
    TextureBinds(env, e);
    var push := Push(st, Coords, false);
    StreamArgs(env, coords, true, push, k, end, c);
    PrintFirst(env, coords[0], if |coords| == 1 then [RPAREN] + k else [COMMA] + PrintArgs(coords[1..], [RPAREN] + k));
    ResumeTexture(env, p, m, sampler, v, Live(st.slots), end, c);
    var q, r := Resume(env, Print(e, k), Live(st.slots), end, c), Begin(env, v, Live(push.slots), end, c);
    var o, b := OpeningTokens(call, name), SamplerBind(env, name, sampler);
    Said(st, o, b, push, r);
    Enclosed(env, st, q, o, b, push, r, Texts(env, coords), BindsArgs(env, coords),
             SettleArgs(env, coords, true, push, end), k, end, c);
  }

  lemma {:induction false} TextureBinds(env: Env, e: Expr)
    requires e.Method? && WellFormed(e) && Hlsl(env, e)
    ensures var sampled := TextureCall(TextureParam(env, e.obj.tok.text).value, e.fn).value.1;
            var coords := if sampled then e.args[1..] else e.args;
            var sampler := if sampled then Some(e.args[0].tok.text) else None;
            && coords != [] && (forall a :: a in coords ==> WellFormed(a) && Hlsl(env, a))
            && Binds(env, e) == SamplerBind(env, e.obj.tok.text, sampler) + BindsArgs(env, coords)
  {
  }

  // ---- blanks aside, the text is the printing of the translated tree ----

  lemma {:induction false} TextStrips(env: Env, e: Expr)
    requires WellFormed(e) && Hlsl(env, e)
    ensures Strip(Text(env, e)) == Print(Translate(env, e), [])
    decreases e, 2
  {
    hide Strip;
    if Continues(e) {
      TextStrips(env, Leftmost(e));
      LaterStrips(env, e);
      StripConcat(Text(env, Leftmost(e)), TextLater(env, e));
      ContinuesTranslated(env, e, []);
      PrintThen(Translate(env, Leftmost(e)), Continuation(Translate(env, e), []));
    } else if e.Atom? {
      StripNoSpace([e.tok]);
    } else if e.Paren? {
      TextStrips(env, e.inner);
      StripAll([LPAREN], Text(env, e.inner), [RPAREN]);
      StripSymbols();
      PrintThen(Translate(env, e.inner), [RPAREN] + []);
    } else if e.Call? {
      CallStrips(env, e);
    } else if e.Method? {
      TextureStrips(env, e);
    } else {
      TextStrips(env, e.operand);
      StripPrefix([UnaryToken(e.uop)], Text(env, e.operand));
    }
  }

  lemma {:induction false} StripAll(a: seq<Token>, b: seq<Token>, c: seq<Token>)
    ensures Strip(a + b + c) == Strip(a) + (Strip(b) + Strip(c))
  {
    StripConcat(a + b, c);
    StripConcat(a, b);
  }

  lemma {:induction false} LaterStrips(env: Env, e: Expr)
    requires Continues(e) && WellFormed(e) && Hlsl(env, e)
    ensures Continues(Translate(env, e))
    ensures Strip(TextLater(env, e)) == Continuation(Translate(env, e), [])
    decreases e, 1
  {
    hide Strip, Print, Text;
    if e.Member? {
      StripNoSpace([DOT, Ident(e.field)]);
    } else if e.Index? {
      TextStrips(env, e.idx);
      IndexStrips(Translate(env, e.idx), Text(env, e.idx));
    } else if e.Binary? {
      TextStrips(env, e.right);
      StripPrefix(OpTokens(e.op), Text(env, e.right));
    } else {
      TextStrips(env, e.yes);
      TextStrips(env, e.no);
      CondStrips(Translate(env, e.yes), Translate(env, e.no), Text(env, e.yes), Text(env, e.no));
    }
  }

  lemma {:induction false} IndexStrips(i: Expr, t: seq<Token>)
    requires Strip(t) == Print(i, [])
    ensures Strip([LBRACKET] + t + [RBRACKET]) == [LBRACKET] + Print(i, [RBRACKET] + [])
  {
    hide Strip, Print;
    StripAll([LBRACKET], t, [RBRACKET]);
    StripNoSpace([LBRACKET]);
    StripNoSpace([RBRACKET]);
    PrintThen(i, [RBRACKET] + []);
  }

  lemma {:induction false} CondStrips(y: Expr, n: Expr, ty: seq<Token>, tn: seq<Token>)
    requires Strip(ty) == Print(y, []) && Strip(tn) == Print(n, [])
    ensures Strip([Sym("?")] + ty + [Sym(":")] + tn) == [Sym("?")] + Print(y, [Sym(":")] + Print(n, []))
  {
    hide Strip, Print;
    StripConcat([Sym("?")] + ty + [Sym(":")], tn);
    StripAll([Sym("?")], ty, [Sym(":")]);
    StripNoSpace([Sym("?")]);
    StripNoSpace([Sym(":")]);
    PrintThen(y, [Sym(":")] + Print(n, []));
  }

  lemma {:induction false} CallStrips(env: Env, e: Expr)
    requires e.Call? && WellFormed(e) && Hlsl(env, e)
    ensures Strip(Text(env, e)) == Print(Translate(env, e), [])
    decreases e, 1
  {
    hide Strip, Print;
    StripSymbols();
    StripBetween();
    if e.fn == "mul" {
      var x, y := e.args[0], e.args[1];
      assert e.args == [x, y];
      TextStrips(env, x);
      TextStrips(env, y);
      ArgLists(env, [x, y]);
      MulStrips(Translate(env, x), Translate(env, y), Text(env, x), Text(env, y));
    } else if e.fn == "mad" {
      var x, y, z := e.args[0], e.args[1], e.args[2];
      assert e.args == [x, y, z];
      TextStrips(env, x);
      TextStrips(env, y);
      TextStrips(env, z);
      ArgLists(env, [x, y, z]);
      MadStrips(Translate(env, x), Translate(env, y), Translate(env, z), Text(env, x), Text(env, y), Text(env, z));
    } else if e.fn == "saturate" {
      var x := e.args[0];
      assert e.args == [x];
      TextStrips(env, x);
      OneArg(env, x);
      StripAll([Ident("clamp"), LPAREN], Text(env, x), CLAMP_TAIL);
      StripNoSpace([Ident("clamp"), LPAREN]);
      ClampPrints(Translate(env, x));
    } else {
      TextsStrip(env, e.args);
      StripAll([Ident(Rename(e.fn)), LPAREN], Texts(env, e.args), [RPAREN]);
      StripNoSpace([Ident(Rename(e.fn)), LPAREN]);
      CallPrints(Rename(e.fn), TranslateArgs(env, e.args));
    }
  }

  lemma {:induction false} CallPrints(f: string, ts: seq<Expr>)
    ensures Print(Call(f, ts), []) == [Ident(f), LPAREN] + (PrintArgs(ts, []) + [RPAREN])
  {
    PrintArgsThen(ts, [RPAREN]);
    assert [RPAREN] + [] == [RPAREN];
  }

  lemma {:induction false} ClampPrints(x: Expr)
    ensures Print(Call("clamp", [x, Atom(Num1("0.0")), Atom(Num1("1.0"))]), [])
         == [Ident("clamp"), LPAREN] + (Print(x, []) + [COMMA, Num1("0.0"), COMMA, Num1("1.0"), RPAREN])
  {
    PrintCall3("clamp", x, Atom(Num1("0.0")), Atom(Num1("1.0")), []);
    var m := [COMMA] + ([Num1("0.0")] + ([COMMA] + ([Num1("1.0")] + ([RPAREN] + []))));
    assert m == [COMMA, Num1("0.0"), COMMA, Num1("1.0"), RPAREN];
    PrintThen(x, m);
  }

  lemma {:induction false} MulStrips(x: Expr, y: Expr, ox: seq<Token>, oy: seq<Token>)
    requires Strip(ox) == Print(x, []) && Strip(oy) == Print(y, [])
    ensures Strip([LPAREN, LPAREN] + ox + BETWEEN + oy + [RPAREN, RPAREN]) == Print(Product(x, y), [])
  {
    hide Strip, Print;
    StripAll([LPAREN, LPAREN] + ox + BETWEEN, oy, [RPAREN, RPAREN]);
    StripAll([LPAREN, LPAREN], ox, BETWEEN);
    StripSymbols();
    StripBetween();
    var k2 := [RPAREN] + ([RPAREN] + []);
    var k1 := [RPAREN] + ([Sym("*")] + ([LPAREN] + Print(y, k2)));
    PrintProduct(x, y, []);
    PrintThen(y, k2);
    PrintThen(x, k1);
  }

  lemma {:induction false} MadStrips(x: Expr, y: Expr, z: Expr, ox: seq<Token>, oy: seq<Token>, oz: seq<Token>)
    requires Strip(ox) == Print(x, []) && Strip(oy) == Print(y, []) && Strip(oz) == Print(z, [])
    ensures Strip([LPAREN, LPAREN] + ox + BETWEEN + oy + BETWEEN_ADD + oz + [RPAREN, RPAREN]) ==
            Print(ProductSum(x, y, z), [])
  {
    hide Strip, Print;
    var a := [LPAREN, LPAREN] + ox + BETWEEN;
    StripAll(a + oy + BETWEEN_ADD, oz, [RPAREN, RPAREN]);
    StripAll(a, oy, BETWEEN_ADD);
    StripAll([LPAREN, LPAREN], ox, BETWEEN);
    StripSymbols();
    StripBetween();
    var k3 := [RPAREN] + ([RPAREN] + []);
    var k2 := [RPAREN] + ([Sym("+")] + ([LPAREN] + Print(z, k3)));
    var k1 := [RPAREN] + ([Sym("*")] + ([LPAREN] + Print(y, k2)));
    PrintProductSum(x, y, z, []);
    PrintThen(z, k3);
    PrintThen(y, k2);
    PrintThen(x, k1);
  }

  lemma {:induction false} TextsStrip(env: Env, args: seq<Expr>)
    requires forall a :: a in args ==> WellFormed(a) && Hlsl(env, a)
    ensures Strip(Texts(env, args)) == PrintArgs(TranslateArgs(env, args), [])
    decreases args, 0
  {
    hide Print, Hlsl, WellFormed;
    if |args| == 1 {
      TextStrips(env, args[0]);
    } else if |args| > 1 {
      hide Strip;
      TextStrips(env, args[0]);
      TextsStrip(env, args[1..]);
      StripAll(Text(env, args[0]), [COMMA], Texts(env, args[1..]));
      StripNoSpace([COMMA]);
      var ts := TranslateArgs(env, args);
      assert ts[1..] == TranslateArgs(env, args[1..]);
      assert Text(env, args[0]) + [COMMA] + Texts(env, args[1..]) ==
             Text(env, args[0]) + [COMMA] + Texts(env, args[1..]);
      PrintThen(ts[0], [COMMA] + PrintArgs(ts[1..], []));
    }
  }

  lemma {:induction false} TextureStrips(env: Env, e: Expr)
    requires e.Method? && WellFormed(e) && Hlsl(env, e)
    ensures Strip(Text(env, e)) == Print(Translate(env, e), [])
    decreases e, 1
  {
    hide Strip, Print, TextureCall, TextureParam;
    var (call, sampled) := TextureCall(TextureParam(env, e.obj.tok.text).value, e.fn).value;
    var cs := if sampled then e.args[1..] else e.args;
    TextsStrip(env, cs);
    var o := OpeningTokens(call, e.obj.tok.text);
    StripAll(o, Texts(env, cs), [RPAREN]);
    StripSymbols();
    CallText(call, e.obj, TranslateArgs(env, cs));
    assert sampled ==> TranslateArgs(env, e.args)[1..] == TranslateArgs(env, cs);
  }

  lemma {:induction false} CallText(call: string, o: Expr, ts: seq<Expr>)
    requires o.Atom? && o.tok.kind.Name? && ts != []
    ensures Print(Call(call, [o] + ts), []) == Strip(OpeningTokens(call, o.tok.text)) + (PrintArgs(ts, []) + [RPAREN])
  {
    var args := [o] + ts;
    assert args[1..] == ts;
    PrintArgsThen(ts, [RPAREN]);
    assert o.tok == Ident(o.tok.text);
    assert PrintArgs(args, [RPAREN]) == [o.tok] + ([COMMA] + PrintArgs(ts, [RPAREN]));
    assert [RPAREN] + [] == [RPAREN];
    assert Print(Call(call, args), []) == [Ident(call), LPAREN] + ([o.tok] + ([COMMA] + PrintArgs(ts, [RPAREN])));
    var head := [Ident(call), LPAREN, Ident(o.tok.text), COMMA];
    assert OpeningTokens(call, o.tok.text) == head + [BLANK];
    assert Strip([BLANK]) == [];
    hide Strip;
    StripConcat(head, [BLANK]);
    StripNoSpace(head);
  }
}
