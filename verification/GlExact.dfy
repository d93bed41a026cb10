/** Exactly when an expression comes out right (libobs-opengl/gl-shaderparser.c:271-523), for whole
    expressions and for each intrinsic. */
module GlExact {
  import opened Tokens
  import opened Expressions
  import opened GlStream
  import opened Options
  import opened GlTranslation
  import opened GlFrames
  import opened GlSettled

  /** The condition for a whole expression that ends at the given token. */
  predicate Settled(env: Env, e: Expr, end: string) {
    Settle(env, e, false, START, end).Some?
  }

  /** The streamer goes past e having written its text and nothing else. */
  predicate Right(env: Env, e: Expr, k: seq<Token>, end: string, c: nat)
    requires IsStream(k) && IsStream(Print(e, k))
  {
    var q, r := Scan(env, Print(e, k), end, c), Scan(env, k, end, c);
    q.rest == r.rest && q.out == Text(env, e) + r.out
  }

  /** Exact theorem. Any expression comes out right if and only if it settles; then the cursor, the counter and
      the sampler bindings are right as well. */
  lemma {:induction false} SettledExact(env: Env, e: Expr, k: seq<Token>, end: string, c: nat)
    requires Fits(env, e, k, end)
    ensures Tail(Print(e, k))
    ensures Right(env, e, k, end, c) <==> Settled(env, e, end)
    ensures Settled(env, e, end)
        ==> Scan(env, Print(e, k), end, c) == After(Text(env, e), Binds(env, e), Scan(env, k, end, c))
  {
    hide Scan, Print, Text, Binds, Settle, Fits;
    assert Tail(k) && end in ENDS by { FitsTail(env, e, k, end); }
    StartValid();
    StreamExpr(env, e, false, START, k, end, c);
    var q, r := Scan(env, Print(e, k), end, c), Scan(env, k, end, c);
    assert q == Resume(env, Print(e, k), [], end, c) && r == Resume(env, k, [], end, c);
    assert [] + q.out == q.out;
    if Settled(env, e, end) {
      var gs := Settle(env, e, false, START, end).value;
      assert gs.slots == [] && gs.ahead == [];
      assert Text(env, e) + [] + r.out == Text(env, e) + r.out;
    } else if Off(q.out, Text(env, e), end) {
      OffDiffers(q.out, Text(env, e), r.out, end);
    }
  }

  lemma {:induction false} FitsTail(env: Env, e: Expr, k: seq<Token>, end: string)
    requires Fits(env, e, k, end)
    ensures Tail(k) && end in ENDS
  {
  }

  lemma {:induction false} OffDiffers(a: seq<Token>, t: seq<Token>, z: seq<Token>, end: string)
    requires Off(a, t, end)
    ensures a != t + z
  {
    var i: nat :| OffAt(a, t, end, i);
    if i < |a| {
      assert (t + z)[i] == t[i];
    }
  }

  // ---- expressions in which nothing begins unexamined on a parenthesis ----

  /** No last argument of mul or mad and no coordinates of a texture call begin with a parenthesis. */
  predicate Guarded(env: Env, e: Expr) {
    match e
    case Atom(_) => true
    case Paren(x) => Guarded(env, x)
    case Call(f, args) =>
      && (forall a :: a in args ==> Guarded(env, a))
      && (f == "mul" && |args| == 2 ==> !LeadParen(args[1]))
      && (f == "mad" && |args| == 3 ==> !LeadParen(args[2]))
    case Method(o, m, args) =>
      && (forall a :: a in args ==> Guarded(env, a))
      && (IsTextureCall(env, o, m, args) ==>
            !LeadParen(args[if TextureCall(TextureParam(env, o.tok.text).value, m).value.1 then 1 else 0]))
    case Member(o, _) => Guarded(env, o)
    case Index(a, i) => Guarded(env, a) && Guarded(env, i)
    case Unary(_, x) => Guarded(env, x)
    case Binary(_, l, r) => Guarded(env, l) && Guarded(env, r)
    case Cond(t, y, n) => Guarded(env, t) && Guarded(env, y) && Guarded(env, n)
  }

  predicate Clean(env: Env, e: Expr) {
    WellFormed(e) && Hlsl(env, e) && Guarded(env, e)
  }

  predicate Quiet(st: State) {
    Valid(st) && st.ahead == []
  }

  /** The closing parenthesis of a live frame just ends it. */
  lemma {:induction false} ShutLive(st: State, f: Frame, end: string)
    requires Quiet(st)
    ensures Valid(Push(st, f, false)) && Shut(Push(st, f, false), end) == Some(st)
  {
    var push := Push(st, f, false);
    assert push.slots[1..] == st.slots;
    assert [] + Close(f) == Close(f) && Close(f)[|Close(f)|..] == [];
  }

  /** A guarded expression settles anywhere and leaves every frame as it was. */
  lemma {:induction false} GuardedSettles(env: Env, e: Expr, led: bool, st: State, end: string)
    requires Hlsl(env, e) && Guarded(env, e) && Quiet(st) && (led ==> !LeadParen(e))
    ensures Settle(env, e, led, st, end) == Some(st)
    decreases e, 2
  {
    hide Valid, Shut;
    if Continues(e) {
      GuardedSettles(env, Leftmost(e), led, st, end);
      GuardedLater(env, e, st, end);
    } else if e.Paren? {
      ShutLive(st, Bracket, end);
      GuardedSettles(env, e.inner, false, Push(st, Bracket, false), end);
    } else if e.Call? {
      GuardedCall(env, e, led, st, end);
    } else if e.Method? {
      GuardedTexture(env, e, led, st, end);
    } else if e.Unary? {
      GuardedSettles(env, e.operand, false, st, end);
    }
  }

  lemma {:induction false} GuardedLater(env: Env, e: Expr, st: State, end: string)
    requires Hlsl(env, e) && Guarded(env, e) && Quiet(st) && Continues(e)
    ensures SettleLater(env, e, st, end) == Some(st)
    decreases e, 1
  {
    hide Valid;
    match e
    case Member(_, _) =>
    case Index(_, i) => GuardedSettles(env, i, false, st, end);
    case Binary(_, _, r) => GuardedSettles(env, r, false, st, end);
    case Cond(_, y, n) =>
      GuardedSettles(env, y, false, st, end);
      GuardedSettles(env, n, false, st, end);
  }

  lemma {:induction false} GuardedCall(env: Env, e: Expr, led: bool, st: State, end: string)
    requires Hlsl(env, e) && Guarded(env, e) && Quiet(st) && e.Call?
    ensures Settle(env, e, led, st, end) == Some(st)
    decreases e, 1
  {
    hide Shut;
    StartValid();
    if e.fn == "mul" {
      GuardedSettles(env, e.args[0], false, START, ",");
      ShutLive(st, Factor, end);
      GuardedSettles(env, e.args[1], true, Push(st, Factor, false), end);
    } else if e.fn == "mad" {
      GuardedSettles(env, e.args[0], false, START, ",");
      GuardedSecond(env, e.args[1]);
      ShutLive(st, Factor, end);
      GuardedSettles(env, e.args[2], true, Push(st, Factor, false), end);
    } else if e.fn == "saturate" {
      ShutLive(st, Clamp, end);
      GuardedSettles(env, e.args[0], false, Push(st, Clamp, false), end);
    } else {
      ShutLive(st, Bracket, end);
      GuardedArgs(env, e.args, false, Push(st, Bracket, false), end);
    }
  }

  lemma {:induction false} GuardedArgs(env: Env, args: seq<Expr>, led: bool, st: State, end: string)
    requires (forall a :: a in args ==> Hlsl(env, a) && Guarded(env, a)) && Quiet(st)
    requires (|args| > 1 && end == "," ==> Live(st.slots) != []) && (led && args != [] ==> !LeadParen(args[0]))
    ensures SettleArgs(env, args, led, st, end) == Some(st)
    decreases args, 0
  {
    hide Hlsl, Guarded, Valid;
    if args != [] {
      GuardedSettles(env, args[0], led, st, end);
      GuardedArgs(env, args[1..], false, st, end);
    }
  }

  lemma {:induction false} GuardedTexture(env: Env, e: Expr, led: bool, st: State, end: string)
    requires Hlsl(env, e) && Guarded(env, e) && Quiet(st) && e.Method?
    ensures Settle(env, e, led, st, end) == Some(st)
    decreases e, 1
  {
    hide Shut, TextureCall, FindParam, Hlsl, Guarded;
    GuardedCoords(env, e);
    ShutLive(st, Coords, end);
    var sampled := TextureCall(TextureParam(env, e.obj.tok.text).value, e.fn).value.1;
    GuardedArgs(env, if sampled then e.args[1..] else e.args, true, Push(st, Coords, false), end);
  }

  lemma {:induction false} GuardedCoords(env: Env, e: Expr)
    requires Hlsl(env, e) && Guarded(env, e) && e.Method?
    ensures IsTextureCall(env, e.obj, e.fn, e.args)
    ensures var sampled := TextureCall(TextureParam(env, e.obj.tok.text).value, e.fn).value.1;
            var coords := if sampled then e.args[1..] else e.args;
            coords != [] && !LeadParen(coords[0]) && forall a :: a in coords ==> Hlsl(env, a) && Guarded(env, a)
  {
  }

  // ---- one led argument ----

  /** Behind the parenthesis a led expression begins with, the streamer has left a frame. */
  function Slip(st: State, end: string): (r: Option<State>)
    requires Valid(st)
    ensures r.Some? ==> Valid(r.value) && Alike(st.slots, r.value.slots)
  {
    Shut(Push(st, Bracket, true), end)
  }

  lemma {:induction false} LedSettles(env: Env, e: Expr, st: State, end: string)
    requires Hlsl(env, e) && Guarded(env, e) && Quiet(st) && LeadParen(e)
    ensures Settle(env, e, true, st, end)
         == (match Slip(st, end)
             case None => None
             case Some(gs) => if gs.ahead == [] || e.Paren? then Some(gs) else None)
    decreases e, 2
  {
    hide Shut;
    if e.Paren? {
      GuardedSettles(env, e.inner, false, Push(st, Bracket, true), end);
    } else {
      LedContinues(env, e);
      LedSettles(env, Leftmost(e), st, end);
      var o := Slip(st, end);
      if o.Some? && o.value.ahead == [] {
        GuardedLater(env, e, o.value, end);
      }
    }
  }

  lemma {:induction false} LedContinues(env: Env, e: Expr)
    requires Hlsl(env, e) && LeadParen(e) && !e.Paren?
    ensures Continues(e) && LeadParen(Leftmost(e)) && (Guarded(env, e) ==> Guarded(env, Leftmost(e))) &&
            Hlsl(env, Leftmost(e))
  {
  }

  /** In an argument that a comma ends, nothing is lost. */
  lemma {:induction false} GuardedSecond(env: Env, e: Expr)
    requires Hlsl(env, e) && Guarded(env, e)
    ensures Settles(env, e, true)
    decreases e, 3
  {
    StartValid();
    if LeadParen(e) {
      LedSettles(env, e, START, ",");
      SlipAtRoot(",");
    } else {
      GuardedSettles(env, e, true, START, ",");
    }
  }

  /** With no frame around it, the parenthesis is copied, unless it is what the streamer looks for. */
  lemma {:induction false} SlipAtRoot(end: string)
    ensures Valid(START) && Slip(START, end) == if end == ")" then None else Some(START)
  {
    var push := Push(START, Bracket, true);
    assert push.slots[1..] == [] && Live([]) == [];
    assert [] + [RPAREN] == [RPAREN] && [RPAREN][1..] == [];
  }

  /** Inside a single frame, that frame is left; its own parenthesis is then copied or ends the text. */
  lemma {:induction false} SlipInFrame(f: Frame, end: string)
    requires !f.Clamp?
    ensures var st := Push(START, f, false);
            var lost := State([Slot(f, true)], Close(f)[1..]);
            && Quiet(st) && Slip(st, end) == Some(lost)
            && Shut(lost, end) == if end == ")" then None else Some(START)
  {
    StartValid();
    var st := Push(START, f, false);
    var push := Push(st, Bracket, true);
    assert push.slots[1..] == st.slots == [Slot(f, false)] && [Slot(f, false)][1..] == [];
    assert Lose(st.slots) == [Slot(f, true)];
    assert [] + Close(f) == Close(f) && [RPAREN] <= Close(f);
    var lost := State([Slot(f, true)], Close(f)[1..]);
    assert lost.slots[1..] == [] && Live([]) == [];
    assert Close(f)[1..] + [RPAREN] == Close(f) && Close(f)[|Close(f)|..] == [];
  }

  /** The product of any two clean factors comes out right if and only if the second does not begin with a
      parenthesis, or is one parenthesised expression and the end token is not a closing parenthesis. */
  lemma {:induction false} ProductExact(env: Env, x: Expr, y: Expr, k: seq<Token>, end: string, c: nat)
    requires Clean(env, x) && Clean(env, y) && Tail(k) && end in ENDS
    ensures var e := Call("mul", [x, y]);
            Tail(Print(e, k)) && (Right(env, e, k, end, c) <==> (LeadParen(y) ==> y.Paren? && end != ")"))
  {
    var e := Call("mul", [x, y]);
    hide Settle, Shut, Slip;
    CleanCall(env, "mul", [x, y]);
    SettledExact(env, e, k, end, c);
    ProductSettles(env, x, y, end);
  }

  lemma {:induction false} CleanCall(env: Env, f: string, args: seq<Expr>)
    requires forall a :: a in args ==> Clean(env, a)
    requires (f == "mul" && |args| == 2) || (f == "mad" && |args| == 3) || (f == "saturate" && |args| == 1)
    ensures WellFormed(Call(f, args)) && Hlsl(env, Call(f, args)) && !EndsBare(env, Call(f, args))
  {
    assert f !in DELIMITERS;
  }

  lemma {:induction false} ProductSettles(env: Env, x: Expr, y: Expr, end: string)
    requires Clean(env, x) && Clean(env, y)
    ensures Settled(env, Call("mul", [x, y]), end) <==> (LeadParen(y) ==> y.Paren? && end != ")")
  {
    hide Hlsl, WellFormed, Guarded, Shut, Valid;
    StartValid();
    GuardedSettles(env, x, false, START, ",");
    LastSettles(env, y, end);
    var e := Call("mul", [x, y]);
    assert e.args[0] == x && e.args[1] == y && Settles(env, x, false);
    assert Settle(env, e, false, START, end) == ShutAfter(Settle(env, y, true, Push(START, Factor, false), end), end);
  }

  /** The last argument of mul or mad. */
  lemma {:induction false} LastSettles(env: Env, y: Expr, end: string)
    requires Clean(env, y)
    ensures Valid(Push(START, Factor, false))
    ensures ShutAfter(Settle(env, y, true, Push(START, Factor, false), end), end).Some?
            <==> (LeadParen(y) ==> y.Paren? && end != ")")
  {
    hide Hlsl, WellFormed, Guarded, Settle;
    SlipInFrame(Factor, end);
    StartValid();
    if LeadParen(y) {
      LedSettles(env, y, Push(START, Factor, false), end);
    } else {
      ShutLive(START, Factor, end);
      GuardedSettles(env, y, true, Push(START, Factor, false), end);
    }
  }

  /** The same condition on the third argument of mad; the first two may begin as they like. */
  lemma {:induction false} MadExact(env: Env, x: Expr, y: Expr, z: Expr, k: seq<Token>, end: string, c: nat)
    requires Clean(env, x) && Clean(env, y) && Clean(env, z) && Tail(k) && end in ENDS
    ensures var e := Call("mad", [x, y, z]);
            Tail(Print(e, k)) && (Right(env, e, k, end, c) <==> (LeadParen(z) ==> z.Paren? && end != ")"))
  {
    var e := Call("mad", [x, y, z]);
    hide Settle, Shut, Slip;
    CleanCall(env, "mad", [x, y, z]);
    SettledExact(env, e, k, end, c);
    MadSettles(env, x, y, z, end);
  }

  lemma {:induction false} MadSettles(env: Env, x: Expr, y: Expr, z: Expr, end: string)
    requires Clean(env, x) && Clean(env, y) && Clean(env, z)
    ensures Settled(env, Call("mad", [x, y, z]), end) <==> (LeadParen(z) ==> z.Paren? && end != ")")
  {
    hide Hlsl, WellFormed, Guarded, Shut, Valid;
    StartValid();
    GuardedSettles(env, x, false, START, ",");
    GuardedSecond(env, y);
    LastSettles(env, z, end);
    var e := Call("mad", [x, y, z]);
    assert e.args[0] == x && e.args[1] == y && e.args[2] == z && Settles(env, x, false) && Settles(env, y, true);
    assert Settle(env, e, false, START, end) == ShutAfter(Settle(env, z, true, Push(START, Factor, false), end), end);
  }

  /** A texture call with clean coordinates comes out right if and only if they do not begin with a parenthesis,
      or the end token is not a closing parenthesis and, when there are several, not a comma either. */
  lemma {:induction false} TextureExact(env: Env, e: Expr, k: seq<Token>, end: string, c: nat)
    requires e.Method? && WellFormed(e) && Hlsl(env, e) && (forall a :: a in e.args ==> Guarded(env, a)) && Tail(k) &&
             end in ENDS
    ensures Tail(Print(e, k))
    ensures var coords := CoordsOf(env, e);
            Right(env, e, k, end, c) <==> (LeadParen(coords[0]) ==> end != ")" && (|coords| > 1 ==> end != ","))
  {
    hide Settle, Shut, Slip;
    SettledExact(env, e, k, end, c);
    TextureSettles(env, e, end);
  }

  function CoordsOf(env: Env, e: Expr): (cs: seq<Expr>)
    requires e.Method? && IsTextureCall(env, e.obj, e.fn, e.args)
    ensures cs != [] && forall a :: a in cs ==> a in e.args
  {
    if TextureCall(TextureParam(env, e.obj.tok.text).value, e.fn).value.1 then e.args[1..] else e.args
  }

  lemma {:induction false} TextureSettles(env: Env, e: Expr, end: string)
    requires e.Method? && Hlsl(env, e) && (forall a :: a in e.args ==> Guarded(env, a))
    ensures Settled(env, e, end)
            <==> (LeadParen(CoordsOf(env, e)[0]) ==> end != ")" && (|CoordsOf(env, e)| > 1 ==> end != ","))
  {
    hide Shut, Guarded, TextureCall, TextureParam, Valid;
    var cs := CoordsOf(env, e);
    StartValid();
    SlipInFrame(Coords, end);
    var push, lost := Push(START, Coords, false), State([Slot(Coords, true)], []);
    assert Close(Coords)[1..] == [] && [Slot(Coords, true)][1..] == [];
    assert SettleMethod(env, e, START, end) == ShutAfter(SettleArgs(env, cs, true, push, end), end);
    assert Settle(env, e, false, START, end) == SettleMethod(env, e, START, end);
    hide Hlsl;
    if !LeadParen(cs[0]) {
      ShutLive(START, Coords, end);
      GuardedArgs(env, cs, true, push, end);
    } else {
      LedSettles(env, cs[0], push, end);
      assert Quiet(lost) && Live(lost.slots) == [];
      if |cs| > 1 && end != "," {
        GuardedArgs(env, cs[1..], false, lost, end);
      }
    }
  }

  // ---- what a frame further out decides ----

  /** The parentheses of a bracket make good what a product in it lost: (mul(x, (p))) comes out right. */
  lemma {:induction false} BracketedProduct(env: Env, x: Expr, y: Expr, k: seq<Token>, end: string, c: nat)
    requires Clean(env, x) && Clean(env, y) && y.Paren? && Tail(k) && end in ENDS
    ensures var e := Paren(Call("mul", [x, y]));
            Tail(Print(e, k)) && (Right(env, e, k, end, c) <==> end != ")")
  {
    var m := Call("mul", [x, y]);
    hide Settle, Shut, Slip;
    CleanCall(env, "mul", [x, y]);
    SettledExact(env, Paren(m), k, end, c);
    BracketSettles(env, x, y, end);
  }

  lemma {:induction false} BracketSettles(env: Env, x: Expr, y: Expr, end: string)
    requires Clean(env, x) && Clean(env, y) && y.Paren?
    ensures Settled(env, Paren(Call("mul", [x, y])), end) <==> end != ")"
  {
    hide Hlsl, WellFormed, Guarded, Slip, Shut;
    StartValid();
    var m, push := Call("mul", [x, y]), Push(START, Bracket, false);
    var factor := Push(push, Factor, false);
    SlipInBracket(end);
    GuardedSettles(env, x, false, START, ",");
    LedSettles(env, y, factor, end);
    assert m.args[0] == x && m.args[1] == y && Settles(env, x, false);
    assert Settle(env, m, false, push, end) == ShutAfter(Settle(env, y, true, factor, end), end);
    assert Settle(env, Paren(m), false, START, end) == ShutAfter(Settle(env, m, false, push, end), end);
  }

  lemma {:induction false} SlipInBracket(end: string)
    ensures var factor := Push(Push(START, Bracket, false), Factor, false);
            var lost := State([Slot(Factor, true), Slot(Bracket, false)], [RPAREN]);
            var gone := State([Slot(Bracket, true)], []);
            && Quiet(factor) && Slip(factor, end) == Some(lost)
            && Shut(lost, end) == Some(gone) && Shut(gone, end) == if end == ")" then None else Some(START)
  {
    var push := Push(START, Bracket, false);
    var factor := Push(push, Factor, false);
    assert factor.slots[1..] == push.slots && push.slots[1..] == [];
    var led := Push(factor, Bracket, true);
    assert led.slots[1..] == factor.slots;
    var lost, gone := State([Slot(Factor, true), Slot(Bracket, false)], [RPAREN]), State([Slot(Bracket, true)], []);
    assert Lose(factor.slots) == lost.slots && lost.slots[1..] == push.slots;
    assert [] + Close(Factor) == Close(Factor) && [RPAREN, RPAREN][1..] == [RPAREN];
    assert Lose(push.slots) == gone.slots && [RPAREN] + [RPAREN] == [RPAREN, RPAREN] && [RPAREN, RPAREN][2..] == [];
    assert gone.slots[1..] == [] && [] + [RPAREN] == [RPAREN] && [RPAREN][1..] == [];
  }

  /** The clamp of saturate does not: around a texture call whose coordinates begin with a parenthesis it closes
      too early, whatever comes after. */
  lemma {:induction false} SaturatedTexture(env: Env, e: Expr, k: seq<Token>, end: string, c: nat)
    requires e.Method? && WellFormed(e) && Hlsl(env, e) && (forall a :: a in e.args ==> Guarded(env, a)) && Tail(k) &&
             end in ENDS
    ensures var s := Call("saturate", [e]);
            Tail(Print(s, k)) && (Right(env, s, k, end, c) <==> !LeadParen(CoordsOf(env, e)[0]))
  {
    var s := Call("saturate", [e]);
    hide Settle, Shut, Slip;
    SaturateFits(env, e, k, end);
    SettledExact(env, s, k, end, c);
    SaturatedSettles(env, e, end);
  }

  lemma {:induction false} SaturateFits(env: Env, e: Expr, k: seq<Token>, end: string)
    requires WellFormed(e) && Hlsl(env, e) && Tail(k) && end in ENDS
    ensures Fits(env, Call("saturate", [e]), k, end)
  {
    assert "saturate" !in DELIMITERS;
  }

  lemma {:induction false} SaturatedSettles(env: Env, e: Expr, end: string)
    requires e.Method? && Hlsl(env, e) && (forall a :: a in e.args ==> Guarded(env, a))
    ensures Settled(env, Call("saturate", [e]), end) <==> !LeadParen(CoordsOf(env, e)[0])
  {
    hide Guarded, TextureCall, TextureParam, Slip, Shut;
    var cs, s := CoordsOf(env, e), Call("saturate", [e]);
    SlipInClamp(end);
    var clamp := Push(START, Clamp, false);
    var push := Push(clamp, Coords, false);
    assert s.args[0] == e;
    assert Settle(env, s, false, START, end) == ShutAfter(Settle(env, e, false, clamp, end), end);
    assert Settle(env, e, false, clamp, end) == ShutAfter(SettleArgs(env, cs, true, push, end), end);
    hide Hlsl;
    if !LeadParen(cs[0]) {
      ShutLive(START, Clamp, end);
      ShutLive(clamp, Coords, end);
      GuardedArgs(env, cs, true, push, end);
    } else {
      LedSettles(env, cs[0], push, end);
      if |cs| > 1 {
        GuardedArgs(env, cs[1..], false, State([Slot(Coords, true), Slot(Clamp, false)], []), end);
      }
    }
  }

  lemma {:induction false} SlipInClamp(end: string)
    ensures Quiet(START) && Quiet(Push(START, Clamp, false))
    ensures var push := Push(Push(START, Clamp, false), Coords, false);
            var lost := State([Slot(Coords, true), Slot(Clamp, false)], []);
            && Quiet(push) && Live(push.slots) != [] && Slip(push, end) == Some(lost)
            && Quiet(lost) && Live(lost.slots) != [] && Shut(lost, end).None?
  {
    var clamp := Push(START, Clamp, false);
    var push := Push(clamp, Coords, false);
    assert push.slots[1..] == clamp.slots && clamp.slots[1..] == [];
    var led := Push(push, Bracket, true);
    assert led.slots[1..] == push.slots;
    var lost := State([Slot(Coords, true), Slot(Clamp, false)], []);
    assert Lose(push.slots) == lost.slots && [] + [RPAREN] == [RPAREN] && [RPAREN][1..] == [];
    assert lost.slots[1..] == clamp.slots && Live(lost.slots[1..]) == [Clamp];
    assert [] + CLAMP_TAIL == CLAMP_TAIL && CLAMP_TAIL[0] == COMMA;
  }
}
