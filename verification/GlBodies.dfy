/** Whole function bodies: statements, blocks, bracketed headers and sincos, as gl_write_function
    hands them to the streamer (libobs-opengl/gl-shaderparser.c:316-358, 525-553), and exactly when they come
    out right. */
module GlBodies {
  import opened Tokens
  import opened Expressions
  import opened GlStream
  import opened Decimals
  import opened Options
  import opened GlTranslation
  import opened GlFrames
  import opened GlSettled
  import opened GlExact
  import GlBlanks

  /** A body is a list of pieces: plain tokens (keywords, types, "=", ";"), expressions, blocks,
      bracketed headers such as that of a for statement, and sincos calls. */
  datatype Item =
    | Plain(tok: Token)
    | Ex(e: Expr)
    | Block(items: seq<Item>)
    | Header(items: seq<Item>)
    | SincosCall(angle: Expr, sine: Expr, cosine: Expr)

  function PrintItem(i: Item, k: seq<Token>): seq<Token>
    decreases i, 1
  {
    match i
    case Plain(t) => [t] + k
    case Ex(e) => Print(e, k)
    case Block(items) => [LBRACE] + PrintItems(items, [RBRACE] + k)
    case Header(items) => [LPAREN] + PrintItems(items, [RPAREN] + k)
    case SincosCall(x, s, c) => Print(Call("sincos", [x, s, c]), k)
  }

  function PrintItems(items: seq<Item>, k: seq<Token>): seq<Token>
    decreases items, 0
  {
    if items == [] then k else PrintItem(items[0], PrintItems(items[1..], k))
  }

  /** Pieces the shader language has: no intrinsic, texture or bracket hides in a plain token. */
  predicate HlslItem(env: Env, i: Item) {
    match i
    case Plain(t) =>
      && !t.kind.End? && !IsSpace(t) && (t == COMMA || t.text !in DELIMITERS)
      && (t.kind.Name? ==> !IsExpanded(t.text) && TextureParam(env, t.text).None?)
    case Ex(e) => WellFormed(e) && Hlsl(env, e)
    case Block(items) => forall j :: j in items ==> HlslItem(env, j)
    case Header(items) => forall j :: j in items ==> HlslItem(env, j)
    case SincosCall(x, s, d) =>
      && WellFormed(x) && Hlsl(env, x) && WellFormed(s) && Hlsl(env, s) && WellFormed(d) && Hlsl(env, d)
  }

  // ---- translation, threading the sincos counter ----

  function Calls(i: Item): nat
    decreases i, 1
  {
    match i
    case Block(items) => CallsIn(items)
    case Header(items) => CallsIn(items)
    case SincosCall(_, _, _) => 1
    case _ => 0
  }

  function CallsIn(items: seq<Item>): nat
    decreases items, 0
  {
    if items == [] then 0 else Calls(items[0]) + CallsIn(items[1..])
  }

  function TranslateItem(env: Env, i: Item, c: nat): seq<Item>
    decreases i, 1
  {
    match i
    case Plain(t) => [Plain(if t.kind.Name? then Ident(Rename(t.text)) else t)]
    case Ex(e) => [Ex(Translate(env, e))]
    case Block(items) => [Block(TranslateItems(env, items, c))]
    case Header(items) => [Header(TranslateItems(env, items, c))]
    case SincosCall(x, s, d) =>
      var v := SincosVar(c);
      [Plain(Ident("float")), Plain(v), Plain(EQUALS), Ex(Paren(Translate(env, x))), Plain(SEMICOLON),
       Ex(Translate(env, s)), Plain(EQUALS), Ex(Call("sin", [Atom(v)])), Plain(SEMICOLON),
       Ex(Translate(env, d)), Plain(EQUALS), Ex(Call("cos", [Atom(v)]))]
  }

  function TranslateItems(env: Env, items: seq<Item>, c: nat): seq<Item>
    decreases items, 0
  {
    if items == [] then []
    else TranslateItem(env, items[0], c) + TranslateItems(env, items[1..], c + Calls(items[0]))
  }

  function BindsItem(env: Env, i: Item): seq<(string, nat)>
    decreases i, 1
  {
    match i
    case Plain(_) => []
    case Ex(e) => Binds(env, e)
    case Block(items) => BindsItems(env, items)
    case Header(items) => BindsItems(env, items)
    case SincosCall(x, s, c) => Binds(env, x) + Binds(env, s) + Binds(env, c)
  }

  function BindsItems(env: Env, items: seq<Item>): seq<(string, nat)>
    decreases items, 0
  {
    if items == [] then [] else BindsItem(env, items[0]) + BindsItems(env, items[1..])
  }

  /** What gl_write_sincos appends, from its three arguments. */
  function SincosOut(v: Token, x: seq<Token>, s: seq<Token>, d: seq<Token>): seq<Token> {
    AngleText(v, x) + SineText(v, s) + d + AssignOf("cos", v)
  }

  function AngleText(v: Token, x: seq<Token>): seq<Token> {
    [Ident("float"), BLANK, v, BLANK, EQUALS, BLANK, LPAREN] + x + [RPAREN, SEMICOLON, BLANK]
  }

  function SineText(v: Token, s: seq<Token>): seq<Token> {
    s + AssignOf("sin", v) + [SEMICOLON, BLANK]
  }

  /** The text of a translated item, blanks included. */
  function TextItem(env: Env, i: Item, c: nat): seq<Token>
    decreases i, 1
  {
    match i
    case Plain(t) => [if t.kind.Name? then Ident(Rename(t.text)) else t]
    case Ex(e) => Text(env, e)
    case Block(items) => [LBRACE] + TextItems(env, items, c) + [RBRACE]
    case Header(items) => [LPAREN] + TextItems(env, items, c) + [RPAREN]
    case SincosCall(x, s, d) => SincosOut(SincosVar(c), Text(env, x), Text(env, s), Text(env, d))
  }

  function TextItems(env: Env, items: seq<Item>, c: nat): seq<Token>
    decreases items, 0
  {
    if items == [] then [] else TextItem(env, items[0], c) + TextItems(env, items[1..], c + Calls(items[0]))
  }

  // ---- settling, over items ----

  /** The third argument of sincos, which a closing parenthesis ends. */
  predicate SettlesLast(env: Env, e: Expr) {
    Settle(env, e, true, START, ")").Some?
  }

  function SettleItem(env: Env, i: Item, st: State): (r: Option<State>)
    requires Valid(st)
    ensures r.Some? ==> Valid(r.value) && Alike(st.slots, r.value.slots)
    decreases i, 1
  {
    match i
    case Plain(_) => Some(st)
    case Ex(e) => Settle(env, e, false, st, "}")
    case Block(items) => if SettleItems(env, items, START).Some? then Some(st) else None
    case Header(items) => ShutAfter(SettleItems(env, items, Push(st, Bracket, false)), "}")
    case SincosCall(x, s, d) =>
      if Settles(env, x, false) && Settles(env, s, true) && SettlesLast(env, d) then Some(st) else None
  }

  function SettleItems(env: Env, items: seq<Item>, st: State): (r: Option<State>)
    requires Valid(st)
    ensures r.Some? ==> Valid(r.value) && Alike(st.slots, r.value.slots)
    decreases items, 0
  {
    if items == [] then Some(st)
    else
      match SettleItem(env, items[0], st)
      case None => None
      case Some(gs) => SettleItems(env, items[1..], gs)
  }

  /** The third argument of every sincos call settles on its own. */
  predicate OutputsSettle(env: Env, i: Item) {
    match i
    case Block(items) => forall j :: j in items ==> OutputsSettle(env, j)
    case Header(items) => forall j :: j in items ==> OutputsSettle(env, j)
    case SincosCall(_, _, d) => SettlesLast(env, d)
    case _ => true
  }

  // ---- printing items ----


  lemma {:induction false} PrintOne(i: Item, k: seq<Token>)
    ensures PrintItems([i], k) == PrintItem(i, k)
  {
    assert [i][1..] == [];
  }

  lemma {:induction false} PrintItemsConcat(a: seq<Item>, b: seq<Item>, k: seq<Token>)
    ensures PrintItems(a + b, k) == PrintItems(a, PrintItems(b, k))
  {
    if a == [] {
      assert a + b == b;
    } else {
      assert (a + b)[1..] == a[1..] + b;
      PrintItemsConcat(a[1..], b, k);
    }
  }

  lemma {:induction false} PrintItemsAppend(items: seq<Item>, k: seq<Token>, m: seq<Token>)
    ensures PrintItems(items, k + m) == PrintItems(items, k) + m
    decreases items, 0
  {
    if items != [] {
      PrintItemsAppend(items[1..], k, m);
      PrintItemAppend(items[0], PrintItems(items[1..], k), m);
    }
  }

  lemma {:induction false} PrintItemAppend(i: Item, k: seq<Token>, m: seq<Token>)
    ensures PrintItem(i, k + m) == PrintItem(i, k) + m
    decreases i, 1
  {
    match i
    case Plain(t) => assert [t] + (k + m) == [t] + k + m;
    case Ex(e) => PrintAppend(e, k, m);
    case Block(items) =>
      assert [RBRACE] + (k + m) == [RBRACE] + k + m;
      PrintItemsAppend(items, [RBRACE] + k, m);
    case Header(items) =>
      assert [RPAREN] + (k + m) == [RPAREN] + k + m;
      PrintItemsAppend(items, [RPAREN] + k, m);
    case SincosCall(x, s, c) => PrintAppend(Call("sincos", [x, s, c]), k, m);
  }

  /** Where items may stand: nothing after them reads as a member access. */
  predicate ItemTail(k: seq<Token>) {
    Tail(k) && k[0].text != "."
  }

  lemma {:induction false} ConsItemTail(t: Token, k: seq<Token>)
    requires Tail(k) && !IsSpace(t) && t.text != "."
    ensures ItemTail([t] + k)
  {
    TailCons(t, k);
  }

  lemma {:induction false} PrintExprTail(env: Env, e: Expr, k: seq<Token>)
    requires WellFormed(e) && Hlsl(env, e) && ItemTail(k)
    ensures ItemTail(Print(e, k))
  {
    PrintTail(e, k);
    PrintFirst(env, e, k);
    NotDot(env, e, k);
  }

  lemma {:induction false} NotDot(env: Env, e: Expr, k: seq<Token>)
    requires WellFormed(e) && Hlsl(env, e)
    ensures Print(e, k) != [] && Print(e, k)[0].text != "."
    decreases e
  {
    match e
    case Method(o, m, args) => NotDot(env, o, [DOT, Ident(m), LPAREN] + PrintArgs(args, [RPAREN] + k));
    case Member(o, m) => NotDot(env, o, [DOT, Ident(m)] + k);
    case Index(a, i) => NotDot(env, a, [LBRACKET] + Print(i, [RBRACKET] + k));
    case Binary(op, l, r) => NotDot(env, l, OpTokens(op) + Print(r, k));
    case Cond(t, y, n) => NotDot(env, t, [Sym("?")] + Print(y, [Sym(":")] + Print(n, k)));
    case _ =>
  }

  lemma {:induction false} PrintItemTail(env: Env, i: Item, k: seq<Token>)
    requires HlslItem(env, i) && ItemTail(k)
    ensures ItemTail(PrintItem(i, k))
    decreases i, 1
  {
    hide Tail, Print;
    match i
    case Plain(t) => ConsItemTail(t, k);
    case Ex(e) => PrintExprTail(env, e, k);
    case Block(items) =>
      ConsItemTail(RBRACE, k);
      PrintItemsTail(env, items, [RBRACE] + k);
      ConsItemTail(LBRACE, PrintItems(items, [RBRACE] + k));
    case Header(items) =>
      ConsItemTail(RPAREN, k);
      PrintItemsTail(env, items, [RPAREN] + k);
      ConsItemTail(LPAREN, PrintItems(items, [RPAREN] + k));
    case SincosCall(x, s, c) =>
      var e := Call("sincos", [x, s, c]);
      assert WellFormed(e);
      PrintTail(e, k);
      PrintCall3("sincos", x, s, c, k);
  }

  lemma {:induction false} PrintItemsTail(env: Env, items: seq<Item>, k: seq<Token>)
    requires (forall j :: j in items ==> HlslItem(env, j)) && ItemTail(k)
    ensures ItemTail(PrintItems(items, k))
    decreases items, 0
  {
    if items != [] {
      PrintItemsTail(env, items[1..], k);
      PrintItemTail(env, items[0], PrintItems(items[1..], k));
    }
  }

  // ---- the streamer on items ----

  ghost predicate ItemOutcome(env: Env, st: State, q: Step, t: seq<Token>, b: seq<(string, nat)>, o: Option<State>,
                              exact: bool, k: seq<Token>, n: nat)
    requires IsStream(k)
  {
    match o
    case Some(gs) => Writes(st, q, t, b, gs, Resume(env, k, Live(gs.slots), "}", n))
    case None => exact ==> Off(st.ahead + q.out, t, "}")
  }

  /** Between items the streamer is inside of headers only, so nothing is written ahead. */
  predicate InHeaders(st: State) {
    Valid(st) && forall i :: 0 <= i < |st.slots| ==> st.slots[i].frame.Bracket?
  }

  lemma {:induction false} HeadersQuiet(st: State)
    requires InHeaders(st)
    ensures st.ahead == []
  {
    BracketsOwe(st.slots);
  }

  lemma {:induction false} BracketsOwe(slots: seq<Slot>)
    requires forall i :: 0 <= i < |slots| ==> slots[i].frame.Bracket?
    ensures Owed(slots) == 0
  {
    if slots != [] {
      BracketsOwe(slots[1..]);
    }
  }

  predicate Outputs(env: Env, items: seq<Item>) {
    forall j :: j in items ==> OutputsSettle(env, j)
  }

  /** Main theorem, body part: over any list of body items the streamer writes the expected text, giving each
      sincos call the next counter value, if the items settle; and it goes wrong if they do not. */
  lemma {:induction false} StreamItems(env: Env, items: seq<Item>, st: State, k: seq<Token>, c: nat)
    requires (forall j :: j in items ==> HlslItem(env, j)) && ItemTail(k) && InHeaders(st)
    ensures ItemTail(PrintItems(items, k))
    ensures ItemOutcome(env, st, Resume(env, PrintItems(items, k), Live(st.slots), "}", c), TextItems(env, items, c),
                        BindsItems(env, items), SettleItems(env, items, st), Outputs(env, items), k, c + CallsIn(items))
    decreases items, 5
  {
    hide Resume, HlslItem, NoSpace, PrintItem, TextItem, BindsItem, Calls, SettleItem, Closers, OutputsSettle;
    PrintItemsTail(env, items, k);
    if items == [] {
      NothingSaid(st, Resume(env, k, Live(st.slots), "}", c));
    } else {
      hide ItemOutcome, Off;
      var s := PrintItems(items[1..], k);
      PrintItemsTail(env, items[1..], k);
      var n := c + Calls(items[0]);
      StreamItem(env, items[0], st, s, c);
      var o := SettleItem(env, items[0], st);
      if o.Some? {
        StreamItems(env, items[1..], o.value, k, n);
      }
      ItemsThen(env, st, Resume(env, PrintItems(items, k), Live(st.slots), "}", c), TextItem(env, items[0], c),
                BindsItem(env, items[0]), o, OutputsSettle(env, items[0]), s, n, TextItems(env, items[1..], n),
                BindsItems(env, items[1..]), SettleItems(env, items, st), Outputs(env, items), k, c + CallsIn(items));
    }
  }

  lemma {:induction false} ItemsThen(env: Env, st: State, q: Step, t1: seq<Token>, b1: seq<(string, nat)>,
                                     o1: Option<State>, exact1: bool, k1: seq<Token>, n: nat, t2: seq<Token>,
                                     b2: seq<(string, nat)>, o2: Option<State>, exact2: bool, k2: seq<Token>, m: nat)
    requires IsStream(k1) && IsStream(k2) && (exact2 ==> exact1)
    requires ItemOutcome(env, st, q, t1, b1, o1, exact1, k1, n) && (o1.None? ==> o2.None?)
    requires o1.Some?
        ==> ItemOutcome(env, o1.value, Resume(env, k1, Live(o1.value.slots), "}", n), t2, b2, o2, exact2, k2, m)
    ensures ItemOutcome(env, st, q, t1 + t2, b1 + b2, o2, exact2, k2, m)
  {
    hide Resume, Off;
    match o1
    case Some(gs) => ItemsCompose(env, st, q, t1, b1, gs, Resume(env, k1, Live(gs.slots), "}", n), t2, b2, o2, exact2,
                                  k2, m);
    case None =>
      if exact1 {
        OffMore(st.ahead + q.out, t1, t2, "}");
      }
  }

  lemma {:induction false} ItemsCompose(env: Env, st: State, q: Step, t1: seq<Token>, b1: seq<(string, nat)>, gs: State,
                                        r: Step, t2: seq<Token>, b2: seq<(string, nat)>, o: Option<State>, exact: bool,
                                        k: seq<Token>, n: nat)
    requires IsStream(k)
    requires Writes(st, q, t1, b1, gs, r) && ItemOutcome(env, gs, r, t2, b2, o, exact, k, n)
    ensures ItemOutcome(env, st, q, t1 + t2, b1 + b2, o, exact, k, n)
  {
    hide Resume, Off;
    match o
    case Some(hs) =>
      var z := Resume(env, k, Live(hs.slots), "}", n);
      assert t1 + gs.ahead + r.out == t1 + (gs.ahead + r.out);
      assert t1 + (t2 + hs.ahead + z.out) == t1 + t2 + hs.ahead + z.out;
      assert b1 + (b2 + z.binds) == b1 + b2 + z.binds;
    case None =>
      if exact {
        OffShift(t1, gs.ahead + r.out, t2, "}");
        assert t1 + gs.ahead + r.out == t1 + (gs.ahead + r.out);
      }
  }

  lemma {:induction false} StreamItem(env: Env, i: Item, st: State, k: seq<Token>, c: nat)
    requires HlslItem(env, i) && ItemTail(k) && InHeaders(st)
    ensures ItemTail(PrintItem(i, k))
    ensures ItemOutcome(env, st, Resume(env, PrintItem(i, k), Live(st.slots), "}", c), TextItem(env, i, c),
                        BindsItem(env, i), SettleItem(env, i, st), OutputsSettle(env, i), k, c + Calls(i))
    decreases i, 4
  {
    hide Resume, NoSpace, Text, Settle, Closers, ItemOutcome, Off;
    PrintItemTail(env, i, k);
    HeadersQuiet(st);
    match i
    case Plain(t) => StreamPlain(env, t, st, k, c);
    case Ex(e) => StreamEx(env, e, st, k, c);
    case Block(items) => StreamBlock(env, items, st, k, c);
    case Header(items) => StreamHeader(env, items, st, k, c);
    case SincosCall(x, s, d) => StreamSincos(env, x, s, d, st, k, c);
  }

  lemma {:induction false} StreamPlain(env: Env, t: Token, st: State, k: seq<Token>, c: nat)
    requires HlslItem(env, Plain(t)) && ItemTail(k) && st.ahead == []
    ensures IsStream([t] + k)
    ensures ItemOutcome(env, st, Resume(env, [t] + k, Live(st.slots), "}", c), TextItem(env, Plain(t), c), [], Some(st),
                        true, k, c)
    ensures ItemOutcome(env, st, Resume(env, [t] + k, Live(st.slots), "}", c), TextItem(env, Plain(t), c), [], Some(st),
                        false, k, c)
  {
    hide Resume;
    if t.kind.Name? {
      assert t == Ident(t.text);
      ResumeName(env, t.text, k, Live(st.slots), "}", c);
    } else {
      ResumeSymbol(env, t, k, Live(st.slots), "}", c);
    }
    Said(st, TextItem(env, Plain(t), c), [], st, Resume(env, k, Live(st.slots), "}", c));
  }

  lemma {:induction false} StreamEx(env: Env, e: Expr, st: State, k: seq<Token>, c: nat)
    requires WellFormed(e) && Hlsl(env, e) && ItemTail(k) && Valid(st)
    ensures Tail(Print(e, k))
    ensures ItemOutcome(env, st, Resume(env, Print(e, k), Live(st.slots), "}", c), Text(env, e), Binds(env, e),
                        Settle(env, e, false, st, "}"), true, k, c)
  {
    hide Resume, Text, Settle, Closers, Hlsl, WellFormed, Print;
    StreamExpr(env, e, false, st, k, "}", c);
  }

  // ---- blocks ----

  lemma {:induction false} ResumeBrace(env: Env, s: seq<Token>, fs: seq<Frame>, c: nat)
    requires IsStream(s)
    ensures var q := Scan(env, s, "}", c);
            Resume(env, [LBRACE] + s, fs, "}", c)
            == After([LBRACE] + q.out + Emit(q.rest[0]), q.binds,
                     Leave(env, Advance(env, q.rest, Top(fs, "}"), q.next), fs, "}"))
  {
    hide Scan, Leave, Contents, Advance;
    BraceOpens(env, s, c);
    ScanBracket(env, [LBRACE] + s, Top(fs, "}"), c);
    var q := Scan(env, s, "}", c);
    LeaveAfter(env, [LBRACE] + q.out + Emit(q.rest[0]), q.binds, Advance(env, q.rest, Top(fs, "}"), q.next), fs, "}");
  }

  lemma {:induction false} BraceOpens(env: Env, t: seq<Token>, c: nat)
    requires IsStream(t)
    ensures IsStream([LBRACE] + t) && Contents(env, [LBRACE] + t, "}", c) == Put([LBRACE], Scan(env, t, "}", c))
  {
    assert ([LBRACE] + t)[1..] == t;
  }

  lemma {:induction false} AdvanceOver(env: Env, t: Token, k: seq<Token>, fs: seq<Frame>, c: nat)
    requires IsStream(k) && !t.kind.End?
    ensures Leave(env, Advance(env, [t] + k, Top(fs, "}"), c), fs, "}") == Resume(env, k, fs, "}", c)
  {
    assert ([t] + k)[1..] == k;
  }

  /** The contents of a block, up to its closing brace. */
  lemma {:induction false} StreamContents(env: Env, items: seq<Item>, k: seq<Token>, c: nat)
    requires (forall j :: j in items ==> HlslItem(env, j)) && Tail(k)
    ensures ItemTail(PrintItems(items, [RBRACE] + k))
    ensures var q := Scan(env, PrintItems(items, [RBRACE] + k), "}", c);
            && (SettleItems(env, items, START).Some? ==>
                  q == Step([RBRACE] + k, TextItems(env, items, c), c + CallsIn(items), BindsItems(env, items)))
            && (SettleItems(env, items, START).None? && Outputs(env, items) ==>
                Off(q.out, TextItems(env, items, c), "}"))
    decreases items, 6
  {
    hide Scan, HlslItem, PrintItems, TextItems, BindsItems, SettleItems, OutputsSettle, Off;
    ConsItemTail(RBRACE, k);
    StartValid();
    StreamItems(env, items, START, [RBRACE] + k, c);
    var s := PrintItems(items, [RBRACE] + k);
    var q := Scan(env, s, "}", c);
    assert q == Resume(env, s, [], "}", c) && [] + q.out == q.out;
    StopsAt(env, RBRACE, k, c + CallsIn(items));
    if SettleItems(env, items, START).Some? {
      var gs := SettleItems(env, items, START).value;
      assert gs.slots == [] && gs.ahead == [];
      var t := TextItems(env, items, c);
      assert t + [] + [] == t && BindsItems(env, items) + [] == BindsItems(env, items);
    }
  }

  lemma {:induction false} StreamBlock(env: Env, items: seq<Item>, st: State, k: seq<Token>, c: nat)
    requires (forall j :: j in items ==> HlslItem(env, j)) && ItemTail(k) && InHeaders(st) && st.ahead == []
    ensures IsStream(PrintItem(Block(items), k))
    ensures ItemOutcome(env, st, Resume(env, PrintItem(Block(items), k), Live(st.slots), "}", c),
                        TextItem(env, Block(items), c), BindsItem(env, Block(items)), SettleItem(env, Block(items), st),
                        OutputsSettle(env, Block(items)), k, c + Calls(Block(items)))
    decreases items, 7
  {
    hide Scan, Leave, HlslItem, PrintItems, TextItems, BindsItems, SettleItems, Off, Advance;
    StreamContents(env, items, k, c);
    var s := PrintItems(items, [RBRACE] + k);
    ResumeBrace(env, s, Live(st.slots), c);
    var q, r := Scan(env, s, "}", c), Resume(env, k, Live(st.slots), "}", c + CallsIn(items));
    if SettleItems(env, items, START).Some? {
      AdvanceOver(env, RBRACE, k, Live(st.slots), c + CallsIn(items));
      Said(st, TextItem(env, Block(items), c), BindsItems(env, items), st, r);
    } else if OutputsSettle(env, Block(items)) {
      var z := Leave(env, Advance(env, q.rest, Top(Live(st.slots), "}"), q.next), Live(st.slots), "}");
      var t := TextItems(env, items, c);
      OffShift([LBRACE], q.out, t, "}");
      OffMore([LBRACE] + q.out, [LBRACE] + t, [RBRACE], "}");
      OffLonger([LBRACE] + q.out, Emit(q.rest[0]) + z.out, [LBRACE] + t + [RBRACE], "}");
      assert [] + ([LBRACE] + q.out + Emit(q.rest[0]) + z.out) == [LBRACE] + q.out + (Emit(q.rest[0]) + z.out);
    }
  }

  /** Past a place where the text is off, it stays off, unless a comma was awaited. */
  lemma {:induction false} OffLonger(a: seq<Token>, z: seq<Token>, t: seq<Token>, end: string)
    requires Off(a, t, end) && end != ","
    ensures Off(a + z, t, end)
  {
    var i: nat :| OffAt(a, t, end, i);
    assert (a + z)[..i] == a[..i];
    assert OffAt(a + z, t, end, i);
  }

  // ---- headers ----

  lemma {:induction false} StreamHeader(env: Env, items: seq<Item>, st: State, k: seq<Token>, c: nat)
    requires (forall j :: j in items ==> HlslItem(env, j)) && ItemTail(k) && InHeaders(st) && st.ahead == []
    ensures IsStream(PrintItem(Header(items), k))
    ensures ItemOutcome(env, st, Resume(env, PrintItem(Header(items), k), Live(st.slots), "}", c),
                        TextItem(env, Header(items), c), BindsItem(env, Header(items)),
                        SettleItem(env, Header(items), st), OutputsSettle(env, Header(items)), k,
                        c + Calls(Header(items)))
    decreases items, 7
  {
    hide Resume, HlslItem, PrintItems, TextItems, BindsItems, SettleItems, Off, Closers, Shut, ItemOutcome;
    ConsItemTail(RPAREN, k);
    var push := Push(st, Bracket, false);
    var n := c + CallsIn(items);
    StreamItems(env, items, push, [RPAREN] + k, c);
    var s := PrintItems(items, [RPAREN] + k);
    ResumeOpen(env, s, Live(st.slots), "}", c);
    var q, r := Resume(env, [LPAREN] + s, Live(st.slots), "}", c), Resume(env, s, Live(push.slots), "}", c);
    Said(st, [LPAREN], [], push, r);
    var o, t, b := SettleItems(env, items, push), TextItems(env, items, c), BindsItems(env, items);
    ItemsCompose(env, st, q, [LPAREN], [], push, r, t, b, o, Outputs(env, items), [RPAREN] + k, n);
    if o.Some? {
      Shuts(env, o.value, k, "}", n);
      ItemOutcomeOf(env, o.value, Resume(env, [RPAREN] + k, Live(o.value.slots), "}", n), Close(Bracket),
                    Shut(o.value, "}"), k, n, Outputs(env, items));
    }
    ItemsThen(env, st, q, [LPAREN] + t, [] + b, o, Outputs(env, items), [RPAREN] + k, n, Close(Bracket), [],
              ShutAfter(o, "}"), Outputs(env, items), k, n);
    assert [] + b + [] == b;
  }

  lemma {:induction false} ItemOutcomeOf(env: Env, st: State, q: Step, t: seq<Token>, o: Option<State>, k: seq<Token>,
                                         n: nat, exact: bool)
    requires IsStream(k) && Outcome(env, st, q, t, [], o, k, "}", n)
    ensures ItemOutcome(env, st, q, t, [], o, exact, k, n)
  {
    hide Resume, Off;
  }

  // ---- sincos ----

  /** A sincos call whose arguments ended where they should. */
  lemma {:induction false} SincosStep(env: Env, s1: seq<Token>, s2: seq<Token>, s3: seq<Token>, k: seq<Token>,
                                      fs: seq<Frame>, x: Step, y: Step, z: Step, c: nat)
    requires Tail(s1) && Tail(s2) && Tail(s3) && Tail(k) && !s2[0].kind.End? && !s3[0].kind.End?
    requires Scan(env, s1, ",", c + 1) == x && x.rest == [COMMA] + s2 && x.next == c + 1
    requires Contents(env, s2, ",", c + 1) == y && y.rest == [COMMA] + s3 && y.next == c + 1
    requires Contents(env, s3, ")", c + 1) == z && z.rest == [RPAREN] + k && z.next == c + 1
    ensures Resume(env, [Ident("sincos")] + ([LPAREN] + s1), fs, "}", c)
         == After(SincosOut(SincosVar(c), x.out, y.out, z.out), x.binds + y.binds + z.binds,
                  Resume(env, k, fs, "}", c + 1))
  {
    hide Scan, Contents, NextToken, Intrinsic, SincosVar, AssignOf, Leave;
    var s := [Ident("sincos")] + ([LPAREN] + s1);
    CallStarts(env, "sincos", s1, ",", c + 1);
    NextOfCons(COMMA, s2);
    NextOfCons(COMMA, s3);
    IntrinsicIs(env, s, c);
    SincosJoin(SincosVar(c), x.out, y.out, z.out);
    var a := Step([RPAREN] + k, SincosOut(SincosVar(c), x.out, y.out, z.out), c + 1, x.binds + y.binds + z.binds);
    assert Intrinsic(env, s, c) == Sincos(env, s, c) == Attempt(true, a);
    ResumeAttempt(env, "sincos", [LPAREN] + s1, fs, "}", c, a);
    AdvanceOver(env, RPAREN, k, fs, c + 1);
  }

  lemma {:induction false} SincosJoin(v: Token, x: seq<Token>, y: seq<Token>, z: seq<Token>)
    ensures [Ident("float"), BLANK, v, BLANK, EQUALS, BLANK] + ([LPAREN] + x) + [RPAREN, SEMICOLON, BLANK]
            + y + AssignOf("sin", v) + [SEMICOLON, BLANK] + z + AssignOf("cos", v) == SincosOut(v, x, y, z)
  {
    SincosHead(v, x);
    var h := AngleText(v, x);
    assert h + y + AssignOf("sin", v) + [SEMICOLON, BLANK] == h + (y + AssignOf("sin", v) + [SEMICOLON, BLANK]);
  }

  lemma {:induction false} SincosHead(v: Token, x: seq<Token>)
    ensures [Ident("float"), BLANK, v, BLANK, EQUALS, BLANK] + ([LPAREN] + x) + [RPAREN, SEMICOLON, BLANK] ==
            AngleText(v, x)
  {
    assert [Ident("float"), BLANK, v, BLANK, EQUALS, BLANK] + ([LPAREN] + x)
        == [Ident("float"), BLANK, v, BLANK, EQUALS, BLANK, LPAREN] + x;
  }

  /** Whatever becomes of the call, its first argument is written. */
  lemma {:induction false} SincosStarts(env: Env, s1: seq<Token>, end: string, c: nat)
    requires Tail(s1) && end in ENDS
    ensures var x := Scan(env, s1, ",", c + 1);
            AngleText(SincosVar(c), x.out) <= Scan(env, [Ident("sincos")] + ([LPAREN] + s1), end, c).out
  {
    hide Contents, NextToken, SincosVar, AssignOf, Advance;
    var s := [Ident("sincos")] + ([LPAREN] + s1);
    var w := WriteName(env, s, c);
    assert AngleText(SincosVar(c), Scan(env, s1, ",", c + 1).out) <= w.out by {
      hide Scan;
      CallStarts(env, "sincos", s1, ",", c + 1);
      IntrinsicIs(env, s, c);
      SincosHead(SincosVar(c), Scan(env, s1, ",", c + 1).out);
      SincosWritten(env, s, c);
    }
    assert Scan(env, s, end, c).out == w.out + Advance(env, w.rest, end, w.next).out;
  }

  lemma {:induction false} SincosWritten(env: Env, s: seq<Token>, c: nat)
    requires IsStream(s) && s[0] == Ident("sincos") && NextToken(s)[0] == LPAREN
    ensures var x := Contents(env, NextToken(s), ",", c + 1);
            [Ident("float"), BLANK, SincosVar(c), BLANK, EQUALS, BLANK] + x.out +
              [RPAREN, SEMICOLON, BLANK] <= WriteName(env, s, c).out
  {
    hide Contents, NextToken, SincosVar, AssignOf;
    var a := Sincos(env, s, c);
    SincosIsName(env, s, c);
    var v := SincosVar(c);
    var x := Contents(env, NextToken(s), ",", c + 1);
    var o := [Ident("float"), BLANK, v, BLANK, EQUALS, BLANK] + x.out + [RPAREN, SEMICOLON, BLANK];
    var y := Contents(env, NextToken(x.rest), ",", x.next);
    var z := Contents(env, NextToken(y.rest), ")", y.next);
    StaysInFront(o, y.out, AssignOf("sin", v), [SEMICOLON, BLANK], z.out, AssignOf("cos", v), s[0]);
  }

  lemma {:induction false} SincosIsName(env: Env, s: seq<Token>, c: nat)
    requires IsStream(s) && s[0] == Ident("sincos")
    ensures var a := Sincos(env, s, c);
            WriteName(env, s, c).out == if a.written then a.step.out else a.step.out + [s[0]]
  {
    hide Sincos;
  }

  lemma {:induction false} StaysInFront(o: seq<Token>, a: seq<Token>, b: seq<Token>, c: seq<Token>, d: seq<Token>,
                                        e: seq<Token>, t: Token)
    ensures o <= o + [t] && o <= o + a + b && o + a + b <= o + a + b + c && o + a + b + c <= o + a + b + c + [t]
    ensures o + a + b + c <= o + a + b + c + d + e
  {
    assert o + a + b + c + d + e == o + a + b + c + (d + e);
  }

  /** Once the first argument ended where it should, so is the second. */
  lemma {:induction false} SincosGoesOn(env: Env, s1: seq<Token>, s2: seq<Token>, x: Step, end: string, c: nat)
    requires Tail(s1) && Tail(s2) && !s2[0].kind.End? && end in ENDS
    requires Scan(env, s1, ",", c + 1) == x && x.rest == [COMMA] + s2 && x.next == c + 1
    ensures var y := Contents(env, s2, ",", c + 1);
            AngleText(SincosVar(c), x.out) + y.out + AssignOf("sin", SincosVar(c))
            <= Scan(env, [Ident("sincos")] + ([LPAREN] + s1), end, c).out
  {
    hide Contents, NextToken, SincosVar, AssignOf, Advance;
    var s := [Ident("sincos")] + ([LPAREN] + s1);
    var w := WriteName(env, s, c);
    assert AngleText(SincosVar(c), x.out) + Contents(env, s2, ",", c + 1).out +
           AssignOf("sin", SincosVar(c)) <= w.out by {
      hide Scan;
      CallStarts(env, "sincos", s1, ",", c + 1);
      NextOfCons(COMMA, s2);
      IntrinsicIs(env, s, c);
      SincosHead(SincosVar(c), x.out);
      SincosWrittenOn(env, s, c);
    }
    assert Scan(env, s, end, c).out == w.out + Advance(env, w.rest, end, w.next).out;
  }

  lemma {:induction false} SincosWrittenOn(env: Env, s: seq<Token>, c: nat)
    requires IsStream(s) && s[0] == Ident("sincos") && NextToken(s)[0] == LPAREN
    ensures var x := Contents(env, NextToken(s), ",", c + 1);
            var s2 := NextToken(x.rest);
            var y := Contents(env, s2, ",", x.next);
            !s2[0].kind.End? ==>
              [Ident("float"), BLANK, SincosVar(c), BLANK, EQUALS, BLANK] + x.out + [RPAREN, SEMICOLON, BLANK] + y.out
                + AssignOf("sin", SincosVar(c)) <= WriteName(env, s, c).out
  {
    hide Contents, NextToken, SincosVar, AssignOf;
    var a := Sincos(env, s, c);
    SincosIsName(env, s, c);
    var v := SincosVar(c);
    var x := Contents(env, NextToken(s), ",", c + 1);
    var o := [Ident("float"), BLANK, v, BLANK, EQUALS, BLANK] + x.out + [RPAREN, SEMICOLON, BLANK];
    var y := Contents(env, NextToken(x.rest), ",", x.next);
    var z := Contents(env, NextToken(y.rest), ")", y.next);
    StaysInFront(o, y.out, AssignOf("sin", v), [SEMICOLON, BLANK], z.out, AssignOf("cos", v), s[0]);
  }

  /** The third argument, which a closing parenthesis ends. */
  lemma {:induction false} StreamLast(env: Env, d: Expr, k: seq<Token>, c: nat)
    requires WellFormed(d) && Hlsl(env, d) && Tail(k)
    ensures Tail(Print(d, [RPAREN] + k))
    ensures SettlesLast(env, d)
        ==> Contents(env, Print(d, [RPAREN] + k), ")", c) == Step([RPAREN] + k, Text(env, d), c, Binds(env, d))
  {
    hide Contents, Scan, Print, Text, Binds, Hlsl, WellFormed, Settle;
    TailCons(RPAREN, k);
    StartValid();
    StreamExpr(env, d, true, START, [RPAREN] + k, ")", c);
    var q := Contents(env, Print(d, [RPAREN] + k), ")", c);
    assert q == Begin(env, Print(d, [RPAREN] + k), [], ")", c) && [] + q.out == q.out;
    StopsAt(env, RPAREN, k, c);
    if SettlesLast(env, d) {
      var gs := Settle(env, d, true, START, ")").value;
      assert gs.slots == [] && gs.ahead == [];
      assert Text(env, d) + [] + [] == Text(env, d) && Binds(env, d) + [] == Binds(env, d);
    }
  }

  lemma {:induction false} StreamSincos(env: Env, x: Expr, s: Expr, d: Expr, st: State, k: seq<Token>, c: nat)
    requires HlslItem(env, SincosCall(x, s, d)) && ItemTail(k) && InHeaders(st) && st.ahead == []
    requires ItemTail(PrintItem(SincosCall(x, s, d), k))
    ensures var i := SincosCall(x, s, d);
            ItemOutcome(env, st, Resume(env, PrintItem(i, k), Live(st.slots), "}", c), TextItem(env, i, c),
                        BindsItem(env, i), SettleItem(env, i, st), OutputsSettle(env, i), k, c + 1)
  {
    hide Scan, Contents, Print, Text, Binds, Hlsl, WellFormed, Settles, SettlesLast, Leave, SincosOut, Off, SincosVar;
    var s3 := Print(d, [RPAREN] + k);
    var s2 := Print(s, [COMMA] + s3);
    var s1 := Print(x, [COMMA] + s2);
    StreamLast(env, d, k, c + 1);
    StreamRegion(env, s, true, s3, c + 1);
    StreamRegion(env, x, false, s2, c + 1);
    PrintFirst(env, d, [RPAREN] + k);
    PrintFirst(env, s, [COMMA] + s3);
    StartsNotEnd(s2[0]);
    StartsNotEnd(s3[0]);
    PrintCall3("sincos", x, s, d, k);
    var i, v := SincosCall(x, s, d), SincosVar(c);
    var qx, qs, qd := Scan(env, s1, ",", c + 1), Contents(env, s2, ",", c + 1), Contents(env, s3, ")", c + 1);
    var q := Resume(env, PrintItem(i, k), Live(st.slots), "}", c);
    if SettleItem(env, i, st).Some? {
      SincosStep(env, s1, s2, s3, k, Live(st.slots), qx, qs, qd, c);
      Said(st, TextItem(env, i, c), BindsItem(env, i), st, Resume(env, k, Live(st.slots), "}", c + 1));
    } else if OutputsSettle(env, i) {
      var full := Scan(env, PrintItem(i, k), Top(Live(st.slots), "}"), c);
      LeavePrefix(env, full, Live(st.slots), "}");
      if !Settles(env, x, false) {
        SincosStarts(env, s1, Top(Live(st.slots), "}"), c);
        SincosOffFirst(v, qx.out, Text(env, x), Text(env, s), Text(env, d), q.out);
      } else {
        SincosGoesOn(env, s1, s2, qx, Top(Live(st.slots), "}"), c);
        SincosOffSecond(v, Text(env, x), qs.out, Text(env, s), Text(env, d), q.out);
      }
      assert [] + q.out == q.out;
    }
  }

  lemma {:induction false} StartsNotEnd(t: Token)
    requires StartsExpr(t)
    ensures !t.kind.End?
  {
  }

  /** What has been written stays in front. */
  lemma {:induction false} LeavePrefix(env: Env, q: Step, fs: seq<Frame>, end: string)
    requires IsStream(q.rest)
    ensures q.out <= Leave(env, q, fs, end).out
  {
    hide Advance;
  }

  lemma {:induction false} SincosOffFirst(v: Token, a: seq<Token>, x: seq<Token>, s: seq<Token>, d: seq<Token>,
                                          out: seq<Token>)
    requires Off(a, x, ",") && AngleText(v, a) <= out
    ensures Off(out, SincosOut(v, x, s, d), "}")
  {
    hide Off;
    var h, m := [Ident("float"), BLANK, v, BLANK, EQUALS, BLANK, LPAREN], [RPAREN, SEMICOLON, BLANK];
    var z := m + out[|AngleText(v, a)|..];
    assert out == AngleText(v, a) + out[|AngleText(v, a)|..];
    assert h + a + m + out[|AngleText(v, a)|..] == h + a + z;
    assert SincosOut(v, x, s, d) == h + x + (m + SineText(v, s) + d + AssignOf("cos", v));
    OffRegion(h, a, x, z, m + SineText(v, s) + d + AssignOf("cos", v), "}");
  }

  lemma {:induction false} SincosOffSecond(v: Token, x: seq<Token>, a: seq<Token>, s: seq<Token>, d: seq<Token>,
                                           out: seq<Token>)
    requires Off(a, s, ",") && AngleText(v, x) + a + AssignOf("sin", v) <= out
    ensures Off(out, SincosOut(v, x, s, d), "}")
  {
    hide Off, AngleText;
    var h, m := AngleText(v, x), AssignOf("sin", v);
    var rest := out[|h + a + m|..];
    assert out == h + a + m + rest && h + a + m + rest == h + a + (m + rest);
    var u := m + [SEMICOLON, BLANK] + d + AssignOf("cos", v);
    assert h + SineText(v, s) + d + AssignOf("cos", v) == h + s + u;
    OffRegion(h, a, s, m + rest, u, "}");
  }

  /** The sincos of three clean arguments, as the statement it is, comes out right if and only if the third does
      not begin with a parenthesis. */
  lemma {:induction false} SincosExact(env: Env, x: Expr, s: Expr, d: Expr, k: seq<Token>, c: nat)
    requires Clean(env, x) && Clean(env, s) && Clean(env, d) && ItemTail(k)
    ensures var i := SincosCall(x, s, d);
            && ItemTail(PrintItem(i, k))
            && var q, r := Scan(env, PrintItem(i, k), "}", c), Scan(env, k, "}", c + 1);
               (q.rest == r.rest && q.out == TextItem(env, i, c) + r.out) <==> !LeadParen(d)
  {
    var i := SincosCall(x, s, d);
    hide Hlsl, WellFormed, Guarded, Print, Text, Scan, Settle, SincosOut, Off, Slip;
    StartValid();
    PrintItemTail(env, i, k);
    var q, r := Scan(env, PrintItem(i, k), "}", c), Scan(env, k, "}", c + 1);
    if LeadParen(d) {
      SincosOffThird(env, x, s, d, k, c);
      OffDiffers(q.out, TextItem(env, i, c), r.out, "}");
    } else {
      SincosRight(env, x, s, d, k, c);
    }
  }

  lemma {:induction false} SincosRight(env: Env, x: Expr, s: Expr, d: Expr, k: seq<Token>, c: nat)
    requires Clean(env, x) && Clean(env, s) && Clean(env, d) && ItemTail(k) && !LeadParen(d)
    requires ItemTail(PrintItem(SincosCall(x, s, d), k))
    ensures var i := SincosCall(x, s, d);
            var q, r := Scan(env, PrintItem(i, k), "}", c), Scan(env, k, "}", c + 1);
            q.rest == r.rest && q.out == TextItem(env, i, c) + r.out
  {
    var i := SincosCall(x, s, d);
    hide Hlsl, WellFormed, Guarded, Print, Text, Scan, Settle, SincosOut, Off, Slip;
    StartValid();
    GuardedSettles(env, x, false, START, ",");
    GuardedSecond(env, s);
    GuardedSettles(env, d, true, START, ")");
    StreamSincos(env, x, s, d, START, k, c);
    var q, r := Scan(env, PrintItem(i, k), "}", c), Scan(env, k, "}", c + 1);
    assert [] + q.out == q.out && TextItem(env, i, c) + [] + r.out == TextItem(env, i, c) + r.out;
  }

  /** A third argument that begins with a parenthesis is cut off behind it. */
  lemma {:induction false} SincosOffThird(env: Env, x: Expr, s: Expr, d: Expr, k: seq<Token>, c: nat)
    requires Clean(env, x) && Clean(env, s) && Clean(env, d) && ItemTail(k) && LeadParen(d)
    requires IsStream(PrintItem(SincosCall(x, s, d), k))
    ensures Off(Scan(env, PrintItem(SincosCall(x, s, d), k), "}", c).out, TextItem(env, SincosCall(x, s, d), c), "}")
  {
    hide Hlsl, WellFormed, Guarded, Print, Text, Scan, Contents, Settle, SincosOut, Off, Binds, SincosVar, NoSpace;
    StartValid();
    GuardedSettles(env, x, false, START, ",");
    GuardedSecond(env, s);
    var p, m := LeadOf(env, d), LeadRest(d, [RPAREN] + k);
    TailCons(RPAREN, k);
    LeadPrints(env, d, [RPAREN] + k, "}");
    LeadText(env, d);
    TailCons(RPAREN, m);
    var s3 := [LPAREN] + Print(p, [RPAREN] + m);
    SettledExact(env, p, [RPAREN] + m, ")", c + 1);
    GuardedSettles(env, p, false, START, ")");
    var sp := Print(p, [RPAREN] + m);
    StopsAt(env, RPAREN, m, c + 1);
    ResumeAtRoot(env, [RPAREN] + m, ")", c + 1);
    ContentsOpen(env, sp, ")", c + 1);
    TailCons(LPAREN, sp);
    StreamRegion(env, s, true, s3, c + 1);
    var s2 := Print(s, [COMMA] + s3);
    StreamRegion(env, x, false, s2, c + 1);
    var s1 := Print(x, [COMMA] + s2);
    PrintFirst(env, s, [COMMA] + s3);
    StartsNotEnd(s2[0]);
    PrintCall3("sincos", x, s, d, k);
    var qx, qs, qd := Scan(env, s1, ",", c + 1), Contents(env, s2, ",", c + 1), Contents(env, s3, ")", c + 1);
    assert qd.out == [LPAREN] + Text(env, p) by {
      assert Text(env, p) + [] == Text(env, p);
    }
    SincosStep(env, s1, s2, s3, m, [], qx, qs, qd, c);
    var q := Scan(env, PrintItem(SincosCall(x, s, d), k), "}", c);
    ResumeAtRoot(env, PrintItem(SincosCall(x, s, d), k), "}", c);
    ThirdOff(SincosVar(c), Text(env, x), Text(env, s), Text(env, p), TextRest(env, d),
             Resume(env, m, [], "}", c + 1).out);
  }

  lemma {:induction false} ResumeAtRoot(env: Env, s: seq<Token>, end: string, c: nat)
    requires IsStream(s)
    ensures Resume(env, s, [], end, c) == Scan(env, s, end, c)
  {
  }

  lemma {:induction false} ThirdOff(v: Token, x: seq<Token>, s: seq<Token>, p: seq<Token>, w: seq<Token>, z: seq<Token>)
    ensures Off(SincosOut(v, x, s, [LPAREN] + p) + z, SincosOut(v, x, s, [LPAREN] + p + [RPAREN] + w), "}")
  {
    var h, m := AngleText(v, x) + SineText(v, s), AssignOf("cos", v);
    var a, t := SincosOut(v, x, s, [LPAREN] + p) + z, SincosOut(v, x, s, [LPAREN] + p + [RPAREN] + w);
    var g := h + ([LPAREN] + p);
    assert a == g + (m + z) && t == g + ([RPAREN] + w + m);
    assert a[..|g|] == g == t[..|g|];
    assert OffAt(a, t, "}", |g|);
  }

  // An expression that begins with a parenthesis, taken apart behind that parenthesis.

  function LeadOf(env: Env, e: Expr): Expr
    requires Hlsl(env, e) && LeadParen(e)
  {
    if e.Paren? then e.inner else LedContinues(env, e); LeadOf(env, Leftmost(e))
  }

  function LeadRest(e: Expr, k: seq<Token>): seq<Token>
    requires LeadParen(e)
  {
    if e.Paren? || e.Method? then k else LeadRest(Leftmost(e), Continuation(e, k))
  }

  function TextRest(env: Env, e: Expr): seq<Token>
    requires LeadParen(e)
  {
    if e.Paren? || e.Method? then [] else TextRest(env, Leftmost(e)) + TextLater(env, e)
  }

  lemma {:induction false} LeadPrints(env: Env, e: Expr, k: seq<Token>, end: string)
    requires Fits(env, e, k, end) && Guarded(env, e) && LeadParen(e)
    ensures Clean(env, LeadOf(env, e)) && Tail(LeadRest(e, k))
    ensures Print(e, k) == [LPAREN] + Print(LeadOf(env, e), [RPAREN] + LeadRest(e, k))
    decreases e
  {
    if !e.Paren? {
      LedContinues(env, e);
      LeftFits(env, e, k, end);
      ContinuesPrint(env, e, k);
      LeadPrints(env, Leftmost(e), Continuation(e, k), end);
    }
  }

  lemma {:induction false} LeadText(env: Env, e: Expr)
    requires Hlsl(env, e) && LeadParen(e)
    ensures Text(env, e) == [LPAREN] + Text(env, LeadOf(env, e)) + [RPAREN] + TextRest(env, e)
    decreases e
  {
    if !e.Paren? {
      LedContinues(env, e);
      LeadText(env, Leftmost(e));
    }
  }

  // ---- blanks aside, the text is the printing of the translated items ----

  /** A blank in the middle disappears. */
  lemma {:induction false} StripGap(a: seq<Token>, b: seq<Token>)
    requires NoSpace(a)
    ensures Strip(a + [BLANK] + b) == a + Strip(b)
    ensures Strip(a + [BLANK]) == a
  {
    assert Strip([BLANK]) == [];
    assert Strip([BLANK] + b) == Strip(b);
    hide Strip;
    StripPrefix(a, [BLANK]);
    StripPrefix(a, [BLANK] + b);
    assert a + [BLANK] + b == a + ([BLANK] + b);
  }

  lemma {:induction false} StripDeclare(v: Token)
    requires !IsSpace(v)
    ensures Strip([Ident("float"), BLANK, v, BLANK, EQUALS, BLANK, LPAREN]) == [Ident("float"), v, EQUALS, LPAREN]
  {
    hide Strip;
    StripGap([EQUALS], [LPAREN]);
    StripGap([v], [EQUALS] + [BLANK] + [LPAREN]);
    StripGap([Ident("float")], [v] + [BLANK] + ([EQUALS] + [BLANK] + [LPAREN]));
    StripNoSpace([LPAREN]);
    assert [Ident("float"), BLANK, v, BLANK, EQUALS, BLANK, LPAREN]
        == [Ident("float")] + [BLANK] + ([v] + [BLANK] + ([EQUALS] + [BLANK] + [LPAREN]));
  }

  lemma {:induction false} StripAssign(f: string, v: Token)
    requires !IsSpace(v)
    ensures Strip(AssignOf(f, v)) == [EQUALS, Ident(f), LPAREN, v, RPAREN]
  {
    hide Strip;
    var e := [Ident(f), LPAREN, v, RPAREN];
    StripGap([EQUALS], e);
    StripGap([], [EQUALS] + [BLANK] + e);
    StripNoSpace(e);
    assert AssignOf(f, v) == [] + [BLANK] + ([EQUALS] + [BLANK] + e);
  }

  lemma {:induction false} StripPieces(v: Token)
    requires v.kind.Name?
    ensures Strip([Ident("float"), BLANK, v, BLANK, EQUALS, BLANK, LPAREN]) == [Ident("float"), v, EQUALS, LPAREN]
    ensures Strip([RPAREN, SEMICOLON, BLANK]) == [RPAREN, SEMICOLON]
    ensures Strip(AssignOf("sin", v)) == [EQUALS, Ident("sin"), LPAREN, v, RPAREN]
    ensures Strip(AssignOf("cos", v)) == [EQUALS, Ident("cos"), LPAREN, v, RPAREN]
    ensures Strip([SEMICOLON, BLANK]) == [SEMICOLON]
  {
    hide Strip, AssignOf;
    StripDeclare(v);
    StripGap([RPAREN, SEMICOLON], []);
    assert [RPAREN, SEMICOLON, BLANK] == [RPAREN, SEMICOLON] + [BLANK];
    StripGap([SEMICOLON], []);
    assert [SEMICOLON, BLANK] == [SEMICOLON] + [BLANK];
    StripAssign("sin", v);
    StripAssign("cos", v);
  }

  /** The three statements a sincos call becomes, printed. */
  lemma {:induction false} SincosItems(env: Env, x: Expr, s: Expr, d: Expr, c: nat, r: seq<Token>)
    ensures PrintItems(TranslateItem(env, SincosCall(x, s, d), c), r)
         == (var v := SincosVar(c);
             [Ident("float"), v, EQUALS, LPAREN] + Print(Translate(env, x), [RPAREN] + ([SEMICOLON] +
               Print(Translate(env, s), [EQUALS, Ident("sin"), LPAREN, v, RPAREN] + ([SEMICOLON] +
                 Print(Translate(env, d), [EQUALS, Ident("cos"), LPAREN, v, RPAREN] + r))))))
  {
    hide Translate, SincosVar;
    var v := SincosVar(c);
    var tx, ts, td := Translate(env, x), Translate(env, s), Translate(env, d);
    var l3 := [Ex(td), Plain(EQUALS), Ex(Call("cos", [Atom(v)]))];
    var l2 := [Ex(ts), Plain(EQUALS), Ex(Call("sin", [Atom(v)])), Plain(SEMICOLON)];
    var l1 := [Plain(Ident("float")), Plain(v), Plain(EQUALS), Ex(Paren(tx)), Plain(SEMICOLON)];
    assert TranslateItem(env, SincosCall(x, s, d), c) == l1 + (l2 + l3);
    PrintItemsConcat(l1, l2 + l3, r);
    PrintItemsConcat(l2, l3, r);
    PrintAssign(td, "cos", v, [], r);
    PrintAssign(ts, "sin", v, [Plain(SEMICOLON)], PrintItems(l3, r));
    assert l2 == [Ex(ts), Plain(EQUALS), Ex(Call("sin", [Atom(v)]))] + [Plain(SEMICOLON)];
    assert l3 + [] == l3;
    var m := PrintItems(l2, PrintItems(l3, r));
    assert [Plain(SEMICOLON)][1..] == [];
    PrintDeclare(v, tx, m);
  }

  lemma {:induction false} PrintDeclare(v: Token, x: Expr, m: seq<Token>)
    ensures PrintItems([Plain(Ident("float")), Plain(v), Plain(EQUALS), Ex(Paren(x)), Plain(SEMICOLON)], m)
         == [Ident("float"), v, EQUALS, LPAREN] + Print(x, [RPAREN] + ([SEMICOLON] + m))
  {
    var l := [Plain(Ident("float")), Plain(v), Plain(EQUALS), Ex(Paren(x)), Plain(SEMICOLON)];
    assert l[1..] == [Plain(v), Plain(EQUALS), Ex(Paren(x)), Plain(SEMICOLON)];
    assert l[1..][1..] == [Plain(EQUALS), Ex(Paren(x)), Plain(SEMICOLON)];
    assert l[1..][1..][1..] == [Ex(Paren(x)), Plain(SEMICOLON)];
    assert l[1..][1..][1..][1..] == [Plain(SEMICOLON)];
    assert [Plain(SEMICOLON)][1..] == [];
    assert PrintItems([Plain(SEMICOLON)], m) == [SEMICOLON] + m;
    var p := Print(Paren(x), [SEMICOLON] + m);
    assert p == [LPAREN] + Print(x, [RPAREN] + ([SEMICOLON] + m));
    assert PrintItems(l[1..][1..][1..], m) == p;
    assert PrintItems(l[1..][1..], m) == [EQUALS] + p;
    assert PrintItems(l[1..], m) == [v] + ([EQUALS] + p);
    assert PrintItems(l, m) == [Ident("float")] + ([v] + ([EQUALS] + p));
  }

  lemma {:induction false} PrintAssign(e: Expr, f: string, v: Token, tail: seq<Item>, r: seq<Token>)
    ensures PrintItems([Ex(e), Plain(EQUALS), Ex(Call(f, [Atom(v)]))] + tail, r)
         == Print(e, [EQUALS, Ident(f), LPAREN, v, RPAREN] + PrintItems(tail, r))
  {
    var l := [Ex(e), Plain(EQUALS), Ex(Call(f, [Atom(v)]))];
    var m := PrintItems(tail, r);
    PrintItemsConcat(l, tail, r);
    assert l[1..] == [Plain(EQUALS), Ex(Call(f, [Atom(v)]))];
    assert l[1..][1..] == [Ex(Call(f, [Atom(v)]))];
    assert l[1..][1..][1..] == [];
    PrintCall1(f, Atom(v), m);
    assert PrintItems(l[1..][1..], m) == [Ident(f)] + ([LPAREN] + ([v] + ([RPAREN] + m)));
    assert PrintItems(l[1..], m) == [EQUALS] + ([Ident(f)] + ([LPAREN] + ([v] + ([RPAREN] + m))));
    assert [EQUALS] + ([Ident(f)] + ([LPAREN] + ([v] + ([RPAREN] + m)))) == [EQUALS, Ident(f), LPAREN, v, RPAREN] + m;
  }

  lemma {:induction false} SincosStrips(env: Env, x: Expr, s: Expr, d: Expr, c: nat)
    requires HlslItem(env, SincosCall(x, s, d))
    ensures Strip(TextItem(env, SincosCall(x, s, d), c)) == PrintItems(TranslateItem(env, SincosCall(x, s, d), c), [])
  {
    hide Strip, Print, Translate, TranslateItem, PrintItems, Text, Hlsl, WellFormed, AssignOf;
    TextStrips(env, x);
    TextStrips(env, s);
    TextStrips(env, d);
    var v := SincosVar(c);
    var ox, os, od := Text(env, x), Text(env, s), Text(env, d);
    var h := [Ident("float"), BLANK, v, BLANK, EQUALS, BLANK, LPAREN];
    var m, n := [RPAREN, SEMICOLON, BLANK], [SEMICOLON, BLANK];
    var a, b := AssignOf("sin", v), AssignOf("cos", v);
    StripConcat(AngleText(v, ox) + SineText(v, os) + od, b);
    StripConcat(AngleText(v, ox) + SineText(v, os), od);
    StripConcat(AngleText(v, ox), SineText(v, os));
    StripAll(h, ox, m);
    StripAll(os, a, n);
    StripPieces(v);
    SincosItems(env, x, s, d, c, []);
    var tx, ts, td := Translate(env, x), Translate(env, s), Translate(env, d);
    var k3 := [EQUALS, Ident("cos"), LPAREN, v, RPAREN] + [];
    var k2 := [EQUALS, Ident("sin"), LPAREN, v, RPAREN] + ([SEMICOLON] + Print(td, k3));
    var k1 := [RPAREN] + ([SEMICOLON] + Print(ts, k2));
    PrintThen(td, k3);
    PrintThen(ts, k2);
    PrintThen(tx, k1);
    SincosFlat([Ident("float"), v, EQUALS, LPAREN], Print(tx, []), Print(ts, []), Print(td, []),
               [EQUALS, Ident("sin"), LPAREN, v, RPAREN], [EQUALS, Ident("cos"), LPAREN, v, RPAREN]);
  }

  lemma {:induction false} SincosFlat(h: seq<Token>, x: seq<Token>, y: seq<Token>, z: seq<Token>, a: seq<Token>,
                                      b: seq<Token>)
    ensures h + (x + ([RPAREN] + ([SEMICOLON] + (y + (a + ([SEMICOLON] + (z + (b + []))))))))
         == h + (x + [RPAREN, SEMICOLON]) + (y + (a + [SEMICOLON])) + z + b
  {
  }

  lemma {:induction false} ItemStrips(env: Env, i: Item, c: nat)
    requires HlslItem(env, i)
    ensures Strip(TextItem(env, i, c)) == PrintItems(TranslateItem(env, i, c), [])
    decreases i, 1
  {
    hide Strip;
    match i
    case Plain(t) =>
      var t' := if t.kind.Name? then Ident(Rename(t.text)) else t;
      StripNoSpace([t']);
      PrintOne(Plain(t'), []);
    case Ex(e) =>
      TextStrips(env, e);
      PrintOne(Ex(Translate(env, e)), []);
    case Block(items) =>
      ItemsStrip(env, items, c);
      BracketStrips(LBRACE, TextItems(env, items, c), RBRACE, TranslateItems(env, items, c));
      PrintOne(Block(TranslateItems(env, items, c)), []);
    case Header(items) =>
      ItemsStrip(env, items, c);
      BracketStrips(LPAREN, TextItems(env, items, c), RPAREN, TranslateItems(env, items, c));
      PrintOne(Header(TranslateItems(env, items, c)), []);
    case SincosCall(x, s, d) => SincosStrips(env, x, s, d, c);
  }

  lemma {:induction false} BracketStrips(open: Token, t: seq<Token>, close: Token, items: seq<Item>)
    requires !IsSpace(open) && !IsSpace(close) && Strip(t) == PrintItems(items, [])
    ensures Strip([open] + t + [close]) == [open] + PrintItems(items, [close] + [])
  {
    hide Strip;
    StripAll([open], t, [close]);
    StripNoSpace([open]);
    StripNoSpace([close]);
    PrintItemsAppend(items, [], [close] + []);
    assert [] + ([close] + []) == [close] + [];
  }

  lemma {:induction false} ItemsStrip(env: Env, items: seq<Item>, c: nat)
    requires forall j :: j in items ==> HlslItem(env, j)
    ensures Strip(TextItems(env, items, c)) == PrintItems(TranslateItems(env, items, c), [])
    decreases items, 0
  {
    if items != [] {
      hide Strip, PrintItem, TextItem, TranslateItem, HlslItem;
      var n := c + Calls(items[0]);
      ItemStrips(env, items[0], c);
      ItemsStrip(env, items[1..], n);
      StripConcat(TextItem(env, items[0], c), TextItems(env, items[1..], n));
      var a, b := TranslateItem(env, items[0], c), TranslateItems(env, items[1..], n);
      PrintItemsConcat(a, b, []);
      PrintItemsAppend(a, [], PrintItems(b, []));
      assert [] + PrintItems(b, []) == PrintItems(b, []);
    } else {
      assert Strip([]) == [];
    }
  }

  // ---- whole functions ----

  /** The condition for a whole body. */
  predicate BodySettles(env: Env, items: seq<Item>) {
    SettleItems(env, items, START).Some?
  }

  /** gl_write_function's body: if it settles, the streamer stops on its closing brace having written the
      translated body, whatever blanks the source contains. */
  lemma {:induction false} FunctionBody(env: Env, s: seq<Token>, items: seq<Item>, k: seq<Token>, c: nat)
    requires IsStream(s) && Lexed(s) && !IsSpace(s[0]) && Strip(s) == PrintItem(Block(items), k)
    requires HlslItem(env, Block(items)) && Tail(k) && BodySettles(env, items)
    ensures var q := Contents(env, s, "}", c);
            && Strip(q.rest) == [RBRACE] + k
            && Strip(q.out) == [LBRACE] + PrintItems(TranslateItems(env, items, c), [])
            && q.next == c + CallsIn(items) && q.binds == BindsItems(env, items)
  {
    hide Scan, Strip, Contents, SettleItems;
    StreamContents(env, items, k, c);
    var t := PrintItems(items, [RBRACE] + k);
    BraceOpens(env, t, c);
    GlBlanks.ContentsSame(env, s, "}", c);
    StripPrefix([LBRACE], TextItems(env, items, c));
    ItemsStrip(env, items, c);
  }

  /** And only if: a body whose sincos calls have third arguments that settle comes out right to the character if
      and only if it settles. */
  lemma {:induction false} BodyExact(env: Env, items: seq<Item>, k: seq<Token>, c: nat)
    requires HlslItem(env, Block(items)) && Tail(k) && OutputsSettle(env, Block(items))
    ensures IsStream(PrintItem(Block(items), k))
    ensures var q := Contents(env, PrintItem(Block(items), k), "}", c);
            (q.rest == [RBRACE] + k && q.out == [LBRACE] + TextItems(env, items, c)) <==> BodySettles(env, items)
  {
    hide Scan, Contents, SettleItems, Off;
    StreamContents(env, items, k, c);
    var t := PrintItems(items, [RBRACE] + k);
    BraceOpens(env, t, c);
    if !BodySettles(env, items) {
      var o := Scan(env, t, "}", c).out;
      OffDiffers(o, TextItems(env, items, c), [], "}");
      assert TextItems(env, items, c) + [] == TextItems(env, items, c);
      assert ([LBRACE] + o)[1..] == o && ([LBRACE] + TextItems(env, items, c))[1..] == TextItems(env, items, c);
    }
  }

  /** Two sincos calls never share a temporary: the counter's decimal names are distinct. */
  lemma {:induction false} SincosVarsDistinct(a: nat, b: nat)
    requires SincosVar(a) == SincosVar(b)
    ensures a == b
  {
    var p := "sincos_var_internal_";
    assert (p + Digits(a))[|p|..] == Digits(a);
    assert (p + Digits(b))[|p|..] == Digits(b);
    DigitsInjective(a, b);
  }
}
