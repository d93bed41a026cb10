/** What the streamer makes of statements. A sincos call becomes three of them, in the place of one: exactly where
    the result is a program again (libobs-opengl/gl-shaderparser.c:316-358, 492-553). */
module GlStatements {
  import opened Tokens
  import opened Expressions
  import opened Statements
  import opened GlStream
  import opened Options
  import opened GlTranslation
  import opened GlMeaning
  import opened GlBodies

  // ---- statements of the shader language, as pieces of a body ----

  /** A word that the streamer copies or renames. */
  predicate Word(env: Env, t: string) {
    t !in DELIMITERS && !IsExpanded(t) && TextureParam(env, t).None?
  }

  /** No texture is called like a keyword. */
  predicate KeywordsFree(env: Env) {
    forall t :: t in KEYWORDS ==> TextureParam(env, t).None?
  }

  predicate HlslStmt(env: Env, x: Stmt) {
    match x
    case Assign(t, e) => Hlsl(env, t) && Hlsl(env, e)
    case Update(_, t, e) => Hlsl(env, t) && Hlsl(env, e)
    case Declare(typ, n, e) => Word(env, typ) && Word(env, n) && PlainName(n) && Hlsl(env, e)
    case Sincos(a, s, d) => Hlsl(env, a) && Hlsl(env, s) && Hlsl(env, d) && Assignable(s) && Assignable(d)
    case Braces(xs) => forall y :: y in xs ==> HlslStmt(env, y)
    case If(t, y) => Hlsl(env, t) && HlslStmt(env, y)
    case IfElse(t, y, n) => Hlsl(env, t) && HlslStmt(env, y) && HlslStmt(env, n)
    case For(i, t, s, b) => HlslStmt(env, i) && Hlsl(env, t) && HlslStmt(env, s) && HlslStmt(env, b)
    case Return(e) => Hlsl(env, e)
  }

  predicate HlslStmts(env: Env, xs: seq<Stmt>) {
    WellFormedStmts(xs) && forall x :: x in xs ==> HlslStmt(env, x)
  }

  function SimpleItems(x: Stmt): seq<Item>
    requires Simple(x)
  {
    match x
    case Assign(t, e) => [Ex(t)] + ([Plain(EQUALS)] + [Ex(e)])
    case Update(op, t, e) => [Ex(t)] + ([Plain(OpTokens(op)[0])] + ([Plain(EQUALS)] + [Ex(e)]))
    case Declare(typ, n, e) => [Plain(Ident(typ))] + ([Plain(Ident(n))] + ([Plain(EQUALS)] + [Ex(e)]))
    case Sincos(a, s, d) => [SincosCall(a, s, d)]
  }

  function ItemsOf(x: Stmt): seq<Item>
    requires WellFormedStmt(x)
    decreases x, 1
  {
    match x
    case Braces(xs) => [Block(ItemsOfAll(xs))]
    case If(t, y) => [Plain(IF)] + ([Header([Ex(t)])] + ItemsOf(y))
    case IfElse(t, y, n) => [Plain(IF)] + ([Header([Ex(t)])] + (ItemsOf(y) + ([Plain(ELSE)] + ItemsOf(n))))
    case For(i, t, s, b) => [Plain(FOR)] + ([Header(ForHeader(i, t, s))] + ItemsOf(b))
    case Return(e) => [Plain(RETURN)] + ([Ex(e)] + [Plain(SEMICOLON)])
    case _ => SimpleItems(x) + [Plain(SEMICOLON)]
  }

  function ForHeader(i: Stmt, t: Expr, s: Stmt): seq<Item>
    requires Simple(i) && Simple(s)
  {
    SimpleItems(i) + ([Plain(SEMICOLON)] + ([Ex(t)] + ([Plain(SEMICOLON)] + SimpleItems(s))))
  }

  function ItemsOfAll(xs: seq<Stmt>): seq<Item>
    requires WellFormedStmts(xs)
    decreases xs, 0
  {
    if xs == [] then [] else ItemsOf(xs[0]) + ItemsOfAll(xs[1..])
  }

  lemma {:induction false} PrintCons(i: Item, more: seq<Item>, k: seq<Token>)
    ensures PrintItems([i] + more, k) == PrintItem(i, PrintItems(more, k))
  {
    assert ([i] + more)[1..] == more;
  }

  lemma {:induction false} PrintSimpleItems(x: Stmt, k: seq<Token>)
    requires Simple(x) && WellFormedStmt(x)
    ensures PrintItems(SimpleItems(x), k) == PrintSimple(x, k)
  {
    match x
    case Assign(t, e) =>
      PrintCons(Ex(t), [Plain(EQUALS)] + [Ex(e)], k);
      PrintCons(Plain(EQUALS), [Ex(e)], k);
      PrintOne(Ex(e), k);
    case Update(op, t, e) =>
      PrintCons(Ex(t), [Plain(OpTokens(op)[0])] + ([Plain(EQUALS)] + [Ex(e)]), k);
      PrintCons(Plain(OpTokens(op)[0]), [Plain(EQUALS)] + [Ex(e)], k);
      PrintCons(Plain(EQUALS), [Ex(e)], k);
      PrintOne(Ex(e), k);
      assert OpTokens(op) == [OpTokens(op)[0]];
    case Declare(typ, n, e) =>
      PrintCons(Plain(Ident(typ)), [Plain(Ident(n))] + ([Plain(EQUALS)] + [Ex(e)]), k);
      PrintCons(Plain(Ident(n)), [Plain(EQUALS)] + [Ex(e)], k);
      PrintCons(Plain(EQUALS), [Ex(e)], k);
      PrintOne(Ex(e), k);
    case Sincos(a, s, d) => PrintOne(SincosCall(a, s, d), k);
  }

  /** The pieces of a statement are printed as the statement. */
  lemma {:induction false} ItemsPrint(x: Stmt, k: seq<Token>)
    requires WellFormedStmt(x)
    ensures PrintItems(ItemsOf(x), k) == PrintStmt(x, k)
    decreases x, 1
  {
    hide PrintItems, PrintItem, Print, PrintSimple, WellFormed;
    match x
    case Braces(xs) =>
      ItemsPrintAll(xs, [RBRACE] + k);
      PrintOne(Block(ItemsOfAll(xs)), k);
      PrintBlock(ItemsOfAll(xs), k);
    case If(t, y) =>
      ItemsPrint(y, k);
      IfPrints(t, ItemsOf(y), k);
    case IfElse(t, y, n) =>
      ItemsPrint(n, k);
      ItemsPrint(y, [ELSE] + PrintStmt(n, k));
      IfPrints(t, ItemsOf(y) + ([Plain(ELSE)] + ItemsOf(n)), k);
      PrintItemsConcat(ItemsOf(y), [Plain(ELSE)] + ItemsOf(n), k);
      PrintCons(Plain(ELSE), ItemsOf(n), k);
      PrintPlain(ELSE, PrintStmt(n, k));
    case For(i, t, s, b) =>
      ItemsPrint(b, k);
      PrintCons(Plain(FOR), [Header(ForHeader(i, t, s))] + ItemsOf(b), k);
      PrintCons(Header(ForHeader(i, t, s)), ItemsOf(b), k);
      ForHeaderPrints(i, t, s, [RPAREN] + PrintStmt(b, k));
      PrintHeader(ForHeader(i, t, s), PrintStmt(b, k));
      PrintPlain(FOR, PrintItem(Header(ForHeader(i, t, s)), PrintStmt(b, k)));
    case Return(e) =>
      PrintCons(Plain(RETURN), [Ex(e)] + [Plain(SEMICOLON)], k);
      PrintCons(Ex(e), [Plain(SEMICOLON)], k);
      PrintOne(Plain(SEMICOLON), k);
      PrintPlain(SEMICOLON, k);
      PrintEx(e, [SEMICOLON] + k);
      PrintPlain(RETURN, Print(e, [SEMICOLON] + k));
    case _ =>
      PrintItemsConcat(SimpleItems(x), [Plain(SEMICOLON)], k);
      PrintOne(Plain(SEMICOLON), k);
      PrintPlain(SEMICOLON, k);
      PrintSimpleItems(x, [SEMICOLON] + k);
  }

  lemma {:induction false} PrintPlain(t: Token, k: seq<Token>)
    ensures PrintItem(Plain(t), k) == [t] + k
  {
  }

  lemma {:induction false} PrintEx(e: Expr, k: seq<Token>)
    ensures PrintItem(Ex(e), k) == Print(e, k)
  {
  }

  lemma {:induction false} PrintBlock(items: seq<Item>, k: seq<Token>)
    ensures PrintItem(Block(items), k) == [LBRACE] + PrintItems(items, [RBRACE] + k)
  {
  }

  lemma {:induction false} PrintHeader(items: seq<Item>, k: seq<Token>)
    ensures PrintItem(Header(items), k) == [LPAREN] + PrintItems(items, [RPAREN] + k)
  {
  }

  lemma {:induction false} IfPrints(t: Expr, more: seq<Item>, k: seq<Token>)
    ensures PrintItems([Plain(IF)] + ([Header([Ex(t)])] + more), k)
         == [IF] + ([LPAREN] + Print(t, [RPAREN] + PrintItems(more, k)))
  {
    hide PrintItems, PrintItem, Print;
    var m := PrintItems(more, k);
    PrintCons(Plain(IF), [Header([Ex(t)])] + more, k);
    PrintCons(Header([Ex(t)]), more, k);
    PrintHeader([Ex(t)], m);
    PrintOne(Ex(t), [RPAREN] + m);
    PrintEx(t, [RPAREN] + m);
    PrintPlain(IF, [LPAREN] + Print(t, [RPAREN] + m));
  }

  lemma {:induction false} ForHeaderPrints(i: Stmt, t: Expr, s: Stmt, k: seq<Token>)
    requires Simple(i) && Simple(s) && WellFormedStmt(i) && WellFormedStmt(s)
    ensures PrintItems(ForHeader(i, t, s), k)
         == PrintSimple(i, [SEMICOLON] + Print(t, [SEMICOLON] + PrintSimple(s, k)))
  {
    hide PrintItems, PrintItem, Print, SimpleItems, PrintSimple;
    PrintSimpleItems(s, k);
    PrintCons(Plain(SEMICOLON), SimpleItems(s), k);
    PrintPlain(SEMICOLON, PrintSimple(s, k));
    PrintCons(Ex(t), [Plain(SEMICOLON)] + SimpleItems(s), k);
    var m := Print(t, [SEMICOLON] + PrintSimple(s, k));
    PrintEx(t, [SEMICOLON] + PrintSimple(s, k));
    PrintCons(Plain(SEMICOLON), [Ex(t)] + ([Plain(SEMICOLON)] + SimpleItems(s)), k);
    PrintPlain(SEMICOLON, m);
    PrintItemsConcat(SimpleItems(i), [Plain(SEMICOLON)] + ([Ex(t)] + ([Plain(SEMICOLON)] + SimpleItems(s))), k);
    PrintSimpleItems(i, [SEMICOLON] + m);
  }

  lemma {:induction false} ItemsPrintAll(xs: seq<Stmt>, k: seq<Token>)
    requires WellFormedStmts(xs)
    ensures PrintItems(ItemsOfAll(xs), k) == PrintStmts(xs, k)
    decreases xs, 0
  {
    if xs != [] {
      ItemsPrintAll(xs[1..], k);
      ItemsPrint(xs[0], PrintStmts(xs[1..], k));
      PrintItemsConcat(ItemsOf(xs[0]), ItemsOfAll(xs[1..]), k);
    }
  }

  predicate HlslItems(env: Env, items: seq<Item>) {
    forall j :: j in items ==> HlslItem(env, j)
  }

  lemma {:induction false} HlslConcat(env: Env, a: seq<Item>, b: seq<Item>)
    ensures HlslItems(env, a + b) <==> HlslItems(env, a) && HlslItems(env, b)
  {
    hide HlslItem;
    assert forall j :: j in a + b <==> j in a || j in b;
  }

  lemma {:induction false} KeywordHlsl(env: Env, t: Token)
    requires KeywordsFree(env) && (t in {IF, ELSE, FOR, RETURN} || t == SEMICOLON)
    ensures HlslItems(env, [Plain(t)])
  {
    assert t != SEMICOLON ==> t.text in KEYWORDS;
  }

  lemma {:induction false} ItemsHlsl(env: Env, x: Stmt)
    requires KeywordsFree(env) && WellFormedStmt(x) && HlslStmt(env, x)
    ensures HlslItems(env, ItemsOf(x))
    decreases x, 1
  {
    hide Hlsl, WellFormed, HlslItems, KeywordsFree, SimpleItems;
    KeywordHlsl(env, IF);
    KeywordHlsl(env, ELSE);
    KeywordHlsl(env, FOR);
    KeywordHlsl(env, RETURN);
    KeywordHlsl(env, SEMICOLON);
    match x
    case Braces(xs) =>
      ItemsHlslAll(env, xs);
      GroupHlsl(env, ItemsOfAll(xs));
    case If(t, y) =>
      ItemsHlsl(env, y);
      IfHlsl(env, t, ItemsOf(y));
    case IfElse(t, y, n) =>
      ItemsHlsl(env, y);
      ItemsHlsl(env, n);
      HlslConcat(env, [Plain(ELSE)], ItemsOf(n));
      HlslConcat(env, ItemsOf(y), [Plain(ELSE)] + ItemsOf(n));
      IfHlsl(env, t, ItemsOf(y) + ([Plain(ELSE)] + ItemsOf(n)));
    case For(i, t, s, b) =>
      ItemsHlsl(env, b);
      ForHlsl(env, i, t, s);
      HlslConcat(env, [Header(ForHeader(i, t, s))], ItemsOf(b));
      HlslConcat(env, [Plain(FOR)], [Header(ForHeader(i, t, s))] + ItemsOf(b));
    case Return(e) =>
      ExHlsl(env, e);
      HlslConcat(env, [Ex(e)], [Plain(SEMICOLON)]);
      HlslConcat(env, [Plain(RETURN)], [Ex(e)] + [Plain(SEMICOLON)]);
    case _ =>
      SimpleHlsl(env, x);
      HlslConcat(env, SimpleItems(x), [Plain(SEMICOLON)]);
  }

  lemma {:induction false} ExHlsl(env: Env, e: Expr)
    requires WellFormed(e) && Hlsl(env, e)
    ensures HlslItems(env, [Ex(e)])
  {
  }

  lemma {:induction false} GroupHlsl(env: Env, items: seq<Item>)
    requires HlslItems(env, items)
    ensures HlslItems(env, [Block(items)]) && HlslItems(env, [Header(items)])
  {
  }

  lemma {:induction false} IfHlsl(env: Env, t: Expr, more: seq<Item>)
    requires KeywordsFree(env) && WellFormed(t) && Hlsl(env, t) && HlslItems(env, more)
    ensures HlslItems(env, [Plain(IF)] + ([Header([Ex(t)])] + more))
  {
    hide Hlsl, WellFormed, HlslItems, KeywordsFree;
    KeywordHlsl(env, IF);
    ExHlsl(env, t);
    GroupHlsl(env, [Ex(t)]);
    HlslConcat(env, [Header([Ex(t)])], more);
    HlslConcat(env, [Plain(IF)], [Header([Ex(t)])] + more);
  }

  lemma {:induction false} ForHlsl(env: Env, i: Stmt, t: Expr, s: Stmt)
    requires KeywordsFree(env) && WellFormed(t) && Hlsl(env, t) && Simple(i) && Simple(s)
    requires WellFormedStmt(i) && HlslStmt(env, i) && WellFormedStmt(s) && HlslStmt(env, s)
    ensures HlslItems(env, [Header(ForHeader(i, t, s))])
  {
    hide Hlsl, WellFormed, HlslItems, KeywordsFree, SimpleItems;
    KeywordHlsl(env, SEMICOLON);
    ExHlsl(env, t);
    SimpleHlsl(env, i);
    SimpleHlsl(env, s);
    var a, b := SimpleItems(i), SimpleItems(s);
    HlslConcat(env, [Plain(SEMICOLON)], b);
    HlslConcat(env, [Ex(t)], [Plain(SEMICOLON)] + b);
    HlslConcat(env, [Plain(SEMICOLON)], [Ex(t)] + ([Plain(SEMICOLON)] + b));
    HlslConcat(env, a, [Plain(SEMICOLON)] + ([Ex(t)] + ([Plain(SEMICOLON)] + b)));
    GroupHlsl(env, ForHeader(i, t, s));
  }

  lemma {:induction false} SimpleHlsl(env: Env, x: Stmt)
    requires WellFormedStmt(x) && HlslStmt(env, x) && Simple(x)
    ensures HlslItems(env, SimpleItems(x))
  {
    hide Hlsl, WellFormed;
  }

  lemma {:induction false} ItemsHlslAll(env: Env, xs: seq<Stmt>)
    requires KeywordsFree(env) && HlslStmts(env, xs)
    ensures HlslItems(env, ItemsOfAll(xs))
    decreases xs, 0
  {
    if xs != [] {
      hide HlslItem;
      ItemsHlsl(env, xs[0]);
      ItemsHlslAll(env, xs[1..]);
      HlslConcat(env, ItemsOf(xs[0]), ItemsOfAll(xs[1..]));
    }
  }

  // ---- the text of the translated pieces ----

  function Counted(x: Stmt): nat
    decreases x, 1
  {
    match x
    case Sincos(_, _, _) => 1
    case Braces(xs) => CountedAll(xs)
    case If(_, y) => Counted(y)
    case IfElse(_, y, n) => Counted(y) + Counted(n)
    case For(i, _, s, b) => Counted(i) + Counted(s) + Counted(b)
    case _ => 0
  }

  function CountedAll(xs: seq<Stmt>): nat
    decreases xs, 0
  {
    if xs == [] then 0 else Counted(xs[0]) + CountedAll(xs[1..])
  }

  /** A simple statement with everything in it translated; a sincos call gives three. */
  function TurnSimple(env: Env, x: Stmt, c: nat): (r: (Stmt, seq<Stmt>))
    requires Simple(x)
    ensures Simple(r.0) && forall y :: y in r.1 ==> y.Assign?
  {
    match x
    case Assign(t, e) => (Assign(Translate(env, t), Translate(env, e)), [])
    case Update(op, t, e) => (Update(op, Translate(env, t), Translate(env, e)), [])
    case Declare(typ, n, e) => (Declare(Rename(typ), n, Translate(env, e)), [])
    case Sincos(a, s, d) =>
      var v := Atom(SincosVar(c));
      (Declare("float", SincosVar(c).text, Paren(Translate(env, a))),
       [Assign(Translate(env, s), Call("sin", [v])), Assign(Translate(env, d), Call("cos", [v]))])
  }

  /** Simple statements with semicolons between them. */
  function PrintRow(x: Stmt, more: seq<Stmt>, k: seq<Token>): seq<Token>
    requires Simple(x) && forall y :: y in more ==> Simple(y)
    decreases |more|
  {
    if more == [] then PrintSimple(x, k) else PrintSimple(x, [SEMICOLON] + PrintRow(more[0], more[1..], k))
  }

  function WriteSimple(env: Env, x: Stmt, c: nat, k: seq<Token>): seq<Token>
    requires Simple(x)
  {
    PrintRow(TurnSimple(env, x, c).0, TurnSimple(env, x, c).1, k)
  }

  function WriteStmt(env: Env, x: Stmt, c: nat, k: seq<Token>): seq<Token>
    requires WellFormedStmt(x)
    decreases x, 1
  {
    match x
    case Braces(xs) => [LBRACE] + WriteStmts(env, xs, c, [RBRACE] + k)
    case If(t, y) => [IF] + ([LPAREN] + Print(Translate(env, t), [RPAREN] + WriteStmt(env, y, c, k)))
    case IfElse(t, y, n) =>
      [IF] + ([LPAREN] + Print(Translate(env, t), [RPAREN] +
        WriteStmt(env, y, c, [ELSE] + WriteStmt(env, n, c + Counted(y), k))))
    case For(i, t, s, b) =>
      [FOR] + ([LPAREN] + WriteSimple(env, i, c, [SEMICOLON] + Print(Translate(env, t), [SEMICOLON] +
        WriteSimple(env, s, c + Counted(i), [RPAREN] + WriteStmt(env, b, c + Counted(i) + Counted(s), k)))))
    case Return(e) => [RETURN] + Print(Translate(env, e), [SEMICOLON] + k)
    case _ => WriteSimple(env, x, c, [SEMICOLON] + k)
  }

  function WriteStmts(env: Env, xs: seq<Stmt>, c: nat, k: seq<Token>): seq<Token>
    requires WellFormedStmts(xs)
    decreases xs, 0
  {
    if xs == [] then k else WriteStmt(env, xs[0], c, WriteStmts(env, xs[1..], c + Counted(xs[0]), k))
  }

  function Shown(env: Env, items: seq<Item>, c: nat, k: seq<Token>): seq<Token> {
    PrintItems(TranslateItems(env, items, c), k)
  }

  lemma {:induction false} ShownConcat(env: Env, a: seq<Item>, b: seq<Item>, c: nat, k: seq<Token>)
    ensures Shown(env, a + b, c, k) == Shown(env, a, c, Shown(env, b, c + CallsIn(a), k))
    ensures CallsIn(a + b) == CallsIn(a) + CallsIn(b)
  {
    if a == [] {
      assert a + b == b;
    } else {
      assert (a + b)[1..] == a[1..] + b && (a + b)[0] == a[0];
      ShownConcat(env, a[1..], b, c + Calls(a[0]), k);
      var t := TranslateItem(env, a[0], c);
      PrintItemsConcat(t, TranslateItems(env, a[1..] + b, c + Calls(a[0])), k);
      PrintItemsConcat(t, TranslateItems(env, a[1..], c + Calls(a[0])), Shown(env, b, c + CallsIn(a), k));
    }
  }

  lemma {:induction false} ShownOne(env: Env, i: Item, c: nat, k: seq<Token>)
    ensures Shown(env, [i], c, k) == PrintItems(TranslateItem(env, i, c), k) && CallsIn([i]) == Calls(i)
  {
    assert [i][1..] == [];
    var t := TranslateItem(env, i, c);
    assert t + [] == t;
    assert TranslateItems(env, [i], c) == t + TranslateItems(env, [i][1..], c + Calls(i)) == t;
  }

  lemma {:induction false} ShownPlain(env: Env, t: Token, c: nat, k: seq<Token>)
    ensures Shown(env, [Plain(t)], c, k) == [if t.kind.Name? then Ident(Rename(t.text)) else t] + k
    ensures CallsIn([Plain(t)]) == 0
  {
    ShownOne(env, Plain(t), c, k);
    PrintOne(Plain(if t.kind.Name? then Ident(Rename(t.text)) else t), k);
  }

  lemma {:induction false} ShownEx(env: Env, e: Expr, c: nat, k: seq<Token>)
    ensures Shown(env, [Ex(e)], c, k) == Print(Translate(env, e), k) && CallsIn([Ex(e)]) == 0
  {
    ShownOne(env, Ex(e), c, k);
    PrintOne(Ex(Translate(env, e)), k);
  }

  lemma {:induction false} ShownGroup(env: Env, items: seq<Item>, c: nat, k: seq<Token>)
    ensures Shown(env, [Block(items)], c, k) == [LBRACE] + Shown(env, items, c, [RBRACE] + k)
    ensures Shown(env, [Header(items)], c, k) == [LPAREN] + Shown(env, items, c, [RPAREN] + k)
    ensures CallsIn([Block(items)]) == CallsIn(items) == CallsIn([Header(items)])
  {
    ShownOne(env, Block(items), c, k);
    ShownOne(env, Header(items), c, k);
    PrintOne(Block(TranslateItems(env, items, c)), k);
    PrintOne(Header(TranslateItems(env, items, c)), k);
    PrintBlock(TranslateItems(env, items, c), k);
    PrintHeader(TranslateItems(env, items, c), k);
  }

  /** Keywords are not renamed. */
  lemma {:induction false} ShownKeyword(env: Env, t: Token, c: nat, k: seq<Token>)
    requires t in {IF, ELSE, FOR, RETURN}
    ensures Shown(env, [Plain(t)], c, k) == [t] + k && CallsIn([Plain(t)]) == 0
  {
    ShownPlain(env, t, c, k);
    assert Rename(t.text) == t.text;
  }

  lemma {:induction false} ShownSimple(env: Env, x: Stmt, c: nat, k: seq<Token>)
    requires Simple(x) && WellFormedStmt(x) && HlslStmt(env, x)
    ensures Shown(env, SimpleItems(x), c, k) == WriteSimple(env, x, c, k) && CallsIn(SimpleItems(x)) == Counted(x)
  {
    hide Shown, Translate, Hlsl, CallsIn;
    match x
    case Assign(t, e) =>
      ShownEx(env, e, c, k);
      ShownConcat(env, [Plain(EQUALS)], [Ex(e)], c, k);
      ShownPlain(env, EQUALS, c, Print(Translate(env, e), k));
      ShownConcat(env, [Ex(t)], [Plain(EQUALS)] + [Ex(e)], c, k);
      ShownEx(env, t, c, [EQUALS] + Print(Translate(env, e), k));
    case Update(op, t, e) => ShownUpdate(env, x, c, k);
    case Declare(typ, n, e) =>
      var m := [EQUALS] + Print(Translate(env, e), k);
      ShownEx(env, e, c, k);
      ShownConcat(env, [Plain(EQUALS)], [Ex(e)], c, k);
      ShownPlain(env, EQUALS, c, Print(Translate(env, e), k));
      ShownConcat(env, [Plain(Ident(n))], [Plain(EQUALS)] + [Ex(e)], c, k);
      ShownPlain(env, Ident(n), c, m);
      ShownConcat(env, [Plain(Ident(typ))], [Plain(Ident(n))] + ([Plain(EQUALS)] + [Ex(e)]), c, k);
      ShownPlain(env, Ident(typ), c, [Ident(n)] + m);
    case Sincos(a, s, d) =>
      ShownOne(env, SincosCall(a, s, d), c, k);
      ShownSincos(env, a, s, d, c, k);
  }

  lemma {:induction false} ShownUpdate(env: Env, x: Stmt, c: nat, k: seq<Token>)
    requires x.Update? && WellFormedStmt(x)
    ensures Shown(env, SimpleItems(x), c, k) == WriteSimple(env, x, c, k) && CallsIn(SimpleItems(x)) == 0
  {
    hide Shown, Translate, CallsIn;
    var t, e, o := x.target, x.value, OpTokens(x.op)[0];
    var m := [EQUALS] + Print(Translate(env, e), k);
    ShownEx(env, e, c, k);
    ShownConcat(env, [Plain(EQUALS)], [Ex(e)], c, k);
    ShownPlain(env, EQUALS, c, Print(Translate(env, e), k));
    ShownConcat(env, [Plain(o)], [Plain(EQUALS)] + [Ex(e)], c, k);
    ShownPlain(env, o, c, m);
    ShownConcat(env, [Ex(t)], [Plain(o)] + ([Plain(EQUALS)] + [Ex(e)]), c, k);
    assert OpTokens(x.op) == [o];
    ShownEx(env, t, c, OpTokens(x.op) + m);
  }

  lemma {:induction false} ShownSincos(env: Env, a: Expr, s: Expr, d: Expr, c: nat, k: seq<Token>)
    ensures PrintItems(TranslateItem(env, SincosCall(a, s, d), c), k) == WriteSimple(env, Sincos(a, s, d), c, k)
  {
    hide Translate, SincosVar;
    var v := SincosVar(c);
    SincosItems(env, a, s, d, c, k);
    PrintCall1("cos", Atom(v), k);
    var k3 := Print(Translate(env, d), [EQUALS] + Print(Call("cos", [Atom(v)]), k));
    PrintCall1("sin", Atom(v), [SEMICOLON] + k3);
    var (x, more) := TurnSimple(env, Sincos(a, s, d), c);
    assert more[1..][1..] == [];
    assert PrintRow(more[1], [], k) == k3;
    assert more[1..] == [more[1]];
    var k2 := PrintSimple(more[0], [SEMICOLON] + k3);
    assert PrintRow(more[0], more[1..], k) == k2;
    PrintParen(Translate(env, a), [SEMICOLON] + k2);
    NameOfVar(c);
    SincosFlatly(v, Print(Translate(env, a), [RPAREN] + ([SEMICOLON] + k2)), k);
    assert [EQUALS] + ([Ident("cos")] + ([LPAREN] + ([v] + ([RPAREN] + k))))
        == [EQUALS, Ident("cos"), LPAREN, v, RPAREN] + k;
    assert [EQUALS] + ([Ident("sin")] + ([LPAREN] + ([v] + ([RPAREN] + ([SEMICOLON] + k3)))))
        == [EQUALS, Ident("sin"), LPAREN, v, RPAREN] + ([SEMICOLON] + k3);
  }

  lemma {:induction false} SincosFlatly(v: Token, p: seq<Token>, k: seq<Token>)
    ensures [Ident("float"), v, EQUALS, LPAREN] + p == [Ident("float")] + ([v] + ([EQUALS] + ([LPAREN] + p)))
  {
  }

  lemma {:induction false} NameOfVar(c: nat)
    ensures Ident(SincosVar(c).text) == SincosVar(c)
  {
  }

  /** The streamer's text for the pieces of a statement. */
  lemma {:induction false} ShownStmt(env: Env, x: Stmt, c: nat, k: seq<Token>)
    requires WellFormedStmt(x) && HlslStmt(env, x)
    ensures Shown(env, ItemsOf(x), c, k) == WriteStmt(env, x, c, k) && CallsIn(ItemsOf(x)) == Counted(x)
    decreases x, 1
  {
    hide Shown, Translate, Hlsl, CallsIn, SimpleItems, WriteSimple, WellFormed;
    match x
    case Braces(xs) =>
      ShownStmts(env, xs, c, [RBRACE] + k);
      ShownGroup(env, ItemsOfAll(xs), c, k);
    case If(t, y) =>
      ShownStmt(env, y, c, k);
      ShownIf(env, t, ItemsOf(y), c, k);
    case IfElse(t, y, n) =>
      ShownElse(env, x, c, k);
      ShownIf(env, t, ItemsOf(y) + ([Plain(ELSE)] + ItemsOf(n)), c, k);
    case For(_, _, _, _) => ShownFor(env, x, c, k);
    case Return(e) =>
      ShownPlain(env, SEMICOLON, c, k);
      ShownEx(env, e, c, [SEMICOLON] + k);
      ShownConcat(env, [Ex(e)], [Plain(SEMICOLON)], c, k);
      ShownKeyword(env, RETURN, c, Print(Translate(env, e), [SEMICOLON] + k));
      ShownConcat(env, [Plain(RETURN)], [Ex(e)] + [Plain(SEMICOLON)], c, k);
    case _ =>
      ShownSimple(env, x, c, [SEMICOLON] + k);
      ShownPlain(env, SEMICOLON, c + Counted(x), k);
      ShownConcat(env, SimpleItems(x), [Plain(SEMICOLON)], c, k);
  }

  lemma {:induction false} ShownFor(env: Env, x: Stmt, c: nat, k: seq<Token>)
    requires x.For? && WellFormedStmt(x) && HlslStmt(env, x)
    ensures Shown(env, ItemsOf(x), c, k) == WriteStmt(env, x, c, k) && CallsIn(ItemsOf(x)) == Counted(x)
    decreases x, 0
  {
    hide Shown, Translate, Hlsl, CallsIn, SimpleItems, WriteSimple, WellFormed, ForHeader;
    var i, t, s, b := x.first, x.test, x.step, x.each;
    var n, h := c + Counted(i) + Counted(s), ForHeader(i, t, s);
    var w := WriteStmt(env, b, n, k);
    ShownStmt(env, b, n, k);
    ShownForHeader(env, i, t, s, c, [RPAREN] + w);
    ShownGroup(env, h, c, w);
    ShownConcat(env, [Header(h)], ItemsOf(b), c, k);
    ShownKeyword(env, FOR, c, Shown(env, [Header(h)] + ItemsOf(b), c, k));
    ShownConcat(env, [Plain(FOR)], [Header(h)] + ItemsOf(b), c, k);
  }

  lemma {:induction false} ShownIf(env: Env, t: Expr, more: seq<Item>, c: nat, k: seq<Token>)
    ensures Shown(env, [Plain(IF)] + ([Header([Ex(t)])] + more), c, k)
         == [IF] + ([LPAREN] + Print(Translate(env, t), [RPAREN] + Shown(env, more, c, k)))
    ensures CallsIn([Plain(IF)] + ([Header([Ex(t)])] + more)) == CallsIn(more)
  {
    hide Shown, Translate, CallsIn;
    var m := Shown(env, more, c, k);
    ShownEx(env, t, c, [RPAREN] + m);
    ShownGroup(env, [Ex(t)], c, m);
    ShownConcat(env, [Header([Ex(t)])], more, c, k);
    ShownKeyword(env, IF, c, [LPAREN] + Print(Translate(env, t), [RPAREN] + m));
    ShownConcat(env, [Plain(IF)], [Header([Ex(t)])] + more, c, k);
  }

  lemma {:induction false} ShownElse(env: Env, x: Stmt, c: nat, k: seq<Token>)
    requires x.IfElse? && WellFormedStmt(x) && HlslStmt(env, x)
    ensures var y, n, items := x.yes, x.no, ItemsOf(x.yes) + ([Plain(ELSE)] + ItemsOf(x.no));
            && Shown(env, items, c, k) == WriteStmt(env, y, c, [ELSE] + WriteStmt(env, n, c + Counted(y), k))
            && CallsIn(items) == Counted(y) + Counted(n)
    decreases x, 0
  {
    hide Shown, Translate, Hlsl, CallsIn;
    var y, n := x.yes, x.no;
    var m := WriteStmt(env, n, c + Counted(y), k);
    ShownStmt(env, n, c + Counted(y), k);
    ShownKeyword(env, ELSE, c + Counted(y), m);
    ShownConcat(env, [Plain(ELSE)], ItemsOf(n), c + Counted(y), k);
    ShownStmt(env, y, c, [ELSE] + m);
    ShownConcat(env, ItemsOf(y), [Plain(ELSE)] + ItemsOf(n), c, k);
  }

  lemma {:induction false} ShownForHeader(env: Env, i: Stmt, t: Expr, s: Stmt, c: nat, k: seq<Token>)
    requires Simple(i) && Simple(s) && HlslStmt(env, i) && HlslStmt(env, s) && WellFormedStmt(i) && WellFormedStmt(s)
    ensures Shown(env, ForHeader(i, t, s), c, k)
         == WriteSimple(env, i, c, [SEMICOLON] + Print(Translate(env, t), [SEMICOLON] +
              WriteSimple(env, s, c + Counted(i), k)))
    ensures CallsIn(ForHeader(i, t, s)) == Counted(i) + Counted(s)
  {
    hide Shown, Translate, Hlsl, CallsIn, SimpleItems, WriteSimple;
    var n := c + Counted(i);
    var w := WriteSimple(env, s, n, k);
    ShownSimple(env, s, n, k);
    ShownPlain(env, SEMICOLON, n, w);
    ShownConcat(env, [Plain(SEMICOLON)], SimpleItems(s), n, k);
    ShownEx(env, t, n, [SEMICOLON] + w);
    ShownConcat(env, [Ex(t)], [Plain(SEMICOLON)] + SimpleItems(s), n, k);
    var m := Print(Translate(env, t), [SEMICOLON] + w);
    ShownPlain(env, SEMICOLON, n, m);
    ShownConcat(env, [Plain(SEMICOLON)], [Ex(t)] + ([Plain(SEMICOLON)] + SimpleItems(s)), n, k);
    ShownSimple(env, i, c, [SEMICOLON] + m);
    ShownConcat(env, SimpleItems(i), [Plain(SEMICOLON)] + ([Ex(t)] + ([Plain(SEMICOLON)] + SimpleItems(s))), c, k);
  }

  lemma {:induction false} ShownNothing(env: Env, c: nat, k: seq<Token>)
    ensures Shown(env, [], c, k) == k && CallsIn([]) == 0
  {
  }

  lemma {:induction false} ShownStmts(env: Env, xs: seq<Stmt>, c: nat, k: seq<Token>)
    requires HlslStmts(env, xs)
    ensures Shown(env, ItemsOfAll(xs), c, k) == WriteStmts(env, xs, c, k) && CallsIn(ItemsOfAll(xs)) == CountedAll(xs)
    decreases xs, 0
  {
    hide Translate, HlslStmt, WellFormedStmt, WriteStmt, ItemsOf, Counted, Shown, CallsIn;
    if xs == [] {
      ShownNothing(env, c, k);
    } else {
      HlslRest(env, xs);
      hide HlslStmts, WellFormedStmts;
      var n := c + Counted(xs[0]);
      ShownStmts(env, xs[1..], n, k);
      ShownStmt(env, xs[0], c, WriteStmts(env, xs[1..], n, k));
      ShownConcat(env, ItemsOf(xs[0]), ItemsOfAll(xs[1..]), c, k);
    }
  }

  // ---- what that text reads as ----

  /** One statement and what comes behind it. */
  datatype Turned = Turned(first: Stmt, more: seq<Stmt>)

  /** What a statement reads as when the parser is done with it: sincos calls are three statements, of which a
      branch or a loop keeps only the first. None if it no longer is one: in front of an else, or in a header. */
  function Turn(env: Env, x: Stmt, c: nat): (r: Option<Turned>)
    requires WellFormedStmt(x)
    ensures r.Some? ==> forall y :: y in r.value.more ==> y.Assign?
    decreases x, 1
  {
    match x
    case Braces(xs) =>
      (match TurnAll(env, xs, c)
       case None => None
       case Some(ys) => Some(Turned(Braces(ys), [])))
    case If(t, y) =>
      (match Turn(env, y, c)
       case None => None
       case Some(r) => Some(Turned(If(Translate(env, t), r.first), r.more)))
    case IfElse(t, y, n) =>
      (match Turn(env, y, c)
       case None => None
       case Some(r) =>
         if r.more != [] then None
         else
           match Turn(env, n, c + Counted(y))
           case None => None
           case Some(q) => Some(Turned(IfElse(Translate(env, t), r.first, q.first), q.more)))
    case For(i, t, s, b) =>
      if i.Sincos? || s.Sincos? then None
      else
        (match Turn(env, b, c)
         case None => None
         case Some(r) =>
           Some(Turned(For(TurnSimple(env, i, c).0, Translate(env, t), TurnSimple(env, s, c).0, r.first), r.more)))
    case Return(e) => Some(Turned(Return(Translate(env, e)), []))
    case _ => Some(Turned(TurnSimple(env, x, c).0, TurnSimple(env, x, c).1))
  }

  function TurnAll(env: Env, xs: seq<Stmt>, c: nat): Option<seq<Stmt>>
    requires WellFormedStmts(xs)
    decreases xs, 0
  {
    if xs == [] then Some([])
    else
      match Turn(env, xs[0], c)
      case None => None
      case Some(r) =>
        match TurnAll(env, xs[1..], c + Counted(xs[0]))
        case None => None
        case Some(ys) => Some([r.first] + r.more + ys)
  }

  lemma {:induction false} RenamedWords(f: string)
    requires f !in KEYWORDS && f != "sincos"
    ensures Rename(f) !in KEYWORDS && Rename(f) != "sincos"
  {
  }

  lemma {:induction false} LeadingTranslates(env: Env, e: Expr)
    requires Hlsl(env, e) && Leading(e).text !in KEYWORDS
    ensures Leading(Translate(env, e)).text !in KEYWORDS
    decreases e
  {
    match e
    case Call(f, args) => RenamedWords(f);
    case Member(o, _) => LeadingTranslates(env, o);
    case Index(a, _) => LeadingTranslates(env, a);
    case Binary(_, l, _) => LeadingTranslates(env, l);
    case Cond(t, _, _) => LeadingTranslates(env, t);
    case _ =>
  }

  lemma {:induction false} TargetTranslates(env: Env, e: Expr)
    requires Hlsl(env, e) && Assignable(e)
    ensures Assignable(Translate(env, e))
  {
    TranslateWellFormed(env, e);
    LeadingTranslates(env, e);
    if e.Call? {
      if e.fn !in KEYWORDS {
        RenamedWords(e.fn);
      }
    }
  }

  lemma {:induction false} SimpleTurns(env: Env, x: Stmt, c: nat)
    requires Simple(x) && WellFormedStmt(x) && HlslStmt(env, x)
    ensures WellFormedStmt(TurnSimple(env, x, c).0) && WellFormedStmts(TurnSimple(env, x, c).1)
  {
    hide Translate, Hlsl, Assignable;
    match x
    case Assign(t, e) =>
      TargetTranslates(env, t);
      TranslateWellFormed(env, e);
    case Update(_, t, e) =>
      TargetTranslates(env, t);
      TranslateWellFormed(env, e);
    case Declare(typ, n, e) =>
      TypeTurns(env, typ);
      TranslateWellFormed(env, e);
    case Sincos(a, s, d) =>
      TranslateWellFormed(env, a);
      TargetTranslates(env, s);
      TargetTranslates(env, d);
      VarWellFormed(c);
  }

  lemma {:induction false} TypeTurns(env: Env, typ: string)
    requires typ !in KEYWORDS && Word(env, typ)
    ensures Rename(typ) !in KEYWORDS
  {
    RenamedWords(typ);
  }

  lemma {:induction false} VarWellFormed(c: nat)
    ensures var v := Atom(SincosVar(c)); WellFormed(Call("sin", [v])) && WellFormed(Call("cos", [v]))
  {
  }

  lemma {:induction false} TurnedWellFormed(env: Env, x: Stmt, c: nat)
    requires WellFormedStmt(x) && HlslStmt(env, x) && Turn(env, x, c).Some?
    ensures var r := Turn(env, x, c).value;
            WellFormedStmt(r.first) && WellFormedStmts(r.more) && (!EndsOpen(x) ==> !EndsOpen(r.first))
    decreases x, 1
  {
    hide Translate, Hlsl, WellFormed, TurnSimple;
    match x
    case Braces(xs) => TurnedAllWellFormed(env, xs, c);
    case If(t, y) =>
      TranslateWellFormed(env, t);
      TurnedWellFormed(env, y, c);
    case IfElse(t, y, n) =>
      TranslateWellFormed(env, t);
      TurnedWellFormed(env, y, c);
      TurnedWellFormed(env, n, c + Counted(y));
    case For(i, t, s, b) =>
      TranslateWellFormed(env, t);
      SimpleTurns(env, i, c);
      SimpleTurns(env, s, c);
      TurnedWellFormed(env, b, c);
    case Return(e) => TranslateWellFormed(env, e);
    case _ => SimpleTurns(env, x, c);
  }

  lemma {:induction false} TurnedAllWellFormed(env: Env, xs: seq<Stmt>, c: nat)
    requires HlslStmts(env, xs) && TurnAll(env, xs, c).Some?
    ensures WellFormedStmts(TurnAll(env, xs, c).value)
    decreases xs, 0
  {
    if xs != [] {
      hide WellFormedStmt, HlslStmt;
      TurnedWellFormed(env, xs[0], c);
      TurnedAllWellFormed(env, xs[1..], c + Counted(xs[0]));
    }
  }

  /** Without sincos calls in headers and in front of an else, the text is that of the turned statements. */
  lemma {:induction false} TurnedPrints(env: Env, x: Stmt, c: nat, k: seq<Token>)
    requires WellFormedStmt(x) && HlslStmt(env, x) && Turn(env, x, c).Some?
    ensures var r := Turn(env, x, c).value;
            && WellFormedStmt(r.first) && WellFormedStmts(r.more)
            && WriteStmt(env, x, c, k) == PrintStmt(r.first, PrintStmts(r.more, k))
    decreases x, 1
  {
    hide Translate, Hlsl, WellFormed, TurnSimple, Print;
    TurnedWellFormed(env, x, c);
    match x
    case Braces(xs) => TurnedAllPrints(env, xs, c, [RBRACE] + k);
    case If(t, y) => TurnedPrints(env, y, c, k);
    case IfElse(t, y, n) =>
      TurnedPrints(env, n, c + Counted(y), k);
      TurnedPrints(env, y, c, [ELSE] + WriteStmt(env, n, c + Counted(y), k));
    case For(i, t, s, b) =>
      ForCounts(x);
      TurnedPrints(env, b, c, k);
      SimpleOnce(env, i, c);
      SimpleOnce(env, s, c);
    case Return(e) =>
    case _ => SimplePrints(env, x, c, k);
  }

  lemma {:induction false} ForCounts(x: Stmt)
    requires x.For? && WellFormedStmt(x) && !x.first.Sincos? && !x.step.Sincos?
    ensures Counted(x.first) == 0 && Counted(x.step) == 0
  {
  }

  lemma {:induction false} SimpleOnce(env: Env, x: Stmt, c: nat)
    requires Simple(x) && !x.Sincos?
    ensures TurnSimple(env, x, c).1 == []
    ensures forall k :: WriteSimple(env, x, c, k) == PrintSimple(TurnSimple(env, x, c).0, k)
  {
  }

  lemma {:induction false} SimplePrints(env: Env, x: Stmt, c: nat, k: seq<Token>)
    requires Simple(x) && WellFormedStmt(x) && HlslStmt(env, x)
    ensures var (y, more) := TurnSimple(env, x, c);
            && WellFormedStmt(y) && WellFormedStmts(more)
            && WriteSimple(env, x, c, [SEMICOLON] + k) == PrintStmt(y, PrintStmts(more, k))
  {
    hide TurnSimple, PrintSimple;
    SimpleTurns(env, x, c);
    RowPrints(TurnSimple(env, x, c).0, TurnSimple(env, x, c).1, k);
  }

  lemma {:induction false} RowPrints(y: Stmt, more: seq<Stmt>, k: seq<Token>)
    requires Simple(y) && WellFormedStmt(y) && WellFormedStmts(more) && forall z :: z in more ==> Simple(z)
    ensures PrintRow(y, more, [SEMICOLON] + k) == PrintStmt(y, PrintStmts(more, k))
    decreases |more|
  {
    hide PrintSimple;
    if more != [] {
      RowPrints(more[0], more[1..], k);
    }
  }

  lemma {:induction false} TurnedAllPrints(env: Env, xs: seq<Stmt>, c: nat, k: seq<Token>)
    requires HlslStmts(env, xs) && TurnAll(env, xs, c).Some?
    ensures var ys := TurnAll(env, xs, c).value; WellFormedStmts(ys) && WriteStmts(env, xs, c, k) == PrintStmts(ys, k)
    decreases xs, 0
  {
    if xs != [] {
      HlslRest(env, xs);
      hide WellFormedStmt, HlslStmt, WriteStmt, PrintStmts, Turn, Counted, WellFormedStmts;
      var n := c + Counted(xs[0]);
      TurnedAllPrints(env, xs[1..], n, k);
      PieceTurned(env, xs[0], c, TurnAll(env, xs[1..], n).value, k);
    } else {
      assert WellFormedStmts([]) && PrintStmts([], k) == k;
    }
  }

  lemma {:induction false} HlslRest(env: Env, xs: seq<Stmt>)
    requires HlslStmts(env, xs) && xs != []
    ensures WellFormedStmt(xs[0]) && HlslStmt(env, xs[0]) && HlslStmts(env, xs[1..]) && WellFormedStmts(xs[1..])
  {
  }

  lemma {:induction false} PieceTurned(env: Env, x: Stmt, c: nat, ys: seq<Stmt>, k: seq<Token>)
    requires WellFormedStmt(x) && HlslStmt(env, x) && Turn(env, x, c).Some? && WellFormedStmts(ys)
    ensures var r := Turn(env, x, c).value;
            && WellFormedStmts([r.first] + r.more + ys)
            && WriteStmt(env, x, c, PrintStmts(ys, k)) == PrintStmts([r.first] + r.more + ys, k)
    decreases x, 2
  {
    hide WellFormedStmt, HlslStmt, WriteStmt, PrintStmt, Turn;
    var r, m := Turn(env, x, c).value, PrintStmts(ys, k);
    TurnedPrints(env, x, c, m);
    StmtsConcat(r.more, ys, k);
    StmtsConcat([r.first], r.more + ys, k);
    assert [r.first] + (r.more + ys) == [r.first] + r.more + ys;
    assert [r.first][1..] == [];
  }

  lemma {:induction false} StmtsConcat(a: seq<Stmt>, b: seq<Stmt>, k: seq<Token>)
    requires WellFormedStmts(a) && WellFormedStmts(b)
    ensures WellFormedStmts(a + b) && PrintStmts(a + b, k) == PrintStmts(a, PrintStmts(b, k))
  {
    if a == [] {
      assert a + b == b;
    } else {
      assert (a + b)[1..] == a[1..] + b;
      StmtsConcat(a[1..], b, k);
    }
  }

  // ---- and where it does not read as a program ----

  /** No statement is read, or one with something wrong behind it. */
  predicate Broken(s: seq<Token>) {
    match ParseStmt(s)
    case NoParse => true
    case Parsed(_, rest) => NoElse(rest) && ParseStmts(rest).NoParse?
  }

  /** A row of assignments and then an else. */
  lemma {:induction false} ElseBehind(more: seq<Stmt>, k: seq<Token>)
    requires WellFormedStmts(more) && forall y :: y in more ==> y.Assign?
    ensures ParseStmts(PrintStmts(more, [ELSE] + k)).NoParse?
    decreases more
  {
    hide WellFormedStmt, ParseStmt, PrintStmt;
    if more == [] {
      ElseFails(k);
    } else {
      var m := PrintStmts(more[1..], [ELSE] + k);
      AssignReads(more[0], m);
      StmtBegins(more[0], m);
      ElseBehind(more[1..], k);
    }
  }

  lemma {:induction false} ElseFails(k: seq<Token>)
    ensures ParseStmts([ELSE] + k).NoParse?
  {
  }

  lemma {:induction false} AssignReads(x: Stmt, k: seq<Token>)
    requires WellFormedStmt(x) && x.Assign?
    ensures ParseStmt(PrintStmt(x, k)) == Parsed(x, k)
  {
    StmtReads(x, k);
  }

  lemma {:induction false} AssignBegins(more: seq<Stmt>, k: seq<Token>)
    requires WellFormedStmts(more) && more != []
    ensures NoElse(PrintStmts(more, k))
  {
    StmtBegins(more[0], PrintStmts(more[1..], k));
  }

  /** Where the text does not turn into statements, no parser reads it to its end. */
  lemma {:induction false} TurnFails(env: Env, x: Stmt, c: nat, k: seq<Token>)
    requires WellFormedStmt(x) && HlslStmt(env, x) && Turn(env, x, c).None?
    ensures Broken(WriteStmt(env, x, c, k))
    decreases x, 1
  {
    hide Translate, Hlsl, WellFormed, Print, ParseStmt, PrintStmt, WriteSimple;
    match x
    case Braces(xs) =>
      TurnAllFails(env, xs, c, [RBRACE] + k);
      BracesFail(WriteStmts(env, xs, c, [RBRACE] + k));
    case If(t, y) =>
      TurnFails(env, y, c, k);
      TranslateWellFormed(env, t);
      IfReads(Translate(env, t), WriteStmt(env, y, c, k));
    case IfElse(t, y, n) =>
      ElseTurnFails(env, x, c, k);
    case For(i, _, s, _) =>
      if i.Sincos? || s.Sincos? {
        HeaderFails(env, x, c, k);
      } else {
        ForTurnFails(env, x, c, k);
      }
    case Return(e) => assert false;
    case _ => assert false;
  }

  lemma {:induction false} BracesFail(s: seq<Token>)
    requires ParseStmts(s).NoParse?
    ensures ParseStmt([LBRACE] + s).NoParse?
  {
    assert ([LBRACE] + s)[1..] == s;
  }

  lemma {:induction false} ForTurnFails(env: Env, x: Stmt, c: nat, k: seq<Token>)
    requires x.For? && WellFormedStmt(x) && HlslStmt(env, x) && Turn(env, x, c).None?
    requires !x.first.Sincos? && !x.step.Sincos?
    ensures Broken(WriteStmt(env, x, c, k))
    decreases x, 0
  {
    hide Translate, Hlsl, WellFormed, Print, ParseStmt, PrintStmt, WriteSimple, TurnSimple;
    var i, t, s, b := x.first, x.test, x.step, x.each;
    ForCounts(x);
    TurnFails(env, b, c, k);
    TranslateWellFormed(env, t);
    SimpleOnce(env, i, c);
    SimpleOnce(env, s, c);
    SimpleTurns(env, i, c);
    SimpleTurns(env, s, c);
    ForReads(TurnSimple(env, i, c).0, Translate(env, t), TurnSimple(env, s, c).0, WriteStmt(env, b, c, k));
  }

  lemma {:induction false} ElseTurnFails(env: Env, x: Stmt, c: nat, k: seq<Token>)
    requires x.IfElse? && WellFormedStmt(x) && HlslStmt(env, x) && Turn(env, x, c).None?
    ensures Broken(WriteStmt(env, x, c, k))
    decreases x, 0
  {
    hide Translate, Hlsl, WellFormed, Print, ParseStmt, PrintStmt;
    var t, y, n := x.test, x.yes, x.no;
    var w := WriteStmt(env, n, c + Counted(y), k);
    var s := WriteStmt(env, y, c, [ELSE] + w);
    TranslateWellFormed(env, t);
    IfReads(Translate(env, t), s);
    if Turn(env, y, c).None? {
      TurnFails(env, y, c, [ELSE] + w);
    } else {
      var r := Turn(env, y, c).value;
      TurnedPrints(env, y, c, [ELSE] + w);
      TurnedWellFormed(env, y, c);
      var m := PrintStmts(r.more, [ELSE] + w);
      StmtReads(r.first, m);
      if r.more != [] {
        AssignBegins(r.more, [ELSE] + w);
        ElseBehind(r.more, w);
      } else {
        TurnFails(env, n, c + Counted(y), k);
        assert ([ELSE] + w)[1..] == w;
      }
    }
  }

  lemma {:induction false} TurnAllFails(env: Env, xs: seq<Stmt>, c: nat, k: seq<Token>)
    requires HlslStmts(env, xs) && TurnAll(env, xs, c).None? && NoElse(k)
    ensures ParseStmts(WriteStmts(env, xs, c, k)).NoParse?
    decreases xs, 0
  {
    hide WellFormedStmt, HlslStmt, Turn, ParseStmt, PrintStmt;
    var n := c + Counted(xs[0]);
    var m := WriteStmts(env, xs[1..], n, k);
    WriteBegins(env, xs[0], c, m);
    if Turn(env, xs[0], c).None? {
      TurnFails(env, xs[0], c, m);
    } else {
      var r := Turn(env, xs[0], c).value;
      TurnAllFails(env, xs[1..], n, k);
      TurnedPrints(env, xs[0], c, m);
      WritesBegin(env, xs[1..], n, k);
      StmtsRead([r.first] + r.more, m);
      StmtsConcat([r.first], r.more, m);
      assert [r.first][1..] == [];
    }
  }

  lemma {:induction false} WriteBegins(env: Env, x: Stmt, c: nat, k: seq<Token>)
    requires WellFormedStmt(x) && HlslStmt(env, x)
    ensures Begins(WriteStmt(env, x, c, k))
  {
    if Simple(x) {
      hide PrintSimple, TurnSimple, PrintStmt;
      SimplePrints(env, x, c, k);
      var (y, more) := TurnSimple(env, x, c);
      StmtBegins(y, PrintStmts(more, k));
    }
  }

  lemma {:induction false} WritesBegin(env: Env, xs: seq<Stmt>, c: nat, k: seq<Token>)
    requires HlslStmts(env, xs) && NoElse(k)
    ensures NoElse(WriteStmts(env, xs, c, k))
  {
    if xs != [] {
      hide WellFormedStmt, HlslStmt, WriteStmt;
      WriteBegins(env, xs[0], c, WriteStmts(env, xs[1..], c + Counted(xs[0]), k));
    }
  }

  /** A sincos call in a header leaves a semicolon too many. */
  lemma {:induction false} HeaderFails(env: Env, x: Stmt, c: nat, k: seq<Token>)
    requires x.For? && WellFormedStmt(x) && HlslStmt(env, x) && (x.first.Sincos? || x.step.Sincos?)
    ensures ParseStmt(WriteStmt(env, x, c, k)).NoParse?
  {
    hide Translate, Hlsl, WellFormed, Print, PrintSimple, ParseExpr, ParseSimple, TurnSimple;
    var i, t, s := x.first, Translate(env, x.test), x.step;
    var n := c + Counted(i);
    var b := WriteStmt(env, x.each, n + Counted(s), k);
    var (i1, i2) := TurnSimple(env, i, c);
    var (s1, s2) := TurnSimple(env, s, n);
    SimpleTurns(env, i, c);
    SimpleTurns(env, s, n);
    TranslateWellFormed(env, x.test);
    var p3 := PrintRow(s1, s2, [RPAREN] + b);
    var p2 := Print(t, [SEMICOLON] + p3);
    var p1 := PrintRow(i1, i2, [SEMICOLON] + p2);
    var q := [FOR] + ([LPAREN] + p1);
    assert q[0] == FOR && q[1..] == [LPAREN] + p1 && q[2..] == p1;
    assert WriteStmt(env, x, c, k) == q && ParseStmt(q) == ParseFor(q);
    if i.Sincos? {
      SincosTurns(env, i, c);
      var m := PrintRow(i2[0], i2[1..], [SEMICOLON] + p2);
      SimpleReads(i1, SEMICOLON, m);
      AssignNotAlone(i2[0], i2[1..], [SEMICOLON] + p2);
      assert ([SEMICOLON] + m)[1..] == m;
    } else {
      SimpleOnce(env, i, c);
      SimpleReads(i1, SEMICOLON, p2);
      assert ([SEMICOLON] + p2)[1..] == p2;
      SincosTurns(env, s, n);
      ReadsTo(t, SEMICOLON, p3);
      var m := PrintRow(s2[0], s2[1..], [RPAREN] + b);
      SimpleReads(s1, SEMICOLON, m);
    }
  }

  lemma {:induction false} SincosTurns(env: Env, x: Stmt, c: nat)
    requires x.Sincos?
    ensures var (y, more) := TurnSimple(env, x, c); |more| == 2 && more[0].Assign?
  {
  }

  /** An assignment read as an expression stops on its equals sign. */
  lemma {:induction false} AssignNotAlone(x: Stmt, more: seq<Stmt>, k: seq<Token>)
    requires x.Assign? && WellFormedStmt(x) && more != [] && forall y :: y in more ==> Simple(y)
    ensures var s := ParseExpr(PrintRow(x, more, k)); s.Parsed? && !StartsWith(s.rest, SEMICOLON)
  {
    hide ParseExpr, Print, WellFormed;
    var m := [SEMICOLON] + PrintRow(more[0], more[1..], k);
    var w := Print(x.value, m);
    LeadingPrints(x.value, m);
    ReadsTo(x.target, EQUALS, w);
  }

  /** The whole body: its text reads as the turned statements, or as nothing. */
  lemma {:induction false} BodyReads(env: Env, xs: seq<Stmt>, c: nat)
    requires HlslStmts(env, xs)
    ensures ParseStmts(WriteStmts(env, xs, c, [])) == match TurnAll(env, xs, c)
                                                      case None => NoParse
                                                      case Some(ys) => Parsed(ys, [])
  {
    hide WellFormedStmt, HlslStmt, WriteStmts;
    if TurnAll(env, xs, c).None? {
      TurnAllFails(env, xs, c, []);
    } else {
      var ys := TurnAll(env, xs, c).value;
      TurnedAllPrints(env, xs, c, []);
      StmtsRead(ys, []);
      assert ys + [] == ys;
    }
  }
}
