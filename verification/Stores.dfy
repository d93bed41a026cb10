/** What statements do to a store, under a reading of expressions: assignments through places, blocks and branches
    as scopes, loops. */
module Stores {
  import opened Tokens
  import opened Expressions
  import opened Statements
  import opened Options

  type Store<V> = map<string, V>

  datatype Selector<V> = Field(name: string) | Element(index: V)

  /** A variable, or a part of one. */
  datatype Place<V> = Place(root: string, path: seq<Selector<V>>)

  /** A reading of expressions, with writing a part of a value, turning a value into one of a declared type, if
      that is allowed, and conditions. */
  datatype Machine<!V> = Machine(
    read: Meaning<V>,
    put: (V, seq<Selector<V>>, V) -> V,
    convert: (string, V) -> Option<V>,
    holds: V -> bool)

  /** Expressions that can be assigned to. */
  predicate IsPlace(e: Expr) {
    match e
    case Atom(t) => t.kind.Name?
    case Paren(x) => IsPlace(x)
    case Member(o, _) => IsPlace(o)
    case Index(a, _) => IsPlace(a)
    case _ => false
  }

  /** What names mean in a store. */
  function In<V>(m: Meaning<V>, s: Store<V>): Meaning<V> {
    m.(atom := (t: Token) => if t.kind.Name? && t.text in s then s[t.text] else m.atom(t))
  }

  function PlaceOf<V>(m: Meaning<V>, e: Expr): Place<V>
    requires IsPlace(e)
  {
    match e
    case Atom(t) => Place(t.text, [])
    case Paren(x) => PlaceOf(m, x)
    case Member(o, f) =>
      var p := PlaceOf(m, o);
      p.(path := p.path + [Field(f)])
    case Index(a, i) =>
      var p := PlaceOf(m, a);
      p.(path := p.path + [Element(Eval(i, m))])
  }

  /** The root's value before an assignment to a part of it. */
  function Before<V>(m: Machine<V>, s: Store<V>, p: Place<V>): V {
    In(m.read, s).atom(Ident(p.root))
  }

  function Written<V>(m: Machine<V>, s: Store<V>, p: Place<V>, v: V): Store<V> {
    s[p.root := m.put(Before(m, s, p), p.path, v)]
  }

  /** How a run ends: it goes on, it returns, something in it is not allowed, or it takes more turns of its loops
      than were looked at. */
  datatype End<V> = Next(store: Store<V>) | Returned(value: V) | Stuck | Spent

  /** What a run does on its way. */
  datatype Event<V> =
    | Evaluates(e: Expr, at: Store<V>)
    | Chooses(e: Expr, at: Store<V>)
    | Puts(p: Place<V>, v: V, at: Store<V>)
    | Converts(typ: string, v: V)
    | Turns(v: V)
    | Steady(e: Expr, at: Store<V>, later: Store<V>)
    | Tests(v: V)

  datatype Run<V> = Run(end: End<V>, events: seq<Event<V>>)

  function Behind<V>(events: seq<Event<V>>, r: Run<V>): Run<V> {
    r.(events := events + r.events)
  }

  /** The variables that are declared inside come to an end. */
  function Restore<V>(outer: Store<V>, inner: Store<V>, locals: set<string>): Store<V> {
    map n | n in outer.Keys + inner.Keys && (if n in locals then n in outer else n in inner)
      :: if n in locals then outer[n] else inner[n]
  }

  function Leave<V>(outer: Store<V>, r: Run<V>, locals: set<string>): Run<V> {
    match r.end
    case Next(s) => r.(end := Next(Restore(outer, s, locals)))
    case _ => r
  }

  function AssignTo<V>(m: Machine<V>, t: Expr, v: V, s: Store<V>): Run<V> {
    if !IsPlace(t) then Run(Stuck, [])
    else
      var p := PlaceOf(In(m.read, s), t);
      Run(Next(Written(m, s, p, v)), [Chooses(t, s), Puts(p, v, s)])
  }

  /** sincos finds out where its two results go before it writes either. */
  function SincosTo<V>(m: Machine<V>, v: V, s: Expr, d: Expr, at: Store<V>): Run<V> {
    if !IsPlace(s) || !IsPlace(d) then Run(Stuck, [])
    else
      var p, q := PlaceOf(In(m.read, at), s), PlaceOf(In(m.read, at), d);
      var sine, cosine := m.read.call("sin", [v]), m.read.call("cos", [v]);
      var later := Written(m, at, p, sine);
      Run(Next(Written(m, later, q, cosine)),
          [Turns(v), Chooses(s, at), Puts(p, sine, at), Chooses(d, later), Steady(d, at, later),
           Puts(q, cosine, later)])
  }

  function Exec<V>(m: Machine<V>, x: Stmt, s: Store<V>, fuel: nat): Run<V>
    decreases fuel, x, 2
  {
    match x
    case Assign(t, e) => Behind([Evaluates(e, s)], AssignTo(m, t, Eval(e, In(m.read, s)), s))
    case Update(op, t, e) =>
      var whole := Binary(op, t, e);
      Behind([Evaluates(whole, s)], AssignTo(m, t, Eval(whole, In(m.read, s)), s))
    case Declare(typ, n, e) =>
      var v := Eval(e, In(m.read, s));
      Run(match m.convert(typ, v) case None => Stuck case Some(w) => Next(s[n := w]),
          [Evaluates(e, s), Converts(typ, v)])
    case Sincos(a, sine, cosine) => Behind([Evaluates(a, s)], SincosTo(m, Eval(a, In(m.read, s)), sine, cosine, s))
    case Braces(xs) => Leave(s, ExecAll(m, xs, s, fuel), DeclaredIn(xs))
    case If(t, y) =>
      var v := Eval(t, In(m.read, s));
      Behind([Evaluates(t, s), Tests(v)], if m.holds(v) then ExecIn(m, y, s, fuel) else Run(Next(s), []))
    case IfElse(t, y, n) =>
      var v := Eval(t, In(m.read, s));
      Behind([Evaluates(t, s), Tests(v)], if m.holds(v) then ExecIn(m, y, s, fuel) else ExecIn(m, n, s, fuel))
    case For(i, _, _, _) =>
      var r := Exec(m, i, s, fuel);
      if r.end.Next? then Behind(r.events, Leave(s, Loop(m, x, r.end.store, fuel), Declares(i))) else r
    case Return(e) => Run(Returned(Eval(e, In(m.read, s))), [Evaluates(e, s)])
  }

  /** A branch or the body of a loop: a scope of its own. */
  function ExecIn<V>(m: Machine<V>, x: Stmt, s: Store<V>, fuel: nat): Run<V>
    decreases fuel, x, 3
  {
    Leave(s, Exec(m, x, s, fuel), Declares(x))
  }

  function Loop<V>(m: Machine<V>, x: Stmt, s: Store<V>, fuel: nat): Run<V>
    requires x.For?
    decreases fuel, x, 1
  {
    if fuel == 0 then Run(Spent, [])
    else
      var v := Eval(x.test, In(m.read, s));
      Behind([Evaluates(x.test, s), Tests(v)],
             if !m.holds(v) then Run(Next(s), []) else Round(m, x, s, fuel))
  }

  /** A turn of a loop whose condition holds, and the turns after it. */
  function Round<V>(m: Machine<V>, x: Stmt, s: Store<V>, fuel: nat): Run<V>
    requires x.For? && fuel > 0
    decreases fuel, x, 0
  {
    var r := ExecIn(m, x.each, s, fuel);
    if !r.end.Next? then r
    else
      var q := Exec(m, x.step, r.end.store, fuel);
      if !q.end.Next? then Behind(r.events, q) else Behind(r.events + q.events, Loop(m, x, q.end.store, fuel - 1))
  }

  function ExecAll<V>(m: Machine<V>, xs: seq<Stmt>, s: Store<V>, fuel: nat): Run<V>
    decreases fuel, xs, 0
  {
    if xs == [] then Run(Next(s), [])
    else
      var r := Exec(m, xs[0], s, fuel);
      if r.end.Next? then Behind(r.events, ExecAll(m, xs[1..], r.end.store, fuel)) else r
  }

  // ---- names that play no part ----

  /** The stores agree on the names. */
  predicate AgreeOn<V(==)>(s: Store<V>, t: Store<V>, names: set<string>) {
    forall n :: n in names ==> (n in s <==> n in t) && (n in s ==> s[n] == t[n])
  }

  lemma {:induction false} EvalSame<V>(m: Meaning<V>, e: Expr, s: Store<V>, t: Store<V>)
    requires AgreeOn(s, t, Names(e))
    ensures Eval(e, In(m, s)) == Eval(e, In(m, t))
    decreases e, 1
  {
    match e
    case Atom(_) =>
    case Paren(x) => EvalSame(m, x, s, t);
    case Call(_, args) => EvalSameAll(m, args, s, t);
    case Method(o, _, args) =>
      EvalSame(m, o, s, t);
      EvalSameAll(m, args, s, t);
    case Member(o, _) => EvalSame(m, o, s, t);
    case Index(a, i) =>
      EvalSame(m, a, s, t);
      EvalSame(m, i, s, t);
    case Unary(_, x) => EvalSame(m, x, s, t);
    case Binary(_, l, r) =>
      EvalSame(m, l, s, t);
      EvalSame(m, r, s, t);
    case Cond(c, y, n) =>
      EvalSame(m, c, s, t);
      EvalSame(m, y, s, t);
      EvalSame(m, n, s, t);
  }

  lemma {:induction false} EvalSameAll<V>(m: Meaning<V>, args: seq<Expr>, s: Store<V>, t: Store<V>)
    requires AgreeOn(s, t, NamesAll(args))
    ensures EvalArgs(args, In(m, s)) == EvalArgs(args, In(m, t))
    decreases args, 0
  {
    if args != [] {
      EvalSame(m, args[0], s, t);
      EvalSameAll(m, args[1..], s, t);
    }
  }

  lemma {:induction false} PlaceSame<V>(m: Meaning<V>, e: Expr, s: Store<V>, t: Store<V>)
    requires IsPlace(e) && AgreeOn(s, t, Names(e))
    ensures PlaceOf(In(m, s), e) == PlaceOf(In(m, t), e)
    ensures PlaceOf(In(m, s), e).root in Names(e)
    decreases e
  {
    match e
    case Atom(_) =>
    case Paren(x) => PlaceSame(m, x, s, t);
    case Member(o, _) => PlaceSame(m, o, s, t);
    case Index(a, i) =>
      PlaceSame(m, a, s, t);
      EvalSame(m, i, s, t);
  }

  lemma {:induction false} ExecConcat<V>(m: Machine<V>, a: seq<Stmt>, b: seq<Stmt>, s: Store<V>, fuel: nat)
    ensures var r := ExecAll(m, a, s, fuel);
            ExecAll(m, a + b, s, fuel).end == if r.end.Next? then ExecAll(m, b, r.end.store, fuel).end else r.end
  {
    if a == [] {
      assert a + b == b;
    } else {
      assert (a + b)[1..] == a[1..] + b && (a + b)[0] == a[0];
      var r := Exec(m, a[0], s, fuel);
      if r.end.Next? {
        ExecConcat(m, a[1..], b, r.end.store, fuel);
      }
    }
  }

  lemma {:induction false} ExecOne<V>(m: Machine<V>, x: Stmt, s: Store<V>, fuel: nat)
    ensures ExecAll(m, [x], s, fuel).end == Exec(m, x, s, fuel).end
  {
    assert [x][1..] == [];
    var r := Exec(m, x, s, fuel);
    if r.end.Next? {
      assert ExecAll(m, [], r.end.store, fuel) == Run(Next(r.end.store), []);
    }
  }
}
