/** What a transpiled body does: from the same store it ends as the source does, apart from the temporaries of its
    sincos calls (libobs-opengl/gl-shaderparser.c:316-358, 492-553). */
module GlStores {
  import opened Tokens
  import opened Expressions
  import opened Statements
  import opened Stores
  import opened GlStream
  import opened Options
  import opened GlTranslation
  import opened GlMeaning
  import opened GlExact
  import opened GlReadings
  import opened GlBodies
  import opened GlShaderParser
  import opened GlSamplers
  import opened GlStatements
  import opened GlScopes

  /** A shader's names and the samplers its textures end up with, and machines for HLSL and GLSL. */
  datatype Languages<!V> = Languages(env: Env, bound: map<string, nat>, h: Machine<V>, g: Machine<V>)

  // ---- what the languages have to do alike ----

  /** The subscripts in a place are read alike. */
  predicate SubscriptsRead<V(==)>(env: Env, bound: map<string, nat>, e: Expr, h: Meaning<V>, g: Meaning<V>) {
    match e
    case Paren(x) => SubscriptsRead(env, bound, x, h, g)
    case Member(o, _) => SubscriptsRead(env, bound, o, h, g)
    case Index(a, i) => SubscriptsRead(env, bound, a, h, g) && Reads(env, bound, i, h, g)
    case _ => true
  }

  /** One thing that a run of the source does, which the languages do alike. Sincos turns its angle into a float,
      so it has to be one; and its second result has to go where it went before the first was written. */
  predicate DoneAlike<V(==)>(l: Languages<V>, e: Event<V>) {
    match e
    case Evaluates(x, s) => Reads(l.env, l.bound, x, In(l.h.read, s), In(l.g.read, s))
    case Chooses(x, s) => SubscriptsRead(l.env, l.bound, x, In(l.h.read, s), In(l.g.read, s))
    case Puts(p, v, s) =>
      var was := Before(l.h, s, p);
      Before(l.g, s, p) == was && l.g.put(was, p.path, v) == l.h.put(was, p.path, v)
    case Converts(typ, v) => l.g.convert(Rename(typ), v) == l.h.convert(typ, v)
    case Turns(v) =>
      && l.g.convert("float", v) == Some(v)
      && l.g.read.call("sin", [v]) == l.h.read.call("sin", [v])
      && l.g.read.call("cos", [v]) == l.h.read.call("cos", [v])
    case Steady(x, s, later) =>
      IsPlace(x) ==> PlaceOf(In(l.h.read, later), x) == PlaceOf(In(l.h.read, s), x)
    case Tests(v) => l.g.holds(v) == l.h.holds(v)
  }

  predicate AllAlike<V(==)>(l: Languages<V>, events: seq<Event<V>>) {
    forall e :: e in events ==> DoneAlike(l, e)
  }

  /** The functions of all expressions exist in GLSL, and their texture calls name the samplers that end up bound. */
  predicate StmtAgrees(env: Env, bound: map<string, nat>, x: Stmt) {
    match x
    case Assign(t, e) => Agrees(env, bound, t) && Agrees(env, bound, e)
    case Update(_, t, e) => Agrees(env, bound, t) && Agrees(env, bound, e)
    case Declare(_, _, e) => Agrees(env, bound, e)
    case Sincos(a, s, d) => Agrees(env, bound, a) && Agrees(env, bound, s) && Agrees(env, bound, d)
    case Braces(xs) => forall y :: y in xs ==> StmtAgrees(env, bound, y)
    case If(t, y) => Agrees(env, bound, t) && StmtAgrees(env, bound, y)
    case IfElse(t, y, n) => Agrees(env, bound, t) && StmtAgrees(env, bound, y) && StmtAgrees(env, bound, n)
    case For(i, t, s, b) =>
      StmtAgrees(env, bound, i) && Agrees(env, bound, t) && StmtAgrees(env, bound, s) && StmtAgrees(env, bound, b)
    case Return(e) => Agrees(env, bound, e)
  }

  /** A statement of the source. */
  predicate Source<V>(l: Languages<V>, x: Stmt) {
    && WellFormedStmt(x) && HlslStmt(l.env, x) && OwnNames(x) && StmtAgrees(l.env, l.bound, x) && Known(l.env, l.bound)
    && Braced(x)
  }

  predicate SourceAll<V>(l: Languages<V>, xs: seq<Stmt>) {
    forall x :: x in xs ==> Source(l, x)
  }

  // ---- equal stores, apart from temporaries ----

  predicate Same<V(==)>(s: Store<V>, t: Store<V>) {
    forall n :: n in s.Keys + t.Keys && !Internal(n) ==> n in s && n in t && s[n] == t[n]
  }

  predicate SameEnd<V(==)>(a: End<V>, b: End<V>) {
    if a.Next? && b.Next? then Same(a.store, b.store) else a == b
  }

  lemma {:induction false} SameOn<V>(s: Store<V>, t: Store<V>, names: set<string>)
    requires Same(s, t) && Own(names)
    ensures AgreeOn(s, t, names)
  {
    forall n | n in names
      ensures (n in s <==> n in t) && (n in s ==> s[n] == t[n])
    {
      assert !Internal(n);
      if n in s || n in t {
        assert n in s.Keys + t.Keys;
      }
    }
  }

  lemma {:induction false} SameSet<V>(s: Store<V>, t: Store<V>, n: string, v: V)
    requires Same(s, t)
    ensures Same(s[n := v], t[n := v])
    ensures Internal(n) ==> Same(s, t[n := v])
  {
    forall m | m in s[n := v].Keys + t[n := v].Keys && !Internal(m)
      ensures m in s[n := v] && m in t[n := v] && s[n := v][m] == t[n := v][m]
      ensures Internal(n) ==> m in s && m in t && s[m] == t[n := v][m]
    {
      if m != n {
        assert m in s.Keys + t.Keys;
      }
    }
  }

  lemma {:induction false} SameRestore<V>(s: Store<V>, t: Store<V>, s': Store<V>, t': Store<V>, a: set<string>,
                                          b: set<string>)
    requires Same(s, t) && Same(s', t') && forall n :: n in a + b && !Internal(n) ==> n in a && n in b
    ensures Same(Restore(s, s', a), Restore(t, t', b))
  {
    var x, y := Restore(s, s', a), Restore(t, t', b);
    forall n | n in x.Keys + y.Keys && !Internal(n)
      ensures n in x && n in y && x[n] == y[n]
    {
      assert n in a <==> n in b by {
        if n in a || n in b {
          assert n in a + b;
        }
      }
      if n in a {
        assert n in s || n in t;
        assert n in s.Keys + t.Keys;
      } else {
        assert n in s' || n in t';
        assert n in s'.Keys + t'.Keys;
      }
    }
  }

  // ---- values and places ----

  lemma {:induction false} ValueKept<V>(l: Languages<V>, e: Expr, s: Store<V>, t: Store<V>)
    requires Hlsl(l.env, e) && Own(Names(e)) && Agrees(l.env, l.bound, e) && Known(l.env, l.bound) && Same(s, t)
    requires Reads(l.env, l.bound, e, In(l.h.read, s), In(l.g.read, s))
    ensures Eval(Translate(l.env, e), In(l.g.read, t)) == Eval(e, In(l.h.read, s))
  {
    hide Reads, Hlsl, Agrees, Known, Own, Same, In;
    TranslateMeans(l.env, l.bound, e, In(l.h.read, s), In(l.g.read, s));
    OwnTranslates(l.env, e, {});
    SameOn(s, t, Names(Translate(l.env, e)));
    EvalSame(l.g.read, Translate(l.env, e), s, t);
  }

  lemma {:induction false} PlaceTranslates(env: Env, e: Expr)
    requires Hlsl(env, e)
    ensures IsPlace(Translate(env, e)) <==> IsPlace(e)
    decreases e
  {
    match e
    case Paren(x) => PlaceTranslates(env, x);
    case Member(o, _) => PlaceTranslates(env, o);
    case Index(a, _) => PlaceTranslates(env, a);
    case _ =>
  }

  lemma {:induction false} PlaceKept<V>(l: Languages<V>, e: Expr, s: Store<V>, t: Store<V>)
    requires IsPlace(e) && Hlsl(l.env, e) && Own(Names(e)) && Agrees(l.env, l.bound, e) && Known(l.env, l.bound)
    requires Same(s, t) && SubscriptsRead(l.env, l.bound, e, In(l.h.read, s), In(l.g.read, s))
    ensures IsPlace(Translate(l.env, e))
    ensures PlaceOf(In(l.g.read, t), Translate(l.env, e)) == PlaceOf(In(l.h.read, s), e)
    ensures !Internal(PlaceOf(In(l.h.read, s), e).root)
    decreases e
  {
    hide Reads, Known, Same, In, Bindings;
    match e
    case Atom(_) =>
    case Paren(x) => PlaceKept(l, x, s, t);
    case Member(o, _) => PlaceKept(l, o, s, t);
    case Index(a, i) =>
      BindingsConcat(l.bound, Binds(l.env, a), Binds(l.env, i));
      PlaceKept(l, a, s, t);
      ValueKept(l, i, s, t);
  }

  lemma {:induction false} PutKept<V>(l: Languages<V>, p: Place<V>, v: V, s: Store<V>, t: Store<V>)
    requires Same(s, t) && !Internal(p.root) && DoneAlike(l, Puts(p, v, s))
    ensures Same(Written(l.h, s, p, v), Written(l.g, t, p, v))
  {
    SameOn(s, t, {p.root});
    assert Before(l.g, t, p) == Before(l.g, s, p);
    SameSet(s, t, p.root, l.h.put(Before(l.h, s, p), p.path, v));
  }

  /** An assignment of the same value. */
  lemma {:induction false} AssignKept<V>(l: Languages<V>, e: Expr, v: V, s: Store<V>, t: Store<V>)
    requires Hlsl(l.env, e) && Own(Names(e)) && Agrees(l.env, l.bound, e) && Known(l.env, l.bound) && Same(s, t)
    requires AllAlike(l, AssignTo(l.h, e, v, s).events)
    ensures SameEnd(AssignTo(l.h, e, v, s).end, AssignTo(l.g, Translate(l.env, e), v, t).end)
  {
    hide Reads, Hlsl, Agrees, Known, Own, Same, In, Written, SubscriptsRead;
    PlaceTranslates(l.env, e);
    if IsPlace(e) {
      var p := PlaceOf(In(l.h.read, s), e);
      assert Chooses(e, s) in AssignTo(l.h, e, v, s).events && Puts(p, v, s) in AssignTo(l.h, e, v, s).events;
      assert DoneAlike(l, Chooses(e, s)) && DoneAlike(l, Puts(p, v, s));
      PlaceKept(l, e, s, t);
      PutKept(l, p, v, s, t);
    }
  }

  // ---- statements ----

  lemma {:induction false} AlikeBehind<V>(l: Languages<V>, a: seq<Event<V>>, b: seq<Event<V>>)
    ensures AllAlike(l, a + b) <==> AllAlike(l, a) && AllAlike(l, b)
  {
    hide DoneAlike;
    assert forall e :: e in a + b <==> e in a || e in b;
  }

  /** The three statements that a sincos call becomes, one after the other. */
  lemma {:induction false} ThreeRuns<V>(g: Machine<V>, a: Expr, s: Expr, d: Expr, c: nat, t: Store<V>, fuel: nat)
    ensures var n, v := SincosVar(c), Eval(a, In(g.read, t));
            var all := [Declare("float", n.text, Paren(a)), Assign(s, Call("sin", [Atom(n)])),
                        Assign(d, Call("cos", [Atom(n)]))];
            ExecAll(g, all, t, fuel).end
            == if g.convert("float", v).None? then Stuck
               else
                 var t0 := t[n.text := g.convert("float", v).value];
                 var r := AssignTo(g, s, Eval(Call("sin", [Atom(n)]), In(g.read, t0)), t0).end;
                 if r.Next? then AssignTo(g, d, Eval(Call("cos", [Atom(n)]), In(g.read, r.store)), r.store).end else r
  {
    hide SincosVar, AssignTo;
    var n, v := SincosVar(c), Eval(a, In(g.read, t));
    var x := Declare("float", n.text, Paren(a));
    var y, z := Assign(s, Call("sin", [Atom(n)])), Assign(d, Call("cos", [Atom(n)]));
    assert [x, y, z] == [x] + ([y] + [z]);
    ExecConcat(g, [x], [y] + [z], t, fuel);
    ExecOne(g, x, t, fuel);
    assert Eval(Paren(a), In(g.read, t)) == v;
    if g.convert("float", v).Some? {
      var t0 := t[n.text := g.convert("float", v).value];
      assert Exec(g, x, t, fuel).end == Next(t0);
      ExecConcat(g, [y], [z], t0, fuel);
      ExecOne(g, y, t0, fuel);
      var r := Exec(g, y, t0, fuel).end;
      if r.Next? {
        ExecOne(g, z, r.store, fuel);
      }
    }
  }

  lemma {:induction false} SinOfVar<V>(g: Meaning<V>, c: nat, t: Store<V>, v: V, f: string)
    requires SincosVar(c).text in t && t[SincosVar(c).text] == v
    ensures Eval(Call(f, [Atom(SincosVar(c))]), In(g, t)) == g.call(f, [v])
  {
    hide SincosVar;
    NameKind(c);
    var a := Atom(SincosVar(c));
    assert EvalArgs([a], In(g, t)) == [Eval(a, In(g, t))] + EvalArgs([], In(g, t)) == [v] by {
      assert [a][1..] == [];
    }
  }

  lemma {:induction false} NameKind(c: nat)
    ensures SincosVar(c).kind.Name?
  {
  }

  /** A sincos call against the three statements that it becomes. */
  lemma {:induction false} SincosKept<V>(l: Languages<V>, x: Stmt, c: nat, s: Store<V>, t: Store<V>, fuel: nat)
    requires x.Sincos? && Source(l, x) && Same(s, t) && AllAlike(l, Exec(l.h, x, s, fuel).events)
    ensures var r := TurnSimple(l.env, x, c);
            SameEnd(Exec(l.h, x, s, fuel).end, ExecAll(l.g, [r.0] + r.1, t, fuel).end)
  {
    hide Reads, Hlsl, Agrees, Known, Own, Same, Written, SubscriptsRead, SincosVar, Translate, Internal, Eval,
         DoneAlike, In;
    var v := Eval(x.angle, In(l.h.read, s));
    var r := TurnSimple(l.env, x, c);
    var a, sine, cosine := Translate(l.env, x.angle), Translate(l.env, x.sine), Translate(l.env, x.cosine);
    assert [r.0] + r.1 == [r.0, r.1[0], r.1[1]];
    ThreeRuns(l.g, a, sine, cosine, c, t, fuel);
    AlikeBehind(l, [Evaluates(x.angle, s)], SincosTo(l.h, v, x.sine, x.cosine, s).events);
    assert DoneAlike(l, Evaluates(x.angle, s));
    EvaluatesAlike(l, x.angle, s);
    ValueKept(l, x.angle, s, t);
    PlaceTranslates(l.env, x.sine);
    PlaceTranslates(l.env, x.cosine);
    if IsPlace(x.sine) && IsPlace(x.cosine) {
      ResultsKept(l, x, c, v, s, t);
    }
  }

  lemma {:induction false} EvaluatesAlike<V>(l: Languages<V>, e: Expr, s: Store<V>)
    requires DoneAlike(l, Evaluates(e, s))
    ensures Reads(l.env, l.bound, e, In(l.h.read, s), In(l.g.read, s))
  {
  }

  lemma {:induction false} TurnsAlike<V>(l: Languages<V>, v: V)
    requires DoneAlike(l, Turns(v))
    ensures l.g.convert("float", v) == Some(v)
    ensures l.g.read.call("sin", [v]) == l.h.read.call("sin", [v])
    ensures l.g.read.call("cos", [v]) == l.h.read.call("cos", [v])
  {
  }

  lemma {:induction false} SteadyAlike<V>(l: Languages<V>, e: Expr, s: Store<V>, later: Store<V>)
    requires DoneAlike(l, Steady(e, s, later)) && IsPlace(e)
    ensures PlaceOf(In(l.h.read, later), e) == PlaceOf(In(l.h.read, s), e)
  {
  }

  /** The two results. */
  lemma {:induction false} ResultsKept<V>(l: Languages<V>, x: Stmt, c: nat, v: V, s: Store<V>, t: Store<V>)
    requires x.Sincos? && Source(l, x) && Same(s, t) && IsPlace(x.sine) && IsPlace(x.cosine)
    requires AllAlike(l, SincosTo(l.h, v, x.sine, x.cosine, s).events)
    ensures l.g.convert("float", v) == Some(v)
    ensures var n, sine, cosine := SincosVar(c), Translate(l.env, x.sine), Translate(l.env, x.cosine);
            var t0 := t[n.text := v];
            var r := AssignTo(l.g, sine, Eval(Call("sin", [Atom(n)]), In(l.g.read, t0)), t0).end;
            && r.Next?
            && SameEnd(SincosTo(l.h, v, x.sine, x.cosine, s).end,
                       AssignTo(l.g, cosine, Eval(Call("cos", [Atom(n)]), In(l.g.read, r.store)), r.store).end)
  {
    hide Reads, Hlsl, Agrees, Known, Own, Same, Written, SubscriptsRead, SincosVar, Translate, Internal, Eval,
         DoneAlike, In;
    var n, sine, cosine := SincosVar(c), Translate(l.env, x.sine), Translate(l.env, x.cosine);
    var p, q := PlaceOf(In(l.h.read, s), x.sine), PlaceOf(In(l.h.read, s), x.cosine);
    var sv, cv := l.h.read.call("sin", [v]), l.h.read.call("cos", [v]);
    var later := Written(l.h, s, p, sv);
    var events := SincosTo(l.h, v, x.sine, x.cosine, s).events;
    assert events == [Turns(v), Chooses(x.sine, s), Puts(p, sv, s), Chooses(x.cosine, later),
                      Steady(x.cosine, s, later), Puts(q, cv, later)];
    assert forall i :: 0 <= i < 6 ==> events[i] in events;
    TurnsAlike(l, v);
    SteadyAlike(l, x.cosine, s, later);
    VarsDiffer(c, c);
    var t0 := t[n.text := v];
    SameSet(s, t, n.text, v);
    SinOfVar(l.g.read, c, t0, v, "sin");
    assert AssignTo(l.h, x.sine, sv, s) == Run(Next(later), [Chooses(x.sine, s), Puts(p, sv, s)]);
    AssignKept(l, x.sine, sv, s, t0);
    PlaceTranslates(l.env, x.sine);
    PlaceTranslates(l.env, x.cosine);
    var r := AssignTo(l.g, sine, sv, t0).end;
    RootKept(l, x.sine, sv, t0, n.text, v);
    SinOfVar(l.g.read, c, r.store, v, "cos");
    assert AssignTo(l.h, x.cosine, cv, later)
        == Run(Next(Written(l.h, later, q, cv)), [Chooses(x.cosine, later), Puts(q, cv, later)]);
    AssignKept(l, x.cosine, cv, later, r.store);
  }

  /** An assignment in the source leaves temporaries alone. */
  lemma {:induction false} RootKept<V>(l: Languages<V>, e: Expr, v: V, t: Store<V>, n: string, w: V)
    requires IsPlace(e) && Hlsl(l.env, e) && Own(Names(e)) && Internal(n) && n in t && t[n] == w
    ensures var r := AssignTo(l.g, Translate(l.env, e), v, t).end; r.Next? && n in r.store && r.store[n] == w
  {
    hide Hlsl, Internal, In;
    PlaceTranslates(l.env, e);
    OwnTranslates(l.env, e, {});
    PlaceSame(l.g.read, Translate(l.env, e), t, t);
  }

  /** Statements other than sincos calls become one statement each. */
  lemma {:induction false} RunKept<V>(l: Languages<V>, x: Stmt, c: nat, s: Store<V>, t: Store<V>, fuel: nat)
    requires Source(l, x) && !x.Sincos? && Same(s, t) && AllAlike(l, Exec(l.h, x, s, fuel).events)
    ensures Turn(l.env, x, c).Some? && Turn(l.env, x, c).value.more == []
    ensures SameEnd(Exec(l.h, x, s, fuel).end, Exec(l.g, Turn(l.env, x, c).value.first, t, fuel).end)
    decreases fuel, x, 2
  {
    hide Reads, Hlsl, Agrees, Known, Own, Same, Internal, Eval, DoneAlike, In, Translate, WellFormed, Assignable,
         AssignTo, AllAlike, Loop, ExecAll, ExecIn;
    BracedTurns(l.env, x, c);
    match x
    case Assign(p, e) =>
      var v := Eval(e, In(l.h.read, s));
      FirstKept(l, e, s, t, AssignTo(l.h, p, v, s).events);
      AssignKept(l, p, v, s, t);
    case Update(_, _, _) => UpdateKept(l, x, c, s, t, fuel);
    case Declare(typ, n, e) => DeclareKept(l, x, c, s, t, fuel);
    case Braces(xs) => BlockKept(l, x, c, s, t, fuel);
    case If(e, y) =>
      var v := Eval(e, In(l.h.read, s));
      TestKept(l, e, s, t, (if l.h.holds(v) then ExecIn(l.h, y, s, fuel) else Run(Next(s), [])).events);
      if l.h.holds(v) {
        BranchKept(l, y, c, s, t, fuel);
      }
    case IfElse(e, y, n) =>
      var v := Eval(e, In(l.h.read, s));
      TestKept(l, e, s, t, (if l.h.holds(v) then ExecIn(l.h, y, s, fuel) else ExecIn(l.h, n, s, fuel)).events);
      BracedTurns(l.env, y, c);
      BracedTurns(l.env, n, c + Counted(y));
      if l.h.holds(v) {
        BranchKept(l, y, c, s, t, fuel);
      } else {
        BranchKept(l, n, c + Counted(y), s, t, fuel);
      }
    case For(_, _, _, _) => ForKept(l, x, c, s, t, fuel);
    case Return(e) =>
      assert [Evaluates(e, s)] == [Evaluates(e, s)] + [];
      FirstKept(l, e, s, t, []);
  }

  lemma {:induction false} BlockKept<V>(l: Languages<V>, x: Stmt, c: nat, s: Store<V>, t: Store<V>, fuel: nat)
    requires x.Braces? && Source(l, x) && Same(s, t) && AllAlike(l, Exec(l.h, x, s, fuel).events)
    ensures Turn(l.env, x, c).Some? && Turn(l.env, x, c).value.more == []
    ensures SameEnd(Exec(l.h, x, s, fuel).end, Exec(l.g, Turn(l.env, x, c).value.first, t, fuel).end)
    decreases fuel, x, 1
  {
    hide Same, Internal, DoneAlike, AllAlike, ExecAll, Restore;
    var xs := x.body;
    BracesSource(l, x);
    BracedTurns(l.env, x, c);
    RunsKept(l, xs, c, s, t, fuel);
    DeclaredTurned(l.env, xs, c);
    var ys := TurnAll(l.env, xs, c).value;
    LeaveKept(s, t, ExecAll(l.h, xs, s, fuel), ExecAll(l.g, ys, t, fuel), DeclaredIn(xs), DeclaredIn(ys));
  }

  lemma {:induction false} BracesSource<V>(l: Languages<V>, x: Stmt)
    requires x.Braces? && Source(l, x)
    ensures SourceAll(l, x.body)
  {
  }

  lemma {:induction false} FirstKept<V>(l: Languages<V>, e: Expr, s: Store<V>, t: Store<V>, more: seq<Event<V>>)
    requires Hlsl(l.env, e) && Own(Names(e)) && Agrees(l.env, l.bound, e) && Known(l.env, l.bound) && Same(s, t)
    requires AllAlike(l, [Evaluates(e, s)] + more)
    ensures Eval(Translate(l.env, e), In(l.g.read, t)) == Eval(e, In(l.h.read, s)) && AllAlike(l, more)
  {
    hide Reads, Hlsl, Agrees, Known, Own, Same, DoneAlike, In;
    AlikeBehind(l, [Evaluates(e, s)], more);
    assert Evaluates(e, s) in [Evaluates(e, s)];
    EvaluatesAlike(l, e, s);
    ValueKept(l, e, s, t);
  }

  lemma {:induction false} TestKept<V>(l: Languages<V>, e: Expr, s: Store<V>, t: Store<V>, more: seq<Event<V>>)
    requires Hlsl(l.env, e) && Own(Names(e)) && Agrees(l.env, l.bound, e) && Known(l.env, l.bound) && Same(s, t)
    requires AllAlike(l, [Evaluates(e, s), Tests(Eval(e, In(l.h.read, s)))] + more)
    ensures var v := Eval(e, In(l.h.read, s));
            Eval(Translate(l.env, e), In(l.g.read, t)) == v && l.g.holds(v) == l.h.holds(v)
    ensures AllAlike(l, more)
  {
    hide Reads, Hlsl, Agrees, Known, Own, Same, In, Eval;
    var v := Eval(e, In(l.h.read, s));
    assert [Evaluates(e, s), Tests(v)] + more == [Evaluates(e, s)] + ([Tests(v)] + more);
    FirstKept(l, e, s, t, [Tests(v)] + more);
    AlikeBehind(l, [Tests(v)], more);
    assert Tests(v) in [Tests(v)];
    assert DoneAlike(l, Tests(v));
  }

  lemma {:induction false} UpdateKept<V>(l: Languages<V>, x: Stmt, c: nat, s: Store<V>, t: Store<V>, fuel: nat)
    requires x.Update? && Source(l, x) && Same(s, t) && AllAlike(l, Exec(l.h, x, s, fuel).events)
    ensures SameEnd(Exec(l.h, x, s, fuel).end, Exec(l.g, TurnSimple(l.env, x, c).0, t, fuel).end)
  {
    hide Reads, Known, Own, Same, In, Eval, AssignTo, AllAlike, Bindings;
    var whole := Binary(x.op, x.target, x.value);
    var v := Eval(whole, In(l.h.read, s));
    BindingsConcat(l.bound, Binds(l.env, x.target), Binds(l.env, x.value));
    assert Hlsl(l.env, whole) && Agrees(l.env, l.bound, whole);
    assert Own(Names(whole)) by { OwnBoth(Names(x.target), Names(x.value)); }
    assert Translate(l.env, whole) == Binary(x.op, Translate(l.env, x.target), Translate(l.env, x.value));
    hide Hlsl, Agrees, Translate;
    FirstKept(l, whole, s, t, AssignTo(l.h, x.target, v, s).events);
    AssignKept(l, x.target, v, s, t);
  }

  lemma {:induction false} OwnBoth(a: set<string>, b: set<string>)
    requires Own(a) && Own(b)
    ensures Own(a + b)
  {
  }

  lemma {:induction false} DeclareKept<V>(l: Languages<V>, x: Stmt, c: nat, s: Store<V>, t: Store<V>, fuel: nat)
    requires x.Declare? && Source(l, x) && Same(s, t) && AllAlike(l, Exec(l.h, x, s, fuel).events)
    ensures SameEnd(Exec(l.h, x, s, fuel).end, Exec(l.g, TurnSimple(l.env, x, c).0, t, fuel).end)
  {
    hide Reads, Hlsl, Agrees, Known, Own, Same, In, Eval, Translate;
    var v := Eval(x.init, In(l.h.read, s));
    assert [Evaluates(x.init, s), Converts(x.typ, v)] == [Evaluates(x.init, s)] + [Converts(x.typ, v)];
    FirstKept(l, x.init, s, t, [Converts(x.typ, v)]);
    assert Converts(x.typ, v) in [Converts(x.typ, v)];
    assert DoneAlike(l, Converts(x.typ, v));
    if l.h.convert(x.typ, v).Some? {
      SameSet(s, t, x.name, l.h.convert(x.typ, v).value);
    }
  }

  lemma {:induction false} LeaveKept<V>(s: Store<V>, t: Store<V>, r: Run<V>, q: Run<V>, a: set<string>, b: set<string>)
    requires Same(s, t) && SameEnd(r.end, q.end) && forall n :: n in a + b && !Internal(n) ==> n in a && n in b
    ensures SameEnd(Leave(s, r, a).end, Leave(t, q, b).end)
  {
    hide Same, Restore;
    if r.end.Next? && q.end.Next? {
      SameRestore(s, t, r.end.store, q.end.store, a, b);
    }
  }

  /** A statement declares what the one it becomes declares. */
  lemma {:induction false} DeclaresTurned(env: Env, x: Stmt, c: nat)
    requires WellFormedStmt(x) && Turn(env, x, c).Some?
    ensures !x.Sincos? ==> Declares(Turn(env, x, c).value.first) == Declares(x)
    ensures forall n :: n in Declares(x) + Declares(Turn(env, x, c).value.first) && !Internal(n) ==>
              n in Declares(x) && n in Declares(Turn(env, x, c).value.first)
  {
    hide Translate, Rename, Internal, SincosVar;
    VarsDiffer(c, c);
  }

  lemma {:induction false} DeclaredTurned(env: Env, xs: seq<Stmt>, c: nat)
    requires WellFormedStmts(xs) && TurnAll(env, xs, c).Some?
    ensures var ys := TurnAll(env, xs, c).value;
            forall n :: n in DeclaredIn(xs) + DeclaredIn(ys) && !Internal(n) ==>
              n in DeclaredIn(xs) && n in DeclaredIn(ys)
    decreases xs
  {
    hide Turn, WellFormedStmt, Declares, Internal;
    if xs != [] {
      var n := c + Counted(xs[0]);
      var r, ys := Turn(env, xs[0], c).value, TurnAll(env, xs[1..], n).value;
      DeclaresTurned(env, xs[0], c);
      DeclaredTurned(env, xs[1..], n);
      AssignsDeclareNothing(r.more);
      ScopedConcat([r.first], r.more, {});
      ScopedConcat([r.first] + r.more, ys, {});
      assert [r.first][1..] == [] && DeclaredIn([r.first]) == Declares(r.first) + {};
    }
  }

  /** A branch or the body of a loop. */
  lemma {:induction false} BranchKept<V>(l: Languages<V>, x: Stmt, c: nat, s: Store<V>, t: Store<V>, fuel: nat)
    requires Source(l, x) && !x.Sincos? && Same(s, t) && AllAlike(l, ExecIn(l.h, x, s, fuel).events)
    ensures Turn(l.env, x, c).Some? && Turn(l.env, x, c).value.more == []
    ensures SameEnd(ExecIn(l.h, x, s, fuel).end, ExecIn(l.g, Turn(l.env, x, c).value.first, t, fuel).end)
    decreases fuel, x, 3
  {
    hide Exec, Source, Same, AllAlike, Restore, Turn;
    assert ExecIn(l.h, x, s, fuel).events == Exec(l.h, x, s, fuel).events;
    RunKept(l, x, c, s, t, fuel);
    assert WellFormedStmt(x) by { SourceParts(l, x); }
    DeclaresTurned(l.env, x, c);
    var y := Turn(l.env, x, c).value.first;
    LeaveKept(s, t, Exec(l.h, x, s, fuel), Exec(l.g, y, t, fuel), Declares(x), Declares(y));
  }

  lemma {:induction false} SourceParts<V>(l: Languages<V>, x: Stmt)
    requires Source(l, x)
    ensures WellFormedStmt(x) && HlslStmt(l.env, x) && OwnNames(x) && Known(l.env, l.bound) && Braced(x)
  {
  }

  lemma {:induction false} ForSource<V>(l: Languages<V>, x: Stmt)
    requires x.For? && Source(l, x)
    ensures Source(l, x.first) && Source(l, x.step) && Source(l, x.each)
    ensures Simple(x.first) && Simple(x.step) && !x.first.Sincos? && !x.step.Sincos? && !x.each.Sincos?
    ensures Hlsl(l.env, x.test) && Own(Names(x.test)) && Agrees(l.env, l.bound, x.test) && Known(l.env, l.bound)
  {
  }

  lemma {:induction false} SimpleTurn(env: Env, x: Stmt, c: nat)
    requires Simple(x) && WellFormedStmt(x)
    ensures Turn(env, x, c) == Some(Turned(TurnSimple(env, x, c).0, TurnSimple(env, x, c).1))
  {
  }

  lemma {:induction false} ForKept<V>(l: Languages<V>, x: Stmt, c: nat, s: Store<V>, t: Store<V>, fuel: nat)
    requires x.For? && Source(l, x) && Same(s, t) && AllAlike(l, Exec(l.h, x, s, fuel).events)
    ensures Turn(l.env, x, c).Some?
    ensures SameEnd(Exec(l.h, x, s, fuel).end, Exec(l.g, Turn(l.env, x, c).value.first, t, fuel).end)
    decreases fuel, x, 1
  {
    hide Source, Same, AllAlike, Restore, DoneAlike, Loop, Internal;
    var i := x.first;
    SourceParts(l, x);
    ForSource(l, x);
    SourceParts(l, i);
    BracedTurns(l.env, x, c);
    var y := Turn(l.env, x, c).value.first;
    SimpleTurn(l.env, i, c);
    var r := Exec(l.h, i, s, fuel);
    if r.end.Next? {
      var loop := Loop(l.h, x, r.end.store, fuel);
      AlikeBehind(l, r.events, Leave(s, loop, Declares(i)).events);
      RunKept(l, i, c, s, t, fuel);
      var q := Exec(l.g, y.first, t, fuel);
      LoopKept(l, x, c, r.end.store, q.end.store, fuel);
      DeclaresTurned(l.env, i, c);
      LeaveKept(s, t, loop, Loop(l.g, y, q.end.store, fuel), Declares(i), Declares(y.first));
    } else {
      RunKept(l, i, c, s, t, fuel);
    }
  }

  lemma {:induction false} LoopKept<V>(l: Languages<V>, x: Stmt, c: nat, s: Store<V>, t: Store<V>, fuel: nat)
    requires x.For? && Source(l, x) && Same(s, t) && AllAlike(l, Loop(l.h, x, s, fuel).events)
    ensures Turn(l.env, x, c).Some? && Turn(l.env, x, c).value.first.For?
    ensures SameEnd(Loop(l.h, x, s, fuel).end, Loop(l.g, Turn(l.env, x, c).value.first, t, fuel).end)
    decreases fuel, x, 0
  {
    hide Source, Same, AllAlike, Exec, ExecIn, DoneAlike, In, Eval, Translate, Hlsl, Own, Agrees, Known;
    SourceParts(l, x);
    ForSource(l, x);
    BracedTurns(l.env, x, c);
    var y := Turn(l.env, x, c).value.first;
    assert y.For? && y.test == Translate(l.env, x.test);
    if fuel > 0 {
      var v := Eval(x.test, In(l.h.read, s));
      TestKept(l, x.test, s, t, (if !l.h.holds(v) then Run(Next(s), []) else Round(l.h, x, s, fuel)).events);
      if l.h.holds(v) {
        TurnKept(l, x, c, s, t, fuel);
      }
    }
  }

  lemma {:induction false} TurnKept<V>(l: Languages<V>, x: Stmt, c: nat, s: Store<V>, t: Store<V>, fuel: nat)
    requires x.For? && Source(l, x) && Same(s, t) && fuel > 0 && AllAlike(l, Round(l.h, x, s, fuel).events)
    ensures Turn(l.env, x, c).Some? && Turn(l.env, x, c).value.first.For?
    ensures SameEnd(Round(l.h, x, s, fuel).end, Round(l.g, Turn(l.env, x, c).value.first, t, fuel).end)
    decreases fuel, x, 0, 0
  {
    hide Source, Same, AllAlike, Exec, ExecIn, DoneAlike, Loop;
    SourceParts(l, x);
    ForSource(l, x);
    SourceParts(l, x.step);
    BracedTurns(l.env, x, c);
    var y := Turn(l.env, x, c).value.first;
    SimpleTurn(l.env, x.step, c);
    var r := ExecIn(l.h, x.each, s, fuel);
    if r.end.Next? {
      var q := Exec(l.h, x.step, r.end.store, fuel);
      if q.end.Next? {
        var loop := Loop(l.h, x, q.end.store, fuel - 1);
        AlikeBehind(l, r.events + q.events, loop.events);
        AlikeBehind(l, r.events, q.events);
        BranchKept(l, x.each, c, s, t, fuel);
        var t' := ExecIn(l.g, y.each, t, fuel).end.store;
        RunKept(l, x.step, c, r.end.store, t', fuel);
        LoopKept(l, x, c, q.end.store, Exec(l.g, y.step, t', fuel).end.store, fuel - 1);
      } else {
        AlikeBehind(l, r.events, q.events);
        BranchKept(l, x.each, c, s, t, fuel);
        RunKept(l, x.step, c, r.end.store, ExecIn(l.g, y.each, t, fuel).end.store, fuel);
      }
    } else {
      BranchKept(l, x.each, c, s, t, fuel);
    }
  }

  /** A list of statements. */
  lemma {:induction false} RunsKept<V>(l: Languages<V>, xs: seq<Stmt>, c: nat, s: Store<V>, t: Store<V>, fuel: nat)
    requires SourceAll(l, xs) && Same(s, t) && AllAlike(l, ExecAll(l.h, xs, s, fuel).events)
    ensures WellFormedStmts(xs) && TurnAll(l.env, xs, c).Some?
    ensures SameEnd(ExecAll(l.h, xs, s, fuel).end, ExecAll(l.g, TurnAll(l.env, xs, c).value, t, fuel).end)
    decreases fuel, xs, 0
  {
    hide Source, Same, AllAlike, Exec, DoneAlike, Turn, TurnSimple, Counted, WellFormedStmt, HlslStmt, Braced;
    AllParts(l, xs);
    BracedAllTurn(l.env, xs, c);
    if xs != [] {
      var x, n := xs[0], c + Counted(xs[0]);
      var r := Exec(l.h, x, s, fuel);
      SourceParts(l, x);
      if r.end.Next? {
        AlikeBehind(l, r.events, ExecAll(l.h, xs[1..], r.end.store, fuel).events);
      }
      PieceKept(l, x, c, s, t, fuel);
      var p, ys := Turn(l.env, x, c).value, TurnAll(l.env, xs[1..], n).value;
      ExecConcat(l.g, [p.first] + p.more, ys, t, fuel);
      if r.end.Next? {
        RunsKept(l, xs[1..], n, r.end.store, ExecAll(l.g, [p.first] + p.more, t, fuel).end.store, fuel);
      }
    }
  }

  lemma {:induction false} AllParts<V>(l: Languages<V>, xs: seq<Stmt>)
    requires SourceAll(l, xs)
    ensures HlslStmts(l.env, xs) && OwnNamesAll(xs) && BracedAll(xs)
  {
    forall x | x in xs
      ensures WellFormedStmt(x) && HlslStmt(l.env, x) && OwnNames(x) && Braced(x)
    {
      SourceParts(l, x);
    }
  }

  lemma {:induction false} PieceKept<V>(l: Languages<V>, x: Stmt, c: nat, s: Store<V>, t: Store<V>, fuel: nat)
    requires Source(l, x) && Same(s, t) && AllAlike(l, Exec(l.h, x, s, fuel).events)
    ensures Turn(l.env, x, c).Some?
    ensures var p := Turn(l.env, x, c).value;
            SameEnd(Exec(l.h, x, s, fuel).end, ExecAll(l.g, [p.first] + p.more, t, fuel).end)
    decreases fuel, x, 3
  {
    hide Same, AllAlike, Exec, ExecAll, TurnSimple;
    if x.Sincos? {
      SincosKept(l, x, c, s, t, fuel);
      SimpleTurn(l.env, x, c);
    } else {
      RunKept(l, x, c, s, t, fuel);
      var y := Turn(l.env, x, c).value.first;
      ExecOne(l.g, y, t, fuel);
      assert [y] + [] == [y];
    }
  }

  // ---- whole bodies ----

  predicate AgreesAll(env: Env, bound: map<string, nat>, items: seq<Item>) {
    forall e :: e in ExprsIn(items) ==> Agrees(env, bound, e)
  }

  lemma {:induction false} ExprsConcat(a: seq<Item>, b: seq<Item>)
    ensures ExprsIn(a + b) == ExprsIn(a) + ExprsIn(b)
  {
    if a == [] {
      assert a + b == b;
    } else {
      assert (a + b)[1..] == a[1..] + b && (a + b)[0] == a[0];
      ExprsConcat(a[1..], b);
    }
  }

  lemma {:induction false} AgreesConcat(env: Env, bound: map<string, nat>, a: seq<Item>, b: seq<Item>)
    ensures AgreesAll(env, bound, a + b) <==> AgreesAll(env, bound, a) && AgreesAll(env, bound, b)
  {
    hide Agrees, ExprsIn;
    ExprsConcat(a, b);
    assert forall e :: e in ExprsIn(a + b) <==> e in ExprsIn(a) || e in ExprsIn(b);
  }

  lemma {:induction false} AgreesOne(env: Env, bound: map<string, nat>, i: Item)
    requires AgreesAll(env, bound, [i])
    ensures i.Ex? ==> Agrees(env, bound, i.e)
    ensures i.Block? || i.Header? ==> AgreesAll(env, bound, i.items)
    ensures i.SincosCall? ==> Agrees(env, bound, i.angle) && Agrees(env, bound, i.sine) && Agrees(env, bound, i.cosine)
  {
    hide Agrees;
    assert [i][1..] == [] && ExprsIn([i]) == ExprsOf(i) + [] == ExprsOf(i);
    if i.SincosCall? {
      assert ExprsOf(i) == [i.angle, i.sine, i.cosine];
    } else if i.Ex? {
      assert i.e in [i.e];
    }
  }

  lemma {:induction false} SimpleAgrees(env: Env, bound: map<string, nat>, x: Stmt)
    requires Simple(x) && AgreesAll(env, bound, SimpleItems(x))
    ensures StmtAgrees(env, bound, x)
  {
    hide Agrees, AgreesAll;
    match x
    case Assign(t, e) =>
      AgreesConcat(env, bound, [Ex(t)], [Plain(EQUALS)] + [Ex(e)]);
      AgreesConcat(env, bound, [Plain(EQUALS)], [Ex(e)]);
      AgreesOne(env, bound, Ex(t));
      AgreesOne(env, bound, Ex(e));
    case Update(op, t, e) =>
      AgreesConcat(env, bound, [Ex(t)], [Plain(OpTokens(op)[0])] + ([Plain(EQUALS)] + [Ex(e)]));
      AgreesConcat(env, bound, [Plain(OpTokens(op)[0])], [Plain(EQUALS)] + [Ex(e)]);
      AgreesConcat(env, bound, [Plain(EQUALS)], [Ex(e)]);
      AgreesOne(env, bound, Ex(t));
      AgreesOne(env, bound, Ex(e));
    case Declare(typ, n, e) =>
      AgreesConcat(env, bound, [Plain(Ident(typ))], [Plain(Ident(n))] + ([Plain(EQUALS)] + [Ex(e)]));
      AgreesConcat(env, bound, [Plain(Ident(n))], [Plain(EQUALS)] + [Ex(e)]);
      AgreesConcat(env, bound, [Plain(EQUALS)], [Ex(e)]);
      AgreesOne(env, bound, Ex(e));
    case Sincos(a, s, d) => AgreesOne(env, bound, SincosCall(a, s, d));
  }

  lemma {:induction false} ItemsAgree(env: Env, bound: map<string, nat>, x: Stmt)
    requires WellFormedStmt(x) && AgreesAll(env, bound, ItemsOf(x))
    ensures StmtAgrees(env, bound, x)
    decreases x, 1
  {
    hide Agrees, AgreesAll, WellFormed;
    match x
    case Braces(xs) =>
      AgreesOne(env, bound, Block(ItemsOfAll(xs)));
      ItemsAgreeAll(env, bound, xs);
    case If(t, y) =>
      HeaderAgrees(env, bound, t, ItemsOf(y));
      ItemsAgree(env, bound, y);
    case IfElse(t, y, n) =>
      HeaderAgrees(env, bound, t, ItemsOf(y) + ([Plain(ELSE)] + ItemsOf(n)));
      AgreesConcat(env, bound, ItemsOf(y), [Plain(ELSE)] + ItemsOf(n));
      AgreesConcat(env, bound, [Plain(ELSE)], ItemsOf(n));
      ItemsAgree(env, bound, y);
      ItemsAgree(env, bound, n);
    case For(i, t, s, b) =>
      AgreesConcat(env, bound, [Plain(FOR)], [Header(ForHeader(i, t, s))] + ItemsOf(b));
      AgreesConcat(env, bound, [Header(ForHeader(i, t, s))], ItemsOf(b));
      AgreesOne(env, bound, Header(ForHeader(i, t, s)));
      ForHeaderAgrees(env, bound, i, t, s);
      ItemsAgree(env, bound, b);
    case Return(e) =>
      AgreesConcat(env, bound, [Plain(RETURN)], [Ex(e)] + [Plain(SEMICOLON)]);
      AgreesConcat(env, bound, [Ex(e)], [Plain(SEMICOLON)]);
      AgreesOne(env, bound, Ex(e));
    case _ =>
      AgreesConcat(env, bound, SimpleItems(x), [Plain(SEMICOLON)]);
      SimpleAgrees(env, bound, x);
  }

  lemma {:induction false} HeaderAgrees(env: Env, bound: map<string, nat>, t: Expr, more: seq<Item>)
    requires AgreesAll(env, bound, [Plain(IF)] + ([Header([Ex(t)])] + more))
    ensures Agrees(env, bound, t) && AgreesAll(env, bound, more)
  {
    hide Agrees, AgreesAll;
    AgreesConcat(env, bound, [Plain(IF)], [Header([Ex(t)])] + more);
    AgreesConcat(env, bound, [Header([Ex(t)])], more);
    AgreesOne(env, bound, Header([Ex(t)]));
    AgreesOne(env, bound, Ex(t));
  }

  lemma {:induction false} ForHeaderAgrees(env: Env, bound: map<string, nat>, i: Stmt, t: Expr, s: Stmt)
    requires Simple(i) && Simple(s) && AgreesAll(env, bound, ForHeader(i, t, s))
    ensures StmtAgrees(env, bound, i) && Agrees(env, bound, t) && StmtAgrees(env, bound, s)
  {
    hide Agrees, AgreesAll, SimpleItems;
    var a, b := SimpleItems(i), SimpleItems(s);
    AgreesConcat(env, bound, a, [Plain(SEMICOLON)] + ([Ex(t)] + ([Plain(SEMICOLON)] + b)));
    AgreesConcat(env, bound, [Plain(SEMICOLON)], [Ex(t)] + ([Plain(SEMICOLON)] + b));
    AgreesConcat(env, bound, [Ex(t)], [Plain(SEMICOLON)] + b);
    AgreesConcat(env, bound, [Plain(SEMICOLON)], b);
    AgreesOne(env, bound, Ex(t));
    SimpleAgrees(env, bound, i);
    SimpleAgrees(env, bound, s);
  }

  lemma {:induction false} ItemsAgreeAll(env: Env, bound: map<string, nat>, xs: seq<Stmt>)
    requires WellFormedStmts(xs) && AgreesAll(env, bound, ItemsOfAll(xs))
    ensures forall x :: x in xs ==> StmtAgrees(env, bound, x)
    decreases xs, 0
  {
    if xs != [] {
      hide AgreesAll, WellFormedStmt, StmtAgrees;
      AgreesConcat(env, bound, ItemsOf(xs[0]), ItemsOfAll(xs[1..]));
      ItemsAgree(env, bound, xs[0]);
      ItemsAgreeAll(env, bound, xs[1..]);
    }
  }

  /** A body of a shader: its functions exist in GLSL, and the shader samples each texture with one sampler. */
  predicate InShader(env: Env, shader: seq<Item>, xs: seq<Stmt>)
    requires WellFormedStmts(xs)
  {
    && (forall j :: j in shader ==> HlslItem(env, j)) && OneSampler(BindsItems(env, shader))
    && forall e :: e in ExprsIn(ItemsOfAll(xs)) ==> e in ExprsIn(shader) && Spoken(env, e)
  }

  lemma {:induction false} ShaderSource<V>(l: Languages<V>, shader: seq<Item>, xs: seq<Stmt>)
    requires HlslStmts(l.env, xs) && OwnNamesAll(xs) && BracedAll(xs) && InShader(l.env, shader, xs)
    requires l.bound == BoundBy(l.env, shader)
    ensures SourceAll(l, xs)
  {
    hide Spoken, HlslItem, OneSampler, Known, HlslStmt, WellFormedStmt, OwnNames, Braced, StmtAgrees, Bindings;
    BoundByKnown(l.env, shader);
    BoundAgrees(BindsItems(l.env, shader));
    BindsOfItems(l.env, shader);
    forall e | e in ExprsIn(ItemsOfAll(xs))
      ensures Agrees(l.env, l.bound, e)
    {
      BindingsOfOne(l.env, l.bound, ExprsIn(shader), e);
    }
    ItemsAgreeAll(l.env, l.bound, xs);
  }

  lemma {:induction false} BindingsOfOne(env: Env, bound: map<string, nat>, args: seq<Expr>, e: Expr)
    requires e in args && Bindings(bound, BindsArgs(env, args))
    ensures Bindings(bound, Binds(env, e))
  {
    hide Bindings;
    BindingsConcat(bound, Binds(env, args[0]), BindsArgs(env, args[1..]));
    if e != args[0] {
      BindingsOfOne(env, bound, args[1..], e);
    }
  }

  /** Main theorem for bodies, from token stream to store. Take any layout, blanks included, of the tokens of a body
      that settles, in a shader that samples each texture with one sampler. What the streamer writes parses as a
      program if and only if no sincos call is the whole of a branch or of a loop's body, or stands in a header. And
      then every run of it ends as the source's does, with the same store apart from temporaries or the same result,
      if all that the run evaluates, assigns and tests is done alike. */
  lemma {:induction false} BodyMeans<V>(l: Languages<V>, shader: seq<Item>, s: seq<Token>, xs: seq<Stmt>, k: seq<Token>,
                                        c: nat, store: Store<V>, fuel: nat)
    requires IsStream(s) && Lexed(s) && !IsSpace(s[0]) && Tail(k) && KeywordsFree(l.env)
    requires HlslStmts(l.env, xs) && OwnNamesAll(xs) && BodySettles(l.env, ItemsOfAll(xs))
    requires Strip(s) == [LBRACE] + PrintStmts(xs, [RBRACE] + k)
    requires InShader(l.env, shader, xs) && l.bound == BoundBy(l.env, shader)
    ensures StartsWith(Strip(Contents(l.env, s, "}", c).out), LBRACE)
    ensures var p := ParseStmts(Strip(Contents(l.env, s, "}", c).out)[1..]);
            && (Compiles(p) <==> BracedAll(xs))
            && (Compiles(p) && AllAlike(l, ExecAll(l.h, xs, store, fuel).events) ==>
                  SameEnd(ExecAll(l.h, xs, store, fuel).end, ExecAll(l.g, p.value, store, fuel).end))
  {
    hide Strip, Contents, PrintStmts, WriteStmts, ItemsOfAll, BodySettles, Lexed, InShader, AllAlike, ExecAll, Compiles;
    BodyCompiles(l.env, s, xs, k, c);
    var w := WriteStmts(l.env, xs, c, []);
    assert ([LBRACE] + w)[1..] == w;
    if BracedAll(xs) {
      CompilesExact(l.env, xs, c);
      ShaderSource(l, shader, xs);
      if AllAlike(l, ExecAll(l.h, xs, store, fuel).events) {
        RunsKept(l, xs, c, store, store, fuel);
      }
    }
  }

  /** What languages read alike by the shapes of operands they read alike in every store that leaves the names of
      textures and samplers alone. So in real arithmetic an expression of a body is evaluated alike wherever its
      operands have such shapes. */
  lemma {:induction false} StoreReads<V(!new)>(env: Env, bound: map<string, nat>, h: Meaning<V>, g: Meaning<V>,
                                               shape: V -> Shape, same: (string, seq<V>) -> bool, s: Store<V>)
    requires ReadsByShape(env, bound, h, g, shape, same)
    requires forall n :: n in s ==> TextureParam(env, n).None? && n !in env.samplers
    ensures ReadsByShape(env, bound, In(h, s), In(g, s), shape, same)
  {
    hide OperatorAlike, ProductAlike, TextureReads, Named, Rename, TextureMethod;
    var h', g' := In(h, s), In(g, s);
    assert g'.atom(Num1("0.0")) == g.atom(Num1("0.0")) && g'.atom(Num1("1.0")) == g.atom(Num1("1.0"));
    forall n: string, m: string, cs: seq<V> | TextureMethod(env, n, m)
      ensures TextureReads(env, bound, n, m, cs, h', g')
    {
      StoreTexture(env, bound, n, m, cs, h, g, s);
    }
  }

  lemma {:induction false} StoreTexture<V>(env: Env, bound: map<string, nat>, n: string, m: string, cs: seq<V>,
                                           h: Meaning<V>, g: Meaning<V>, s: Store<V>)
    requires TextureMethod(env, n, m) && TextureReads(env, bound, n, m, cs, h, g)
    requires forall n :: n in s ==> TextureParam(env, n).None? && n !in env.samplers
    ensures TextureReads(env, bound, n, m, cs, In(h, s), In(g, s))
  {
    hide TextureFn, Coordinates, TextureCall, TextureParam;
    assert n !in s;
    if Ready(env, bound, n, m) {
      var ts := SamplerOf(env, bound, n, m);
      if ts != [] {
        assert ts == [Ident(env.samplers[bound[n]])] && env.samplers[bound[n]] in env.samplers;
        AtomsOne(h, ts[0]);
        AtomsOne(In(h, s), ts[0]);
      }
    }
  }

  /** What a sincos call must not do: in sincos(a, i, arr[i]) HLSL writes the element that i chose before the call, and
      GLSL the one that the sine chooses. They are the same if and only if i keeps its value. */
  lemma {:induction false} LateElement<V>(l: Languages<V>, i: string, arr: string, v: V, s: Store<V>)
    requires i != arr
    ensures var sine, cosine := Atom(Ident(i)), Index(Atom(Ident(arr)), Atom(Ident(i)));
            var p := Place<V>.Place(i, []);
            DoneAlike(l, Steady(cosine, s, Written(l.h, s, p, v)))
            <==> l.h.put(Before(l.h, s, p), [], v) == Before(l.h, s, p)
  {
    var p := Place<V>.Place(i, []);
    var w := Written(l.h, s, p, v);
    var e := Atom(Ident(i));
    assert Eval(e, In(l.h.read, w)) == l.h.put(Before(l.h, s, p), [], v);
    assert Eval(e, In(l.h.read, s)) == Before(l.h, s, p);
    var cosine := Index(Atom(Ident(arr)), e);
    ElementPlace(In(l.h.read, w), arr, e);
    ElementPlace(In(l.h.read, s), arr, e);
    var a, b := PlaceOf(In(l.h.read, w), cosine), PlaceOf(In(l.h.read, s), cosine);
    assert IsPlace(cosine);
    assert DoneAlike(l, Steady(cosine, s, w)) <==> a == b;
    if Eval(e, In(l.h.read, w)) == Eval(e, In(l.h.read, s)) {
      assert a.path == b.path;
    }
  }

  lemma {:induction false} ElementPlace<V>(m: Meaning<V>, arr: string, i: Expr)
    ensures var p := PlaceOf(m, Index(Atom(Ident(arr)), i));
            p == Place(arr, p.path) && |p.path| == 1 && p.path[0] == Element(Eval(i, m))
  {
    var a := Atom(Ident(arr));
    assert IsPlace(a) && PlaceOf(m, a) == Place(arr, []);
    assert PlaceOf(m, Index(a, i)) == Place(arr, [] + [Element(Eval(i, m))]);
  }
}
