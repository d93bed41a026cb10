/** Linking the stages by the names the renaming leaves: a struct that the vertex stage returns and the pixel stage
    takes (libobs-opengl/gl-shaderparser.c:132-209, 696-718). The names agree on both sides even where they are not
    the ones that the renaming counts; what can go wrong is that two variables end up under one. */
module GlLinking {
  import opened GlStorage
  import opened GlStream
  import opened Decimals
  import opened GlRenaming
  import opened Options
  import opened Stages

  // ---- where the name of a variable can occur ----

  /** Nothing in the text reads like the beginning of a flattened name. */
  predicate Unmarked(s: string) {
    !Occurs(INPUT_PREFIX, s) && !Occurs("outputval", s)
  }

  lemma {:induction false} OccursStart(f: string, g: string, s: string)
    requires g <= f && Occurs(f, s)
    ensures Occurs(g, s)
  {
    if !(f <= s) {
      OccursStart(f, g, s[1..]);
    }
  }

  lemma {:induction false} UnmarkedAbsent(s: string, name: string)
    requires Unmarked(s) && FlattenedName(name)
    ensures !Occurs(name, s)
  {
    hide Occurs;
    if Occurs(name, s) {
      OccursStart(name, if INPUT_PREFIX <= name then INPUT_PREFIX else "outputval", s);
    }
  }

  lemma {:induction false} UnmarkedRest(s: string, i: nat)
    requires i <= |s| && Unmarked(s)
    ensures Unmarked(s[i..])
  {
    if i > 0 {
      UnmarkedRest(s[1..], i - 1);
      assert s[1..][i - 1..] == s[i..];
    } else {
      assert s[0..] == s;
    }
  }

  /** No flattened name can begin anywhere in the text, whatever follows it. */
  predicate NoStart(head: string) {
    forall j :: 0 <= j < |head| ==> NoStartAt(head, j)
  }

  predicate NoStartAt(head: string, j: nat)
    requires j < |head|
  {
    head[j] != 'o' && (head[j] == 'i' ==> j + 1 < |head| && head[j + 1] != 'n')
  }

  lemma {:induction false} NoStartRest(head: string)
    requires head != "" && NoStart(head)
    ensures NoStart(head[1..])
  {
    forall j | 0 <= j < |head[1..]|
      ensures NoStartAt(head[1..], j)
    {
      assert NoStartAt(head, j + 1);
    }
  }

  lemma {:induction false} UnmarkedBehind(head: string, tail: string)
    requires NoStart(head) && Unmarked(tail)
    ensures Unmarked(head + tail)
  {
    if head == "" {
      assert head + tail == tail;
    } else {
      var w := head + tail;
      assert w[1..] == head[1..] + tail;
      NoStartRest(head);
      UnmarkedBehind(head[1..], tail);
      var o, i := "outputval", INPUT_PREFIX;
      assert NoStartAt(head, 0);
      assert w[0] == head[0] && o[0] == 'o' && i[0] == 'i' && i[1] == 'n';
      assert head[0] == 'i' ==> w[1] == head[1];
      assert !(o <= w) && !(i <= w);
    }
  }

  /** In a flattened name without another one inside, a flattened name can only be at the front. */
  lemma {:induction false} OnlyInFront(w: string, name: string)
    requires w != "" && Unmarked(w[1..]) && FlattenedName(name)
    ensures Occurs(name, w) <==> name <= w
  {
    UnmarkedAbsent(w[1..], name);
  }

  // ---- the final name ----

  /** The first path that begins the k-th. */
  function Lead(ps: seq<string>, k: nat): (i: nat)
    requires k < |ps|
    ensures i <= k && ps[i] <= ps[k] && forall j :: 0 <= j < i ==> !(ps[j] <= ps[k])
  {
    FirstLead(ps, k, 0)
  }

  function FirstLead(ps: seq<string>, k: nat, n: nat): (i: nat)
    requires n <= k < |ps|
    ensures n <= i <= k && ps[i] <= ps[k] && forall j :: n <= j < i ==> !(ps[j] <= ps[k])
    decreases k - n
  {
    if ps[n] <= ps[k] then n else FirstLead(ps, k, n + 1)
  }

  function Behind(ps: seq<string>, k: nat): string
    requires k < |ps|
  {
    ps[k][|ps[Lead(ps, k)]|..]
  }

  /** The number of the first path that begins the k-th, and the rest of the k-th. */
  function LinkName(ps: seq<string>, k: nat): string
    requires k < |ps|
  {
    "_vertex_shader_attrib" + (Digits(Lead(ps, k)) + Behind(ps, k))
  }

  lemma {:induction false} RenamedOn(stage: Stage, attribs: seq<Attrib>, m: nat, n: nat, word: string, u: string)
    requires m <= n <= |attribs| && Named(attribs) && Renamed(stage, attribs, m, word) == u
    requires forall i :: m <= i < n ==> !Occurs(attribs[i].name, u)
    ensures Renamed(stage, attribs, n, word) == u
    decreases n
  {
    hide Occurs, Replace;
    if m < n {
      RenamedOn(stage, attribs, m, n - 1, word, u);
      ReplaceAbsent(u, attribs[n - 1].name, NewName(stage, attribs, n - 1));
    }
  }

  predicate NoneInFront(attribs: seq<Attrib>, n: nat, word: string)
    requires n <= |attribs|
  {
    forall i :: 0 <= i < n ==> !(attribs[i].name <= word)
  }

  /** One side: the variables of the struct are q and their paths, from attribute first on. */
  lemma {:induction false} Shown(stage: Stage, attribs: seq<Attrib>, first: nat, q: string, ps: seq<string>, k: nat)
    requires first + |ps| <= |attribs| && Flattened(attribs) && k < |ps| && q != ""
    requires forall i :: 0 <= i < |ps| ==> attribs[first + i].name == q + ps[i]
    requires forall i :: 0 <= i < |ps| ==> NewName(stage, attribs, first + i) == "_vertex_shader_attrib" + Digits(i)
    requires NoneInFront(attribs, first, q + ps[k])
    requires Unmarked((q + ps[k])[1..])
    ensures Named(attribs) && Renamed(stage, attribs, |attribs|, q + ps[k]) == LinkName(ps, k)
  {
    hide Occurs, Replace, NewName, Renamed, Digits, Unmarked, FlattenedName;
    FlattenedNamed(attribs);
    var w, i := q + ps[k], Lead(ps, k);
    forall j | 0 <= j < first + i
      ensures !Occurs(attribs[j].name, w)
    {
      OnlyInFront(w, attribs[j].name);
      if first <= j {
        assert attribs[j].name == q + ps[j - first];
        SamePrefixFront(q, ps[j - first], ps[k]);
      }
    }
    OthersUntouched(stage, attribs, first + i, w);
    var f, r := attribs[first + i].name, "_vertex_shader_attrib" + Digits(i);
    assert f == q + ps[i];
    SamePrefixFront(q, ps[i], ps[k]);
    RestBehind(q, ps[i], ps[k]);
    var tail := Behind(ps, k);
    assert w[|f|..] == tail && w[1..][|f| - 1..] == tail;
    UnmarkedRest(w[1..], |f| - 1);
    UnmarkedAbsent(tail, f);
    ReplaceAbsent(tail, f, r);
    ReplaceAhead(w, f, r);
    RenamedNext(stage, attribs, first + i, w);
    assert r + tail == LinkName(ps, k);
    MarkFree(i);
    UnmarkedBehind(r, tail);
    forall j | first + i + 1 <= j < |attribs|
      ensures !Occurs(attribs[j].name, r + tail)
    {
      assert FlattenedName(attribs[j].name);
      UnmarkedAbsent(r + tail, attribs[j].name);
    }
    RenamedOn(stage, attribs, first + i + 1, |attribs|, w, r + tail);
  }

  lemma {:induction false} SamePrefixFront(q: string, a: string, b: string)
    ensures q + a <= q + b <==> a <= b
  {
    if q + a <= q + b {
      assert (q + b)[|q|..] == b && (q + b)[..|q + a|] == q + a;
      assert b[..|a|] == (q + b)[|q|..|q + a|] == a;
    }
    if a <= b {
      assert (q + b)[..|q + a|] == q + b[..|a|];
    }
  }

  lemma {:induction false} RestBehind(q: string, a: string, b: string)
    requires a <= b
    ensures (q + b)[|q + a|..] == b[|a|..]
  {
  }

  lemma {:induction false} MarkFree(n: nat)
    ensures NoStart("_vertex_shader_attrib" + Digits(n))
  {
    var p, d := "_vertex_shader_attrib", Digits(n);
    assert NoStart(p);
    forall j | 0 <= j < |p + d|
      ensures NoStartAt(p + d, j)
    {
      if j < |p| {
        assert NoStartAt(p, j) && (p + d)[j] == p[j];
        if p[j] == 'i' {
          assert (p + d)[j + 1] == p[j + 1];
        }
      } else {
        assert (p + d)[j] == d[j - |p|];
      }
    }
  }

  /** In both texts the variable of the k-th path reads the same, whether or not it is the name that the
      renaming counts it as. */
  lemma {:induction false} TextsLink(inputs: seq<Attrib>, outs: seq<Attrib>, ins: seq<Attrib>, rest: seq<Attrib>,
                                     param: string, ps: seq<string>, k: nat)
    requires |outs| == |ins| == |ps| && k < |ps|
    requires forall i :: 0 <= i < |inputs| ==> inputs[i].input && INPUT_PREFIX <= inputs[i].name
    requires forall i :: 0 <= i < |ps| ==> !outs[i].input && outs[i].name == "outputval_" + ps[i]
    requires forall i :: 0 <= i < |ps| ==> ins[i].input && ins[i].name == INPUT_PREFIX + param + "_" + ps[i]
    requires Flattened(rest) && Unmarked(param + "_" + ps[k])
    ensures Named(inputs + outs) && Named(ins + rest)
    ensures Renamed(VertexStage, inputs + outs, |inputs + outs|, outs[k].name) == LinkName(ps, k)
    ensures Renamed(PixelStage, ins + rest, |ins + rest|, ins[k].name) == LinkName(ps, k)
  {
    FrontsUnmarked(param, ps[k]);
    hide Renamed, Unmarked, LinkName;
    OutputsFlattened(inputs, outs, ps);
    forall i | 0 <= i < |inputs|
      ensures !(inputs[i].name <= "outputval_" + ps[k])
    {
      InputNotOutput(inputs[i].name, ps[k]);
    }
    VertexSide(inputs, outs, "outputval_", ps, k);
    PixelSide(ins, rest, INPUT_PREFIX + param + "_", ps, k);
  }

  lemma {:induction false} OutputNames(inputs: seq<Attrib>, outs: seq<Attrib>)
    requires forall i :: 0 <= i < |inputs| ==> inputs[i].input
    requires forall i :: 0 <= i < |outs| ==> !outs[i].input
    ensures forall i :: 0 <= i < |outs| ==>
              && (inputs + outs)[|inputs| + i] == outs[i]
              && NewName(VertexStage, inputs + outs, |inputs| + i) == "_vertex_shader_attrib" + Digits(i)
  {
    hide NewName, Digits;
    forall i | 0 <= i < |outs|
      ensures (inputs + outs)[|inputs| + i] == outs[i]
      ensures NewName(VertexStage, inputs + outs, |inputs| + i) == "_vertex_shader_attrib" + Digits(i)
    {
      OutputName(inputs, outs, i);
    }
  }

  lemma {:induction false} VertexSide(inputs: seq<Attrib>, outs: seq<Attrib>, q: string, ps: seq<string>, k: nat)
    requires |outs| == |ps| && k < |ps| && q != "" && Flattened(inputs + outs)
    requires (forall i :: 0 <= i < |inputs| ==> inputs[i].input) && NoneInFront(inputs, |inputs|, q + ps[k])
    requires forall i :: 0 <= i < |ps| ==> !outs[i].input && outs[i].name == q + ps[i]
    requires Unmarked((q + ps[k])[1..])
    ensures Named(inputs + outs)
    ensures Renamed(VertexStage, inputs + outs, |inputs + outs|, outs[k].name) == LinkName(ps, k)
  {
    hide Renamed, NewName, LinkName, Unmarked, Digits, Flattened, Named;
    var v := inputs + outs;
    OutputNames(inputs, outs);
    assert NoneInFront(v, |inputs|, q + ps[k]);
    hide NoneInFront;
    Shown(VertexStage, v, |inputs|, q, ps, k);
  }

  lemma {:induction false} PixelSide(ins: seq<Attrib>, rest: seq<Attrib>, q: string, ps: seq<string>, k: nat)
    requires |ins| == |ps| && k < |ps| && INPUT_PREFIX <= q
    requires forall i :: 0 <= i < |ps| ==> ins[i].input && ins[i].name == q + ps[i]
    requires Flattened(rest) && Unmarked((q + ps[k])[1..])
    ensures Named(ins + rest)
    ensures Renamed(PixelStage, ins + rest, |ins + rest|, ins[k].name) == LinkName(ps, k)
  {
    hide Renamed, NewName, LinkName, Unmarked, Digits, FlattenedName;
    var p := ins + rest;
    forall i | 0 <= i < |ps|
      ensures p[i] == ins[i] && NewName(PixelStage, p, i) == "_vertex_shader_attrib" + Digits(i)
    {
      InputName(ins, rest, i);
    }
    forall i | 0 <= i < |p|
      ensures FlattenedName(p[i].name)
    {
      if i < |ins| {
        StartsFlattened(q, ps[i]);
      }
    }
    Shown(PixelStage, p, 0, q, ps, k);
  }

  lemma {:induction false} OutputsFlattened(inputs: seq<Attrib>, outs: seq<Attrib>, ps: seq<string>)
    requires |outs| == |ps| && forall i :: 0 <= i < |inputs| ==> INPUT_PREFIX <= inputs[i].name
    requires forall i :: 0 <= i < |ps| ==> outs[i].name == "outputval_" + ps[i]
    ensures Flattened(inputs + outs)
  {
    hide FlattenedName;
    var v := inputs + outs;
    forall i | 0 <= i < |v|
      ensures FlattenedName(v[i].name)
    {
      if i < |inputs| {
        StartsFlattened(inputs[i].name, "");
      } else {
        StartsFlattened("outputval_", ps[i - |inputs|]);
      }
    }
  }

  lemma {:induction false} StartsFlattened(q: string, path: string)
    requires INPUT_PREFIX <= q || q == "outputval_"
    ensures FlattenedName(q + path) && FlattenedName(q)
  {
    if INPUT_PREFIX <= q {
      assert INPUT_PREFIX <= q + path;
    } else {
      assert "outputval" <= q + path;
    }
  }

  lemma {:induction false} InputNotOutput(name: string, path: string)
    requires INPUT_PREFIX <= name
    ensures !(name <= "outputval_" + path)
  {
    assert name[0] == INPUT_PREFIX[0] == 'i';
    assert ("outputval_" + path)[0] == 'o';
  }

  lemma {:induction false} FrontsUnmarked(param: string, path: string)
    requires Unmarked(param + "_" + path)
    ensures Unmarked(("outputval_" + path)[1..]) && Unmarked((INPUT_PREFIX + param + "_" + path)[1..])
  {
    hide Occurs;
    var w := param + "_" + path;
    assert w[|param| + 1..] == path;
    UnmarkedRest(w, |param| + 1);
    var o, i := "utputval_", "nputval_";
    UnmarkedBehind(o, path);
    UnmarkedBehind(i, w);
    assert ("outputval_" + path)[1..] == o + path;
    assert (INPUT_PREFIX + param + "_" + path)[1..] == i + w;
  }

  // ---- when different variables have different names ----

  /** The number of variable k's lead and the rest of its name read as the number and rest of variable l: N with
      number 1, N0, and whatever has number 10. */
  predicate Collide(ps: seq<string>, k: nat, l: nat)
    requires k < |ps| && l < |ps|
  {
    var i, j := Digits(Lead(ps, k)), Digits(Lead(ps, l));
    |i| < |j| && i <= j && Behind(ps, k) == j[|i|..] + Behind(ps, l)
  }

  /** Two variables end up under one name if and only if they are called the same, or the numbers collide. */
  lemma {:induction false} SameName(ps: seq<string>, k: nat, l: nat)
    requires k < |ps| && l < |ps|
    ensures LinkName(ps, k) == LinkName(ps, l) <==> ps[k] == ps[l] || Collide(ps, k, l) || Collide(ps, l, k)
  {
    hide Digits;
    var p := "_vertex_shader_attrib";
    var i, j := Lead(ps, k), Lead(ps, l);
    var a, b, x, y := Digits(i), Digits(j), Behind(ps, k), Behind(ps, l);
    SamePrefix(p, a + x, b + y);
    assert ps[k] == ps[i] + x && ps[l] == ps[j] + y;
    if a + x == b + y {
      SplitSame(a, x, b, y);
      if |a| == |b| {
        DigitsInjective(i, j);
      }
    }
    if Collide(ps, k, l) {
      assert b == a + b[|a|..];
    }
    if Collide(ps, l, k) {
      assert a == b + a[|b|..];
    }
  }

  lemma {:induction false} SplitSame(a: string, x: string, b: string, y: string)
    requires a + x == b + y
    ensures |a| == |b| ==> a == b && x == y
    ensures |a| < |b| ==> a <= b && x == b[|a|..] + y
    ensures |b| < |a| ==> b <= a && y == a[|b|..] + x
  {
    var w := a + x;
    assert w[..|a|] == a && w[|a|..] == x && (b + y)[..|b|] == b && (b + y)[|b|..] == y;
    if |a| < |b| {
      assert w[..|a|] == b[..|a|];
      assert w[|a|..] == b[|a|..] + y;
    }
    if |b| < |a| {
      assert w[..|b|] == a[..|b|];
      assert w[|b|..] == a[|b|..] + x;
    }
  }

  predicate Different(names: seq<string>) {
    forall k, l :: 0 <= k < l < |names| ==> names[k] != names[l]
  }

  function LinkNames(ps: seq<string>): (r: seq<string>)
    ensures |r| == |ps| && forall k :: 0 <= k < |ps| ==> r[k] == LinkName(ps, k)
  {
    seq(|ps|, k requires 0 <= k < |ps| => LinkName(ps, k))
  }

  predicate NoneCollide(ps: seq<string>) {
    forall k, l :: 0 <= k < |ps| && 0 <= l < |ps| ==> !Collide(ps, k, l)
  }

  lemma {:induction false} LinkNamesDiffer(ps: seq<string>)
    ensures Different(LinkNames(ps)) <==> Different(ps) && NoneCollide(ps)
  {
    hide LinkName, Collide;
    var r := LinkNames(ps);
    forall k, l | 0 <= k < |ps| && 0 <= l < |ps|
      ensures r[k] == r[l] <==> ps[k] == ps[l] || Collide(ps, k, l) || Collide(ps, l, k)
      ensures !Collide(ps, k, k)
    {
      SameName(ps, k, l);
      NotItself(ps, k);
    }
    if Different(r) {
      forall k, l | 0 <= k < |ps| && 0 <= l < |ps|
        ensures !Collide(ps, k, l)
      {
        if k < l {
          assert r[k] != r[l];
        } else if l < k {
          assert r[l] != r[k];
        }
      }
    }
  }

  lemma {:induction false} NotItself(ps: seq<string>, k: nat)
    requires k < |ps|
    ensures !Collide(ps, k, k)
  {
  }

  /** The failing input: paths number 1 and 2 are N and N0, and number 10 is one that none before it begins. */
  lemma {:induction false} DigitCollision(ps: seq<string>)
    requires |ps| > 10 && ps[2] == ps[1] + "0" && Lead(ps, 1) == 1 && Lead(ps, 2) == 1 && Lead(ps, 10) == 10
    ensures LinkName(ps, 2) == LinkName(ps, 10) == "_vertex_shader_attrib10"
  {
    assert Digits(1) == "1" && Digits(10) == Digits(1) + "0" == "10";
    assert Behind(ps, 2) == "0" && Behind(ps, 10) == "";
    assert "1" + "0" == "10" && "10" + "" == "10";
  }

  // ---- from declarations to texts ----

  function Outputs(typ: string, members: seq<Var>): seq<Attrib> {
    Declared(VertexStage, Struct("outputval", typ, members), false, "")
  }

  function Inputs(param: string, typ: string, members: seq<Var>): seq<Attrib> {
    Declared(PixelStage, Struct(param, typ, members), true, INPUT_PREFIX)
  }

  /** The attributes of the vertex shader: the parameters of its main, then what it returns. */
  function VertexAttribs(params: seq<Var>, typ: string, members: seq<Var>): seq<Attrib> {
    DeclaredAll(VertexStage, params, true, INPUT_PREFIX) + Outputs(typ, members)
  }

  /** Those of the pixel shader, whose main takes that struct first. */
  function PixelAttribs(param: string, typ: string, members: seq<Var>, params: seq<Var>, result: Var): seq<Attrib> {
    Inputs(param, typ, members)
    + (DeclaredAll(PixelStage, params, true, INPUT_PREFIX) + Declared(PixelStage, result, false, ""))
  }

  /** The paths of the members that take a variable, as names. */
  function PathsOf(members: seq<Var>): (ps: seq<string>)
    ensures |ps| == |Own(VertexStage, FieldsAll(members), false)|
    ensures forall i :: 0 <= i < |ps| ==> ps[i] == Join(Own(VertexStage, FieldsAll(members), false)[i].path, "_")
  {
    var own := Own(VertexStage, FieldsAll(members), false);
    seq(|own|, i requires 0 <= i < |own| => Join(own[i].path, "_"))
  }

  lemma {:induction false} OwnSame(fs: seq<Field>)
    requires (forall i :: 0 <= i < |fs| ==> fs[i].path != []) && NoVertexId(fs)
    ensures Own(VertexStage, fs, false) == Own(PixelStage, fs, true)
  {
    if fs != [] {
      OwnSame(fs[1..]);
    }
  }

  lemma {:induction false} SharedNames(param: string, typ: string, members: seq<Var>)
    requires NoVertexId(FieldsAll(members))
    ensures var outs, ins, ps := Outputs(typ, members), Inputs(param, typ, members), PathsOf(members);
            && |outs| == |ins| == |ps|
            && forall i :: 0 <= i < |ps| ==>
                 && outs[i].typ == ins[i].typ && !outs[i].input && ins[i].input
                 && outs[i].name == "outputval_" + ps[i] && ins[i].name == INPUT_PREFIX + param + "_" + ps[i]
  {
    hide Own, FieldAttribs, Join, Declared;
    var fs := FieldsAll(members);
    DeclaredIsFields(VertexStage, Struct("outputval", typ, members), false, "");
    DeclaredIsFields(PixelStage, Struct(param, typ, members), true, INPUT_PREFIX);
    FieldAttribsUnder(VertexStage, "outputval", fs, false, "");
    FieldAttribsUnder(PixelStage, param, fs, true, INPUT_PREFIX);
    assert "" + "outputval" + "_" == "outputval_";
    OwnNames(VertexStage, fs, false, "outputval_");
    OwnNames(PixelStage, fs, true, INPUT_PREFIX + param + "_");
    OwnSame(fs);
  }

  /** Cross-stage linking, from the declarations of both mains to the final texts. If no path reads like a
      flattened name, the k-th variable of the struct has the same type and the same identifier on both sides;
      and the identifiers are different ones if and only if the paths are and no numbers collide. */
  lemma {:induction false} DeclarationsLink(params: seq<Var>, typ: string, members: seq<Var>, param: string,
                                            pixelParams: seq<Var>, result: Var)
    requires NoVertexId(FieldsAll(members)) && result.name == "outputval"
    requires forall i :: 0 <= i < |PathsOf(members)| ==> Unmarked(param + "_" + PathsOf(members)[i])
    ensures var outs, ins, ps := Outputs(typ, members), Inputs(param, typ, members), PathsOf(members);
            var v, p := VertexAttribs(params, typ, members), PixelAttribs(param, typ, members, pixelParams, result);
            && |outs| == |ins| == |ps| && Named(v) && Named(p)
            && (forall k :: 0 <= k < |ps| ==>
                  && outs[k].typ == ins[k].typ
                  && Renamed(VertexStage, v, |v|, outs[k].name) == LinkNames(ps)[k]
                  && Renamed(PixelStage, p, |p|, ins[k].name) == LinkNames(ps)[k])
            && (Different(LinkNames(ps)) <==> Different(ps) && NoneCollide(ps))
  {
    hide Declared, DeclaredAll, Renamed, LinkNames, Unmarked, FlattenedName, Outputs, Inputs, PathsOf, Different;
    var outs, ins, ps := Outputs(typ, members), Inputs(param, typ, members), PathsOf(members);
    var first := DeclaredAll(VertexStage, params, true, INPUT_PREFIX);
    var more := DeclaredAll(PixelStage, pixelParams, true, INPUT_PREFIX);
    var last := Declared(PixelStage, result, false, "");
    SharedNames(param, typ, members);
    InputsFlattened(PixelStage, pixelParams);
    DeclaredFlattened(PixelStage, result, false, "");
    InputsFlattened(VertexStage, params);
    InputsMarked(VertexStage, params);
    assert Flattened(more + last);
    forall k | 0 <= k < |ps|
      ensures Named(first + outs) && Named(ins + (more + last))
      ensures Renamed(VertexStage, first + outs, |first + outs|, outs[k].name) == LinkName(ps, k)
      ensures Renamed(PixelStage, ins + (more + last), |ins + (more + last)|, ins[k].name) == LinkName(ps, k)
    {
      TextsLink(first, outs, ins, more + last, param, ps, k);
    }
    AllNamed(params, typ, members, param, pixelParams, result);
    LinkNamesDiffer(ps);
  }

  lemma {:induction false} AllNamed(params: seq<Var>, typ: string, members: seq<Var>, param: string,
                                    pixelParams: seq<Var>, result: Var)
    requires result.name == "outputval"
    ensures Named(VertexAttribs(params, typ, members))
    ensures Named(PixelAttribs(param, typ, members, pixelParams, result))
  {
    hide Declared, DeclaredAll, FlattenedName;
    InputsFlattened(VertexStage, params);
    DeclaredFlattened(VertexStage, Struct("outputval", typ, members), false, "");
    FlattenedNamed(VertexAttribs(params, typ, members));
    DeclaredFlattened(PixelStage, Struct(param, typ, members), true, INPUT_PREFIX);
    InputsFlattened(PixelStage, pixelParams);
    DeclaredFlattened(PixelStage, result, false, "");
    FlattenedNamed(PixelAttribs(param, typ, members, pixelParams, result));
  }

  lemma {:induction false} InputsMarked(stage: Stage, ms: seq<Var>)
    ensures forall i :: 0 <= i < |DeclaredAll(stage, ms, true, INPUT_PREFIX)| ==>
              INPUT_PREFIX <= DeclaredAll(stage, ms, true, INPUT_PREFIX)[i].name
  {
    if ms != [] {
      hide Fields, Own, FieldAttribs, Join;
      InputsMarked(stage, ms[1..]);
      DeclaredIsFields(stage, ms[0], true, INPUT_PREFIX);
      OwnNames(stage, Fields(ms[0]), true, INPUT_PREFIX);
    }
  }
}
