/** Shader inputs and outputs: structs flattened into attribute variables, and the glue main that copies
    between the two (libobs-opengl/gl-shaderparser.c:132-209, 564-650). */
module GlStorage {
  import opened Options
  import opened Stages

  /** A variable with its struct type resolved. */
  datatype Var =
    | Leaf(name: string, typ: string, mapping: string)
    | Struct(name: string, typ: string, members: seq<Var>)

  /** A declared attribute variable: one line of GLSL and one gl_parser_attrib. */
  datatype Attrib = Attrib(input: bool, typ: string, name: string, mapping: string)

  datatype Assign = Assign(dst: string, src: string)

  const INPUT_PREFIX := "inputval_"

  // ---- what the recursive writers produce ----

  predicate IsBuiltin(stage: Stage, input: bool, mapping: string) {
    || (input && mapping == "VERTEXID")
    || (mapping == "POSITION" && ((!input && stage.VertexStage?) || (input && stage.PixelStage?)))
  }

  /** gl_write_storage_var. */
  function Declared(stage: Stage, v: Var, input: bool, prefix: string): seq<Attrib>
    decreases v, 1
  {
    match v
    case Struct(n, _, ms) => DeclaredAll(stage, ms, input, prefix + n + "_")
    case Leaf(n, t, m) => if IsBuiltin(stage, input, m) then [] else [Attrib(input, t, prefix + n, m)]
  }

  function DeclaredAll(stage: Stage, ms: seq<Var>, input: bool, prefix: string): seq<Attrib>
    decreases ms, 0
  {
    if ms == [] then []
    else Declared(stage, ms[0], input, prefix) + DeclaredAll(stage, ms[1..], input, prefix)
  }

  /** gl_write_main_storage_assign. */
  function Assigned(stage: Stage, v: Var, dst: Option<string>, src: string, input: bool): seq<Assign>
    decreases v, 1
  {
    var to := (match dst case Some(d) => d + (if input then "." else "_") case None => "\t") + v.name;
    match v
    case Struct(n, _, ms) => AssignedAll(stage, ms, to, src + n + (if input then "_" else "."), input)
    case Leaf(n, _, m) =>
      if !input && stage.VertexStage? && m == "POSITION" then [Assign("\tgl_Position", src + n)]
      else [Assign(to,
                   if input && m == "VERTEXID" then "uint(gl_VertexID)"
                   else if input && stage.PixelStage? && m == "POSITION" then "gl_FragCoord"
                   else src + n)]
  }

  function AssignedAll(stage: Stage, ms: seq<Var>, dst: string, src: string, input: bool): seq<Assign>
    decreases ms, 0
  {
    if ms == [] then []
    else Assigned(stage, ms[0], Some(dst), src, input) + AssignedAll(stage, ms[1..], dst, src, input)
  }

  /** The recursive writers, appending to the parser state. */
  class StorageWriter {
    const stage: Stage
    var attribs: seq<Attrib>
    var assigns: seq<Assign>

    constructor (stage: Stage)
      ensures this.stage == stage && attribs == [] && assigns == []
    {
      this.stage := stage;
      attribs, assigns := [], [];
    }

    method WriteStorageVar(v: Var, input: bool, prefix: string)
      modifies this`attribs
      ensures attribs == old(attribs) + Declared(stage, v, input, prefix)
      decreases v
    {
      match v
      case Struct(n, t, ms) =>
        var i := 0;
        while i < |ms|
          invariant 0 <= i <= |ms|
          invariant attribs + DeclaredAll(stage, ms[i..], input, prefix + n + "_")
                 == old(attribs) + DeclaredAll(stage, ms, input, prefix + n + "_")
        {
          ghost var before, rest := attribs, DeclaredAll(stage, ms[i + 1..], input, prefix + n + "_");
          assert ms[i..][1..] == ms[i + 1..];
          WriteStorageVar(ms[i], input, prefix + n + "_");
          ghost var d := Declared(stage, ms[i], input, prefix + n + "_");
          assert before + (d + rest) == before + d + rest;
          i := i + 1;
        }
        assert attribs + [] == attribs;
      case Leaf(n, t, m) =>
        if input && m == "VERTEXID" {
          return;
        }
        if m == "POSITION" {
          if !input && stage.VertexStage? {
            return;
          }
          if input && stage.PixelStage? {
            return;
          }
        }
        attribs := attribs + [Attrib(input, t, prefix + n, m)];
    }

    method WriteMainStorageAssign(v: Var, dst: Option<string>, src: string, input: bool)
      modifies this`assigns
      ensures assigns == old(assigns) + Assigned(stage, v, dst, src, input)
      decreases v
    {
      var to: string;
      match dst {
        case Some(d) => to := d + (if input then "." else "_");
        case None => to := "\t";
      }
      to := to + v.name;
      match v
      case Struct(n, t, ms) =>
        var from := src + n + (if input then "_" else ".");
        var i := 0;
        while i < |ms|
          invariant 0 <= i <= |ms|
          invariant assigns + AssignedAll(stage, ms[i..], to, from, input)
                 == old(assigns) + AssignedAll(stage, ms, to, from, input)
        {
          ghost var before, rest := assigns, AssignedAll(stage, ms[i + 1..], to, from, input);
          assert ms[i..][1..] == ms[i + 1..];
          WriteMainStorageAssign(ms[i], Some(to), from, input);
          ghost var d := Assigned(stage, ms[i], Some(to), from, input);
          assert before + (d + rest) == before + d + rest;
          i := i + 1;
        }
        assert assigns + [] == assigns;
      case Leaf(n, t, m) =>
        if input || !stage.VertexStage? || m != "POSITION" {
          var value := src + n;
          if input && m == "VERTEXID" {
            value := "uint(gl_VertexID)";
          } else if input && stage.PixelStage? && m == "POSITION" {
            value := "gl_FragCoord";
          }
          assigns := assigns + [Assign(to, value)];
        }
        if !input && stage.VertexStage? && m == "POSITION" {
          assigns := assigns + [Assign("\tgl_Position", src + n)];
        }
    }
  }

  // ---- reference: the leaves of a variable and their field paths ----

  datatype Field = Field(path: seq<string>, typ: string, mapping: string)

  function Fields(v: Var): (fs: seq<Field>)
    ensures forall i :: 0 <= i < |fs| ==> fs[i].path != []
    decreases v, 1
  {
    match v
    case Leaf(n, t, m) => [Field([n], t, m)]
    case Struct(n, _, ms) => Under(n, FieldsAll(ms))
  }

  function FieldsAll(ms: seq<Var>): (fs: seq<Field>)
    ensures forall i :: 0 <= i < |fs| ==> fs[i].path != []
    decreases ms, 0
  {
    if ms == [] then [] else Fields(ms[0]) + FieldsAll(ms[1..])
  }

  function Under(n: string, fs: seq<Field>): (r: seq<Field>)
    ensures |r| == |fs|
    ensures forall i :: 0 <= i < |r| ==> r[i] == fs[i].(path := [n] + fs[i].path)
  {
    if fs == [] then [] else [fs[0].(path := [n] + fs[0].path)] + Under(n, fs[1..])
  }

  function Join(path: seq<string>, sep: string): string
    requires path != []
  {
    if |path| == 1 then path[0] else path[0] + sep + Join(path[1..], sep)
  }

  /** One declaration per field that is not a built-in, named by its path. */
  function FieldAttribs(stage: Stage, fs: seq<Field>, input: bool, prefix: string): seq<Attrib>
    requires forall i :: 0 <= i < |fs| ==> fs[i].path != []
  {
    if fs == [] then []
    else
      (if IsBuiltin(stage, input, fs[0].mapping) then []
       else [Attrib(input, fs[0].typ, prefix + Join(fs[0].path, "_"), fs[0].mapping)])
      + FieldAttribs(stage, fs[1..], input, prefix)
  }

  /** One assignment per field, between its path and its variable. */
  function FieldAssign(stage: Stage, f: Field, dst: string, src: string, input: bool): Assign
    requires f.path != []
  {
    if input then
      Assign(dst + Join(f.path, "."),
             if f.mapping == "VERTEXID" then "uint(gl_VertexID)"
             else if stage.PixelStage? && f.mapping == "POSITION" then "gl_FragCoord"
             else src + Join(f.path, "_"))
    else if stage.VertexStage? && f.mapping == "POSITION" then Assign("\tgl_Position", src + Join(f.path, "."))
    else Assign(dst + Join(f.path, "_"), src + Join(f.path, "."))
  }

  function FieldAssigns(stage: Stage, fs: seq<Field>, dst: string, src: string, input: bool): (r: seq<Assign>)
    requires forall i :: 0 <= i < |fs| ==> fs[i].path != []
    ensures |r| == |fs|
    ensures forall i :: 0 <= i < |fs| ==> r[i] == FieldAssign(stage, fs[i], dst, src, input)
  {
    if fs == [] then []
    else [FieldAssign(stage, fs[0], dst, src, input)] + FieldAssigns(stage, fs[1..], dst, src, input)
  }

  lemma {:induction false} FieldAttribsConcat(stage: Stage, a: seq<Field>, b: seq<Field>, input: bool, prefix: string)
    requires forall i :: 0 <= i < |a| ==> a[i].path != []
    requires forall i :: 0 <= i < |b| ==> b[i].path != []
    ensures FieldAttribs(stage, a + b, input, prefix) ==
            FieldAttribs(stage, a, input, prefix) + FieldAttribs(stage, b, input, prefix)
  {
    if a == [] {
      assert a + b == b;
    } else {
      assert (a + b)[1..] == a[1..] + b && (a + b)[0] == a[0];
      FieldAttribsConcat(stage, a[1..], b, input, prefix);
      hide Join;
    }
  }

  lemma {:induction false} FieldAttribsUnder(stage: Stage, n: string, fs: seq<Field>, input: bool, prefix: string)
    requires forall i :: 0 <= i < |fs| ==> fs[i].path != []
    ensures FieldAttribs(stage, Under(n, fs), input, prefix) == FieldAttribs(stage, fs, input, prefix + n + "_")
  {
    if fs != [] {
      FieldAttribsUnder(stage, n, fs[1..], input, prefix);
      assert Under(n, fs)[1..] == Under(n, fs[1..]);
      JoinUnder(n, fs[0].path, "_");
      assert prefix + (n + "_" + Join(fs[0].path, "_")) == prefix + n + "_" + Join(fs[0].path, "_");
    }
  }

  lemma {:induction false} JoinUnder(n: string, path: seq<string>, sep: string)
    requires path != []
    ensures Join([n] + path, sep) == n + sep + Join(path, sep)
  {
    assert ([n] + path)[1..] == path;
  }

  /** The declarations are exactly those of the fields that are not built-ins, in order. */
  lemma {:induction false} DeclaredIsFields(stage: Stage, v: Var, input: bool, prefix: string)
    ensures Declared(stage, v, input, prefix) == FieldAttribs(stage, Fields(v), input, prefix)
    decreases v, 1
  {
    match v
    case Leaf(n, t, m) =>
      assert Fields(v)[1..] == [];
    case Struct(n, _, ms) =>
      DeclaredAllIsFields(stage, ms, input, prefix + n + "_");
      FieldAttribsUnder(stage, n, FieldsAll(ms), input, prefix);
  }

  lemma {:induction false} DeclaredAllIsFields(stage: Stage, ms: seq<Var>, input: bool, prefix: string)
    ensures DeclaredAll(stage, ms, input, prefix) == FieldAttribs(stage, FieldsAll(ms), input, prefix)
    decreases ms, 0
  {
    if ms != [] {
      DeclaredIsFields(stage, ms[0], input, prefix);
      DeclaredAllIsFields(stage, ms[1..], input, prefix);
      FieldAttribsConcat(stage, Fields(ms[0]), FieldsAll(ms[1..]), input, prefix);
    }
  }

  /** Every field is assigned exactly once, in order, from its own variable or a built-in (inputs),
      or to its own variable or gl_Position (outputs). */
  lemma {:induction false} AssignedIsFields(stage: Stage, v: Var, dst: Option<string>, src: string, input: bool)
    ensures Assigned(stage, v, dst, src, input)
         == FieldAssigns(stage, Fields(v), match dst case Some(d) => d + (if input then "." else "_") case None => "\t",
                         src, input)
    decreases v, 1
  {
    var d := match dst case Some(d) => d + (if input then "." else "_") case None => "\t";
    match v
    case Leaf(n, t, m) =>
    case Struct(n, _, ms) =>
      var sep, other := if input then "." else "_", if input then "_" else ".";
      AssignedAllIsFields(stage, ms, d + n, src + n + other, input);
      var fs := FieldsAll(ms);
      hide FieldAssign;
      forall i | 0 <= i < |fs|
        ensures FieldAssign(stage, Under(n, fs)[i], d, src, input)
             == FieldAssign(stage, fs[i], d + n + sep, src + n + other, input)
      {
        FieldAssignUnder(stage, n, fs[i], d, src, input);
      }
  }

  lemma {:induction false} FieldAssignUnder(stage: Stage, n: string, f: Field, dst: string, src: string, input: bool)
    requires f.path != []
    ensures FieldAssign(stage, f.(path := [n] + f.path), dst, src, input)
         == FieldAssign(stage, f, dst + n + (if input then "." else "_"), src + n + (if input then "_" else "."), input)
  {
    JoinUnder(n, f.path, ".");
    JoinUnder(n, f.path, "_");
    hide Join;
    Glue(dst, n, if input then "." else "_", Join(f.path, if input then "." else "_"));
    Glue(src, n, if input then "_" else ".", Join(f.path, if input then "_" else "."));
  }

  lemma {:induction false} Glue(a: string, b: string, c: string, d: string)
    ensures a + (b + c + d) == a + b + c + d
  {
  }

  lemma {:induction false} AssignedAllIsFields(stage: Stage, ms: seq<Var>, dst: string, src: string, input: bool)
    ensures AssignedAll(stage, ms, dst, src, input)
         == FieldAssigns(stage, FieldsAll(ms), dst + (if input then "." else "_"), src, input)
    decreases ms, 0
  {
    if ms != [] {
      AssignedIsFields(stage, ms[0], Some(dst), src, input);
      AssignedAllIsFields(stage, ms[1..], dst, src, input);
    }
  }

  // ---- the two sides agree ----

  /** The variables that the glue main reads or writes, in order. */
  function VariablesUsed(stage: Stage, fs: seq<Field>, assigns: seq<Assign>, input: bool): seq<string>
    requires |fs| == |assigns|
  {
    if fs == [] then []
    else (if IsBuiltin(stage, input, fs[0].mapping) then [] else [if input then assigns[0].src else assigns[0].dst])
         + VariablesUsed(stage, fs[1..], assigns[1..], input)
  }

  function Names(attribs: seq<Attrib>, tab: string): (r: seq<string>)
    ensures |r| == |attribs|
    ensures forall i :: 0 <= i < |r| ==> r[i] == tab + attribs[i].name
  {
    if attribs == [] then [] else [tab + attribs[0].name] + Names(attribs[1..], tab)
  }

  lemma {:induction false} NamesCons(a: Attrib, rest: seq<Attrib>, tab: string)
    ensures Names([a] + rest, tab) == [tab + a.name] + Names(rest, tab)
  {
    assert ([a] + rest)[1..] == rest;
  }

  /** Flatten and unflatten agree for a one-parameter main: the fields not fed by a built-in take
      exactly the declared input variables, each once and in declaration order; the others take
      gl_VertexID or gl_FragCoord. */
  lemma {:induction false} InputsAgree(stage: Stage, v: Var)
    ensures var fs := Fields(v);
            var assigns := Assigned(stage, v, None, INPUT_PREFIX, true);
            && |assigns| == |fs|
            && VariablesUsed(stage, fs, assigns, true) == Names(Declared(stage, v, true, INPUT_PREFIX), "")
            && forall i :: 0 <= i < |fs| ==>
                 && assigns[i].dst == "\t" + Join(fs[i].path, ".")
                 && (IsBuiltin(stage, true, fs[i].mapping) ==>
                     assigns[i].src == "uint(gl_VertexID)" || assigns[i].src == "gl_FragCoord")
  {
    AssignedIsFields(stage, v, None, INPUT_PREFIX, true);
    DeclaredIsFields(stage, v, true, INPUT_PREFIX);
    UsedInputs(stage, Fields(v));
    hide FieldAssign, IsBuiltin, Join;
    forall i | 0 <= i < |Fields(v)|
      ensures var a := FieldAssign(stage, Fields(v)[i], "\t", INPUT_PREFIX, true);
              && a.dst == "\t" + Join(Fields(v)[i].path, ".")
              && (IsBuiltin(stage, true, Fields(v)[i].mapping) ==>
                  a.src == "uint(gl_VertexID)" || a.src == "gl_FragCoord")
    {
      Sources(stage, Fields(v)[i]);
    }
  }

  lemma {:induction false} Sources(stage: Stage, f: Field)
    requires f.path != []
    ensures var a := FieldAssign(stage, f, "\t", INPUT_PREFIX, true);
            && a.dst == "\t" + Join(f.path, ".")
            && if IsBuiltin(stage, true, f.mapping) then a.src == "uint(gl_VertexID)" || a.src == "gl_FragCoord"
               else a.src == INPUT_PREFIX + Join(f.path, "_")
  {
  }

  lemma {:induction false} Targets(stage: Stage, f: Field)
    requires f.path != []
    ensures var a := FieldAssign(stage, f, "\t", "", false);
            && a.src == Join(f.path, ".")
            && a.dst == if IsBuiltin(stage, false, f.mapping) then "\tgl_Position" else "\t" + Join(f.path, "_")
  {
    assert "" + Join(f.path, ".") == Join(f.path, ".");
  }

  lemma {:induction false} UsedInputs(stage: Stage, fs: seq<Field>)
    requires forall i :: 0 <= i < |fs| ==> fs[i].path != []
    ensures VariablesUsed(stage, fs, FieldAssigns(stage, fs, "\t", INPUT_PREFIX, true), true)
         == Names(FieldAttribs(stage, fs, true, INPUT_PREFIX), "")
  {
    hide FieldAssign, IsBuiltin, Join;
    if fs != [] {
      UsedInputs(stage, fs[1..]);
      Sources(stage, fs[0]);
      var xs := FieldAssigns(stage, fs, "\t", INPUT_PREFIX, true);
      assert xs[1..] == FieldAssigns(stage, fs[1..], "\t", INPUT_PREFIX, true);
      if !IsBuiltin(stage, true, fs[0].mapping) {
        var name := INPUT_PREFIX + Join(fs[0].path, "_");
        assert "" + name == name;
        NamesCons(Attrib(true, fs[0].typ, INPUT_PREFIX + Join(fs[0].path, "_"), fs[0].mapping),
                  FieldAttribs(stage, fs[1..], true, INPUT_PREFIX), "");
      }
    }
  }

  /** The same for the outputs of a main that returns a struct: every declared output variable is
      assigned exactly once from its own field path, and a vertex shader's position goes to
      gl_Position. */
  lemma {:induction false} OutputsAgree(stage: Stage, typ: string, members: seq<Var>)
    ensures var v := Struct("outputval", typ, members);
            var fs := Fields(v);
            var assigns := Assigned(stage, v, None, "", false);
            && |assigns| == |fs|
            && VariablesUsed(stage, fs, assigns, false) == Names(Declared(stage, v, false, ""), "\t")
            && forall i :: 0 <= i < |fs| ==>
                 && assigns[i].src == Join(fs[i].path, ".")
                 && (IsBuiltin(stage, false, fs[i].mapping) ==> assigns[i].dst == "\tgl_Position")
  {
    var v := Struct("outputval", typ, members);
    AssignedIsFields(stage, v, None, "", false);
    DeclaredIsFields(stage, v, false, "");
    UsedOutputs(stage, Fields(v));
    hide FieldAssign, IsBuiltin, Join;
    forall i | 0 <= i < |Fields(v)|
      ensures var a := FieldAssign(stage, Fields(v)[i], "\t", "", false);
              && a.src == Join(Fields(v)[i].path, ".")
              && (IsBuiltin(stage, false, Fields(v)[i].mapping) ==> a.dst == "\tgl_Position")
    {
      Targets(stage, Fields(v)[i]);
    }
  }

  lemma {:induction false} UsedOutputs(stage: Stage, fs: seq<Field>)
    requires forall i :: 0 <= i < |fs| ==> fs[i].path != []
    ensures VariablesUsed(stage, fs, FieldAssigns(stage, fs, "\t", "", false), false)
         == Names(FieldAttribs(stage, fs, false, ""), "\t")
  {
    hide FieldAssign, IsBuiltin, Join;
    if fs != [] {
      UsedOutputs(stage, fs[1..]);
      Targets(stage, fs[0]);
      var xs := FieldAssigns(stage, fs, "\t", "", false);
      assert xs[1..] == FieldAssigns(stage, fs[1..], "\t", "", false);
      assert "" + Join(fs[0].path, "_") == Join(fs[0].path, "_");
      if !IsBuiltin(stage, false, fs[0].mapping) {
        NamesCons(Attrib(false, fs[0].typ, Join(fs[0].path, "_"), fs[0].mapping),
                  FieldAttribs(stage, fs[1..], false, ""), "\t");
      }
    }
  }

  // ---- paths and flattened names ----

  predicate NoChar(s: string, c: char) {
    forall i :: 0 <= i < |s| ==> s[i] != c
  }

  /** Joining with a separator that no name contains loses nothing. */
  lemma {:induction false} JoinInjective(p: seq<string>, q: seq<string>, c: char)
    requires p != [] && q != []
    requires forall i :: 0 <= i < |p| ==> NoChar(p[i], c)
    requires forall i :: 0 <= i < |q| ==> NoChar(q[i], c)
    requires Join(p, [c]) == Join(q, [c])
    ensures p == q
    decreases |p|
  {
    var s := Join(p, [c]);
    HeadOfJoin(p, c);
    HeadOfJoin(q, c);
    assert |p[0]| == |q[0]| by {
      HeadLength(s, p[0], q[0], c);
      HeadLength(s, q[0], p[0], c);
    }
    assert p[0] == s[..|p[0]|] == q[0];
    if |p| > 1 && |q| > 1 {
      assert s[|p[0]| + 1..] == Join(p[1..], [c]);
      assert s[|q[0]| + 1..] == Join(q[1..], [c]);
      JoinInjective(p[1..], q[1..], c);
      assert p == [p[0]] + p[1..];
      assert q == [q[0]] + q[1..];
    } else if |p| == 1 && |q| == 1 {
      assert p == [p[0]] && q == [q[0]];
    }
  }

  lemma {:induction false} HeadLength(s: string, a: string, b: string, c: char)
    requires a <= s && b <= s && NoChar(b, c)
    requires |s| == |a| || s[|a|] == c
    ensures |b| <= |a|
  {
  }

  lemma {:induction false} HeadOfJoin(p: seq<string>, c: char)
    requires p != []
    ensures p[0] <= Join(p, [c])
    ensures |p| == 1 ==> Join(p, [c]) == p[0]
    ensures |p| > 1 ==> |Join(p, [c])| > |p[0]| && Join(p, [c])[|p[0]|] == c
  {
  }

  // Names with underscores in them, taken apart at every underscore.

  function Split(s: string, c: char): (r: seq<string>)
    ensures r != [] && forall i :: 0 <= i < |r| ==> NoChar(r[i], c)
    decreases |s|
  {
    if s == "" then [""]
    else
      var r := Split(s[1..], c);
      if s[0] == c then [""] + r else [[s[0]] + r[0]] + r[1..]
  }

  /** The pieces of a path. */
  function Pieces(path: seq<string>, c: char): (r: seq<string>)
    requires path != []
    ensures r != [] && forall i :: 0 <= i < |r| ==> NoChar(r[i], c)
  {
    if |path| == 1 then Split(path[0], c) else Split(path[0], c) + Pieces(path[1..], c)
  }

  lemma {:induction false} JoinConcat(a: seq<string>, b: seq<string>, sep: string)
    requires a != [] && b != []
    ensures Join(a + b, sep) == Join(a, sep) + sep + Join(b, sep)
    decreases |a|
  {
    if |a| == 1 {
      assert (a + b)[1..] == b;
    } else {
      assert (a + b)[1..] == a[1..] + b;
      JoinConcat(a[1..], b, sep);
      Glue(a[0] + sep, Join(a[1..], sep), sep, Join(b, sep));
    }
  }

  lemma {:induction false} JoinSplit(s: string, c: char)
    ensures Join(Split(s, c), [c]) == s
    decreases |s|
  {
    if s != "" {
      JoinSplit(s[1..], c);
      var r := Split(s[1..], c);
      if s[0] == c {
        JoinConcat([""], r, [c]);
        assert "" + [c] + s[1..] == s;
      } else {
        JoinHead(s[0], r, c);
        assert [s[0]] + s[1..] == s;
      }
    }
  }

  lemma {:induction false} JoinHead(d: char, r: seq<string>, c: char)
    requires r != []
    ensures Join([[d] + r[0]] + r[1..], [c]) == [d] + Join(r, [c])
  {
    if |r| > 1 {
      JoinConcat([[d] + r[0]], r[1..], [c]);
      assert [d] + r[0] + [c] + Join(r[1..], [c]) == [d] + (r[0] + [c] + Join(r[1..], [c]));
    } else {
      assert [[d] + r[0]] + r[1..] == [[d] + r[0]];
    }
  }

  lemma {:induction false} JoinPieces(path: seq<string>, c: char)
    requires path != []
    ensures Join(Pieces(path, c), [c]) == Join(path, [c])
  {
    JoinSplit(path[0], c);
    if |path| > 1 {
      JoinPieces(path[1..], c);
      JoinConcat(Split(path[0], c), Pieces(path[1..], c), [c]);
    }
  }

  /** Two paths flatten to one name if and only if their names, each split at the separator, give the same
      pieces. */
  lemma {:induction false} JoinExact(p: seq<string>, q: seq<string>, c: char)
    requires p != [] && q != []
    ensures Join(p, [c]) == Join(q, [c]) <==> Pieces(p, c) == Pieces(q, c)
  {
    JoinPieces(p, c);
    JoinPieces(q, c);
    if Join(p, [c]) == Join(q, [c]) {
      JoinInjective(Pieces(p, c), Pieces(q, c), c);
    }
  }

  /** The fields that get a variable. */
  function Own(stage: Stage, fs: seq<Field>, input: bool): (r: seq<Field>)
    requires forall i :: 0 <= i < |fs| ==> fs[i].path != []
    ensures forall i :: 0 <= i < |r| ==> r[i].path != []
  {
    if fs == [] then []
    else (if IsBuiltin(stage, input, fs[0].mapping) then [] else [fs[0]]) + Own(stage, fs[1..], input)
  }

  lemma {:induction false} OwnNames(stage: Stage, fs: seq<Field>, input: bool, prefix: string)
    requires forall i :: 0 <= i < |fs| ==> fs[i].path != []
    ensures var a, own := FieldAttribs(stage, fs, input, prefix), Own(stage, fs, input);
            && |a| == |own|
            && forall i :: 0 <= i < |a| ==>
              a[i] == Attrib(input, own[i].typ, prefix + Join(own[i].path, "_"), own[i].mapping)
  {
    hide Join, IsBuiltin;
    if fs != [] {
      OwnNames(stage, fs[1..], input, prefix);
    }
  }

  /** The variables of a declaration have different names if and only if the fields that get one have different
      pieces. */
  lemma {:induction false} DeclaredDistinct(stage: Stage, v: Var, input: bool, prefix: string)
    ensures var a, own := Declared(stage, v, input, prefix), Own(stage, Fields(v), input);
            && |a| == |own|
            && ((forall i, j :: 0 <= i < j < |a| ==> a[i].name != a[j].name)
                <==> (forall i, j :: 0 <= i < j < |own| ==> Pieces(own[i].path, '_') != Pieces(own[j].path, '_')))
  {
    hide Fields, Declared, Own, FieldAttribs, Join, Pieces;
    DeclaredIsFields(stage, v, input, prefix);
    OwnNames(stage, Fields(v), input, prefix);
    var a, own := Declared(stage, v, input, prefix), Own(stage, Fields(v), input);
    forall i, j | 0 <= i < j < |a|
      ensures a[i].name == a[j].name <==> Pieces(own[i].path, '_') == Pieces(own[j].path, '_')
    {
      JoinExact(own[i].path, own[j].path, '_');
      SamePrefix(prefix, Join(own[i].path, "_"), Join(own[j].path, "_"));
    }
  }

  lemma {:induction false} SamePrefix(p: string, a: string, b: string)
    ensures p + a == p + b <==> a == b
  {
    assert (p + a)[|p|..] == a && (p + b)[|p|..] == b;
  }

  /** Underscores in field names can make two fields share one variable. */
  lemma {:induction false} FlattenedNamesCollide()
    ensures var v := Struct("v", "VertIn",
                            [Leaf("a_b", "float4", "COLOR"), Struct("a", "Inner", [Leaf("b", "float4", "NORMAL")])]);
            var ds := Declared(VertexStage, v, true, INPUT_PREFIX);
            |ds| == 2 && ds[0] != ds[1] && ds[0].name == ds[1].name
  {
    var inner := [Leaf("b", "float4", "NORMAL")];
    var ms := [Leaf("a_b", "float4", "COLOR"), Struct("a", "Inner", inner)];
    var v := Struct("v", "VertIn", ms);
    assert ms[1..] == [Struct("a", "Inner", inner)] && ms[1..][1..] == [] && inner[1..] == [];
    var p := INPUT_PREFIX + "v" + "_";
    assert DeclaredAll(VertexStage, inner, true, p + "a" + "_")
        == [Attrib(true, "float4", p + "a" + "_" + "b", "NORMAL")] + [];
    assert DeclaredAll(VertexStage, ms[1..], true, p) ==
           [Attrib(true, "float4", p + "a" + "_" + "b", "NORMAL")] + [] + [];
    assert p + "a_b" == p + "a" + "_" + "b";
    assert Declared(VertexStage, ms[0], true, p) == [Attrib(true, "float4", p + "a_b", "COLOR")];
    assert Declared(VertexStage, v, true, INPUT_PREFIX) == DeclaredAll(VertexStage, ms, true, p);
    assert Declared(VertexStage, v, true, INPUT_PREFIX)
        == [Attrib(true, "float4", p + "a_b", "COLOR")] + DeclaredAll(VertexStage, ms[1..], true, p);
  }
}
