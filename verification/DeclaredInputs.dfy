/** From the inputs that a vertex shader declares to the buffers it reads
    (libobs-d3d11/d3d11-shaderprocessor.cpp:24-149, libobs-d3d11/d3d11-shader.cpp:31-45,
    libobs-d3d11/d3d11-vertexbuffer.cpp:22-76). */
module DeclaredInputs {
  import opened InputLayout
  import opened VertexBuffers
  import opened Options

  /** A parameter of main or a field: with a semantic, a struct of fields, or neither. */
  datatype Declared = Field(sem: Semantic, number: Option<nat>) | Group(fields: seq<Declared>) | Neither

  /** The parser's variables for it. */
  function Parsed(d: Declared): Var {
    match d
    case Field(sem, number) => Mapped(Mapping(sem, number))
    case Group(fields) => Struct(AllParsed(fields))
    case Neither => Other
  }

  function AllParsed(ds: seq<Declared>): seq<Var> {
    if ds == [] then [] else [Parsed(ds[0])] + AllParsed(ds[1..])
  }

  /** What the fields at the leaves declare, in order; a plain VERTEXID is no input from a buffer. */
  function Leaves(ds: seq<Declared>): seq<Key> {
    if ds == [] then [] else LeavesOf(ds[0]) + Leaves(ds[1..])
  }

  function LeavesOf(d: Declared): seq<Key> {
    match d
    case Field(sem, number) =>
      if sem == VertexId && number.None? then [] else [Key(sem, if number.Some? then number.value else 0)]
    case Group(fields) => Leaves(fields)
    case Neither => []
  }

  function Unslotted(keys: seq<Key>): seq<Element> {
    seq(|keys|, i requires 0 <= i < |keys| => Element(keys[i], 0))
  }

  lemma {:induction false} UnslottedConcat(a: seq<Key>, b: seq<Key>)
    ensures Unslotted(a + b) == Unslotted(a) + Unslotted(b)
  {
  }

  /** The elements collected are the leaves, each under the semantic and the number it is declared with, whatever the
      nesting. */
  lemma {:induction false} CollectedLeaves(ds: seq<Declared>)
    ensures Collected(AllParsed(ds)) == Some(Unslotted(Leaves(ds)))
  {
    assert Unslotted([]) == [];
    if ds != [] {
      hide SemanticInfo, Mapping;
      CollectedLeaf(ds[0]);
      CollectedLeaves(ds[1..]);
      UnslottedConcat(LeavesOf(ds[0]), Leaves(ds[1..]));
      assert AllParsed(ds)[1..] == AllParsed(ds[1..]);
    }
  }

  lemma {:induction false} CollectedLeaf(d: Declared)
    ensures CollectedOne(Parsed(d)) == Some(Unslotted(LeavesOf(d)))
  {
    match d
    case Field(sem, number) => CollectedField(sem, number);
    case Group(fields) => CollectedLeaves(fields);
    case Neither => assert Unslotted([]) == [];
  }

  lemma {:induction false} CollectedField(sem: Semantic, number: Option<nat>)
    ensures CollectedOne(Mapped(Mapping(sem, number))) == Some(Unslotted(LeavesOf(Field(sem, number))))
  {
    MappingRead(sem, number);
    hide SemanticInfo, Mapping;
    var m := Mapping(sem, number);
    if sem == VertexId && number.None? {
      assert CollectedOne(Mapped(m)) == Some([]);
      assert Unslotted([]) == [];
    } else {
      var k := Key(sem, if number.Some? then number.value else 0);
      assert CollectedOne(Mapped(m)) == Some([Element(k, 0)]);
      assert Unslotted([k]) == [Element(k, 0)];
    }
  }

  /** Positions, at most one normal, color and tangent, all under number 0, and texture coordinates from 0 on without a
      gap, each once; in any order. */
  predicate Fit(keys: seq<Key>) {
    && Key(Position, 0) in keys
    && (forall k :: k in keys ==> k.sem != VertexId && (k.sem == TexCoord || k.index == 0))
    && (forall k, n: nat :: k in keys && k.sem == TexCoord && n < k.index ==> Key(TexCoord, n) in keys)
    && (forall i, j :: 0 <= i < j < |keys| && keys[i] == keys[j] ==> keys[i].sem == Position)
  }

  /** Every leaf reads, at the slot of its element, the buffer and stride for the semantic it is declared with. */
  predicate Reads(keys: seq<Key>, layout: seq<Element>, list: seq<Bound>, vb: VertexBuffer) {
    |layout| == |keys| &&
    forall i :: 0 <= i < |keys| ==> layout[i].slot < |list| && Source(vb, keys[i]) == Some(list[layout[i].slot])
  }

  lemma {:induction false} FoundIff(keys: seq<Key>, k: Key)
    ensures First(Unslotted(keys), k) < |keys| <==> k in keys
  {
    if keys != [] {
      FoundIff(keys[1..], k);
      assert Unslotted(keys)[1..] == Unslotted(keys[1..]);
    }
  }

  /** The condition on declarations is the one on layouts. */
  lemma {:induction false} FitIff(keys: seq<Key>)
    ensures Fit(keys) <==> Regular(Unslotted(keys))
  {
    var layout := Unslotted(keys);
    FoundIff(keys, Key(Position, 0));
    var stop := Stop(layout, 4) - 4;
    assert Key(TexCoord, stop) !in keys by { FoundIff(keys, Key(TexCoord, stop)); }
    forall n: nat | n < stop
      ensures Key(TexCoord, n) in keys
    {
      StopPresent(layout, 4, 4 + n);
      FoundIff(keys, Key(TexCoord, n));
    }
    hide First, Stop;
    if Fit(keys) {
      forall i | 0 <= i < |layout|
        ensures StageOf(layout[i].key).Some? && StageOf(layout[i].key).value < Stop(layout, 4)
      {
        assert keys[i] in keys;
      }
    }
    if Regular(layout) {
      forall k | k in keys
        ensures k.sem != VertexId && (k.sem == TexCoord || k.index == 0) && (k.sem == TexCoord ==> k.index < stop)
      {
        var i :| 0 <= i < |keys| && keys[i] == k;
        assert StageOf(layout[i].key).Some?;
      }
      forall i, j | 0 <= i < j < |keys| && keys[i] == keys[j]
        ensures keys[i].sem == Position
      {
        assert layout[i].key == layout[j].key;
      }
      assert Key(Position, 0) in keys;
    }
  }

  /** From the declarations to the slots. For any declared inputs, in any nesting of structs, and a vertex buffer that
      supplies what the shader expects: the layout built from what the parser makes of them gives every leaf the slot
      at which the buffer of its own declaration is bound, if and only if nothing is declared or the declarations
      fit. */
  lemma {:induction false} DeclaredReads(ds: seq<Declared>, vb: VertexBuffer)
    requires Supplies(vb, ExpectedOf(Unslotted(Leaves(ds)))) && PointsApart(vb)
    ensures Collected(AllParsed(ds)).Some?
    ensures var layout := Assigned(Collected(AllParsed(ds)).value);
            Reads(Leaves(ds), layout, BufferList(vb, ExpectedOf(layout)), vb) <==> Leaves(ds) == [] || Fit(Leaves(ds))
  {
    var keys := Leaves(ds);
    var layout := Unslotted(keys);
    CollectedLeaves(ds);
    FedExact(layout, vb);
    FitIff(keys);
    hide BufferList, ExpectedOf, Fit, Regular;
    UptoKeys(layout, Stop(layout, 4));
    SameExpected(layout, Assigned(layout));
    ReadsIsFed(keys, Assigned(layout), BufferList(vb, ExpectedOf(layout)), vb);
  }

  lemma {:induction false} ReadsIsFed(keys: seq<Key>, layout: seq<Element>, list: seq<Bound>, vb: VertexBuffer)
    requires |layout| == |keys| && forall i :: 0 <= i < |keys| ==> layout[i].key == keys[i]
    ensures Reads(keys, layout, list, vb) <==> Fed(layout, list, vb)
  {
  }
}
