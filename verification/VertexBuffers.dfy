/** The buffers a D3D11 vertex buffer puts in the slots of a vertex shader, and why they are the ones the
    shader's input layout names (libobs-d3d11/d3d11-shader.cpp:31-45, libobs-d3d11/d3d11-vertexbuffer.cpp:22-76,
    libobs-d3d11/d3d11-subsystem.hpp:740-754). */
module VertexBuffers {
  import opened InputLayout
  import opened Options

  const SIZEOF_VEC3 := 16
  const SIZEOF_UINT32 := 4

  /** A buffer and its stride. */
  datatype Bound = Bound(buffer: nat, stride: nat)

  /** The GPU buffers of a vertex buffer; a texture coordinate's buffer comes with its element size. */
  datatype VertexBuffer = VertexBuffer(points: nat, normals: Option<nat>, colors: Option<nat>, tangents: Option<nat>,
                                       uvs: seq<Bound>)

  /** What a vertex shader expects. */
  datatype Expected = Expected(normals: bool, colors: bool, tangents: bool, texUnits: nat)

  // ---- what the shader expects ----

  predicate Has(layout: seq<Element>, sem: Semantic) {
    exists e :: e in layout && e.key.sem == sem
  }

  function Count(layout: seq<Element>, sem: Semantic): nat {
    if layout == [] then 0 else (if layout[0].key.sem == sem then 1 else 0) + Count(layout[1..], sem)
  }

  function ExpectedOf(layout: seq<Element>): Expected {
    Expected(Has(layout, Normal), Has(layout, Color), Has(layout, Tangent), Count(layout, TexCoord))
  }

  function NumBuffersExpected(x: Expected): nat {
    x.texUnits + 1 + (if x.normals then 1 else 0) + (if x.colors then 1 else 0) + (if x.tangents then 1 else 0)
  }

  /** GetBuffersExpected on a new shader. */
  method GetBuffersExpected(inputs: seq<Element>) returns (x: Expected)
    ensures x == ExpectedOf(inputs)
  {
    x := Expected(false, false, false, 0);
    var i := 0;
    while i < |inputs|
      invariant 0 <= i <= |inputs|
      invariant x.normals == Has(inputs[..i], Normal) && x.colors == Has(inputs[..i], Color) &&
                x.tangents == Has(inputs[..i], Tangent)
      invariant x.texUnits + Count(inputs[i..], TexCoord) == Count(inputs, TexCoord)
    {
      var input := inputs[i];
      assert inputs[..i + 1] == inputs[..i] + [input] && inputs[i..][1..] == inputs[i + 1..];
      HasSnoc(inputs[..i], input, Normal);
      HasSnoc(inputs[..i], input, Color);
      HasSnoc(inputs[..i], input, Tangent);
      if input.key.sem == Normal {
        x := x.(normals := true);
      } else if input.key.sem == Tangent {
        x := x.(tangents := true);
      } else if input.key.sem == Color {
        x := x.(colors := true);
      } else if input.key.sem == TexCoord {
        x := x.(texUnits := x.texUnits + 1);
      }
      i := i + 1;
    }
    assert inputs[..i] == inputs;
  }

  lemma {:induction false} HasSnoc(layout: seq<Element>, e: Element, sem: Semantic)
    ensures Has(layout + [e], sem) <==> Has(layout, sem) || e.key.sem == sem
  {
    if Has(layout, sem) {
      var f :| f in layout && f.key.sem == sem;
      assert f in layout + [e];
    }
    assert e in layout + [e];
  }

  // ---- the list of buffers ----

  function Pushed(buffer: Option<nat>, stride: nat): (r: seq<Bound>)
    ensures |r| <= 1
  {
    match buffer case None => [] case Some(b) => [Bound(b, stride)]
  }

  /** What MakeBufferList writes, in order. */
  function BufferList(vb: VertexBuffer, x: Expected): seq<Bound> {
    [Bound(vb.points, SIZEOF_VEC3)]
    + (if x.normals then Pushed(vb.normals, SIZEOF_VEC3) else [])
    + (if x.colors then Pushed(vb.colors, SIZEOF_UINT32) else [])
    + (if x.tangents then Pushed(vb.tangents, SIZEOF_VEC3) else [])
    + TexCoords(vb, x)
  }

  function TexCoords(vb: VertexBuffer, x: Expected): seq<Bound> {
    if x.texUnits <= |vb.uvs| then vb.uvs[..x.texUnits] else []
  }

  predicate Written(list: seq<Bound>, buffers: array<nat>, strides: array<nat>)
    reads buffers, strides
  {
    && |list| <= buffers.Length && |list| <= strides.Length
    && forall j :: 0 <= j < |list| ==> buffers[j] == list[j].buffer && strides[j] == list[j].stride
  }

  method PushBuffer(numBuffers: nat, buffers: array<nat>, strides: array<nat>, buffer: Option<nat>, elementSize: nat,
                    ghost list: seq<Bound>) returns (numBuffers': nat)
    requires buffers != strides && numBuffers < buffers.Length && numBuffers < strides.Length
    requires Written(list, buffers, strides) && |list| == numBuffers
    modifies buffers, strides
    ensures Written(list + Pushed(buffer, elementSize), buffers, strides)
    ensures numBuffers' == |list + Pushed(buffer, elementSize)|
  {
    if buffer.Some? {
      buffers[numBuffers] := buffer.value;
      strides[numBuffers] := elementSize;
      return numBuffers + 1;
    }
    return numBuffers;
  }

  method MakeBufferList(vb: VertexBuffer, x: Expected, buffers: array<nat>,
                        strides: array<nat>) returns (numBuffers: nat)
    requires buffers != strides && NumBuffersExpected(x) <= buffers.Length && NumBuffersExpected(x) <= strides.Length
    modifies buffers, strides
    ensures numBuffers == |BufferList(vb, x)| && Written(BufferList(vb, x), buffers, strides)
  {
    ghost var a := [Bound(vb.points, SIZEOF_VEC3)];
    assert Written([], buffers, strides) && [] + Pushed(Some(vb.points), SIZEOF_VEC3) == a;
    hide Written, TexCoords, Pushed;
    numBuffers := PushBuffer(0, buffers, strides, Some(vb.points), SIZEOF_VEC3, []);
    ghost var b := a + if x.normals then Pushed(vb.normals, SIZEOF_VEC3) else [];
    if x.normals {
      numBuffers := PushBuffer(numBuffers, buffers, strides, vb.normals, SIZEOF_VEC3, a);
    } else {
      assert a + [] == a;
    }
    ghost var c := b + if x.colors then Pushed(vb.colors, SIZEOF_UINT32) else [];
    if x.colors {
      numBuffers := PushBuffer(numBuffers, buffers, strides, vb.colors, SIZEOF_UINT32, b);
    } else {
      assert b + [] == b;
    }
    ghost var d := c + if x.tangents then Pushed(vb.tangents, SIZEOF_VEC3) else [];
    if x.tangents {
      numBuffers := PushBuffer(numBuffers, buffers, strides, vb.tangents, SIZEOF_VEC3, c);
    } else {
      assert c + [] == c;
    }
    numBuffers := PushTexCoords(numBuffers, vb, x, buffers, strides, d);
  }

  /** The loop that ends MakeBufferList. */
  method PushTexCoords(numBuffers: nat, vb: VertexBuffer, x: Expected, buffers: array<nat>, strides: array<nat>,
                       ghost list: seq<Bound>) returns (numBuffers': nat)
    requires buffers != strides && numBuffers + x.texUnits <= buffers.Length &&
             numBuffers + x.texUnits <= strides.Length
    requires Written(list, buffers, strides) && |list| == numBuffers
    modifies buffers, strides
    ensures Written(list + TexCoords(vb, x), buffers, strides) && numBuffers' == |list + TexCoords(vb, x)|
  {
    numBuffers' := numBuffers;
    if x.texUnits <= |vb.uvs| {
      for i := 0 to x.texUnits
        invariant numBuffers' == numBuffers + i
        invariant Written(list + vb.uvs[..i], buffers, strides)
      {
        buffers[numBuffers'] := vb.uvs[i].buffer;
        strides[numBuffers'] := vb.uvs[i].stride;
        numBuffers' := numBuffers' + 1;
      }
    }
  }

  // ---- the agreement ----

  predicate DistinctKeys(layout: seq<Element>) {
    forall i, j :: 0 <= i < j < |layout| ==> layout[i].key != layout[j].key
  }

  predicate RepeatsPositionsOnly(layout: seq<Element>) {
    forall i, j :: 0 <= i < j < |layout| && layout[i].key == layout[j].key ==> layout[i].key.sem == Position
  }

  /** Positions, at most one normal, color and tangent, all at index 0, and texture coordinates 0, 1, ... without a
      gap; in any order. */
  predicate Regular(layout: seq<Element>) {
    && RepeatsPositionsOnly(layout) && Present(layout, 0)
    && forall i :: 0 <= i < |layout| ==>
         var s := StageOf(layout[i].key);
         s.Some? && s.value < Stop(layout, 4)
  }

  /** The same with one position. */
  predicate Standard(layout: seq<Element>) {
    Regular(layout) && DistinctKeys(layout)
  }

  /** The buffer of a vertex buffer for a semantic. */
  function Source(vb: VertexBuffer, k: Key): Option<Bound> {
    if k.sem == TexCoord then if k.index < |vb.uvs| then Some(vb.uvs[k.index]) else None
    else if k.index != 0 then None
    else
      match k.sem
      case Position => Some(Bound(vb.points, SIZEOF_VEC3))
      case Normal => (match vb.normals case None => None case Some(b) => Some(Bound(b, SIZEOF_VEC3)))
      case Color => (match vb.colors case None => None case Some(b) => Some(Bound(b, SIZEOF_UINT32)))
      case Tangent => (match vb.tangents case None => None case Some(b) => Some(Bound(b, SIZEOF_VEC3)))
      case _ => None
  }

  predicate Supplies(vb: VertexBuffer, x: Expected) {
    && (x.normals ==> vb.normals.Some?) && (x.colors ==> vb.colors.Some?) && (x.tangents ==> vb.tangents.Some?)
    && x.texUnits <= |vb.uvs|
  }

  function TexIndices(layout: seq<Element>): set<nat> {
    if layout == [] then {}
    else (if layout[0].key.sem == TexCoord then {layout[0].key.index} else {}) + TexIndices(layout[1..])
  }

  lemma {:induction false} InTexIndices(layout: seq<Element>, n: nat)
    ensures n in TexIndices(layout) <==> First(layout, Key(TexCoord, n)) < |layout|
  {
    if layout != [] {
      InTexIndices(layout[1..], n);
    }
  }

  lemma {:induction false} CountTex(layout: seq<Element>)
    requires RepeatsPositionsOnly(layout)
    ensures |TexIndices(layout)| == Count(layout, TexCoord)
  {
    if layout != [] {
      var e, t := layout[0], layout[1..];
      assert forall i :: 0 <= i < |t| ==> t[i] == layout[i + 1];
      CountTex(t);
      if e.key.sem == TexCoord {
        InTexIndices(t, e.key.index);
        assert forall i :: 0 <= i < |t| ==> t[i].key != e.key;
        assert First(t, e.key) == |t|;
      }
    }
  }

  function Below(n: nat): (r: set<nat>)
    ensures |r| == n && forall m: nat :: m in r <==> m < n
  {
    if n == 0 then {} else Below(n - 1) + {n - 1}
  }

  lemma {:induction false} ExpectedIsPresent(layout: seq<Element>)
    requires Regular(layout)
    ensures var x := ExpectedOf(layout);
            && x.normals == Present(layout, 1) && x.colors == Present(layout, 2) && x.tangents == Present(layout, 3)
            && x.texUnits == Stop(layout, 4) - 4
  {
    HasIsPresent(layout, Normal, 1);
    HasIsPresent(layout, Color, 2);
    HasIsPresent(layout, Tangent, 3);
    CountTex(layout);
    var n := Stop(layout, 4) - 4;
    forall m: nat
      ensures m in TexIndices(layout) <==> m < n
    {
      InTexIndices(layout, m);
      assert KeyAt(4 + m) == Key(TexCoord, m);
      if m < n {
        StopPresent(layout, 4, 4 + m);
      } else if Present(layout, 4 + m) {
        TexBelow(layout, m);
        assert false;
      }
    }
    assert TexIndices(layout) == Below(n);
  }

  lemma {:induction false} TexBelow(layout: seq<Element>, m: nat)
    requires Regular(layout) && Present(layout, 4 + m)
    ensures 4 + m < Stop(layout, 4)
  {
    var f := First(layout, KeyAt(4 + m));
    StageKey(layout[f].key, 4 + m);
  }

  lemma {:induction false} HasIsPresent(layout: seq<Element>, sem: Semantic, stage: nat)
    requires Regular(layout) && 1 <= stage <= 3 && KeyAt(stage) == Key(sem, 0)
    ensures Has(layout, sem) == Present(layout, stage)
  {
    hide RepeatsPositionsOnly;
    var f := First(layout, KeyAt(stage));
    if f < |layout| {
      assert layout[f] in layout;
    } else if Has(layout, sem) {
      var e :| e in layout && e.key.sem == sem;
      var i :| 0 <= i < |layout| && layout[i] == e;
      assert StageOf(layout[i].key).Some?;
      assert layout[i].key == KeyAt(stage);
      KeyFound(layout, i);
      assert false;
    }
  }

  lemma {:induction false} KeyFound(layout: seq<Element>, i: nat)
    requires i < |layout|
    ensures First(layout, layout[i].key) <= i
  {
    if i < First(layout, layout[i].key) {
      NotBefore(layout, layout[i].key, i);
    }
  }

  lemma {:induction false} RankTex(layout: seq<Element>, j: nat)
    requires 4 + j <= Stop(layout, 4)
    ensures Rank(layout, 4 + j) == Rank(layout, 4) + j
  {
    if j > 0 {
      RankTex(layout, j - 1);
      StopPresent(layout, 4, 4 + j - 1);
    }
  }

  lemma {:induction false} RankFirst(layout: seq<Element>)
    requires Present(layout, 0)
    ensures Rank(layout, 0) == 0 && Rank(layout, 1) == 1
    ensures Rank(layout, 2) == 1 + if Present(layout, 1) then 1 else 0
    ensures Rank(layout, 3) == Rank(layout, 2) + if Present(layout, 2) then 1 else 0
    ensures Rank(layout, 4) == Rank(layout, 3) + if Present(layout, 3) then 1 else 0
  {
    hide Present;
    assert Rank(layout, 1) == 1;
    assert Rank(layout, 2) == Rank(layout, 1) + if Present(layout, 1) then 1 else 0;
  }

  /** The slot of an element in a regular layout: the first of its key has its stage's, a repeated one keeps the
      slot it had. */
  lemma {:induction false} SlotOfFirst(layout: seq<Element>, i: nat)
    requires Regular(layout) && i < |layout|
    ensures Assigned(layout)[i]
         == if First(layout, layout[i].key) == i then Element(layout[i].key, Rank(layout, StageOf(layout[i].key).value))
            else layout[i]
  {
    UptoAt(layout, Stop(layout, 4), i);
    hide Rank;
  }

  /** The slot of an element in a standard layout. */
  lemma {:induction false} SlotOf(layout: seq<Element>, i: nat)
    requires Standard(layout) && i < |layout|
    ensures Assigned(layout)[i] == Element(layout[i].key, Rank(layout, StageOf(layout[i].key).value))
  {
    KeyFound(layout, i);
    var f := First(layout, layout[i].key);
    assert layout[f].key == layout[i].key;
    SlotOfFirst(layout, i);
    hide Stop, Rank, StageOf;
    assert f == i;
  }

  /** Where a stage's buffer is in the list, when everything is supplied. */
  lemma {:induction false} ListAt(layout: seq<Element>, vb: VertexBuffer, stage: nat)
    requires Regular(layout) && Supplies(vb, ExpectedOf(layout))
    requires Present(layout, stage) && stage < Stop(layout, 4)
    ensures var list := BufferList(vb, ExpectedOf(layout));
            && |list| == NumBuffersExpected(ExpectedOf(layout))
            && Rank(layout, stage) < |list|
            && Source(vb, KeyAt(stage)) == Some(list[Rank(layout, stage)])
  {
    ExpectedIsPresent(layout);
    RankFirst(layout);
    if stage >= 4 {
      RankTex(layout, stage - 4);
    }
    hide Regular, Rank, Stop, ExpectedOf;
    ListIndex(vb, ExpectedOf(layout), stage, Rank(layout, stage));
  }

  /** The list without reference to a layout. */
  lemma {:induction false} ListIndex(vb: VertexBuffer, x: Expected, stage: nat, rank: nat)
    requires Supplies(vb, x)
    requires stage == 1 ==> x.normals
    requires stage == 2 ==> x.colors
    requires stage == 3 ==> x.tangents
    requires stage >= 4 ==> stage - 4 < x.texUnits
    requires rank == (if stage == 0 then 0 else 1)
                     + (if stage > 1 && x.normals then 1 else 0) + (if stage > 2 && x.colors then 1 else 0)
                     + (if stage > 3 && x.tangents then 1 else 0) + (if stage > 4 then stage - 4 else 0)
    ensures var list := BufferList(vb, x);
            |list| == NumBuffersExpected(x) && rank < |list| && Source(vb, KeyAt(stage)) == Some(list[rank])
  {
    var head := [Bound(vb.points, SIZEOF_VEC3)]
                + (if x.normals then Pushed(vb.normals, SIZEOF_VEC3) else [])
                + (if x.colors then Pushed(vb.colors, SIZEOF_UINT32) else [])
                + (if x.tangents then Pushed(vb.tangents, SIZEOF_VEC3) else []);
    assert BufferList(vb, x) == head + TexCoords(vb, x);
    if stage >= 4 {
      assert (head + TexCoords(vb, x))[rank] == vb.uvs[stage - 4];
    } else {
      assert (head + TexCoords(vb, x))[rank] == head[rank];
    }
  }

  /** In a standard layout every element's slot holds the buffer of that element's semantic exactly when
      the vertex buffer supplies everything the shader expects. */
  lemma {:induction false} SlotsAgree(layout: seq<Element>, vb: VertexBuffer)
    requires Standard(layout)
    ensures Supplies(vb, ExpectedOf(layout)) <==> Fed(Assigned(layout), BufferList(vb, ExpectedOf(layout)), vb)
  {
    var x, a := ExpectedOf(layout), Assigned(layout);
    if Supplies(vb, x) {
      forall i | 0 <= i < |a|
        ensures a[i].slot < |BufferList(vb, x)| && Source(vb, a[i].key) == Some(BufferList(vb, x)[a[i].slot])
      {
        SlotOf(layout, i);
        var s := StageOf(layout[i].key).value;
        StageKey(layout[i].key, s);
        KeyFound(layout, i);
        ListAt(layout, vb, s);
      }
    } else {
      ExpectedIsPresent(layout);
      var stage := if x.normals && vb.normals.None? then 1 else if x.colors && vb.colors.None? then 2
                   else if x.tangents && vb.tangents.None? then 3 else 4 + |vb.uvs|;
      if stage >= 4 {
        StopPresent(layout, 4, stage);
      }
      var f := First(layout, KeyAt(stage));
      SlotOf(layout, f);
      assert Source(vb, a[f].key).None?;
    }
  }

  /** Every element finds its own buffer at its slot. */
  predicate Fed(layout: seq<Element>, list: seq<Bound>, vb: VertexBuffer) {
    forall i :: 0 <= i < |layout| ==>
      layout[i].slot < |list| && Source(vb, layout[i].key) == Some(list[layout[i].slot])
  }

  lemma {:induction false} RankMonotone(layout: seq<Element>, s: nat, t: nat)
    requires s < t && Present(layout, s)
    ensures Rank(layout, s) < Rank(layout, t)
  {
    if s + 1 < t {
      RankMonotone(layout, s, t - 1);
    }
  }

  lemma {:induction false} RankReached(layout: seq<Element>, n: nat, stage: nat) returns (s: nat)
    requires n < Rank(layout, stage)
    ensures s < stage && Present(layout, s) && Rank(layout, s) == n
  {
    if Present(layout, stage - 1) && Rank(layout, stage - 1) == n {
      s := stage - 1;
    } else {
      s := RankReached(layout, n, stage - 1);
    }
  }

  /** The slots of a standard layout are the numbers from 0 to NumBuffersExpected - 1, each once. */
  lemma {:induction false} SlotsBijective(layout: seq<Element>)
    requires Standard(layout)
    ensures forall i, j :: 0 <= i < j < |layout| ==> Assigned(layout)[i].slot != Assigned(layout)[j].slot
    ensures forall i :: 0 <= i < |layout| ==> Assigned(layout)[i].slot < NumBuffersExpected(ExpectedOf(layout))
    ensures forall n: nat :: n < NumBuffersExpected(ExpectedOf(layout)) ==> TakesSlot(Assigned(layout), n)
  {
    var a, x, stop := Assigned(layout), ExpectedOf(layout), Stop(layout, 4);
    SlotsRanked(layout);
    forall i, j | 0 <= i < j < |layout|
      ensures a[i].slot != a[j].slot
    {
      var s, t := StageOf(layout[i].key).value, StageOf(layout[j].key).value;
      StageKey(layout[i].key, s);
      StageKey(layout[j].key, t);
      if s < t {
        RankMonotone(layout, s, t);
      } else if t < s {
        RankMonotone(layout, t, s);
      }
    }
    forall n: nat | n < NumBuffersExpected(x)
      ensures TakesSlot(a, n)
    {
      var s := RankReached(layout, n, stop);
      var f := First(layout, KeyAt(s));
      StageKey(layout[f].key, s);
      assert a[f].slot == n;
    }
  }

  /** An element's slot is the number of stages present before its own. */
  lemma {:induction false} SlotsRanked(layout: seq<Element>)
    requires Standard(layout)
    ensures Stop(layout, 4) >= 4 && Rank(layout, Stop(layout, 4)) == NumBuffersExpected(ExpectedOf(layout))
    ensures forall i :: 0 <= i < |layout| ==> StageOf(layout[i].key).Some?
    ensures forall i :: 0 <= i < |layout| ==> Assigned(layout)[i].slot == Rank(layout, StageOf(layout[i].key).value)
    ensures forall i :: 0 <= i < |layout| ==> Present(layout, StageOf(layout[i].key).value)
    ensures forall i :: 0 <= i < |layout| ==> Assigned(layout)[i].slot < NumBuffersExpected(ExpectedOf(layout))
  {
    var x, stop := ExpectedOf(layout), Stop(layout, 4);
    ExpectedIsPresent(layout);
    RankFirst(layout);
    RankTex(layout, stop - 4);
    forall i | 0 <= i < |layout|
      ensures StageOf(layout[i].key).Some?
      ensures Assigned(layout)[i].slot == Rank(layout, StageOf(layout[i].key).value)
      ensures Present(layout, StageOf(layout[i].key).value) && Assigned(layout)[i].slot < NumBuffersExpected(x)
    {
      SlotOf(layout, i);
      KeyFound(layout, i);
      var s := StageOf(layout[i].key).value;
      StageKey(layout[i].key, s);
      RankMonotone(layout, s, stop);
    }
  }

  predicate TakesSlot(layout: seq<Element>, n: nat) {
    exists i :: 0 <= i < |layout| && layout[i].slot == n
  }

  /** What the shader expects depends on the keys alone. */
  lemma {:induction false} SameExpected(a: seq<Element>, b: seq<Element>)
    requires |a| == |b| && forall i :: 0 <= i < |a| ==> a[i].key == b[i].key
    ensures ExpectedOf(a) == ExpectedOf(b)
  {
    SameHas(a, b);
    SameHas(b, a);
    SameCount(a, b);
  }

  lemma {:induction false} SameHas(a: seq<Element>, b: seq<Element>)
    requires |a| == |b| && forall i :: 0 <= i < |a| ==> a[i].key == b[i].key
    ensures forall sem :: Has(a, sem) ==> Has(b, sem)
  {
    forall sem | Has(a, sem)
      ensures Has(b, sem)
    {
      var e :| e in a && e.key.sem == sem;
      var i :| 0 <= i < |a| && a[i] == e;
      assert b[i] in b && b[i].key.sem == sem;
    }
  }

  lemma {:induction false} SameCount(a: seq<Element>, b: seq<Element>)
    requires |a| == |b| && forall i :: 0 <= i < |a| ==> a[i].key == b[i].key
    ensures Count(a, TexCoord) == Count(b, TexCoord)
  {
    if a != [] {
      assert forall i :: 0 <= i < |a[1..]| ==> a[1..][i] == a[i + 1] && b[1..][i] == b[i + 1];
      assert a[0].key == b[0].key;
      SameCount(a[1..], b[1..]);
    }
  }

  // ---- every layout ----

  /** No other buffer is the one with the points. */
  predicate PointsApart(vb: VertexBuffer) {
    && vb.normals != Some(vb.points) && vb.colors != Some(vb.points) && vb.tangents != Some(vb.points)
    && forall i :: 0 <= i < |vb.uvs| ==> vb.uvs[i].buffer != vb.points
  }

  lemma {:induction false} PointsOnly(vb: VertexBuffer, k: Key)
    requires PointsApart(vb) && Source(vb, k) == Some(Bound(vb.points, SIZEOF_VEC3))
    ensures k == KeyAt(0)
  {
  }

  lemma {:induction false} SourceStage(vb: VertexBuffer, k: Key)
    requires Source(vb, k).Some?
    ensures StageOf(k).Some?
  {
  }

  /** Exactly which layouts work. For any layout as it is built, before the slot pass, and a vertex buffer that
      supplies what the shader is then taken to expect: every element finds its own buffer at its slot if and only
      if the layout is empty or regular. Without a position, for one, the first buffer is still the points. */
  lemma {:induction false} FedExact(layout: seq<Element>, vb: VertexBuffer)
    requires (forall i :: 0 <= i < |layout| ==> layout[i].slot == 0) && Supplies(vb, ExpectedOf(layout)) &&
             PointsApart(vb)
    ensures Fed(Assigned(layout), BufferList(vb, ExpectedOf(layout)), vb) <==> layout == [] || Regular(layout)
  {
    hide Supplies, ExpectedOf, Stop, Rank;
    if layout != [] && Regular(layout) {
      RegularFed(layout, vb);
    }
    if layout != [] && Fed(Assigned(layout), BufferList(vb, ExpectedOf(layout)), vb) {
      FedRegular(layout, vb);
    }
  }

  lemma {:induction false} RegularFed(layout: seq<Element>, vb: VertexBuffer)
    requires (forall i :: 0 <= i < |layout| ==> layout[i].slot == 0) && Supplies(vb, ExpectedOf(layout)) &&
             Regular(layout)
    ensures Fed(Assigned(layout), BufferList(vb, ExpectedOf(layout)), vb)
  {
    var x, a := ExpectedOf(layout), Assigned(layout);
    hide Supplies, ExpectedOf, Stop, Rank;
    forall i | 0 <= i < |a|
      ensures a[i].slot < |BufferList(vb, x)| && Source(vb, a[i].key) == Some(BufferList(vb, x)[a[i].slot])
    {
      SlotOfFirst(layout, i);
      KeyFound(layout, i);
      var f := First(layout, layout[i].key);
      var s := StageOf(layout[i].key).value;
      StageKey(layout[i].key, s);
      if f == i {
        ListAt(layout, vb, s);
      } else {
        assert layout[f].key == layout[i].key;
      }
    }
  }

  /** An element that no stage chose keeps slot 0, and finds the points there. */
  lemma {:induction false} FedChosen(layout: seq<Element>, vb: VertexBuffer, i: nat)
    requires (forall j :: 0 <= j < |layout| ==> layout[j].slot == 0) && PointsApart(vb) && i < |layout|
    requires Fed(Assigned(layout), BufferList(vb, ExpectedOf(layout)), vb)
    ensures StageOf(layout[i].key).Some? && (Chosen(layout, i) || layout[i].key == KeyAt(0))
    ensures Chosen(layout, i) ==> Assigned(layout)[i].slot == Rank(layout, StageOf(layout[i].key).value)
    ensures Assigned(layout)[i].slot == 0 ==> layout[i].key == KeyAt(0)
  {
    UptoAt(layout, Stop(layout, 4), i);
    hide ExpectedOf, Stop, Rank;
    var a, list := Assigned(layout), BufferList(vb, ExpectedOf(layout));
    assert a[i].slot < |list| && Source(vb, a[i].key) == Some(list[a[i].slot]);
    SourceStage(vb, layout[i].key);
    if a[i].slot == 0 {
      PointsOnly(vb, layout[i].key);
    }
  }

  lemma {:induction false} FedRegular(layout: seq<Element>, vb: VertexBuffer)
    requires (forall j :: 0 <= j < |layout| ==> layout[j].slot == 0) && PointsApart(vb) && layout != []
    requires Fed(Assigned(layout), BufferList(vb, ExpectedOf(layout)), vb)
    ensures Regular(layout)
  {
    hide ExpectedOf, Fed, Assigned;
    forall i | 0 <= i < |layout|
      ensures StageOf(layout[i].key).Some? && StageOf(layout[i].key).value < Stop(layout, 4)
    {
      FedChosen(layout, vb, i);
    }
    forall i, j | 0 <= i < j < |layout| && layout[i].key == layout[j].key
      ensures layout[i].key.sem == Position
    {
      FedChosen(layout, vb, j);
      KeyFound(layout, i);
    }
    var s0 := StageOf(layout[0].key).value;
    StageKey(layout[0].key, s0);
    KeyFound(layout, 0);
    assert Rank(layout, s0 + 1) > 0;
    var s := RankReached(layout, 0, s0 + 1);
    var f := First(layout, KeyAt(s));
    StageKey(layout[f].key, s);
    FedChosen(layout, vb, f);
    assert s == 0;
  }
}
