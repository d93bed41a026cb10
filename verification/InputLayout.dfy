/** Input slots of a D3D11 vertex shader and the vertex buffers bound to them, two enumerations built in
    different files that have to agree (libobs-d3d11/d3d11-shaderprocessor.cpp:24-149,
    libobs-d3d11/d3d11-shader.cpp:31-45, libobs-d3d11/d3d11-vertexbuffer.cpp:22-76,
    libobs-d3d11/d3d11-subsystem.hpp:740-754). */
module InputLayout {
  import opened Options
  import opened Decimals

  datatype Semantic = Position | Normal | Color | Tangent | TexCoord | VertexId

  datatype Key = Key(sem: Semantic, index: nat)

  datatype Element = Element(key: Key, slot: nat)

  // ---- semantics of the source ----

  function ConvertSemanticName(name: string): Option<Semantic> {
    if name == "POSITION" then Some(Position)
    else if name == "NORMAL" then Some(Normal)
    else if name == "COLOR" then Some(Color)
    else if name == "TANGENT" then Some(Tangent)
    else if name == "TEXCOORD" then Some(TexCoord)
    else if name == "VERTEXID" then Some(VertexId)
    else None
  }

  predicate IsDigit(c: char) {
    '0' <= c <= '9'
  }

  /** The part of a mapping before its first digit. */
  function NamePart(s: string): (r: string)
    ensures r <= s && (forall c :: c in r ==> !IsDigit(c)) && (|r| < |s| ==> IsDigit(s[|r|]))
  {
    if s == "" || IsDigit(s[0]) then "" else [s[0]] + NamePart(s[1..])
  }

  /** strtol of digits, which stops at the first other character. */
  function ToNumber(s: string, n: nat): nat {
    if s == "" || !IsDigit(s[0]) then n else ToNumber(s[1..], n * 10 + (s[0] as int - '0' as int))
  }

  /** GetSemanticInfo: None stands for the exception. */
  function SemanticInfo(mapping: string): Option<Key> {
    var name := NamePart(mapping);
    match ConvertSemanticName(name)
    case None => None
    case Some(sem) => Some(Key(sem, ToNumber(mapping[|name|..], 0)))
  }

  /** The six semantics by name. */
  function SemanticName(sem: Semantic): string {
    match sem
    case Position => "POSITION"
    case Normal => "NORMAL"
    case Color => "COLOR"
    case Tangent => "TANGENT"
    case TexCoord => "TEXCOORD"
    case VertexId => "VERTEXID"
  }

  /** A semantic as it is written, with a number or without. */
  function Mapping(sem: Semantic, number: Option<nat>): string {
    SemanticName(sem) + if number.Some? then Digits(number.value) else ""
  }

  /** Each name, with any number behind it, is read as that semantic with that number; without, as number 0. */
  lemma {:induction false} MappingRead(sem: Semantic, number: Option<nat>)
    ensures SemanticInfo(Mapping(sem, number)) == Some(Key(sem, if number.Some? then number.value else 0))
    ensures Mapping(sem, number) == "VERTEXID" <==> sem == VertexId && number.None?
  {
    var name := SemanticName(sem);
    var digits := if number.Some? then Digits(number.value) else "";
    assert forall c :: c in name ==> !IsDigit(c);
    NamePartEnds(name, digits);
    assert Mapping(sem, number)[|name|..] == digits;
    assert ConvertSemanticName(name) == Some(sem);
    hide ConvertSemanticName, NamePart;
    if number.Some? {
      NumberRead(number.value);
      assert Mapping(sem, number)[|name|] == digits[0];
    }
  }

  lemma {:induction false} NamePartEnds(name: string, digits: string)
    requires forall c :: c in name ==> !IsDigit(c)
    requires digits != "" ==> IsDigit(digits[0])
    ensures NamePart(name + digits) == name
  {
    if name == "" {
      assert name + digits == digits;
    } else {
      assert (name + digits)[1..] == name[1..] + digits;
      NamePartEnds(name[1..], digits);
    }
  }

  /** strtol undoes the printing of a number. */
  lemma {:induction false} NumberRead(n: nat)
    ensures ToNumber(Digits(n), 0) == n
  {
    LastDigit(n);
    if n >= 10 {
      var s := Digits(n);
      NumberRead(n / 10);
      NumberConcat(s[..|s| - 1], s[|s| - 1..], 0);
      assert s[..|s| - 1] + s[|s| - 1..] == s;
    }
  }

  lemma {:induction false} NumberConcat(a: string, b: string, n: nat)
    requires forall c :: c in a ==> IsDigit(c)
    ensures ToNumber(a + b, n) == ToNumber(b, ToNumber(a, n))
  {
    if a == "" {
      assert a + b == b;
    } else {
      assert (a + b)[1..] == a[1..] + b && IsDigit(a[0]);
      NumberConcat(a[1..], b, n * 10 + (a[0] as int - '0' as int));
    }
  }

  /** A parameter or field: mapped to a semantic, of a struct type, or of another type. */
  datatype Var = Mapped(mapping: string) | Struct(fields: seq<Var>) | Other

  /** The elements pushed for a list of variables, in order; None stands for the exception. */
  function Collected(vars: seq<Var>): Option<seq<Element>> {
    if vars == [] then Some([])
    else
      match CollectedOne(vars[0])
      case None => None
      case Some(first) =>
        match Collected(vars[1..])
        case None => None
        case Some(rest) => Some(first + rest)
  }

  function Prefixed(a: seq<Element>, b: Option<seq<Element>>): Option<seq<Element>> {
    if b.None? then None else Some(a + b.value)
  }

  function CollectedOne(v: Var): Option<seq<Element>> {
    match v
    case Mapped(m) =>
      if m == "VERTEXID" then Some([])
      else (match SemanticInfo(m) case None => None case Some(k) => Some([Element(k, 0)]))
    case Struct(fields) => Collected(fields)
    case Other => Some([])
  }

  // ---- the slots ----

  /** The semantics in the order in which slots are given out. */
  function KeyAt(stage: nat): Key {
    if stage == 0 then Key(Position, 0)
    else if stage == 1 then Key(Normal, 0)
    else if stage == 2 then Key(Color, 0)
    else if stage == 3 then Key(Tangent, 0)
    else Key(TexCoord, stage - 4)
  }

  function StageOf(k: Key): Option<nat> {
    if k.sem == TexCoord then Some(4 + k.index)
    else if k.index != 0 || k.sem == VertexId then None
    else Some(if k.sem == Position then 0 else if k.sem == Normal then 1 else if k.sem == Color then 2 else 3)
  }

  /** The first element for a key, or the length. */
  function First(layout: seq<Element>, k: Key): (r: nat)
    ensures r <= |layout| && (r < |layout| ==> layout[r].key == k)
  {
    if layout == [] || layout[0].key == k then 0 else 1 + First(layout[1..], k)
  }

  predicate Present(layout: seq<Element>, stage: nat) {
    First(layout, KeyAt(stage)) < |layout|
  }

  /** The slot counter when a stage is reached. */
  function Rank(layout: seq<Element>, stage: nat): nat {
    if stage == 0 then 0 else Rank(layout, stage - 1) + if Present(layout, stage - 1) then 1 else 0
  }

  function MaxIndex(layout: seq<Element>): (r: nat)
    ensures forall e :: e in layout ==> e.key.index <= r
  {
    if layout == [] then 0
    else
      var m := MaxIndex(layout[1..]);
      if layout[0].key.index > m then layout[0].key.index else m
  }

  /** The first stage from this one on that is absent. */
  function Stop(layout: seq<Element>, stage: nat): (r: nat)
    requires stage >= 4
    ensures r >= stage && !Present(layout, r)
    decreases MaxIndex(layout) + 5 - stage
  {
    if !Present(layout, stage) then stage
    else
      assert layout[First(layout, KeyAt(stage))] in layout;
      Stop(layout, stage + 1)
  }

  /** The layout once the stages before this one have their slots. */
  function Upto(layout: seq<Element>, stage: nat): (r: seq<Element>)
    ensures |r| == |layout|
  {
    seq(|layout|, i requires 0 <= i < |layout| => layout[i].(slot := SlotAt(layout, i, stage)))
  }

  function SlotAt(layout: seq<Element>, i: nat, stage: nat): nat
    requires i < |layout|
  {
    var s := StageOf(layout[i].key);
    if s.Some? && s.value < stage && First(layout, layout[i].key) == i then Rank(layout, s.value) else layout[i].slot
  }

  /** The slot pass that ends BuildInputLayoutFromVars. */
  function Assigned(layout: seq<Element>): seq<Element> {
    Upto(layout, Stop(layout, 4))
  }

  predicate IsStage(k: Key, stage: nat) {
    k == KeyAt(stage)
  }

  predicate Chosen(layout: seq<Element>, i: nat)
    requires i < |layout|
  {
    var s := StageOf(layout[i].key);
    s.Some? && s.value < Stop(layout, 4) && First(layout, layout[i].key) == i
  }

  /** a is b up to slots that the next slot pass overwrites anyway. */
  predicate Like(a: seq<Element>, b: seq<Element>) {
    && |a| == |b|
    && forall i :: 0 <= i < |a| ==> a[i].key == b[i].key && (a[i].slot == b[i].slot || Chosen(b, i))
  }

  lemma {:induction false} FirstAppend(a: seq<Element>, m: seq<Element>, k: Key)
    ensures First(a, k) < |a| ==> First(a + m, k) == First(a, k)
    ensures First(a, k) == |a| ==> First(a + m, k) >= |a|
  {
    if a == [] {
      assert a + m == m;
    } else {
      assert (a + m)[1..] == a[1..] + m;
      FirstAppend(a[1..], m, k);
    }
  }

  lemma {:induction false} StopAppend(a: seq<Element>, m: seq<Element>)
    ensures Stop(a, 4) <= Stop(a + m, 4)
  {
    if Stop(a + m, 4) < Stop(a, 4) {
      StopPresent(a, 4, Stop(a + m, 4));
      FirstAppend(a, m, KeyAt(Stop(a + m, 4)));
    }
  }

  lemma {:induction false} LikeAppend(a: seq<Element>, b: seq<Element>, m: seq<Element>)
    requires Like(a, b)
    ensures Like(a + m, b + m)
  {
    StopAppend(b, m);
    forall i | 0 <= i < |a| && Chosen(b, i)
      ensures Chosen(b + m, i)
    {
      FirstAppend(b, m, b[i].key);
    }
  }

  lemma {:induction false} SameStages(a: seq<Element>, b: seq<Element>, stage: nat)
    requires |a| == |b| && forall i :: 0 <= i < |a| ==> a[i].key == b[i].key
    ensures Present(a, stage) == Present(b, stage) && Rank(a, stage) == Rank(b, stage)
  {
    SameFirst(a, b, KeyAt(stage));
    if stage > 0 {
      SameStages(a, b, stage - 1);
    }
  }

  lemma {:induction false} SameStop(a: seq<Element>, b: seq<Element>)
    requires |a| == |b| && forall i :: 0 <= i < |a| ==> a[i].key == b[i].key
    ensures Stop(a, 4) == Stop(b, 4)
  {
    var m, n := Stop(a, 4), Stop(b, 4);
    SameStages(a, b, m);
    SameStages(a, b, n);
    if m < n {
      StopPresent(b, 4, m);
    } else if n < m {
      StopPresent(a, 4, n);
    }
  }

  lemma {:induction false} LikeAssigned(a: seq<Element>, b: seq<Element>)
    requires Like(a, b)
    ensures Assigned(a) == Assigned(b)
  {
    SameStop(a, b);
    var stop := Stop(b, 4);
    forall i | 0 <= i < |a|
      ensures Assigned(a)[i] == Assigned(b)[i]
    {
      UptoAt(a, stop, i);
      UptoAt(b, stop, i);
      SameFirst(a, b, a[i].key);
      if StageOf(a[i].key).Some? {
        SameStages(a, b, StageOf(a[i].key).value);
      }
    }
  }

  lemma {:induction false} AssignedLike(b: seq<Element>)
    ensures Like(Assigned(b), b)
  {
    forall i | 0 <= i < |b|
      ensures Assigned(b)[i].key == b[i].key && (Assigned(b)[i].slot == b[i].slot || Chosen(b, i))
    {
      UptoAt(b, Stop(b, 4), i);
    }
  }

  // ---- the builder ----

  /** What SetSlot does: the layout, the slot counter, and whether the key was found. */
  function Slotted(layout: seq<Element>, k: Key, slot: nat): (seq<Element>, nat, bool) {
    var f := First(layout, k);
    if f < |layout| then (layout[f := Element(k, slot)], slot + 1, true) else (layout, slot, false)
  }

  class Builder {
    var layout: seq<Element>

    constructor ()
      ensures layout == []
    {
      layout := [];
    }

    method SetSlot(k: Key, slotIdx: nat) returns (found: bool, slotIdx': nat)
      modifies this
      ensures (layout, slotIdx', found) == Slotted(old(layout), k, slotIdx)
    {
      for i := 0 to |layout|
        invariant layout == old(layout) && First(layout, k) >= i
      {
        if layout[i].key == k {
          if i < First(layout, k) {
            NotBefore(layout, k, i);
          }
          layout := layout[i := Element(k, slotIdx)];
          return true, slotIdx + 1;
        }
      }
      return false, slotIdx;
    }

    /** SetSlot as one stage of the slot pass over the layout was. */
    method SetStage(k: Key, slotIdx: nat, ghost was: seq<Element>, ghost stage: nat) returns (found: bool,
                                                                                              slotIdx': nat)
      requires layout == Upto(was, stage) && slotIdx == Rank(was, stage) && IsStage(k, stage)
      modifies this
      ensures layout == Upto(was, stage + 1) && slotIdx' == Rank(was, stage + 1) && found == Present(was, stage)
    {
      UptoStep(was, stage, k, slotIdx);
      found, slotIdx' := SetSlot(k, slotIdx);
    }

    /** AddInputLayoutVar. */
    method AddInputLayoutVar(mapping: string) returns (thrown: bool)
      modifies this
      ensures match SemanticInfo(mapping)
              case None => thrown && layout == old(layout)
              case Some(k) => !thrown && layout == old(layout) + [Element(k, 0)]
    {
      var k := SemanticInfo(mapping);
      if k.None? {
        return true;
      }
      layout := layout + [Element(k.value, 0)];
      return false;
    }

    /** BuildInputLayoutFromVars: although every nested struct ends with a slot pass of its own, over all
        that has been pushed so far, the outcome is one pass over everything pushed. */
    method BuildInputLayoutFromVars(vars: seq<Var>) returns (thrown: bool)
      modifies this
      ensures match Collected(vars)
              case None => thrown
              case Some(es) => !thrown && layout == Assigned(old(layout) + es)
      decreases vars
    {
      ghost var pushed: seq<Element> := [];
      var i := 0;
      CollectedFrom(vars);
      hide Assigned, Like, Collected, Prefixed;
      LikeSelf(layout);
      while i < |vars|
        invariant i <= |vars| && Like(layout, old(layout) + pushed)
        invariant Collected(vars) == Prefixed(pushed, Collected(vars[i..])) && i <= |vars|
      {
        var v := vars[i];
        CollectedStep(vars, i, pushed);
        ghost var was, base := layout, old(layout) + pushed;
        ghost var es := if CollectedOne(v).Some? then CollectedOne(v).value else [];
        LikeAppend(was, base, es);
        LikeAssigned(was + es, base + es);
        AssignedLike(base + es);
        assert base + es == old(layout) + (pushed + es) && was + [] == was;
        thrown := false;
        if v.Mapped? {
          if v.mapping != "VERTEXID" {
            thrown := AddInputLayoutVar(v.mapping);
          }
        } else if v.Struct? {
          thrown := BuildInputLayoutFromVars(v.fields);
        }
        if thrown {
          return true;
        }
        pushed := pushed + es;
        i := i + 1;
      }
      CollectedEnd(vars, pushed);
      LikeAssigned(layout, old(layout) + pushed);
      SetSlots();
      return false;
    }

    static lemma {:induction false} CollectedFrom(vars: seq<Var>)
      ensures Collected(vars) == Prefixed([], Collected(vars[0..]))
    {
      assert vars[0..] == vars;
      assert Collected(vars).Some? ==> [] + Collected(vars).value == Collected(vars).value;
    }

    static lemma {:induction false} CollectedStep(vars: seq<Var>, i: nat, pushed: seq<Element>)
      requires i < |vars|
      ensures Prefixed(pushed, Collected(vars[i..]))
           == match CollectedOne(vars[i])
              case None => None
              case Some(es) => Prefixed(pushed + es, Collected(vars[i + 1..]))
      ensures match vars[i]
              case Mapped(m) =>
                CollectedOne(vars[i]) == if m == "VERTEXID" then Some([])
                                         else if SemanticInfo(m).None? then None
                                         else Some([Element(SemanticInfo(m).value, 0)])
              case Struct(fields) => CollectedOne(vars[i]) == Collected(fields)
              case Other => CollectedOne(vars[i]) == Some([])
      ensures pushed + [] == pushed
    {
      assert vars[i..][0] == vars[i] && vars[i..][1..] == vars[i + 1..];
      hide SemanticInfo;
      var rest := Collected(vars[i + 1..]);
      if CollectedOne(vars[i]).Some? && rest.Some? {
        assert pushed + (CollectedOne(vars[i]).value + rest.value) == pushed + CollectedOne(vars[i]).value + rest.value;
      }
      assert Collected(vars[i..]) == match CollectedOne(vars[i]) case None => None case Some(es) => Prefixed(es, rest);
    }

    static lemma {:induction false} CollectedEnd(vars: seq<Var>, pushed: seq<Element>)
      ensures Prefixed(pushed, Collected(vars[|vars|..])) == Some(pushed)
    {
      assert pushed + [] == pushed;
    }

    static lemma {:induction false} LikeSelf(a: seq<Element>)
      ensures Like(a, a + [])
    {
    }

    /** The slot pass. */
    method SetSlots()
      modifies this
      ensures layout == Assigned(old(layout))
    {
      ghost var was, last := layout, Stop(layout, 4);
      var slot := 0;
      var found := false;
      UptoNone(was);
      hide Upto, Rank, Stop, Present, Assigned;
      found, slot := SetStage(Key(Position, 0), slot, was, 0);
      found, slot := SetStage(Key(Normal, 0), slot, was, 1);
      found, slot := SetStage(Key(Color, 0), slot, was, 2);
      found, slot := SetStage(Key(Tangent, 0), slot, was, 3);
      var index := 0;
      found := true;
      while found
        invariant if found then layout == Upto(was, 4 + index) && slot == Rank(was, 4 + index)
                  else layout == Assigned(was)
        invariant found ==> 4 + index <= last
        decreases if found then last + 1 - index else 0
      {
        StopStep(was, 4 + index, last);
        found, slot := SetStage(Key(TexCoord, index), slot, was, 4 + index);
        index := index + 1;
      }
    }
  }

  lemma {:induction false} UptoNone(was: seq<Element>)
    ensures Upto(was, 0) == was && Rank(was, 0) == 0
  {
  }

  /** A stage that is missing leaves the layout as it was. */
  lemma {:induction false} StopStep(was: seq<Element>, stage: nat, last: nat)
    requires last == Stop(was, 4) && 4 <= stage <= last
    ensures if Present(was, stage) then stage < last else stage == last && Assigned(was) == Upto(was, stage + 1)
  {
    if stage < last {
      StopPresent(was, 4, stage);
    } else {
      UptoStep(was, stage, KeyAt(stage), Rank(was, stage));
      hide Upto;
    }
  }

  lemma {:induction false} StopPresent(was: seq<Element>, from: nat, stage: nat)
    requires 4 <= from <= stage < Stop(was, from)
    ensures Present(was, stage)
    decreases stage - from
  {
    if from < stage {
      StopPresent(was, from + 1, stage);
    }
  }

  /** One call of SetSlot. */
  lemma {:induction false} UptoStep(was: seq<Element>, stage: nat, k: Key, slot: nat)
    requires slot == Rank(was, stage)
    requires IsStage(k, stage)
    ensures Slotted(Upto(was, stage), k, slot) == (Upto(was, stage + 1), Rank(was, stage + 1), Present(was, stage))
  {
    assert k == KeyAt(stage);
    UptoKeys(was, stage);
    SameFirst(was, Upto(was, stage), k);
    var a, b, f := Upto(was, stage), Upto(was, stage + 1), First(was, k);
    assert Present(was, stage) <==> f < |was|;
    assert Slotted(a, k, slot) == if f < |was| then (a[f := Element(k, slot)], slot + 1, true) else (a, slot, false);
    assert Rank(was, stage + 1) == if Present(was, stage) then slot + 1 else slot;
    hide *;
    forall i | 0 <= i < |was|
      ensures b[i] == if i == f then Element(k, slot) else a[i]
    {
      UptoAt(was, stage, i);
      UptoAt(was, stage + 1, i);
      SlotStep(was, i, stage);
    }
    SetOne(a, b, f, Element(k, slot));
  }

  lemma {:induction false} SetOne(a: seq<Element>, b: seq<Element>, f: nat, e: Element)
    requires |a| == |b| && forall i :: 0 <= i < |b| ==> b[i] == if i == f then e else a[i]
    ensures b == if f < |a| then a[f := e] else a
  {
  }

  lemma {:induction false} UptoKeys(was: seq<Element>, stage: nat)
    ensures forall i :: 0 <= i < |was| ==> Upto(was, stage)[i].key == was[i].key
  {
  }

  lemma {:induction false} NotBefore(layout: seq<Element>, k: Key, i: nat)
    requires i < First(layout, k)
    ensures layout[i].key != k
  {
    if i > 0 {
      NotBefore(layout[1..], k, i - 1);
    }
  }

  lemma {:induction false} StageKey(k: Key, s: nat)
    ensures StageOf(k) == Some(s) <==> KeyAt(s) == k
  {
  }

  lemma {:induction false} UptoAt(was: seq<Element>, stage: nat, i: nat)
    requires i < |was|
    ensures Upto(was, stage)[i] == was[i].(slot := SlotAt(was, i, stage))
  {
  }

  lemma {:induction false} SlotStep(was: seq<Element>, i: nat, stage: nat)
    requires i < |was|
    ensures SlotAt(was, i, stage + 1) == if i == First(was, KeyAt(stage)) then Rank(was, stage)
                                         else SlotAt(was, i, stage)
    ensures i == First(was, KeyAt(stage)) ==> was[i].key == KeyAt(stage)
  {
    hide First, Rank;
  }

  lemma {:induction false} SameFirst(a: seq<Element>, b: seq<Element>, k: Key)
    requires |a| == |b| && forall i :: 0 <= i < |a| ==> a[i].key == b[i].key
    ensures First(a, k) == First(b, k)
  {
    if a != [] {
      assert forall i :: 0 <= i < |a[1..]| ==> a[1..][i] == a[i + 1] && b[1..][i] == b[i + 1];
      assert a[0].key == b[0].key;
      SameFirst(a[1..], b[1..], k);
    }
  }
}
