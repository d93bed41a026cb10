/** The uniform buffer of a Metal shader: offsets by Metal's alignments, values written into their own ranges
    (libobs-metal/OBSShader.swift:185-233, libobs-metal/MetalShader.swift:58-70, 104-111, 166-205, 236-239,
    libobs-metal/libobs+Extensions.swift:120-163). */
module MetalUniforms {
  import opened ConstantBuffer
  import opened Options

  // ---- layout ----

  /** mtlSize: a vector of three takes the room of four. */
  function MtlSize(t: ParamType): nat {
    match t
    case Bool | Int | Float => 4
    case Int2 | Vec2 => 8
    case Int3 | Vec3 | Int4 | Vec4 => 16
    case Matrix4x4 => 64
    case Texture => 0
  }

  function MtlAlignment(t: ParamType): nat {
    match t
    case Bool | Int | Float => 4
    case Int2 | Vec2 => 8
    case Int3 | Vec3 | Int4 | Vec4 | Matrix4x4 => 16
    case Texture => 0
  }

  /** The sizes by the numbers a value has; what is smaller than a register is aligned to its size. */
  lemma {:induction false} SizesByComponents(t: ParamType)
    ensures MtlSize(t) == 4 * if Components(t) == 3 then 4 else Components(t)
    ensures MtlAlignment(t) == if MtlSize(t) > 16 then 16 else MtlSize(t)
  {
  }

  predicate Aligned(n: nat, alignment: nat) {
    (alignment == 4 && n % 4 == 0) || (alignment == 8 && n % 8 == 0) || (alignment == 16 && n % 16 == 0)
  }

  predicate IsAlignment(a: nat) {
    a == 4 || a == 8 || a == 16
  }

  function RoundUp(n: nat, alignment: nat): (r: nat)
    requires IsAlignment(alignment)
    ensures n <= r < n + alignment && Aligned(r, alignment)
  {
    if alignment == 4 then (n + 3) / 4 * 4 else if alignment == 8 then (n + 7) / 8 * 8 else (n + 15) / 16 * 16
  }

  /** The mask of the source rounds up: to a multiple of the alignment, by less than the alignment. */
  lemma {:induction false} AlignmentMask(n: bv64, a: bv64)
    requires (a == 4 || a == 8 || a == 16) && n <= 0xFFFF_FFFF_FFFF_FFF0
    ensures var m := (n + (a - 1)) & !(a - 1); m & (a - 1) == 0 && n <= m && m - n < a
  {
  }

  /** The offset is the first aligned one. */
  lemma {:induction false} RoundUpLeast(n: nat, alignment: nat, m: nat)
    requires IsAlignment(alignment) && n <= m && Aligned(m, alignment)
    ensures RoundUp(n, alignment) <= m
  {
  }

  function OffsetFor(t: ParamType, end: nat): (r: nat)
    ensures r >= end
  {
    if t == Texture then end else RoundUp(end, MtlAlignment(t))
  }

  function Offsets(types: seq<ParamType>, end: nat): (r: seq<nat>)
    ensures |r| == |types|
  {
    if types == [] then []
    else
      var at := OffsetFor(types[0], end);
      [at] + Offsets(types[1..], at + MtlSize(types[0]))
  }

  function EndOf(types: seq<ParamType>, end: nat): (r: nat)
    ensures r >= end
  {
    if types == [] then end else EndOf(types[1..], OffsetFor(types[0], end) + MtlSize(types[0]))
  }

  /** Ranges are aligned, in order, disjoint, and end before the end of the buffer. */
  lemma {:induction false} OffsetsLayOut(types: seq<ParamType>, end: nat)
    ensures var offs := Offsets(types, end);
            && (forall i :: 0 <= i < |types| && types[i] != Texture ==> Aligned(offs[i], MtlAlignment(types[i])))
            && (forall i :: 0 <= i < |types| ==> end <= offs[i] && offs[i] + MtlSize(types[i]) <= EndOf(types, end))
            && (forall i, j :: 0 <= i < j < |types| ==> offs[i] + MtlSize(types[i]) <= offs[j])
  {
    if types != [] {
      var at, t := OffsetFor(types[0], end), types[1..];
      OffsetsLayOut(t, at + MtlSize(types[0]));
      var rest, offs := Offsets(t, at + MtlSize(types[0])), Offsets(types, end);
      assert forall i :: 0 < i < |types| ==> types[i] == t[i - 1] && offs[i] == rest[i - 1];
    }
  }

  // ---- values ----

  datatype Uniform = Uniform(typ: ParamType, offset: nat, current: Option<seq<Byte>>, hasUpdates: bool)

  /** A shader's uniforms and the bytes it uploads. */
  datatype State = State(uniforms: seq<Uniform>, data: seq<Byte>)

  /** Replacing a range of bytes by as many others. */
  function Replaced(data: seq<Byte>, at: nat, value: seq<Byte>): (r: seq<Byte>)
    ensures at + |value| <= |data| ==> |r| == |data|
  {
    if at + |value| <= |data| then data[..at] + value + data[at + |value|..] else data
  }

  /** ShaderUniform.setParameter. */
  function SetParameter(s: State, i: nat, value: seq<Byte>): State {
    if i < |s.uniforms| then s.(uniforms := s.uniforms[i := s.uniforms[i].(current := Some(value),
                                                                           hasUpdates := true)]) else s
  }

  predicate Writes(u: Uniform) {
    u.typ != Texture && u.current.Some? && u.hasUpdates
  }

  /** The bytes after updateUniform of each uniform in turn. */
  function Written(us: seq<Uniform>, data: seq<Byte>): seq<Byte> {
    if us == [] then data
    else Written(us[1..], if Writes(us[0]) then Replaced(data, us[0].offset, us[0].current.value) else data)
  }

  function Settled(u: Uniform): Uniform {
    if u.current.Some? then u.(hasUpdates := false) else u
  }

  function AllSettled(us: seq<Uniform>): (r: seq<Uniform>)
    ensures |r| == |us| && forall i :: 0 <= i < |r| ==> r[i] == Settled(us[i])
  {
    if us == [] then [] else [Settled(us[0])] + AllSettled(us[1..])
  }

  /** uploadShaderParameters. */
  function Upload(s: State): State {
    State(AllSettled(s.uniforms), Written(s.uniforms, s.data))
  }

  predicate Fits(us: seq<Uniform>, size: nat) {
    && (forall i :: 0 <= i < |us| && us[i].typ != Texture && us[i].current.Some? ==>
        |us[i].current.value| <= MtlSize(us[i].typ))
    && (forall i :: 0 <= i < |us| ==> us[i].offset + MtlSize(us[i].typ) <= size)
    && (forall i, j :: 0 <= i < j < |us| ==> us[i].offset + MtlSize(us[i].typ) <= us[j].offset)
  }

  predicate HoldsAt(data: seq<Byte>, at: nat, value: seq<Byte>) {
    at + |value| <= |data| && data[at..at + |value|] == value
  }

  /** Byte b is written by one of the uniforms. */
  predicate Touched(us: seq<Uniform>, b: nat) {
    exists i :: 0 <= i < |us| && Writes(us[i]) && us[i].offset <= b < us[i].offset + |us[i].current.value|
  }

  /** Writing keeps the length, puts every value to be written at its offset, and touches nothing else. */
  lemma {:induction false} WrittenFramed(us: seq<Uniform>, data: seq<Byte>)
    requires Fits(us, |data|)
    ensures var r := Written(us, data);
            && |r| == |data|
            && (forall i :: 0 <= i < |us| && Writes(us[i]) ==> HoldsAt(r, us[i].offset, us[i].current.value))
            && (forall b: nat :: b < |data| && !Touched(us, b) ==> r[b] == data[b])
  {
    if us != [] {
      var u, t := us[0], us[1..];
      var mid := if Writes(u) then Replaced(data, u.offset, u.current.value) else data;
      assert forall i :: 0 <= i < |t| ==> t[i] == us[i + 1];
      WrittenFramed(t, mid);
      var r := Written(us, data);
      assert r == Written(t, mid) && u.offset + MtlSize(u.typ) <= |data|;
      assert forall i :: 0 <= i < |t| ==> u.offset + MtlSize(u.typ) <= t[i].offset;
      assert Writes(u) ==> |u.current.value| <= MtlSize(u.typ);
      hide Written, Replaced, Fits, Touched;
      if Writes(u) {
        ReplacedAt(data, u.offset, u.current.value);
        forall b: nat | u.offset <= b < u.offset + |u.current.value|
          ensures r[b] == mid[b]
        {
          NotLater(t, u, b);
        }
        assert r[u.offset..u.offset + |u.current.value|] == mid[u.offset..u.offset + |u.current.value|];
      }
      forall b: nat | b < |data| && !Touched(us, b)
        ensures r[b] == data[b]
      {
        TouchedLater(us, b);
      }
      forall i | 0 <= i < |us| && Writes(us[i])
        ensures HoldsAt(r, us[i].offset, us[i].current.value)
      {
        if i > 0 {
          assert us[i] == t[i - 1];
        }
      }
    }
  }

  lemma {:induction false} TouchedLater(us: seq<Uniform>, b: nat)
    requires us != []
    ensures Touched(us[1..], b) ==> Touched(us, b)
    ensures Writes(us[0]) && us[0].offset <= b < us[0].offset + |us[0].current.value| ==> Touched(us, b)
  {
    if Touched(us[1..], b) {
      var t := us[1..];
      var i :| 0 <= i < |t| && Writes(t[i]) && t[i].offset <= b < t[i].offset + |t[i].current.value|;
      assert us[i + 1] == t[i];
    }
  }

  lemma {:induction false} NotLater(t: seq<Uniform>, u: Uniform, b: nat)
    requires u.current.Some? && |u.current.value| <= MtlSize(u.typ) && b < u.offset + |u.current.value|
    requires forall i :: 0 <= i < |t| ==> u.offset + MtlSize(u.typ) <= t[i].offset
    ensures !Touched(t, b)
  {
  }

  lemma {:induction false} ReplacedAt(data: seq<Byte>, at: nat, value: seq<Byte>)
    requires at + |value| <= |data|
    ensures HoldsAt(Replaced(data, at, value), at, value)
    ensures forall b :: 0 <= b < |data| && !(at <= b < at + |value|) ==> Replaced(data, at, value)[b] == data[b]
  {
  }

  // ---- runs ----

  datatype Event = Put(i: nat, value: seq<Byte>) | Frame

  function Next(s: State, e: Event): State {
    match e
    case Put(i, value) => SetParameter(s, i, value)
    case Frame => Upload(s)
  }

  function Run(s: State, events: seq<Event>): State {
    if events == [] then s else Next(Run(s, events[..|events| - 1]), events[|events| - 1])
  }

  /** A value fits its uniform's range. */
  predicate Plays(s: State, e: Event) {
    e.Put? ==> e.i < |s.uniforms| && (s.uniforms[e.i].typ != Texture ==> |e.value| <= MtlSize(s.uniforms[e.i].typ))
  }

  /** The value a uniform was last set to. */
  function Latest(events: seq<Event>, i: nat): Option<seq<Byte>> {
    if events == [] then None
    else
      var e := events[|events| - 1];
      if e.Put? && e.i == i then Some(e.value) else Latest(events[..|events| - 1], i)
  }

  /** A shader as buildMetadata leaves it: defaults stored, nothing marked, all bytes zero. */
  function Built(types: seq<ParamType>, defaults: seq<seq<Byte>>): State
    requires |types| == |defaults|
  {
    State(seq(|types|,
              i requires 0 <= i < |types| => Uniform(types[i], Offsets(types, 0)[i], Some(defaults[i]), false)),
          Zeros(RoundUp16(EndOf(types, 0))))
  }

  /** A set uniform is waiting to be written or in place; one never set is not written at all. */
  predicate InPlace(s: State, s0: State, events: seq<Event>, i: nat)
    requires i < |s.uniforms| == |s0.uniforms|
  {
    var u := s.uniforms[i];
    match Latest(events, i)
    case Some(v) => u.current == Some(v) && (u.hasUpdates || HoldsAt(s.data, u.offset, v))
    case None => !u.hasUpdates && u.current == s0.uniforms[i].current && ZeroRange(s.data, u)
  }

  predicate ZeroRange(data: seq<Byte>, u: Uniform) {
    forall b: nat :: u.offset <= b < u.offset + MtlSize(u.typ) && b < |data| ==> data[b] == 0
  }

  predicate Sound(s: State, s0: State, events: seq<Event>) {
    && |s.uniforms| == |s0.uniforms| && |s.data| == |s0.data| && Fits(s.uniforms, |s.data|)
    && (forall i :: 0 <= i < |s.uniforms| ==>
        s.uniforms[i].typ == s0.uniforms[i].typ && s.uniforms[i].offset == s0.uniforms[i].offset)
    && (forall i :: 0 <= i < |s.uniforms| && s.uniforms[i].typ != Texture ==> InPlace(s, s0, events, i))
  }

  lemma {:induction false} NotTouched(us: seq<Uniform>, i: nat, b: nat, size: nat)
    requires Fits(us, size) && i < |us| && !Writes(us[i])
    requires us[i].offset <= b < us[i].offset + MtlSize(us[i].typ)
    ensures !Touched(us, b)
  {
    forall j | 0 <= j < |us| && Writes(us[j])
      ensures !(us[j].offset <= b < us[j].offset + |us[j].current.value|)
    {
      assert us[j].offset + MtlSize(us[j].typ) <= us[i].offset || us[i].offset + MtlSize(us[i].typ) <= us[j].offset;
    }
  }

  /** One upload: every set value ends up in its range, and what was in place or zero stays so. */
  lemma {:induction false} UploadSound(s: State, s0: State, events: seq<Event>)
    requires Sound(s, s0, events)
    ensures Sound(Upload(s), s0, events + [Frame])
    ensures forall i :: 0 <= i < |s.uniforms| && s.uniforms[i].typ != Texture && Latest(events, i).Some? ==>
              HoldsAt(Upload(s).data, s.uniforms[i].offset, Latest(events, i).value)
  {
    var r, all := Upload(s), events + [Frame];
    assert all[..|events|] == events;
    WrittenFramed(s.uniforms, s.data);
    assert Fits(r.uniforms, |r.data|);
    forall i | 0 <= i < |s.uniforms| && s.uniforms[i].typ != Texture
      ensures InPlace(r, s0, all, i)
      ensures Latest(events, i).Some? ==> HoldsAt(r.data, s.uniforms[i].offset, Latest(events, i).value)
    {
      UploadOne(s, s0, events, i);
    }
  }

  lemma {:induction false} UploadOne(s: State, s0: State, events: seq<Event>, i: nat)
    requires Sound(s, s0, events) && i < |s.uniforms| && s.uniforms[i].typ != Texture
    ensures InPlace(Upload(s), s0, events + [Frame], i)
    ensures Latest(events, i).Some? ==> HoldsAt(Upload(s).data, s.uniforms[i].offset, Latest(events, i).value)
  {
    var r, all, u := Upload(s), events + [Frame], s.uniforms[i];
    assert all[..|events|] == events && Latest(all, i) == Latest(events, i);
    WrittenFramed(s.uniforms, s.data);
    assert InPlace(s, s0, events, i);
    hide Latest, Written;
    if !Writes(u) {
      forall b: nat | u.offset <= b < u.offset + MtlSize(u.typ)
        ensures b < |r.data| && r.data[b] == s.data[b]
      {
        NotTouched(s.uniforms, i, b, |s.data|);
      }
      if Latest(events, i).Some? {
        var v := Latest(events, i).value;
        assert r.data[u.offset..u.offset + |v|] == s.data[u.offset..u.offset + |v|];
      }
    }
  }

  lemma {:induction false} SetSound(s: State, s0: State, events: seq<Event>, k: nat, value: seq<Byte>)
    requires Sound(s, s0, events) && Plays(s, Put(k, value))
    ensures Sound(SetParameter(s, k, value), s0, events + [Put(k, value)])
  {
    var r, all := SetParameter(s, k, value), events + [Put(k, value)];
    assert all[..|events|] == events;
    forall i | 0 <= i < |r.uniforms| && r.uniforms[i].typ != Texture
      ensures InPlace(r, s0, all, i)
    {
      if i != k {
        assert InPlace(s, s0, events, i);
        assert Latest(all, i) == Latest(events, i);
      }
    }
  }

  lemma {:induction false} RunSound(s0: State, events: seq<Event>)
    requires Sound(s0, s0, []) && forall e :: e in events ==> Plays(s0, e)
    ensures Sound(Run(s0, events), s0, events)
  {
    if events != [] {
      var before, e := events[..|events| - 1], events[|events| - 1];
      assert e in events;
      RunSound(s0, before);
      var s := Run(s0, before);
      assert before + [e] == events && Plays(s, e);
      match e
      case Put(k, value) => SetSound(s, s0, before, k, value);
      case Frame => UploadSound(s, s0, before);
    }
  }

  lemma {:induction false} BuiltSound(types: seq<ParamType>, defaults: seq<seq<Byte>>)
    requires |types| == |defaults|
    requires forall i :: 0 <= i < |types| && types[i] != Texture ==> |defaults[i]| <= MtlSize(types[i])
    ensures Sound(Built(types, defaults), Built(types, defaults), [])
  {
    OffsetsLayOut(types, 0);
  }

  /** Over every run of sets and uploads of a shader built from any uniforms: the buffer keeps its length,
      and after an upload every uniform that has ever been set has its latest value in its own range. */
  lemma {:induction false} LatestInPlace(types: seq<ParamType>, defaults: seq<seq<Byte>>, events: seq<Event>, i: nat)
    requires |types| == |defaults| && i < |types| && types[i] != Texture
    requires forall k :: 0 <= k < |types| && types[k] != Texture ==> |defaults[k]| <= MtlSize(types[k])
    requires forall e :: e in events ==> Plays(Built(types, defaults), e)
    ensures var s := Run(Built(types, defaults), events + [Frame]);
            && |s.data| == RoundUp16(EndOf(types, 0))
            && (Latest(events, i).Some? ==> HoldsAt(s.data, Offsets(types, 0)[i], Latest(events, i).value))
  {
    var s0 := Built(types, defaults);
    BuiltSound(types, defaults);
    RunSound(s0, events);
    UploadSound(Run(s0, events), s0, events);
    assert (events + [Frame])[..|events|] == events;
  }

  /** A default is stored as the current value but never marked: until the uniform is set its range is zero,
      so the shader sees the default exactly when the default is zero. */
  lemma {:induction false} DefaultsNotUploaded(types: seq<ParamType>, defaults: seq<seq<Byte>>, events: seq<Event>,
                                               i: nat)
    requires |types| == |defaults| && i < |types| && types[i] != Texture && Latest(events, i).None?
    requires forall k :: 0 <= k < |types| && types[k] != Texture ==> |defaults[k]| <= MtlSize(types[k])
    requires forall e :: e in events ==> Plays(Built(types, defaults), e)
    ensures var s := Run(Built(types, defaults), events);
            && i < |s.uniforms| && s.uniforms[i].current == Some(defaults[i])
            && (HoldsAt(s.data, s.uniforms[i].offset, defaults[i]) <==> forall b :: b in defaults[i] ==> b == 0)
  {
    var s0 := Built(types, defaults);
    BuiltSound(types, defaults);
    RunSound(s0, events);
    var s := Run(s0, events);
    var u, v := s.uniforms[i], defaults[i];
    assert InPlace(s, s0, events, i);
    ZeroValue(s.data, u.offset, v);
  }

  lemma {:induction false} ZeroValue(data: seq<Byte>, at: nat, v: seq<Byte>)
    requires at + |v| <= |data| && forall b :: at <= b < at + |v| ==> data[b] == 0
    ensures HoldsAt(data, at, v) <==> forall b :: b in v ==> b == 0
  {
    var here := data[at..at + |v|];
    assert forall k :: 0 <= k < |v| ==> here[k] == 0;
    if forall b :: b in v ==> b == 0 {
      assert forall k :: 0 <= k < |v| ==> v[k] in v;
      assert here == v;
    }
    if here == v {
      forall b | b in v
        ensures b == 0
      {
        var k :| 0 <= k < |v| && v[k] == b;
        assert here[k] == v[k];
      }
    }
  }
}
