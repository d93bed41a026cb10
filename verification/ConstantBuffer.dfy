/** Packing, uploading and keeping coherent the constant buffer of a D3D11 shader
    (libobs-d3d11/d3d11-shader.cpp:110-207, 319-385, 445-461, 511-516, libobs-d3d11/d3d11-rebuild.cpp:221-272). */
module ConstantBuffer {
  type Byte = bv8

  datatype ParamType = Bool | Int | Float | Int2 | Vec2 | Int3 | Vec3 | Int4 | Vec4 | Matrix4x4 | Texture

  datatype Param = Param(typ: ParamType, arrayCount: nat, pos: nat, cur: seq<Byte>, def: seq<Byte>, changed: bool)

  // ---- register packing ----

  /** How many numbers a value of this type has. */
  function Components(typ: ParamType): nat {
    if typ in {Bool, Int, Float} then 1
    else if typ in {Int2, Vec2} then 2
    else if typ in {Int3, Vec3} then 3
    else if typ in {Int4, Vec4} then 4
    else if typ == Matrix4x4 then 4 * 4
    else 0
  }

  /** The bytes of one element. */
  function One(typ: ParamType): (size: nat)
    ensures size > 0 <==> typ != Texture
    ensures typ != Texture ==> size < 16 || size % 16 == 0
    ensures size == 4 * Components(typ)
  {
    match typ
    case Bool | Int | Float => 4
    case Int2 | Vec2 => 8
    case Int3 | Vec3 => 12
    case Int4 | Vec4 => 16
    case Matrix4x4 => 64
    case Texture => 0
  }

  function Size(p: Param): (size: nat)
    ensures size > 0 <==> p.typ != Texture
  {
    if p.arrayCount != 0 then Times(One(p.typ), p.arrayCount) else One(p.typ)
  }

  function Times(a: nat, b: nat): (r: nat)
    requires b > 0
    ensures r > 0 <==> a > 0
    ensures r == a * b
  {
    a * b
  }

  function RoundUp16(n: nat): (r: nat)
    ensures n <= r < n + 16 && r % 16 == 0
  {
    (n + 15) / 16 * 16
  }

  /** The masks of the source, which work on machine words, round up to a multiple of 16. */
  lemma {:induction false} MaskRounds(x: bv64)
    requires x <= 0xFFFF_FFFF_FFFF_FFF0
    ensures (x + 15) & !15 == (x + 15) / 16 * 16
    ensures x & 15 == x % 16
  {
  }

  /** Where BuildConstantBuffer puts a constant of this size when the previous one ends at end. */
  function Place(end: nat, size: nat): nat {
    if size != 0 && end % 16 != 0 && size + end > RoundUp16(end) then RoundUp16(end) else end
  }

  /** The packing rule that the source states: a constant of at most one register does not straddle two, a larger
      one starts one. It is HLSL's own for all constants but arrays. */
  predicate Fits(pos: nat, size: nat) {
    if size <= 16 then pos % 16 + size <= 16 else pos % 16 == 0
  }

  /** The place is the first one allowed. */
  lemma {:induction false} PlaceLeast(end: nat, size: nat)
    requires size > 0
    ensures end <= Place(end, size) && Fits(Place(end, size), size)
    ensures forall p :: end <= p && Fits(p, size) ==> Place(end, size) <= p
  {
    if Place(end, size) != end {
      forall p | end <= p < RoundUp16(end)
        ensures !Fits(p, size)
      {
        SameRegister(end, p);
      }
    }
  }

  lemma {:induction false} SameRegister(end: nat, p: nat)
    requires end % 16 != 0 && end <= p < RoundUp16(end)
    ensures p % 16 >= end % 16 && RoundUp16(end) - end == 16 - end % 16
    ensures p % 16 - end % 16 == p - end
  {
    var q := end / 16;
    assert end == 16 * q + end % 16 && RoundUp16(end) == 16 * q + 16;
    assert p / 16 == q;
  }

  /** Params with their positions, and the end of the last constant. */
  function Laid(params: seq<Param>, end: nat): (seq<Param>, nat) {
    if params == [] then ([], end)
    else if params[0].typ == Texture then
      var (rest, last) := Laid(params[1..], end);
      ([params[0]] + rest, last)
    else
      var at := Place(end, Size(params[0]));
      var (rest, last) := Laid(params[1..], at + Size(params[0]));
      ([params[0].(pos := at)] + rest, last)
  }

  /** A layout of the constants from end on by that rule: in order and disjoint. */
  predicate Legal(params: seq<Param>, end: nat) {
    params == [] ||
    if params[0].typ == Texture then Legal(params[1..], end)
    else
      && end <= params[0].pos && Fits(params[0].pos, Size(params[0]))
      && Legal(params[1..], params[0].pos + Size(params[0]))
  }

  function End(params: seq<Param>, end: nat): nat {
    if params == [] then end
    else End(params[1..], if params[0].typ == Texture then end else params[0].pos + Size(params[0]))
  }

  predicate SameParams(a: seq<Param>, b: seq<Param>) {
    |a| == |b| && forall i :: 0 <= i < |a| ==> a[i] == b[i].(pos := a[i].pos)
  }

  /** The packing follows the rule. */
  lemma {:induction false} LaidLegal(params: seq<Param>, end: nat)
    ensures var (laid, last) := Laid(params, end);
            SameParams(laid, params) && Legal(laid, end) && last == End(laid, end)
  {
    if params != [] {
      var p := params[0];
      if p.typ == Texture {
        LaidLegal(params[1..], end);
      } else {
        var at := Place(end, Size(p));
        PlaceLeast(end, Size(p));
        LaidLegal(params[1..], at + Size(p));
      }
      hide Place, Size, Fits;
      var (laid, last) := Laid(params, end);
      assert laid == [laid[0]] + laid[1..];
    }
  }

  /** No layout of the same constants by the rule puts any of them, or the end of the buffer, earlier. */
  lemma {:induction false} LaidOptimal(params: seq<Param>, other: seq<Param>, end: nat, end': nat)
    requires SameParams(other, params) && end <= end' && Legal(other, end')
    ensures var (laid, last) := Laid(params, end);
            && last <= End(other, end') && |laid| == |params|
            && forall i :: 0 <= i < |params| && params[i].typ != Texture ==> laid[i].pos <= other[i].pos
  {
    if params != [] {
      var p, q := params[0], other[0];
      var (laid, last) := Laid(params, end);
      assert SameParams(other[1..], params[1..]);
      assert forall i :: 0 < i < |params| ==> params[i] == params[1..][i - 1] && other[i] == other[1..][i - 1];
      assert p.typ == q.typ && Size(q) == Size(p);
      hide Place, Size, Fits, SameParams;
      if p.typ == Texture {
        LaidOptimal(params[1..], other[1..], end, end');
        assert laid[1..] == Laid(params[1..], end).0;
      } else {
        var at := Place(end, Size(p));
        PlaceLeast(end, Size(p));
        LaidOptimal(params[1..], other[1..], at + Size(p), q.pos + Size(p));
        assert laid[1..] == Laid(params[1..], at + Size(p)).0;
      }
    }
  }

  // ---- arrays ----

  /** HLSL's rule for arrays: every element starts a register. The source puts element j at pos + j * One. */
  predicate ArrayFits(p: Param) {
    p.typ != Texture ==> forall j :: 0 <= j < p.arrayCount ==> ElementAt(p, j) % 16 == 0
  }

  function ElementAt(p: Param, j: nat): nat {
    p.pos + j * One(p.typ)
  }

  predicate ArraysFit(params: seq<Param>) {
    forall p :: p in params ==> ArrayFits(p)
  }

  /** An array comes out right if its elements fill whole registers, or if it has one element, which the end of
      the previous constant sends to a new register. */
  predicate ArrayFine(p: Param, end: nat) {
    p.arrayCount == 0 || One(p.typ) % 16 == 0 || (p.arrayCount == 1 && (end % 16 == 0 || end % 16 + One(p.typ) > 16))
  }

  predicate ArraysFine(params: seq<Param>, end: nat) {
    params == [] ||
    if params[0].typ == Texture then ArraysFine(params[1..], end)
    else ArrayFine(params[0], end) && ArraysFine(params[1..], Place(end, Size(params[0])) + Size(params[0]))
  }

  lemma {:induction false} RegisterTimes(j: nat, k: nat)
    ensures j * (16 * k) % 16 == 0
  {
    assert j * (16 * k) == 16 * (j * k);
  }

  /** One array, where the packing puts it. */
  lemma {:induction false} ArrayExact(p: Param, end: nat)
    requires p.typ != Texture
    ensures ArrayFits(p.(pos := Place(end, Size(p)))) <==> ArrayFine(p, end)
  {
    var q, one := p.(pos := Place(end, Size(p))), One(p.typ);
    if p.arrayCount > 0 {
      assert ElementAt(q, 0) == q.pos;
      if one % 16 == 0 {
        assert one >= 16 && Size(p) >= 16 by { TimesAtLeast(one, p.arrayCount); }
        PlaceLeast(end, Size(p));
        forall j | 0 <= j < q.arrayCount
          ensures ElementAt(q, j) % 16 == 0
        {
          RegisterTimes(j, one / 16);
          assert one == 16 * (one / 16);
        }
      } else if p.arrayCount == 1 {
        assert Size(p) == one;
        SameRegister16(end);
      } else {
        assert ElementAt(q, 1) == q.pos + one && one < 16;
        assert !(ElementAt(q, 0) % 16 == 0 && ElementAt(q, 1) % 16 == 0);
      }
    }
  }

  lemma {:induction false} TimesAtLeast(a: nat, b: nat)
    requires b > 0
    ensures a * b >= a
  {
  }

  lemma {:induction false} SameRegister16(end: nat)
    ensures end % 16 != 0 ==> RoundUp16(end) == end + 16 - end % 16
    ensures end % 16 == 0 ==> RoundUp16(end) == end
  {
    var q := end / 16;
    assert end == 16 * q + end % 16;
  }

  /** The packing obeys HLSL's rule for arrays if and only if every array is of one of the two kinds. */
  lemma {:induction false} LaidArraysExact(params: seq<Param>, end: nat)
    ensures ArraysFit(Laid(params, end).0) <==> ArraysFine(params, end)
  {
    if params != [] {
      var p := params[0];
      var laid := Laid(params, end).0;
      hide ArrayFits, ArrayFine, Place, Size;
      if p.typ == Texture {
        LaidArraysExact(params[1..], end);
        TextureFits(p);
        assert laid == [p] + Laid(params[1..], end).0;
      } else {
        var at := Place(end, Size(p));
        ArrayExact(p, end);
        LaidArraysExact(params[1..], at + Size(p));
        assert laid == [p.(pos := at)] + Laid(params[1..], at + Size(p)).0;
      }
      assert forall q :: q in laid <==> q == laid[0] || q in laid[1..];
    }
  }

  lemma {:induction false} TextureFits(p: Param)
    requires p.typ == Texture
    ensures ArrayFits(p)
  {
  }

  /** float a[2] has its second element at byte 4, where HLSL reads it at byte 16. */
  lemma {:induction false} FloatArrayFails(a: Param)
    requires a.typ == Float && a.arrayCount == 2
    ensures var laid := Laid([a], 0).0;
            |laid| == 1 && ElementAt(laid[0], 1) == 4 && !ArraysFit(laid)
  {
    assert [a][1..] == [];
    LaidArraysExact([a], 0);
  }

  // HLSL's own packing: what would straddle a register starts the next one, every element of an array starts
  // one, and nothing is left free behind the last element.

  function HlslAt(p: Param, end: nat): nat {
    if p.arrayCount > 0 || end % 16 + One(p.typ) > 16 then RoundUp16(end) else end
  }

  function HlslElement(p: Param, end: nat, j: nat): nat {
    HlslAt(p, end) + j * RoundUp16(One(p.typ))
  }

  function HlslPlaces(params: seq<Param>, end: nat): seq<seq<nat>> {
    if params == [] then []
    else if params[0].typ == Texture then [[]] + HlslPlaces(params[1..], end)
    else
      var p := params[0];
      var last := if p.arrayCount == 0 then 0 else p.arrayCount - 1;
      [seq(last + 1, j requires 0 <= j => HlslElement(p, end, j))]
      + HlslPlaces(params[1..], HlslElement(p, end, last) + One(p.typ))
  }

  /** Where the elements of each constant are in a layout of the source's. */
  function Elements(p: Param): seq<nat> {
    if p.typ == Texture then []
    else seq(if p.arrayCount == 0 then 1 else p.arrayCount, j requires 0 <= j => ElementAt(p, j))
  }

  function Places(laid: seq<Param>): seq<seq<nat>> {
    if laid == [] then [] else [Elements(laid[0])] + Places(laid[1..])
  }

  /** All elements of all constants are where HLSL has them if and only if every array is of one of the two
      kinds. */
  lemma {:induction false} PackingExact(params: seq<Param>, end: nat)
    ensures Places(Laid(params, end).0) == HlslPlaces(params, end) <==> ArraysFine(params, end)
  {
    hide Place, Size, ArrayFine, HlslElement, ElementAt;
    if params != [] {
      var p, rest := params[0], params[1..];
      var laid, hlsl := Laid(params, end).0, HlslPlaces(params, end);
      if p.typ == Texture {
        PackingExact(rest, end);
        assert laid == [p] + Laid(rest, end).0;
        assert Places(laid) == [[]] + Places(Laid(rest, end).0);
        assert hlsl[1..] == HlslPlaces(rest, end) && Places(laid)[1..] == Places(Laid(rest, end).0);
      } else {
        var at, q := Place(end, Size(p)), p.(pos := Place(end, Size(p)));
        var last := if p.arrayCount == 0 then 0 else p.arrayCount - 1;
        PackedAlike(p, end);
        PackingExact(rest, at + Size(p));
        assert laid == [q] + Laid(rest, at + Size(p)).0;
        assert Places(laid) == [Elements(q)] + Places(Laid(rest, at + Size(p)).0);
        assert hlsl[0] == seq(last + 1, j requires 0 <= j => HlslElement(p, end, j));
        assert hlsl[1..] == HlslPlaces(rest, HlslElement(p, end, last) + One(p.typ));
        assert Places(laid)[0] == Elements(q) && Places(laid)[1..] == Places(Laid(rest, at + Size(p)).0);
      }
    }
  }

  lemma {:induction false} PackedAlike(p: Param, end: nat)
    requires p.typ != Texture
    ensures var at, last := Place(end, Size(p)), if p.arrayCount == 0 then 0 else p.arrayCount - 1;
            && (Elements(p.(pos := at)) == seq(last + 1, j requires 0 <= j => HlslElement(p, end, j))
                <==> ArrayFine(p, end))
            && (ArrayFine(p, end) ==> HlslElement(p, end, last) + One(p.typ) == at + Size(p))
  {
    var q, one := p.(pos := Place(end, Size(p))), One(p.typ);
    var last := if p.arrayCount == 0 then 0 else p.arrayCount - 1;
    var hlsl := seq(last + 1, j requires 0 <= j => HlslElement(p, end, j));
    SameRegister16(end);
    SameRegister16(one);
    assert Elements(q)[0] == ElementAt(q, 0) == q.pos && hlsl[0] == HlslElement(p, end, 0) == HlslAt(p, end);
    if p.arrayCount >= 2 {
      assert Elements(q)[1] == q.pos + one && hlsl[1] == HlslAt(p, end) + RoundUp16(one);
    }
    if p.arrayCount > 0 && one % 16 == 0 {
      assert one >= 16 && Size(p) >= 16 by { TimesAtLeast(one, p.arrayCount); }
      PlaceLeast(end, Size(p));
      assert q.pos == HlslAt(p, end);
      assert Elements(q) == hlsl;
      LastElement(one, p.arrayCount);
    }
  }

  lemma {:induction false} LastElement(one: nat, count: nat)
    requires count > 0
    ensures (count - 1) * one + one == one * count
  {
  }

  // ---- the bytes of an upload ----

  function Zeros(n: nat): (z: seq<Byte>)
    ensures |z| == n && forall i :: 0 <= i < n ==> z[i] == 0
  {
    seq(n, i => 0)
  }

  /** UpdateParam's growth of the data. */
  function Append(data: seq<Byte>, p: Param): seq<Byte> {
    (if p.pos > |data| then data + Zeros(p.pos - |data|) else data) + p.cur
  }

  datatype Encoded = Bytes(data: seq<Byte>) | NotSet

  function Encode(params: seq<Param>, data: seq<Byte>): Encoded {
    if params == [] then Bytes(data)
    else if params[0].typ == Texture then Encode(params[1..], data)
    else if params[0].cur == [] then NotSet
    else Encode(params[1..], Append(data, params[0]))
  }

  /** Every constant is set to a value of its own size. */
  predicate Sized(params: seq<Param>) {
    forall p :: p in params && p.typ != Texture ==> |p.cur| == Size(p)
  }

  predicate At(params: seq<Param>, data: seq<Byte>) {
    forall p :: p in params && p.typ != Texture ==> p.pos + |p.cur| <= |data| && data[p.pos..p.pos + |p.cur|] == p.cur
  }

  /** No constant covers byte b. */
  predicate Gap(params: seq<Param>, b: nat) {
    forall p :: p in params && p.typ != Texture ==> !(p.pos <= b < p.pos + Size(p))
  }

  /** With values of the right sizes, every value's bytes lie exactly at its position, every other byte
      is zero, and the data fills the buffer. */
  lemma {:induction false} EncodePlaces(params: seq<Param>, data: seq<Byte>)
    requires Sized(params) && Legal(params, |data|)
    ensures Encode(params, data).Bytes?
    ensures var r := Encode(params, data).data;
            && |r| == End(params, |data|) && data <= r && At(params, r)
            && forall b :: |data| <= b < |r| && Gap(params, b) ==> r[b] == 0
  {
    if params != [] {
      var p, rest := params[0], params[1..];
      assert forall q :: q in rest ==> q in params;
      if p.typ == Texture {
        EncodePlaces(rest, data);
      } else {
        var grown := Append(data, p);
        assert p in params && |p.cur| == Size(p);
        AppendAt(data, p);
        EncodePlaces(rest, grown);
        var r := Encode(rest, grown).data;
        assert r[p.pos..p.pos + |p.cur|] == grown[p.pos..p.pos + |p.cur|];
      }
    }
  }

  lemma {:induction false} AppendAt(data: seq<Byte>, p: Param)
    requires |data| <= p.pos
    ensures var grown := Append(data, p);
            && |grown| == p.pos + |p.cur| && data <= grown && grown[p.pos..p.pos + |p.cur|] == p.cur
            && forall b :: |data| <= b < p.pos ==> grown[b] == 0
  {
    var head := data + Zeros(p.pos - |data|);
    assert Append(data, p) == head + p.cur;
  }

  /** Some value is written after its constant's position, given how much data is there already. */
  predicate Misplaced(params: seq<Param>, len: nat) {
    params != [] &&
    if params[0].typ == Texture then Misplaced(params[1..], len)
    else len > params[0].pos || Misplaced(params[1..], params[0].pos + |params[0].cur|)
  }

  /** Some value reaches past the position of the next constant. */
  predicate Overruns(params: seq<Param>) {
    params != [] &&
    if params[0].typ == Texture then Overruns(params[1..])
    else StartsBefore(params[1..], params[0].pos + |params[0].cur|) || Overruns(params[1..])
  }

  predicate StartsBefore(params: seq<Param>, b: nat) {
    params != [] && if params[0].typ == Texture then StartsBefore(params[1..], b) else params[0].pos < b
  }

  lemma {:induction false} MisplacedIffOverrun(params: seq<Param>, len: nat)
    ensures Misplaced(params, len) <==> StartsBefore(params, len) || Overruns(params)
  {
    if params != [] {
      MisplacedIffOverrun(params[1..], if params[0].typ == Texture then len else params[0].pos + |params[0].cur|);
    }
  }

  /** Value i is appended at its constant's position: what is there already does not reach further. */
  predicate AppendedInPlace(params: seq<Param>, data: seq<Byte>, i: nat)
    requires i < |params|
  {
    params[i].typ != Texture ==>
      Encode(params[..i], data).Bytes? && |Encode(params[..i], data).data| <= params[i].pos
  }

  predicate InPlace(params: seq<Param>, data: seq<Byte>) {
    forall i :: 0 <= i < |params| ==> AppendedInPlace(params, data, i)
  }

  lemma {:induction false} InPlaceStep(params: seq<Param>, data: seq<Byte>)
    requires params != [] && Encode(params, data).Bytes?
    ensures var p, rest := params[0], params[1..];
            InPlace(params, data)
            <==> if p.typ == Texture then InPlace(rest, data) else |data| <= p.pos && InPlace(rest, Append(data, p))
  {
    var p, rest := params[0], params[1..];
    var more := if p.typ == Texture then data else Append(data, p);
    assert params[..0] == [];
    assert AppendedInPlace(params, data, 0) <==> p.typ == Texture || |data| <= p.pos;
    forall i | 0 <= i < |rest|
      ensures AppendedInPlace(rest, more, i) <==> AppendedInPlace(params, data, i + 1)
    {
      assert params[..i + 1][1..] == rest[..i] && params[..i + 1][0] == p;
    }
    if InPlace(rest, more) {
      forall i | 0 < i < |params|
        ensures AppendedInPlace(params, data, i)
      {
        assert AppendedInPlace(rest, more, i - 1);
      }
    }
  }

  /** Exactly when an upload's data is where the shader reads it. For constants that are all set, whatever their
      positions: every value is appended at its position if and only if none reaches past the position of the next;
      and then each value's bytes stand there. */
  lemma {:induction false} PlacedExactly(params: seq<Param>, data: seq<Byte>)
    requires Encode(params, data).Bytes?
    ensures InPlace(params, data) <==> !StartsBefore(params, |data|) && !Overruns(params)
    ensures InPlace(params, data) ==> data <= Encode(params, data).data && At(params, Encode(params, data).data)
  {
    MisplacedIffOverrun(params, |data|);
    PlacedOrMisplaced(params, data);
  }

  lemma {:induction false} PlacedOrMisplaced(params: seq<Param>, data: seq<Byte>)
    requires Encode(params, data).Bytes?
    ensures InPlace(params, data) <==> !Misplaced(params, |data|)
    ensures InPlace(params, data) ==> data <= Encode(params, data).data && At(params, Encode(params, data).data)
  {
    if params != [] {
      InPlaceStep(params, data);
      var p, rest := params[0], params[1..];
      hide InPlace;
      assert forall q :: q in params <==> q == p || q in rest;
      if p.typ == Texture {
        PlacedOrMisplaced(rest, data);
      } else if |data| <= p.pos {
        AppendAt(data, p);
        var grown := Append(data, p);
        PlacedOrMisplaced(rest, grown);
        var r := Encode(rest, grown).data;
        if InPlace(rest, grown) {
          assert r[p.pos..p.pos + |p.cur|] == grown[p.pos..p.pos + |p.cur|];
        }
      }
    }
  }

  /** The check of the total size lets a value that is too long through when a later one is too short by
      as much: both are then uploaded, and the later one is not where the shader reads it. */
  lemma {:induction false} WrongSizesCompensate(a: Param, b: Param)
    requires a.typ == b.typ == Float && a.arrayCount == b.arrayCount == 0 && a.pos == 0 && b.pos == 4
    requires |a.cur| + |b.cur| == 8 && 4 < |a.cur| < 8
    ensures Legal([a, b], 0) && End([a, b], 0) == 8
    ensures Encode([a, b], []) == Bytes(a.cur + b.cur) && !InPlace([a, b], [])
  {
    assert [a, b][1..] == [b] && [b][1..] == [];
    assert Append([], a) == a.cur && Append(a.cur, b) == a.cur + b.cur;
    assert Encode([b], a.cur) == Bytes(a.cur + b.cur);
    assert Size(a) == 4 && Size(b) == 4 && End([b], 4) == 8;
    assert Overruns([a, b]);
    PlacedExactly([a, b], []);
  }

  // ---- setting, uploading, rebuilding ----

  /** A shader: its parameters, the size of its constants, and what the GPU's buffer holds. */
  datatype Shader = Shader(params: seq<Param>, constantSize: nat, constants: seq<Byte>)

  datatype Outcome = Uploaded | NotAllSet | InvalidSize | MapFailed

  /** shader_setval_inline. */
  function SetVal(p: Param, value: seq<Byte>): Param {
    if p.cur != value then p.(cur := value, changed := true) else p
  }

  /** gs_shader_set_default. */
  function SetDefault(p: Param): Param {
    if p.def != [] then SetVal(p, p.def) else p
  }

  /** The flags UpdateParam leaves, called for each parameter until one throws. */
  function Cleared(params: seq<Param>): seq<Param> {
    if params == [] then []
    else if params[0].typ == Texture then [params[0]] + Cleared(params[1..])
    else if params[0].cur == [] then params
    else [params[0].(changed := false)] + Cleared(params[1..])
  }

  predicate Dirty(params: seq<Param>) {
    exists i :: 0 <= i < |params| && params[i].typ != Texture && params[i].changed
  }

  predicate Full(s: Shader) {
    var e := Encode(s.params, []);
    e.Bytes? && |e.data| == s.constantSize
  }

  function Upload(s: Shader, mapped: bool): (Shader, Outcome) {
    var after := s.(params := Cleared(s.params));
    if Encode(s.params, []).NotSet? then (after, NotAllSet)
    else if !Full(s) then (after, InvalidSize)
    else if !Dirty(s.params) then (after, Uploaded)
    else if !mapped then (after, MapFailed)
    else (after.(constants := Encode(s.params, []).data), Uploaded)
  }

  /** A rebuilt buffer holds anything. */
  function Rebuild(s: Shader, garbage: seq<Byte>): Shader {
    s.(params := Reset(s.params), constants := garbage)
  }

  function Reset(params: seq<Param>): seq<Param> {
    if params == [] then [] else [SetDefault(params[0].(cur := []))] + Reset(params[1..])
  }

  datatype Event =
    | Set(i: nat, value: seq<Byte>)
    | Default(i: nat)
    | Draw(mapped: bool)
    | Lose(garbage: seq<Byte>)

  function Next(s: Shader, e: Event): Shader {
    match e
    case Set(i, v) => if i < |s.params| then s.(params := s.params[i := SetVal(s.params[i], v)]) else s
    case Default(i) => if i < |s.params| then s.(params := s.params[i := SetDefault(s.params[i])]) else s
    case Draw(mapped) => Upload(s, mapped).0
    case Lose(garbage) => Rebuild(s, garbage)
  }

  function Run(s: Shader, events: seq<Event>): Shader {
    if events == [] then s else Next(Run(s, events[..|events| - 1]), events[|events| - 1])
  }

  /** Something is marked changed, or the next upload throws, or the GPU has the current values. */
  predicate Coherent(s: Shader) {
    Dirty(s.params) || !Full(s) || s.constants == Encode(s.params, []).data
  }

  lemma {:induction false} EncodeUnflagged(params: seq<Param>, others: seq<Param>, data: seq<Byte>)
    requires |params| == |others|
    requires forall i :: 0 <= i < |params| ==>
               params[i].typ == others[i].typ
               && (params[i].typ != Texture ==> params[i].pos == others[i].pos && params[i].cur == others[i].cur)
    ensures Encode(params, data) == Encode(others, data)
  {
    if params != [] {
      assert forall i :: 0 <= i < |params[1..]| ==> params[1..][i] == params[i + 1] && others[1..][i] == others[i + 1];
      assert params[0].typ == others[0].typ;
      if params[0].typ == Texture {
        EncodeUnflagged(params[1..], others[1..], data);
      } else {
        EncodeUnflagged(params[1..], others[1..], Append(data, params[0]));
      }
    }
  }

  lemma {:induction false} ClearedFlags(params: seq<Param>)
    ensures |Cleared(params)| == |params|
    ensures forall i :: 0 <= i < |params| ==>
              Cleared(params)[i] == params[i]
              || (params[i].typ != Texture && Cleared(params)[i] == params[i].(changed := false))
    ensures Encode(params, []).Bytes? ==> !Dirty(Cleared(params))
  {
    if params != [] {
      ClearedFlags(params[1..]);
      if params[0].typ != Texture && params[0].cur != [] {
        EncodeIsSet(params[1..], Append([], params[0]), []);
      }
    }
  }

  lemma {:induction false} EncodeIsSet(params: seq<Param>, a: seq<Byte>, b: seq<Byte>)
    ensures Encode(params, a).Bytes? <==> Encode(params, b).Bytes?
  {
    if params != [] && params[0].typ == Texture {
      EncodeIsSet(params[1..], a, b);
    } else if params != [] {
      EncodeIsSet(params[1..], Append(a, params[0]), Append(b, params[0]));
    }
  }

  lemma {:induction false} ResetFlags(params: seq<Param>)
    ensures |Reset(params)| == |params|
    ensures forall i :: 0 <= i < |params| ==> Reset(params)[i] == SetDefault(params[i].(cur := []))
  {
    if params != [] {
      ResetFlags(params[1..]);
    }
  }

  /** When nothing is left to set after a rebuild, everything that was set is marked. */
  lemma {:induction false} CleanIsUnset(params: seq<Param>)
    requires forall i :: 0 <= i < |params| && params[i].typ != Texture && params[i].cur != [] ==> params[i].changed
    ensures Dirty(params) || Encode(params, []).NotSet? || Encode(params, []) == Bytes([])
  {
    if params != [] {
      assert forall i :: 0 <= i < |params[1..]| ==> params[1..][i] == params[i + 1];
      if params[0].typ == Texture {
        CleanIsUnset(params[1..]);
        if Dirty(params[1..]) {
          var i :| 0 <= i < |params[1..]| && params[1..][i].typ != Texture && params[1..][i].changed;
          assert params[i + 1].changed;
        }
      }
    }
  }

  lemma {:induction false} SetCoherent(s: Shader, i: nat, v: seq<Byte>)
    requires Coherent(s) && i < |s.params|
    ensures Coherent(s.(params := s.params[i := SetVal(s.params[i], v)]))
  {
    var t := s.(params := s.params[i := SetVal(s.params[i], v)]);
    if s.params[i].cur == v {
      assert t.params == s.params;
    } else if s.params[i].typ == Texture {
      EncodeUnflagged(s.params, t.params, []);
      if Dirty(s.params) {
        var j :| 0 <= j < |s.params| && s.params[j].typ != Texture && s.params[j].changed;
        assert t.params[j] == s.params[j];
      }
    } else {
      assert t.params[i].changed && t.params[i].typ != Texture;
    }
  }

  lemma {:induction false} UploadCoherent(s: Shader)
    requires Coherent(s)
    ensures var (t, o) := Upload(s, true);
            && Coherent(t) && o != MapFailed
            && (o == Uploaded ==> Full(t) && t.constants == Encode(t.params, []).data)
  {
    ClearedFlags(s.params);
    EncodeUnflagged(s.params, Cleared(s.params), []);
  }

  /** Of the uploads that pass the size check, the ones with every value in its place are exactly those in which
      no value overruns; they fill the buffer, each value's bytes at its position. */
  lemma {:induction false} UploadPlaces(s: Shader)
    requires Upload(s, true).1 == Uploaded
    ensures InPlace(s.params, []) <==> !Overruns(s.params)
    ensures var data := Encode(s.params, []).data;
            && |data| == s.constantSize
            && (!Overruns(s.params) ==> At(s.params, data))
            && (Dirty(s.params) ==> Upload(s, true).0.constants == data)
  {
    StartsNotBeforeZero(s.params);
    PlacedExactly(s.params, []);
  }

  lemma {:induction false} StartsNotBeforeZero(params: seq<Param>)
    ensures !StartsBefore(params, 0)
  {
    if params != [] {
      StartsNotBeforeZero(params[1..]);
    }
  }

  lemma {:induction false} RebuildCoherent(s: Shader, garbage: seq<Byte>)
    requires |garbage| == s.constantSize
    ensures Coherent(Rebuild(s, garbage))
  {
    ResetFlags(s.params);
    var t := Rebuild(s, garbage);
    CleanIsUnset(t.params);
    if Full(t) && !Dirty(t.params) {
      assert garbage == [];
    }
  }

  predicate Plays(e: Event, size: nat) {
    (e.Draw? ==> e.mapped) && (e.Lose? ==> |e.garbage| == size)
  }

  /** In every run of sets, defaults, uploads and rebuilds, whatever the uploads throw, as long as mapping
      the buffer succeeds: the shader stays coherent. */
  lemma {:induction false} RunCoherent(s: Shader, events: seq<Event>)
    requires Coherent(s) && forall e :: e in events ==> Plays(e, s.constantSize)
    ensures Coherent(Run(s, events)) && Run(s, events).constantSize == s.constantSize
  {
    if events != [] {
      var before, e := events[..|events| - 1], events[|events| - 1];
      RunCoherent(s, before);
      var r := Run(s, before);
      assert e in events;
      match e {
        case Set(i, v) => if i < |r.params| { SetCoherent(r, i, v); }
        case Default(i) =>
          if i < |r.params| {
            if r.params[i].def != [] {
              SetCoherent(r, i, r.params[i].def);
            } else {
              assert r.params[i := r.params[i]] == r.params;
            }
          }
        case Draw(mapped) => UploadCoherent(r);
        case Lose(garbage) => RebuildCoherent(r, garbage);
      }
    }
  }

  // ---- what a run has set, told from its events alone ----

  /** The value of constant i: the one set last, explicitly or to the default, where there is one; losing the device
      leaves the default, or nothing. */
  function Latest(s: Shader, events: seq<Event>, i: nat): seq<Byte>
    requires i < |s.params|
  {
    if events == [] then s.params[i].cur
    else
      var before := Latest(s, events[..|events| - 1], i);
      match events[|events| - 1]
      case Set(j, v) => if j == i then v else before
      case Default(j) => if j == i && s.params[i].def != [] then s.params[i].def else before
      case Draw(_) => before
      case Lose(_) => s.params[i].def
  }

  /** The parameters as declared, with the values set last. */
  function WithLatest(s: Shader, events: seq<Event>): seq<Param> {
    seq(|s.params|, i requires 0 <= i < |s.params| => s.params[i].(cur := Latest(s, events, i)))
  }

  /** The current value of every parameter is the one set last, and nothing else about it changes but its flag. */
  lemma {:induction false} RunLatest(s: Shader, events: seq<Event>)
    ensures var r := Run(s, events).params;
            && |r| == |s.params|
            && forall i :: 0 <= i < |r| ==> r[i] == s.params[i].(cur := Latest(s, events, i), changed := r[i].changed)
  {
    if events != [] {
      var before := events[..|events| - 1];
      RunLatest(s, before);
      var r := Run(s, before);
      ClearedFlags(r.params);
      ResetFlags(r.params);
      hide Run, Encode;
      assert Run(s, events) == Next(r, events[|events| - 1]) by { RunStep(s, events); }
    }
  }

  lemma {:induction false} RunStep(s: Shader, events: seq<Event>)
    requires events != []
    ensures Run(s, events) == Next(Run(s, events[..|events| - 1]), events[|events| - 1])
  {
  }

  /** So every upload that returns normally leaves exactly the values set last on the GPU. */
  lemma {:induction false} UploadFresh(s: Shader, events: seq<Event>)
    requires Coherent(s) && forall e :: e in events ==> Plays(e, s.constantSize)
    ensures var (t, o) := Upload(Run(s, events), true);
            && (o == Uploaded ==> Encode(WithLatest(s, events), []) == Bytes(t.constants))
            && (o == NotAllSet <==> Encode(WithLatest(s, events), []) == NotSet)
  {
    RunCoherent(s, events);
    var r := Run(s, events);
    RunLatest(s, events);
    hide Run, Latest;
    UploadCoherent(r);
    ClearedFlags(r.params);
    EncodeUnflagged(r.params, Cleared(r.params), []);
    EncodeUnflagged(r.params, WithLatest(s, events), []);
  }

  predicate StandsAt(data: seq<Byte>, pos: nat, value: seq<Byte>) {
    pos + |value| <= |data| && data[pos..pos + |value|] == value
  }

  /** And where the shader reads it: with constants laid out by BuildConstantBuffer, each set last to a value of its
      own size, every upload succeeds, and each constant's bytes are the value set last. */
  lemma {:induction false} LatestInPlace(s: Shader, events: seq<Event>)
    requires Coherent(s) && forall e :: e in events ==> Plays(e, s.constantSize)
    requires Legal(s.params, 0) && s.constantSize == End(s.params, 0)
    requires forall i :: 0 <= i < |s.params| && s.params[i].typ != Texture ==>
               |Latest(s, events, i)| == Size(s.params[i])
    ensures var (t, o) := Upload(Run(s, events), true);
            && o == Uploaded && |t.constants| == s.constantSize
            && forall i :: 0 <= i < |s.params| && s.params[i].typ != Texture ==>
                 StandsAt(t.constants, s.params[i].pos, Latest(s, events, i))
  {
    WithLatestLaid(s, events);
    hide Latest, Run, Legal, End, Size, Sized, WithLatest;
    LatestPlaced(s, events, WithLatest(s, events));
    hide Upload, Coherent, At;
    AtStands(s, events, Upload(Run(s, events), true).0.constants);
  }

  lemma {:induction false} WithLatestLaid(s: Shader, events: seq<Event>)
    requires Legal(s.params, 0)
    requires forall i :: 0 <= i < |s.params| && s.params[i].typ != Texture ==>
               |Latest(s, events, i)| == Size(s.params[i])
    ensures var now := WithLatest(s, events); Sized(now) && Legal(now, 0) && End(now, 0) == End(s.params, 0)
  {
    SameLayout(s.params, WithLatest(s, events), 0);
    hide Latest, Legal, End;
  }

  lemma {:induction false} AtStands(s: Shader, events: seq<Event>, data: seq<Byte>)
    requires At(WithLatest(s, events), data)
    ensures forall i :: 0 <= i < |s.params| && s.params[i].typ != Texture ==>
              StandsAt(data, s.params[i].pos, Latest(s, events, i))
  {
    hide Latest;
    var now := WithLatest(s, events);
    forall i | 0 <= i < |s.params| && s.params[i].typ != Texture
      ensures StandsAt(data, s.params[i].pos, Latest(s, events, i))
    {
      assert now[i] in now;
    }
  }

  lemma {:induction false} LatestPlaced(s: Shader, events: seq<Event>, now: seq<Param>)
    requires Coherent(s) && forall e :: e in events ==> Plays(e, s.constantSize)
    requires now == WithLatest(s, events) && Sized(now) && Legal(now, 0) && s.constantSize == End(now, 0)
    ensures var (t, o) := Upload(Run(s, events), true);
            o == Uploaded && |t.constants| == s.constantSize && At(now, t.constants)
  {
    UploadFresh(s, events);
    RunCoherent(s, events);
    var r := Run(s, events);
    RunLatest(s, events);
    hide Run, Latest, Coherent, Legal, End, Sized;
    EncodePlaces(now, []);
    EncodeUnflagged(r.params, now, []);
    hide Encode, Cleared, At;
  }

  /** The layout does not depend on the values. */
  lemma {:induction false} SameLayout(a: seq<Param>, b: seq<Param>, end: nat)
    requires |a| == |b| && forall i :: 0 <= i < |a| ==> b[i] == a[i].(cur := b[i].cur)
    requires Legal(a, end)
    ensures Legal(b, end) && End(a, end) == End(b, end)
  {
    if a != [] {
      var x, y := a[1..], b[1..];
      forall i | 0 <= i < |x|
        ensures y[i] == x[i].(cur := y[i].cur)
      {
        assert b[i + 1] == a[i + 1].(cur := b[i + 1].cur);
      }
      assert b[0] == a[0].(cur := b[0].cur);
      SameLayout(x, y, if a[0].typ == Texture then end else a[0].pos + Size(a[0]));
    }
  }

  /** A failed Map loses the flags it was to clear only afterwards: the next upload, with nothing set in
      between, returns normally whatever the GPU holds, and leaves the current values there exactly when
      they were there before. */
  lemma {:induction false} FailedMapForgets(s: Shader)
    requires Upload(s, false).1 == MapFailed
    ensures var (t, o) := Upload(Upload(s, false).0, true);
            o == Uploaded &&
              (Encode(t.params, []) == Bytes(t.constants) <==> Encode(s.params, []) == Bytes(s.constants))
  {
    var t := Upload(s, false).0;
    ClearedFlags(s.params);
    EncodeUnflagged(s.params, t.params, []);
    ClearedFlags(t.params);
    EncodeUnflagged(t.params, Cleared(t.params), []);
  }
}
