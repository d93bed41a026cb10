/** The Metal shader object and the loop that lays out its uniforms, against MetalUniforms
    (libobs-metal/OBSShader.swift:192-233, libobs-metal/MetalShader.swift:58-70, 104-111, 166-205, 236-239). */
module MetalShader {
  import opened ConstantBuffer
  import opened MetalUniforms
  import opened Options

  /** The loop of buildMetadata over the uniforms in their order. */
  method BuildUniforms(types: seq<ParamType>, defaults: seq<seq<Byte>>) returns (uniforms: seq<Uniform>,
                                                                                 bufferSize: nat)
    requires |types| == |defaults|
    ensures uniforms == Built(types, defaults).uniforms && bufferSize == EndOf(types, 0)
  {
    uniforms, bufferSize := [], 0;
    var i := 0;
    ghost var offs := Offsets(types, 0);
    assert types[0..] == types;
    while i < |types|
      invariant 0 <= i <= |types| && |uniforms| == i
      invariant EndOf(types[i..], bufferSize) == EndOf(types, 0) && Offsets(types[i..], bufferSize) == offs[i..]
      invariant forall k :: 0 <= k < i ==> uniforms[k] == Uniform(types[k], offs[k], Some(defaults[k]), false)
    {
      var t := types[i];
      assert types[i..][1..] == types[i + 1..];
      var byteSize, bufferOffset := 0, bufferSize;
      if t != Texture {
        byteSize := MtlSize(t);
        bufferOffset := RoundUp(bufferSize, MtlAlignment(t));
      }
      assert offs[i..][0] == offs[i] && offs[i..][1..] == offs[i + 1..];
      uniforms := uniforms + [Uniform(t, bufferOffset, Some(defaults[i]), false)];
      bufferSize := bufferOffset + byteSize;
      i := i + 1;
    }
  }

  class Shader {
    var uniforms: seq<Uniform>
    var uniformData: seq<Byte>

    ghost function Value(): State
      reads this
    {
      State(uniforms, uniformData)
    }

    constructor (types: seq<ParamType>, defaults: seq<seq<Byte>>)
      requires |types| == |defaults|
      ensures Value() == Built(types, defaults)
    {
      var us, bufferSize := BuildUniforms(types, defaults);
      uniforms := us;
      uniformData := Zeros(RoundUp16(bufferSize));
    }

    /** ShaderUniform.setParameter of uniform i. */
    method SetParameter(i: nat, data: seq<Byte>)
      requires i < |uniforms|
      modifies this`uniforms
      ensures Value() == MetalUniforms.Next(old(Value()), Put(i, data))
    {
      uniforms := uniforms[i := uniforms[i].(current := Some(data), hasUpdates := true)];
    }

    /** updateUniform; replacing a range that is not there would trap. */
    method UpdateUniform(i: nat)
      requires i < |uniforms|
      requires Writes(uniforms[i]) ==> uniforms[i].offset + |uniforms[i].current.value| <= |uniformData|
      modifies this
      ensures uniforms == old(uniforms)[i := Settled(old(uniforms)[i])]
      ensures uniformData == if Writes(old(uniforms)[i])
                             then Replaced(old(uniformData), old(uniforms)[i].offset, old(uniforms)[i].current.value)
                             else old(uniformData)
    {
      var u := uniforms[i];
      if u.current.None? {
        assert uniforms[i := u] == uniforms;
        return;
      }
      if u.typ != Texture {
        if u.hasUpdates {
          var value := u.current.value;
          uniformData := uniformData[..u.offset] + value + uniformData[u.offset + |value|..];
        }
      }
      uniforms := uniforms[i := u.(hasUpdates := false)];
    }

    /** uploadShaderParameters. */
    method UploadShaderParameters()
      requires MetalUniforms.Fits(uniforms, |uniformData|)
      modifies this
      ensures Value() == MetalUniforms.Next(old(Value()), Frame)
    {
      ghost var done, rest := [], uniforms;
      var i := 0;
      assert [] + AllSettled(rest) == AllSettled(rest);
      HaveRoom(rest, |uniformData|);
      hide AllSettled, Settled, Written, MetalUniforms.Fits, Room;
      while i < |uniforms|
        invariant uniforms == done + rest && |done| == i && |uniformData| == |old(uniformData)| &&
                  Room(rest, |uniformData|)
        invariant done + AllSettled(rest) == AllSettled(old(uniforms))
        invariant Written(rest, uniformData) == Written(old(uniforms), old(uniformData))
        decreases |rest|
      {
        ghost var u := rest[0];
        TurnOf(done, rest, uniformData);
        UpdateUniform(i);
        done, rest := done + [Settled(u)], rest[1..];
        i := i + 1;
      }
      NoneLeft(uniformData);
      assert done + [] == done;
    }

    /** Every value waiting to be written has room. */
    static predicate Room(us: seq<Uniform>, size: nat) {
      forall i :: 0 <= i < |us| && Writes(us[i]) ==> us[i].offset + |us[i].current.value| <= size
    }

    static lemma {:induction false} HaveRoom(us: seq<Uniform>, size: nat)
      requires MetalUniforms.Fits(us, size)
      ensures Room(us, size)
    {
    }

    static lemma {:induction false} NoneLeft(data: seq<Byte>)
      ensures AllSettled([]) == [] && Written([], data) == data
    {
    }

    static lemma {:induction false} TurnOf(done: seq<Uniform>, rest: seq<Uniform>, data: seq<Byte>)
      requires rest != []
      ensures (done + rest)[|done|] == rest[0]
      ensures (done + rest)[|done| := Settled(rest[0])] == (done + [Settled(rest[0])]) + rest[1..]
      ensures done + AllSettled(rest) == (done + [Settled(rest[0])]) + AllSettled(rest[1..])
      ensures Written(rest, data) ==
              Written(rest[1..],
                      if Writes(rest[0]) then Replaced(data, rest[0].offset, rest[0].current.value) else data)
      ensures Room(rest, |data|) ==>
              Room(rest[1..], |data|) && (Writes(rest[0]) ==> rest[0].offset + |rest[0].current.value| <= |data|)
    {
      assert forall i :: 0 <= i < |rest[1..]| ==> rest[1..][i] == rest[i + 1];
      hide Replaced, Writes;
      assert AllSettled(rest) == [Settled(rest[0])] + AllSettled(rest[1..]);
      hide AllSettled, Settled;
      MovedOn(done, rest, Settled(rest[0]), AllSettled(rest[1..]));
    }

    static lemma {:induction false} MovedOn(done: seq<Uniform>, rest: seq<Uniform>, x: Uniform, tail: seq<Uniform>)
      requires rest != []
      ensures (done + rest)[|done|] == rest[0] && (done + rest)[|done| := x] == (done + [x]) + rest[1..]
      ensures done + ([x] + tail) == (done + [x]) + tail
    {
    }
  }
}
