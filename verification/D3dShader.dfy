/** The D3D11 shader object, method by method against the functions of ConstantBuffer
    (libobs-d3d11/d3d11-shader.cpp:137-207, 319-385, 445-516, libobs-d3d11/d3d11-rebuild.cpp:237-271). */
module D3dShader {
  import opened ConstantBuffer

  class GsShader {
    var params: seq<Param>
    var constantSize: nat
    var constants: seq<Byte>

    ghost function Value(): Shader
      reads this
    {
      Shader(params, constantSize, constants)
    }

    constructor (parsed: seq<Param>, garbage: seq<Byte>)
      requires forall p :: p in parsed ==> p.cur == [] && !p.changed
      requires |garbage| == Laid(parsed, 0).1
      ensures var (laid, last) := Laid(parsed, 0);
              Value() == Rebuild(Shader(laid, last, []), garbage)
    {
      params, constantSize, constants := parsed, 0, [];
      new;
      BuildConstantBuffer(garbage);
    }

    /** BuildConstantBuffer; garbage stands for what a new buffer holds. */
    method BuildConstantBuffer(garbage: seq<Byte>)
      requires constantSize == 0 && constants == [] && forall p :: p in params ==> p.cur == [] && !p.changed
      requires |garbage| == Laid(params, 0).1
      modifies this
      ensures var (laid, last) := Laid(old(params), 0);
              Value() == Rebuild(Shader(laid, last, []), garbage)
    {
      LaidLegal(params, 0);
      PlaceConstants();
      assert forall i :: 0 <= i < |params| ==> params[i] == old(params)[i].(pos := params[i].pos);
      hide Laid, Legal, End;
      if constantSize != 0 {
        constants := garbage;
      }
      ResetFlags(params);
      SetDefaults();
      assert params == Reset(Laid(old(params), 0).0);
    }

    method PlaceConstants()
      requires constantSize == 0
      modifies this`params, this`constantSize
      ensures (params, constantSize) == Laid(old(params), 0)
    {
      ghost var done, rest := [], params;
      var i := 0;
      assert [] + Laid(rest, 0).0 == Laid(rest, 0).0;
      hide Laid;
      while i < |params|
        invariant params == done + rest && i == |done|
        invariant Laid(rest, constantSize).1 == Laid(old(params), 0).1
        invariant done + Laid(rest, constantSize).0 == Laid(old(params), 0).0
        decreases |rest|
      {
        var param := params[i];
        LaidStep(rest, constantSize);
        if param.typ != Texture {
          var size := Size(param);
          if size != 0 && constantSize % 16 != 0 {
            var alignMax := RoundUp16(constantSize);
            if size + constantSize > alignMax {
              constantSize := alignMax;
            }
          }
          params := params[i := param.(pos := constantSize)];
          constantSize := constantSize + size;
        }
        Moved(done, rest, params[i], Laid(rest[1..], constantSize).0);
        done, rest := done + [params[i]], rest[1..];
        i := i + 1;
      }
      LaidStep(rest, constantSize);
      assert done + [] == done;
    }

    /** Element |done| of a list changes, and the next one comes up. */
    static lemma {:induction false} Moved(done: seq<Param>, rest: seq<Param>, x: Param, tail: seq<Param>)
      requires rest != []
      ensures (done + rest)[|done| := x] == (done + [x]) + rest[1..]
      ensures x == rest[0] ==> done + rest == (done + [x]) + rest[1..]
      ensures done + ([x] + tail) == (done + [x]) + tail
    {
    }

    static lemma {:induction false} LaidStep(rest: seq<Param>, end: nat)
      ensures rest == [] ==> Laid(rest, end) == ([], end)
      ensures rest != [] ==>
                if rest[0].typ == Texture then
                  && Laid(rest, end).0 == [rest[0]] + Laid(rest[1..], end).0
                  && Laid(rest, end).1 == Laid(rest[1..], end).1
                else
                  var at := Place(end, Size(rest[0]));
                  && Laid(rest, end).0 == [rest[0].(pos := at)] + Laid(rest[1..], at + Size(rest[0])).0
                  && Laid(rest, end).1 == Laid(rest[1..], at + Size(rest[0])).1
    {
      hide Place, Size;
    }

    /** The loop that ends BuildConstantBuffer and both Rebuild methods. */
    method SetDefaults()
      modifies this
      ensures constantSize == old(constantSize) && constants == old(constants)
      ensures |params| == |old(params)| && forall i :: 0 <= i < |params| ==>
              params[i] == ConstantBuffer.SetDefault(old(params)[i])
    {
      var i := 0;
      while i < |params|
        invariant 0 <= i <= |params| == |old(params)|
        invariant constantSize == old(constantSize) && constants == old(constants)
        invariant forall j :: 0 <= j < |params| ==>
                  params[j] == if j < i then ConstantBuffer.SetDefault(old(params)[j]) else old(params)[j]
      {
        SetDefault(i);
        i := i + 1;
      }
    }

    /** shader_setval_inline. */
    method SetValInline(i: nat, data: seq<Byte>)
      requires i < |params|
      modifies this
      ensures Value() == Next(old(Value()), Set(i, data))
      ensures params == old(params)[i := old(params)[i].(cur := data, changed := params[i].changed)]
      ensures params[i].changed == (old(params)[i].changed || data != old(params)[i].cur)
    {
      var sizeChanged := |params[i].cur| != |data|;
      if sizeChanged || params[i].cur != data {
        params := params[i := params[i].(cur := data, changed := true)];
      } else {
        assert params[i := params[i]] == params;
      }
    }

    /** gs_shader_set_default. */
    method SetDefault(i: nat)
      requires i < |params|
      modifies this
      ensures Value() == Next(old(Value()), Default(i))
      ensures var p := old(params)[i];
              && |params| == |old(params)| && params[i].cur == (if p.def == [] then p.cur else p.def)
              && params == old(params)[i := p.(cur := params[i].cur, changed := params[i].changed)]
    {
      if |params[i].def| != 0 {
        SetValInline(i, params[i].def);
      } else {
        assert params[i := params[i]] == params;
      }
    }

    /** UpdateParam; thrown stands for the exception. */
    method UpdateParam(constData: seq<Byte>, i: nat, upload: bool)
      returns (constData': seq<Byte>, upload': bool, thrown: bool)
      requires i < |params|
      modifies this`params
      ensures var p := old(params)[i];
              if p.typ == Texture then !thrown && params == old(params) && constData' == constData && upload' == upload
              else if p.cur == [] then thrown && params == old(params)
              else !thrown && params == old(params)[i := p.(changed := false)]
                   && constData' == Append(constData, p) && upload' == (upload || p.changed)
    {
      constData', upload', thrown := constData, upload, false;
      var param := params[i];
      if param.typ != Texture {
        if |param.cur| == 0 {
          thrown := true;
          return;
        }
        if param.pos > |constData'| {
          constData' := constData' + Zeros(param.pos - |constData'|);
        }
        constData' := constData' + param.cur;
        if param.changed {
          upload' := true;
          params := params[i := param.(changed := false)];
        } else {
          assert params[i := param.(changed := false)] == params;
        }
      }
    }

    /** UploadParams; outcome stands for the exceptions. */
    method UploadParams(mapped: bool) returns (outcome: Outcome)
      modifies this`params, this`constants
      ensures (Value(), outcome) == Upload(old(Value()), mapped)
    {
      ghost var was, done, seen, rest: seq<Param> := params, [], [], params;
      var constData, upload, thrown := [], false, false;
      var i := 0;
      assert [] + Cleared(rest) == Cleared(rest);
      hide Full;
      while i < |params|
        invariant params == done + rest && was == seen + rest && i == |done| && constants == old(constants)
        invariant done + Cleared(rest) == Cleared(was)
        invariant Encode(rest, constData) == Encode(was, [])
        invariant upload <==> Dirty(seen)
        decreases |rest|
      {
        ghost var p := rest[0];
        ClearedStep(rest, constData);
        hide Cleared, Encode, Append, Dirty;
        constData, upload, thrown := UpdateParam(constData, i, upload);
        if thrown {
          return NotAllSet;
        }
        DirtySnoc(seen, p);
        Moved(done, rest, params[i], Cleared(rest[1..]));
        assert seen + rest == (seen + [p]) + rest[1..];
        done, seen, rest := done + [params[i]], seen + [p], rest[1..];
        i := i + 1;
      }
      ClearedStep(rest, constData);
      assert done + [] == done && seen + [] == seen;
      UploadBy(old(Value()), constData);
      hide Upload, Encode, Cleared, Dirty;
      if |constData| != constantSize {
        return InvalidSize;
      }
      if upload {
        if !mapped {
          return MapFailed;
        }
        constants := constData;
      }
      return Uploaded;
    }

    static lemma {:induction false} ClearedStep(rest: seq<Param>, data: seq<Byte>)
      ensures rest == [] ==> Cleared(rest) == [] && Encode(rest, data) == Bytes(data)
      ensures rest != [] ==>
                if rest[0].typ == Texture then
                  Cleared(rest) == [rest[0]] + Cleared(rest[1..]) && Encode(rest, data) == Encode(rest[1..], data)
                else if rest[0].cur == [] then Cleared(rest) == rest && Encode(rest, data) == NotSet
                else
                  && Cleared(rest) == [rest[0].(changed := false)] + Cleared(rest[1..])
                  && Encode(rest, data) == Encode(rest[1..], Append(data, rest[0]))
    {
      hide Append;
    }

    static lemma {:induction false} UploadBy(s: Shader, data: seq<Byte>)
      requires Encode(s.params, []) == Bytes(data)
      ensures forall mapped :: Upload(s, mapped) ==
                var after := s.(params := Cleared(s.params));
                if |data| != s.constantSize then (after, InvalidSize)
                else if !Dirty(s.params) then (after, Uploaded)
                else if !mapped then (after, MapFailed)
                else (after.(constants := data), Uploaded)
    {
      hide Encode, Cleared, Dirty;
    }

    static lemma {:induction false} DirtySnoc(params: seq<Param>, p: Param)
      ensures Dirty(params + [p]) <==> Dirty(params) || (p.typ != Texture && p.changed)
    {
      var all := params + [p];
      assert all[|params|] == p;
      if Dirty(params) {
        var i :| 0 <= i < |params| && params[i].typ != Texture && params[i].changed;
        assert all[i] == params[i];
      }
    }

    /** The part of gs_vertex_shader::Rebuild and gs_pixel_shader::Rebuild about constants. */
    method RebuildConstants(garbage: seq<Byte>)
      requires |garbage| == constantSize == |constants|
      modifies this
      ensures Value() == Next(old(Value()), Lose(garbage))
    {
      if constantSize != 0 {
        constants := garbage;
      }
      var i := 0;
      while i < |params|
        invariant 0 <= i <= |params| == |old(params)|
        invariant constantSize == old(constantSize) && constants == garbage
        invariant forall j :: 0 <= j < |params| ==>
                    params[j] == if j < i then ConstantBuffer.SetDefault(old(params)[j].(cur := [])) else old(params)[j]
      {
        params := params[i := params[i].(cur := [])];
        SetDefault(i);
        i := i + 1;
      }
      ResetFlags(old(params));
      assert params == Reset(old(params));
    }
  }
}
