/** The requested blend, rasterizer and depth-stencil states, their setters, and the descriptions they are
    converted to (libobs-d3d11/d3d11-subsystem.cpp:692-790, 2429-2593, 2617-2632,
    libobs-d3d11/d3d11-subsystem.hpp:212-316). */
module PipelineStates {
  import opened StateCache
  import opened Options

  // ---- the enumerations of the graphics library, and Direct3D's ----

  datatype CullMode = Back | Front | Neither
  datatype DepthTest = Never | Less | LessEqual | Equal | GreaterEqual | Greater | NotEqual | Always
  datatype StencilOp = Keep | Zero | Replace | Increment | Decrement | Invert
  datatype BlendOp = Add | Subtract | ReverseSubtract | Min | Max
  datatype BlendType =
    | ZeroFactor | OneFactor | SrcColor | InvSrcColor | SrcAlpha | InvSrcAlpha
    | DstColor | InvDstColor | DstAlpha | InvDstAlpha | SrcAlphaSat

  datatype D3dCull = CullBack | CullFront | CullNone
  datatype D3dComparison =
    | CompareNever | CompareLess | CompareEqual | CompareLessEqual | CompareGreater | CompareNotEqual
    | CompareGreaterEqual | CompareAlways
  datatype D3dStencilOp = OpKeep | OpZero | OpReplace | OpIncr | OpDecr | OpInvert
  datatype D3dBlendOp = OpAdd | OpSubtract | OpRevSubtract | OpMin | OpMax
  datatype D3dBlend =
    | BlendZero | BlendOne | BlendSrcColor | BlendInvSrcColor | BlendSrcAlpha | BlendInvSrcAlpha
    | BlendDestAlpha | BlendInvDestAlpha | BlendDestColor | BlendInvDestColor | BlendSrcAlphaSat

  function ConvertCullMode(mode: CullMode): D3dCull {
    match mode
    case Back => CullBack
    case Front => CullFront
    case Neither => CullNone
  }

  function ConvertDepthTest(test: DepthTest): D3dComparison {
    match test
    case Never => CompareNever
    case Less => CompareLess
    case LessEqual => CompareLessEqual
    case Equal => CompareEqual
    case GreaterEqual => CompareGreaterEqual
    case Greater => CompareGreater
    case NotEqual => CompareNotEqual
    case Always => CompareAlways
  }

  function ConvertStencilOp(op: StencilOp): D3dStencilOp {
    match op
    case Keep => OpKeep
    case Zero => OpZero
    case Replace => OpReplace
    case Increment => OpIncr
    case Decrement => OpDecr
    case Invert => OpInvert
  }

  function ConvertBlendOp(op: BlendOp): D3dBlendOp {
    match op
    case Add => OpAdd
    case Subtract => OpSubtract
    case ReverseSubtract => OpRevSubtract
    case Min => OpMin
    case Max => OpMax
  }

  function ConvertBlendType(t: BlendType): D3dBlend {
    match t
    case ZeroFactor => BlendZero
    case OneFactor => BlendOne
    case SrcColor => BlendSrcColor
    case InvSrcColor => BlendInvSrcColor
    case SrcAlpha => BlendSrcAlpha
    case InvSrcAlpha => BlendInvSrcAlpha
    case DstColor => BlendDestColor
    case InvDstColor => BlendInvDestColor
    case DstAlpha => BlendDestAlpha
    case InvDstAlpha => BlendInvDestAlpha
    case SrcAlphaSat => BlendSrcAlphaSat
  }

  // ---- requested states ----

  datatype RasterState = RasterState(cullMode: CullMode, scissorEnabled: bool)

  datatype BlendState = BlendState(
    enabled: bool, srcC: BlendType, destC: BlendType, srcA: BlendType, destA: BlendType, op: BlendOp,
    red: bool, green: bool, blue: bool, alpha: bool)

  datatype StencilSide = StencilSide(test: DepthTest, fail: StencilOp, zfail: StencilOp, zpass: StencilOp)

  datatype ZStencilState = ZStencilState(
    depthEnabled: bool, depthWriteEnabled: bool, depthFunc: DepthTest,
    stencilEnabled: bool, stencilWriteEnabled: bool, front: StencilSide, back: StencilSide)

  // ---- the descriptions handed to the device ----

  datatype RasterDesc = RasterDesc(frontCounterClockwise: bool, cullMode: D3dCull, depthClipEnable: bool,
                                   scissorEnable: bool)

  datatype BlendTarget = BlendTarget(
    enable: bool, op: D3dBlendOp, opAlpha: D3dBlendOp, src: D3dBlend, dest: D3dBlend, srcAlpha: D3dBlend,
    destAlpha: D3dBlend, writeMask: nat)

  datatype StencilFace = StencilFace(func: D3dComparison, fail: D3dStencilOp, depthFail: D3dStencilOp,
                                     pass: D3dStencilOp)

  datatype ZStencilDesc = ZStencilDesc(
    depthEnable: bool, depthFunc: D3dComparison, depthWriteAll: bool, stencilEnable: bool,
    readMask: nat, writeMask: nat, front: StencilFace, back: StencilFace)

  const STENCIL_MASK := 0xff
  const RENDER_TARGETS := 8

  function RasterOf(s: RasterState): RasterDesc {
    RasterDesc(true, ConvertCullMode(s.cullMode), true, s.scissorEnabled)
  }

  function WriteMask(s: BlendState): nat {
    (if s.red then 1 else 0) + (if s.green then 2 else 0) + (if s.blue then 4 else 0) + (if s.alpha then 8 else 0)
  }

  function BlendOf(s: BlendState): seq<BlendTarget> {
    seq(RENDER_TARGETS, i =>
      BlendTarget(s.enabled, ConvertBlendOp(s.op), ConvertBlendOp(s.op), ConvertBlendType(s.srcC),
                  ConvertBlendType(s.destC), ConvertBlendType(s.srcA), ConvertBlendType(s.destA), WriteMask(s)))
  }

  function FaceOf(s: StencilSide): StencilFace {
    StencilFace(ConvertDepthTest(s.test), ConvertStencilOp(s.fail), ConvertStencilOp(s.zfail),
                ConvertStencilOp(s.zpass))
  }

  function ZStencilOf(s: ZStencilState): ZStencilDesc {
    ZStencilDesc(s.depthEnabled, ConvertDepthTest(s.depthFunc), s.depthWriteEnabled, s.stencilEnabled,
                 STENCIL_MASK, if s.stencilWriteEnabled then STENCIL_MASK else 0, FaceOf(s.front), FaceOf(s.back))
  }

  /** The tables map different values to different ones. */
  lemma {:induction false} TablesInjective()
    ensures forall x, y :: ConvertCullMode(x) == ConvertCullMode(y) ==> x == y
    ensures forall x, y :: ConvertDepthTest(x) == ConvertDepthTest(y) ==> x == y
    ensures forall x, y :: ConvertStencilOp(x) == ConvertStencilOp(y) ==> x == y
    ensures forall x, y :: ConvertBlendOp(x) == ConvertBlendOp(y) ==> x == y
    ensures forall x, y :: ConvertBlendType(x) == ConvertBlendType(y) ==> x == y
  {
  }

  /** Different requests never share a description, so reading the description of the bound object tells
      exactly what was requested. */
  lemma {:induction false} DescriptionsDetermine(r: RasterState, r': RasterState, b: BlendState, b': BlendState,
                                                 z: ZStencilState, z': ZStencilState)
    ensures RasterOf(r) == RasterOf(r') <==> r == r'
    ensures BlendOf(b) == BlendOf(b') <==> b == b'
    ensures ZStencilOf(z) == ZStencilOf(z') <==> z == z'
  {
    TablesInjective();
    hide ConvertCullMode, ConvertDepthTest, ConvertStencilOp, ConvertBlendOp, ConvertBlendType;
    if BlendOf(b) == BlendOf(b') {
      assert BlendOf(b)[0] == BlendOf(b')[0];
      assert WriteMask(b) == WriteMask(b');
    }
  }

  class States {
    const raster: Cache<RasterState>
    const blend: Cache<BlendState>
    const zstencil: Cache<ZStencilState>

    constructor (r: RasterState, b: BlendState, z: ZStencilState)
      ensures raster.Value() == Start(r) && blend.Value() == Start(b) && zstencil.Value() == Start(z)
      ensures fresh(raster) && fresh(blend) && fresh(zstencil)
    {
      raster := new Cache(r);
      blend := new Cache(b);
      zstencil := new Cache(z);
    }

    method SetCullMode(mode: CullMode)
      modifies raster
      ensures raster.Value() == Requested(old(raster.Value()), old(raster.requested).(cullMode := mode), false)
      ensures raster.requested == old(raster.requested).(cullMode := mode)
      ensures raster.changed == (old(raster.changed) || mode != old(raster.requested).cullMode)
    {
      if mode == raster.requested.cullMode {
        return;
      }
      raster.Set(raster.requested.(cullMode := mode), false);
    }

    /** The only setter without a comparison. */
    method SetScissorRect(given: bool)
      modifies raster
      ensures raster.Value() == Requested(old(raster.Value()), old(raster.requested).(scissorEnabled := given), true)
      ensures raster.requested == old(raster.requested).(scissorEnabled := given) && raster.changed
    {
      raster.Set(raster.requested.(scissorEnabled := given), true);
    }

    method EnableBlending(enable: bool)
      modifies blend
      ensures blend.Value() == Requested(old(blend.Value()), old(blend.requested).(enabled := enable), false)
      ensures blend.requested == old(blend.requested).(enabled := enable)
      ensures blend.changed == (old(blend.changed) || enable != old(blend.requested).enabled)
    {
      if enable == blend.requested.enabled {
        return;
      }
      blend.Set(blend.requested.(enabled := enable), false);
    }

    method EnableColor(red: bool, green: bool, blue: bool, alpha: bool)
      modifies blend
      ensures blend.Value() == Requested(old(blend.Value()),
                                         old(blend.requested).(red := red, green := green, blue := blue,
                                                               alpha := alpha), false)
      ensures blend.requested == old(blend.requested).(red := red, green := green, blue := blue, alpha := alpha)
      ensures blend.changed == (old(blend.changed) || blend.requested != old(blend.requested))
    {
      var b := blend.requested;
      if b.red == red && b.green == green && b.blue == blue && b.alpha == alpha {
        return;
      }
      blend.Set(b.(red := red, green := green, blue := blue, alpha := alpha), false);
    }

    method BlendFunctionSeparate(srcC: BlendType, destC: BlendType, srcA: BlendType, destA: BlendType)
      modifies blend
      ensures blend.Value() == Requested(old(blend.Value()),
                                         old(blend.requested).(srcC := srcC, destC := destC, srcA := srcA,
                                                               destA := destA), false)
      ensures blend.requested ==
              old(blend.requested).(srcC := srcC, destC := destC, srcA := srcA, destA := destA)
      ensures blend.changed == (old(blend.changed) || blend.requested != old(blend.requested))
    {
      var b := blend.requested;
      if b.srcC == srcC && b.destC == destC && b.srcA == srcA && b.destA == destA {
        assert b == b.(srcC := srcC, destC := destC, srcA := srcA, destA := destA);
        return;
      }
      blend.Set(b.(srcC := srcC, destC := destC, srcA := srcA, destA := destA), false);
    }

    method SetBlendOp(op: BlendOp)
      modifies blend
      ensures blend.Value() == Requested(old(blend.Value()), old(blend.requested).(op := op), false)
      ensures blend.requested == old(blend.requested).(op := op)
      ensures blend.changed == (old(blend.changed) || op != old(blend.requested).op)
    {
      if blend.requested.op == op {
        return;
      }
      blend.Set(blend.requested.(op := op), false);
    }

    method DepthFunction(test: DepthTest)
      modifies zstencil
      ensures zstencil.Value() == Requested(old(zstencil.Value()), old(zstencil.requested).(depthFunc := test), false)
      ensures zstencil.requested == old(zstencil.requested).(depthFunc := test)
      ensures zstencil.changed == (old(zstencil.changed) || test != old(zstencil.requested).depthFunc)
    {
      if zstencil.requested.depthFunc == test {
        return;
      }
      zstencil.Set(zstencil.requested.(depthFunc := test), false);
    }

    /** One side at a time: compared, and stored when it differs. */
    method SetSide(front: bool, side: StencilSide)
      modifies zstencil
      ensures zstencil.Value() ==
              Requested(old(zstencil.Value()), WithSide(old(zstencil.requested), front, side), false)
      ensures zstencil.requested ==
              if front then old(zstencil.requested).(front := side) else old(zstencil.requested).(back := side)
      ensures zstencil.changed == (old(zstencil.changed) || zstencil.requested != old(zstencil.requested))
    {
      if (if front then zstencil.requested.front else zstencil.requested.back) == side {
        return;
      }
      zstencil.Set(WithSide(zstencil.requested, front, side), false);
    }

    static function WithSide(z: ZStencilState, front: bool, side: StencilSide): ZStencilState {
      if front then z.(front := side) else z.(back := side)
    }

    /** device_stencil_function. */
    method StencilFunction(front: bool, back: bool, test: DepthTest)
      modifies zstencil
      ensures var z := old(zstencil.requested);
              zstencil.Value() == Requested(old(zstencil.Value()),
                z.(front := if front then z.front.(test := test) else z.front,
                   back := if back then z.back.(test := test) else z.back), false)
      ensures var z := old(zstencil.requested);
              zstencil.requested ==
              z.(front := if front then StencilSide(test, z.front.fail, z.front.zfail, z.front.zpass) else z.front,
                 back := if back then StencilSide(test, z.back.fail, z.back.zfail, z.back.zpass) else z.back)
      ensures zstencil.changed == (old(zstencil.changed) || zstencil.requested != old(zstencil.requested))
    {
      if front {
        SetSide(true, zstencil.requested.front.(test := test));
      }
      if back {
        SetSide(false, zstencil.requested.back.(test := test));
      }
    }

    method StencilOps(front: bool, back: bool, fail: StencilOp, zfail: StencilOp, zpass: StencilOp)
      modifies zstencil
      ensures var z := old(zstencil.requested);
              zstencil.Value() == Requested(old(zstencil.Value()),
                z.(front := if front then z.front.(fail := fail, zfail := zfail, zpass := zpass) else z.front,
                   back := if back then z.back.(fail := fail, zfail := zfail, zpass := zpass) else z.back), false)
      ensures var z := old(zstencil.requested);
              zstencil.requested ==
              z.(front := if front then StencilSide(z.front.test, fail, zfail, zpass) else z.front,
                 back := if back then StencilSide(z.back.test, fail, zfail, zpass) else z.back)
      ensures zstencil.changed == (old(zstencil.changed) || zstencil.requested != old(zstencil.requested))
    {
      if front {
        SetSide(true, zstencil.requested.front.(fail := fail, zfail := zfail, zpass := zpass));
      }
      if back {
        SetSide(false, zstencil.requested.back.(fail := fail, zfail := zfail, zpass := zpass));
      }
    }
  }
}
