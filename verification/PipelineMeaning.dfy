/** What the requested pipeline states are for: a pixel blended, a triangle culled and a fragment tested by the
    descriptions handed to Direct3D 11 come out as the library's own terms say
    (libobs-d3d11/d3d11-subsystem.cpp:692-790, libobs-d3d11/d3d11-subsystem.hpp:212-316). */
module PipelineMeaning {
  import opened PipelineStates

  // ---- comparisons and stencil operations ----

  /** A new value against the one in the buffer. */
  function Passes(test: DepthTest, x: real, there: real): bool {
    match test
    case Never => false
    case Less => x < there
    case LessEqual => x <= there
    case Equal => x == there
    case GreaterEqual => x >= there
    case Greater => x > there
    case NotEqual => x != there
    case Always => true
  }

  function D3dPasses(c: D3dComparison, x: real, there: real): bool {
    match c
    case CompareNever => false
    case CompareLess => x < there
    case CompareEqual => x == there
    case CompareLessEqual => x <= there
    case CompareGreater => x > there
    case CompareNotEqual => x != there
    case CompareGreaterEqual => x >= there
    case CompareAlways => true
  }

  function Operated(op: StencilOp, v: bv8, ref: bv8): bv8 {
    match op
    case Keep => v
    case Zero => 0
    case Replace => ref
    case Increment => v + 1
    case Decrement => v - 1
    case Invert => !v
  }

  function D3dOperated(op: D3dStencilOp, v: bv8, ref: bv8): bv8 {
    match op
    case OpKeep => v
    case OpZero => 0
    case OpReplace => ref
    case OpIncr => v + 1
    case OpDecr => v - 1
    case OpInvert => !v
  }

  // ---- blending ----

  datatype Channel = Red | Green | Blue | Alpha

  datatype Pixel = Pixel(r: real, g: real, b: real, a: real)

  function Of(p: Pixel, c: Channel): real {
    match c
    case Red => p.r
    case Green => p.g
    case Blue => p.b
    case Alpha => p.a
  }

  function Lesser(x: real, y: real): real {
    if x < y then x else y
  }

  function Greatest(x: real, y: real): real {
    if x < y then y else x
  }

  /** What a channel is multiplied with, from the pixel drawn and the one that is there. */
  function Factor(t: BlendType, s: Pixel, d: Pixel, c: Channel): real {
    match t
    case ZeroFactor => 0.0
    case OneFactor => 1.0
    case SrcColor => Of(s, c)
    case InvSrcColor => 1.0 - Of(s, c)
    case SrcAlpha => s.a
    case InvSrcAlpha => 1.0 - s.a
    case DstColor => Of(d, c)
    case InvDstColor => 1.0 - Of(d, c)
    case DstAlpha => d.a
    case InvDstAlpha => 1.0 - d.a
    case SrcAlphaSat => if c.Alpha? then 1.0 else Lesser(s.a, 1.0 - d.a)
  }

  function D3dFactor(t: D3dBlend, s: Pixel, d: Pixel, c: Channel): real {
    match t
    case BlendZero => 0.0
    case BlendOne => 1.0
    case BlendSrcColor => Of(s, c)
    case BlendInvSrcColor => 1.0 - Of(s, c)
    case BlendSrcAlpha => s.a
    case BlendInvSrcAlpha => 1.0 - s.a
    case BlendDestAlpha => d.a
    case BlendInvDestAlpha => 1.0 - d.a
    case BlendDestColor => Of(d, c)
    case BlendInvDestColor => 1.0 - Of(d, c)
    case BlendSrcAlphaSat => if c.Alpha? then 1.0 else Lesser(s.a, 1.0 - d.a)
  }

  /** Two values with their factors; the extremes take no factors. */
  function Combined(op: BlendOp, s: real, sf: real, d: real, df: real): real {
    match op
    case Add => s * sf + d * df
    case Subtract => s * sf - d * df
    case ReverseSubtract => d * df - s * sf
    case Min => Lesser(s, d)
    case Max => Greatest(s, d)
  }

  function D3dCombined(op: D3dBlendOp, s: real, sf: real, d: real, df: real): real {
    match op
    case OpAdd => s * sf + d * df
    case OpSubtract => s * sf - d * df
    case OpRevSubtract => d * df - s * sf
    case OpMin => Lesser(s, d)
    case OpMax => Greatest(s, d)
  }

  predicate Enabled(b: BlendState, c: Channel) {
    match c
    case Red => b.red
    case Green => b.green
    case Blue => b.blue
    case Alpha => b.alpha
  }

  /** A channel of the pixel that is there after s is drawn over d. */
  function Blended(b: BlendState, s: Pixel, d: Pixel, c: Channel): real {
    if !Enabled(b, c) then Of(d, c)
    else if !b.enabled then Of(s, c)
    else if c.Alpha? then Combined(b.op, s.a, Factor(b.srcA, s, d, c), d.a, Factor(b.destA, s, d, c))
    else Combined(b.op, Of(s, c), Factor(b.srcC, s, d, c), Of(d, c), Factor(b.destC, s, d, c))
  }

  /** The bit of a channel in a write mask. */
  function BitOf(c: Channel): nat {
    match c
    case Red => 1
    case Green => 2
    case Blue => 4
    case Alpha => 8
  }

  function D3dBlended(t: BlendTarget, s: Pixel, d: Pixel, c: Channel): real {
    if t.writeMask / BitOf(c) % 2 == 0 then Of(d, c)
    else if !t.enable then Of(s, c)
    else if c.Alpha? then
      D3dCombined(t.opAlpha, s.a, D3dFactor(t.srcAlpha, s, d, c), d.a, D3dFactor(t.destAlpha, s, d, c))
    else D3dCombined(t.op, Of(s, c), D3dFactor(t.src, s, d, c), Of(d, c), D3dFactor(t.dest, s, d, c))
  }

  lemma {:induction false} MaskBits(b: BlendState, c: Channel)
    ensures WriteMask(b) / BitOf(c) % 2 == if Enabled(b, c) then 1 else 0
  {
  }

  lemma {:induction false} FactorsMean(t: BlendType, s: Pixel, d: Pixel, c: Channel)
    ensures D3dFactor(ConvertBlendType(t), s, d, c) == Factor(t, s, d, c)
  {
  }

  lemma {:induction false} OperatorMeans(op: BlendOp, s: real, sf: real, d: real, df: real)
    ensures D3dCombined(ConvertBlendOp(op), s, sf, d, df) == Combined(op, s, sf, d, df)
  {
  }

  /** Every channel of every target is blended as requested. */
  lemma {:induction false} BlendMeans(b: BlendState, i: nat, s: Pixel, d: Pixel, c: Channel)
    requires i < RENDER_TARGETS
    ensures |BlendOf(b)| == RENDER_TARGETS && D3dBlended(BlendOf(b)[i], s, d, c) == Blended(b, s, d, c)
  {
    MaskBits(b, c);
    FactorsMean(b.srcC, s, d, c);
    FactorsMean(b.destC, s, d, c);
    FactorsMean(b.srcA, s, d, c);
    FactorsMean(b.destA, s, d, c);
    hide WriteMask, ConvertBlendType, ConvertBlendOp, D3dFactor, Factor, Combined, D3dCombined;
    if c.Alpha? {
      OperatorMeans(b.op, s.a, Factor(b.srcA, s, d, c), d.a, Factor(b.destA, s, d, c));
    } else {
      OperatorMeans(b.op, Of(s, c), Factor(b.srcC, s, d, c), Of(d, c), Factor(b.destC, s, d, c));
    }
  }

  // ---- culling ----

  /** Front faces are the counter-clockwise ones; outside the scissor rectangle nothing is drawn while there is
      one. */
  predicate Drawn(r: RasterState, counterClockwise: bool, inScissor: bool) {
    && (r.scissorEnabled ==> inScissor)
    && match r.cullMode
       case Back => counterClockwise
       case Front => !counterClockwise
       case Neither => true
  }

  predicate D3dDrawn(d: RasterDesc, counterClockwise: bool, inScissor: bool) {
    && (d.scissorEnable ==> inScissor)
    && var front := counterClockwise == d.frontCounterClockwise;
       match d.cullMode
       case CullBack => front
       case CullFront => !front
       case CullNone => true
  }

  lemma {:induction false} CullingMeans(r: RasterState, counterClockwise: bool, inScissor: bool)
    ensures D3dDrawn(RasterOf(r), counterClockwise, inScissor) == Drawn(r, counterClockwise, inScissor)
  {
  }

  // ---- depth and stencil ----

  /** A place in the depth and stencil buffers. */
  datatype Cell = Cell(depth: real, stencil: bv8)

  /** Whether a fragment is drawn, and what it leaves there: the stencil test, then the depth test. */
  function Tested(z: ZStencilState, front: bool, depth: real, ref: bv8, at: Cell): (bool, Cell) {
    var side := if front then z.front else z.back;
    var stencil := z.stencilEnabled ==> Passes(side.test, ref as int as real, at.stencil as int as real);
    var deep := z.depthEnabled ==> Passes(z.depthFunc, depth, at.depth);
    var op := if !stencil then side.fail else if !deep then side.zfail else side.zpass;
    (stencil && deep,
     Cell(if stencil && deep && z.depthEnabled && z.depthWriteEnabled then depth else at.depth,
          if z.stencilEnabled && z.stencilWriteEnabled then Operated(op, at.stencil, ref) else at.stencil))
  }

  function Read(mask: nat, v: bv8): bv8
    requires mask < 256
  {
    v & (mask as bv8)
  }

  function Kept(mask: nat, v: bv8, there: bv8): bv8
    requires mask < 256
  {
    (v & (mask as bv8)) | (there & !(mask as bv8))
  }

  function D3dTested(d: ZStencilDesc, front: bool, depth: real, ref: bv8, at: Cell): (bool, Cell)
    requires d.readMask < 256 && d.writeMask < 256
  {
    var face := if front then d.front else d.back;
    var x, y := Read(d.readMask, ref), Read(d.readMask, at.stencil);
    var stencil := d.stencilEnable ==> D3dPasses(face.func, x as int as real, y as int as real);
    var deep := d.depthEnable ==> D3dPasses(d.depthFunc, depth, at.depth);
    var op := if !stencil then face.fail else if !deep then face.depthFail else face.pass;
    (stencil && deep,
     Cell(if stencil && deep && d.depthEnable && d.depthWriteAll then depth else at.depth,
          if d.stencilEnable then Kept(d.writeMask, D3dOperated(op, at.stencil, ref), at.stencil) else at.stencil))
  }

  lemma {:induction false} TestMeans(t: DepthTest, x: real, y: real)
    ensures D3dPasses(ConvertDepthTest(t), x, y) == Passes(t, x, y)
  {
  }

  lemma {:induction false} StencilMeans(op: StencilOp, v: bv8, ref: bv8)
    ensures D3dOperated(ConvertStencilOp(op), v, ref) == Operated(op, v, ref)
  {
  }

  lemma {:induction false} Masks(v: bv8, w: bv8)
    ensures Read(255, v) == v && Kept(255, v, w) == v && Kept(0, v, w) == w
  {
    assert v & 255 == v && (v & 255) | (w & !255) == v && (v & 0) | (w & !0) == w;
    assert 255 as bv8 == 255 && 0 as bv8 == 0;
  }

  /** Every fragment is tested as requested, and leaves what was requested. */
  lemma {:induction false} ZStencilMeans(z: ZStencilState, front: bool, depth: real, ref: bv8, at: Cell)
    ensures ZStencilOf(z).readMask == 255 && ZStencilOf(z).writeMask in {0, 255}
    ensures D3dTested(ZStencilOf(z), front, depth, ref, at) == Tested(z, front, depth, ref, at)
  {
    var side := if front then z.front else z.back;
    TestMeans(side.test, ref as int as real, at.stencil as int as real);
    TestMeans(z.depthFunc, depth, at.depth);
    StencilMeans(side.fail, at.stencil, ref);
    StencilMeans(side.zfail, at.stencil, ref);
    StencilMeans(side.zpass, at.stencil, ref);
    Masks(ref, at.stencil);
    Masks(at.stencil, at.stencil);
    Masks(Operated(side.fail, at.stencil, ref), at.stencil);
    Masks(Operated(side.zfail, at.stencil, ref), at.stencil);
    Masks(Operated(side.zpass, at.stencil, ref), at.stencil);
    hide ConvertDepthTest, ConvertStencilOp, Passes, D3dPasses, Operated, D3dOperated, Read, Kept;
  }
}
