/** The Metal device's command handling, method by method against MetalCommands
    (libobs-metal/MetalDevice.swift:207-329, 349-400, 535-589, 602-771, libobs-metal/metal-subsystem.swift:276-286,
     357-403). */
module MetalDevice {
  import opened MetalCommands
  import opened Options

  class MetalTexture {
    var hasPendingWrites: bool

    constructor ()
      ensures !hasPendingWrites
    {
      hasPendingWrites := false;
    }
  }

  class Renderer {
    var renderTarget: Option<MetalTexture>
    var useSRGBGamma: bool
    var isRendertargetChanged: bool
    var commandBuffer: Option<seq<Op<MetalTexture>>>
    var inFlightRenderTargets: set<MetalTexture>
    ghost var textures: set<MetalTexture>
    ghost var committed: seq<Op<MetalTexture>>
    ghost var log: seq<Op<MetalTexture>>

    ghost predicate Valid()
      reads this
    {
      && inFlightRenderTargets <= textures
      && (renderTarget.Some? ==> renderTarget.value in textures)
    }

    ghost function Value(): Device<MetalTexture>
      reads this, textures
    {
      Device(renderTarget, useSRGBGamma, isRendertargetChanged, commandBuffer, inFlightRenderTargets,
             (set t | t in textures && t.hasPendingWrites), committed, log)
    }

    constructor (all: set<MetalTexture>)
      requires forall t :: t in all ==> !t.hasPendingWrites
      ensures Valid() && Value() == Start() && textures == all
    {
      renderTarget, useSRGBGamma, isRendertargetChanged := None, false, false;
      commandBuffer, inFlightRenderTargets, textures := None, {}, all;
      committed, log := [], [];
    }

    /** finishPendingCommands; a buffer that is still there has not been committed. */
    method FinishPendingCommands()
      requires Valid()
      modifies this`commandBuffer, this`inFlightRenderTargets, this`committed, textures
      ensures Valid() && Value() == Finished(old(Value()))
    {
      if commandBuffer.None? {
        return;
      }
      committed := committed + commandBuffer.value;
      forall t | t in inFlightRenderTargets {
        t.hasPendingWrites := false;
      }
      inFlightRenderTargets := {};
      commandBuffer := None;
    }

    /** ensureCommandBuffer. */
    method EnsureCommandBuffer(made: bool) returns (thrown: bool)
      modifies this`commandBuffer
      ensures thrown <==> old(commandBuffer).None? && !made
      ensures Value() == if thrown then old(Value()) else Ensured(old(Value()))
    {
      if commandBuffer.None? {
        if !made {
          return true;
        }
        commandBuffer := Some([]);
      }
      return false;
    }

    method Mark(t: MetalTexture)
      requires Valid() && t in textures
      modifies this`inFlightRenderTargets, t
      ensures Valid() && Value() == Marked(old(Value()), t)
    {
      t.hasPendingWrites := true;
      inFlightRenderTargets := inFlightRenderTargets + {t};
    }

    method EncodeOp(op: Op<MetalTexture>)
      requires commandBuffer.Some?
      modifies this`commandBuffer, this`log
      ensures Value() == Encode(old(Value()), op)
    {
      commandBuffer := Some(commandBuffer.value + [op]);
      log := log + [op];
    }

    /** clear. */
    method DoClear(how: Outcome)
      requires Valid()
      modifies this`commandBuffer, this`inFlightRenderTargets, this`log, textures
      ensures Valid() && Value() == Next(old(Value()), Event.DoClear(how))
    {
      var thrown := EnsureCommandBuffer(how != NoBuffer);
      if thrown || renderTarget.None? || how == NoBuffer || how == NotReady || how == NoPipeline {
        return;
      }
      Mark(renderTarget.value);
      if how == NoEncoder {
        return;
      }
      EncodeOp(Clear(renderTarget.value));
    }

    /** draw: the target is marked only where the flag says that it changed. */
    method DoDraw(how: Outcome)
      requires Valid()
      modifies this`commandBuffer, this`inFlightRenderTargets, this`log, textures
      ensures Valid() && Value() == Next(old(Value()), Event.DoDraw(how))
    {
      var thrown := EnsureCommandBuffer(how != NoBuffer);
      if thrown || renderTarget.None? || how == NoBuffer || how == NotReady {
        return;
      }
      if isRendertargetChanged {
        Mark(renderTarget.value);
      }
      if how == NoPipeline || how == NoEncoder {
        return;
      }
      EncodeOp(Draw(renderTarget.value));
    }

    /** stageTexture and copyTextureRegion, which have a destination texture, and stageTextureToBuffer: a blit in a
        command buffer of its own. */
    method StageTexture(source: MetalTexture, destination: Option<MetalTexture>, encoded: bool)
      requires Valid() && source in textures
      modifies this`commandBuffer, this`inFlightRenderTargets, this`committed, this`log, textures
      ensures Valid() && Value() == Next(old(Value()), Stage(source, destination, encoded))
    {
      if source.hasPendingWrites {
        FinishPendingCommands();
      }
      if !encoded {
        return;
      }
      committed := committed + [Read(source, destination)];
      log := log + [Read(source, destination)];
    }

    /** copyTexture: a blit in the current command buffer. */
    method DoCopyTexture(source: MetalTexture, destination: MetalTexture, how: Outcome)
      requires Valid() && source in textures
      modifies this`commandBuffer, this`inFlightRenderTargets, this`committed, this`log, textures
      ensures Valid() && Value() == Next(old(Value()), CopyTexture(source, destination, how))
    {
      if source.hasPendingWrites {
        FinishPendingCommands();
      }
      var thrown := EnsureCommandBuffer(how != NoBuffer);
      if thrown || how != Encoded {
        return;
      }
      EncodeOp(Copy(source, destination));
    }

    /** The end of upload, for textures with mipmaps: a blit in the current command buffer. */
    method GenerateMipmaps(texture: MetalTexture, how: Outcome)
      requires Valid() && texture in textures
      modifies this`commandBuffer, this`log
      ensures Valid() && Value() == Next(old(Value()), MetalCommands.GenerateMipmaps(texture, how))
    {
      var thrown := EnsureCommandBuffer(how != NoBuffer);
      if thrown || how != Encoded {
        return;
      }
      EncodeOp(Generate(texture));
    }

    /** device_begin_frame. */
    method DoBeginFrame()
      requires Valid()
      modifies this`renderTarget, this`useSRGBGamma
      ensures Valid() && Value() == Next(old(Value()), BeginFrame)
    {
      useSRGBGamma := false;
      renderTarget := None;
    }

    /** device_set_render_target_with_color_space. */
    method SetRenderTarget(tex: Option<MetalTexture>, zstencil: bool)
      requires Valid() && (tex.Some? ==> tex.value in textures)
      modifies this`renderTarget, this`isRendertargetChanged
      ensures Valid() && Value() == Next(old(Value()), SetTarget(tex, zstencil))
    {
      if tex.Some? {
        renderTarget := tex;
        isRendertargetChanged := true;
      } else {
        renderTarget := None;
      }
      if zstencil {
        isRendertargetChanged := true;
      }
    }

    /** device_enable_framebuffer_srgb. */
    method EnableFramebufferSrgb(enable: bool)
      requires Valid()
      modifies this`useSRGBGamma, this`isRendertargetChanged
      ensures Valid() && Value() == Next(old(Value()), EnableSrgb(enable))
    {
      if useSRGBGamma != enable {
        useSRGBGamma := enable;
        isRendertargetChanged := true;
      }
    }
  }
}
