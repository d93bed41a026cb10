/** The device's output state, method by method against OutputViews
    (libobs-d3d11/d3d11-subsystem.cpp:890-910, 1500-1513, 2020-2125, 2341-2370, 2407-2422, 2703-2710). */
module OutputDevice {
  import opened OutputViews
  import opened Options

  class GsDevice {
    var curRenderTarget: Option<Target>
    var curZStencilBuffer: Option<Depth>
    var curRenderSide: nat
    var curColorSpace: Space
    var curFramebufferSrgb: bool
    var curFramebufferInvalidate: bool
    var curSwapChain: Option<nat>
    var spaces: map<nat, Space>
    var rtvs: map<Slot, nat>
    var dsvs: map<Depth, nat>
    var bound: Bound

    ghost function Value(): Output
      reads this
    {
      Output(curRenderTarget, curZStencilBuffer, curRenderSide, curColorSpace, curFramebufferSrgb,
             curFramebufferInvalidate, curSwapChain, spaces, rtvs, dsvs, bound)
    }

    constructor ()
      ensures Value() == INITIAL_OUTPUT && Safe(Value())
    {
      curRenderTarget, curZStencilBuffer, curRenderSide, curColorSpace := None, None, 0, Srgb;
      curFramebufferSrgb, curFramebufferInvalidate, curSwapChain := false, false, None;
      spaces, rtvs, dsvs, bound := map[], map[], map[], Bound(None, None);
    }

    method FlushOutputViews()
      modifies this`bound, this`curFramebufferInvalidate
      ensures Value() == Flush(old(Value()))
    {
      if curFramebufferInvalidate {
        var rtv: Option<nat> := None;
        if curRenderTarget.Some? {
          rtv := Get(rtvs, Slot(curRenderTarget.value, curRenderSide, curFramebufferSrgb));
          if rtv.None? {
            return;
          }
        }
        var dsv: Option<nat> := None;
        if curZStencilBuffer.Some? {
          dsv := Get(dsvs, curZStencilBuffer.value);
        }
        bound := Bound(rtv, dsv);
        curFramebufferInvalidate := false;
      }
    }

    method GetRenderTarget() returns (t: Option<Target>)
      ensures t == GetTarget(Value())
    {
      if curSwapChain.Some? && curRenderTarget == Some(ChainTexture(curSwapChain.value)) {
        return None;
      }
      return curRenderTarget;
    }

    method GetZStencilTarget() returns (z: Option<Depth>)
      ensures z == GetDepth(Value())
    {
      if curSwapChain.Some? && curZStencilBuffer == Some(ChainBuffer(curSwapChain.value)) {
        return None;
      }
      return curZStencilBuffer;
    }

    method SetRenderTargetInternal(t: Option<Target>, z: Option<Depth>, space: Space)
      modifies this`curRenderTarget, this`curZStencilBuffer, this`curRenderSide, this`curColorSpace,
               this`curFramebufferInvalidate
      ensures Value() == SetTarget(old(Value()), t, z, space)
    {
      var tex, zstencil := t, z;
      if curSwapChain.Some? {
        if tex.None? {
          tex := Some(ChainTexture(curSwapChain.value));
        }
        if zstencil.None? {
          zstencil := Some(ChainBuffer(curSwapChain.value));
        }
      }
      assert tex == Filled(Value(), t) && zstencil == FilledDepth(Value(), z);
      hide Filled, FilledDepth;
      if curRenderTarget == tex && curZStencilBuffer == zstencil {
        curColorSpace := space;
      }
      if IsCube(tex) {
        return;
      }
      if curRenderTarget != tex || curRenderSide != 0 || curZStencilBuffer != zstencil {
        curRenderTarget := tex;
        curZStencilBuffer := zstencil;
        curRenderSide := 0;
        curColorSpace := space;
        curFramebufferInvalidate := true;
      }
    }

    method SetCubeRenderTarget(t: Option<Target>, s: nat, z: Option<Depth>)
      requires t.Some? || curSwapChain.Some?
      modifies this`curRenderTarget, this`curZStencilBuffer, this`curRenderSide, this`curColorSpace,
               this`curFramebufferInvalidate
      ensures Value() == SetCube(old(Value()), t, s, z)
    {
      var tex, side, zstencil := t, s, z;
      if curSwapChain.Some? {
        if tex.None? {
          tex := Some(ChainTexture(curSwapChain.value));
          side := 0;
        }
        if zstencil.None? {
          zstencil := Some(ChainBuffer(curSwapChain.value));
        }
      }
      if curRenderTarget == tex && curRenderSide == side && curZStencilBuffer == zstencil {
        return;
      }
      if !IsCube(tex) {
        return;
      }
      if curRenderTarget != tex || curRenderSide != side || curZStencilBuffer != zstencil {
        curRenderTarget := tex;
        curZStencilBuffer := zstencil;
        curRenderSide := side;
        curColorSpace := Srgb;
        curFramebufferInvalidate := true;
      }
    }

    method EnableFramebufferSrgb(enable: bool)
      modifies this`curFramebufferSrgb, this`curFramebufferInvalidate
      ensures Value() == Next(old(Value()), EnableSrgb(enable))
    {
      if curFramebufferSrgb != enable {
        curFramebufferSrgb := enable;
        curFramebufferInvalidate := true;
      }
    }

    method LoadSwapchain(swapchain: Option<nat>)
      modifies this`curRenderTarget, this`curZStencilBuffer, this`curRenderSide, this`curColorSpace,
               this`curFramebufferInvalidate,
               this`curSwapChain
      ensures Value() == LoadChain(old(Value()), swapchain)
    {
      var target, zs := curRenderTarget, curZStencilBuffer;
      var isCube := IsCube(curRenderTarget);
      if curSwapChain.Some? {
        if target == Some(ChainTexture(curSwapChain.value)) {
          target := None;
        }
        if zs == Some(ChainBuffer(curSwapChain.value)) {
          zs := None;
        }
      }
      curSwapChain := swapchain;
      if isCube {
        SetCubeRenderTarget(target, curRenderSide, zs);
      } else {
        var space := if swapchain.Some? && swapchain.value in spaces then spaces[swapchain.value] else Srgb;
        SetRenderTargetInternal(target, zs, space);
      }
    }

    /** gs_swapchain_destroy. */
    method DestroySwapchain(swapchain: nat)
      modifies this
      ensures Value() == Next(old(Value()), DestroyChain(swapchain))
    {
      if curSwapChain == Some(swapchain) {
        LoadSwapchain(None);
      }
      rtvs := KeepRtvs(rtvs, ChainTexture(swapchain));
      dsvs := dsvs - {ChainBuffer(swapchain)};
      spaces := spaces - {swapchain};
    }

    /** device_resize_internal; thrown says that resizing the buffers threw. */
    method ResizeInternal(newRtvs: map<Slot, nat>, newDsvs: map<Depth, nat>, space: Space, thrown: bool)
      requires curSwapChain.Some?
      modifies this`bound, this`rtvs, this`dsvs, this`spaces, this`curFramebufferInvalidate
      ensures Value() == if thrown then FailedResize(old(Value()))
                         else Next(old(Value()), Resize(newRtvs, newDsvs, space))
    {
      bound := Bound(None, None);
      rtvs := KeepRtvs(rtvs, ChainTexture(curSwapChain.value));
      dsvs := dsvs - {ChainBuffer(curSwapChain.value)};
      if thrown {
        return;
      }
      rtvs := rtvs + newRtvs;
      dsvs := dsvs + newDsvs;
      spaces := spaces[curSwapChain.value := space];
      curFramebufferInvalidate := true;
    }

    /** device_present; a lost device is rebuilt, which resets the targets. */
    method DevicePresent(lost: bool, newRtvs: map<Slot, nat>, newDsvs: map<Depth, nat>)
      modifies this
      ensures Value() == Next(old(Value()), if lost then PresentLost(newRtvs, newDsvs) else Present)
    {
      if curSwapChain.Some? {
        bound := Bound(None, None);
        curFramebufferInvalidate := true;
        if lost {
          rtvs, dsvs := newRtvs, newDsvs;
          curRenderTarget := None;
          curZStencilBuffer := None;
          curRenderSide := 0;
          curSwapChain := None;
        }
      }
    }
  }
}
