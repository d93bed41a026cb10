/** Lazy binding of the D3D11 render target and depth views, with a loaded swap chain standing in for missing
    targets (libobs-d3d11/d3d11-subsystem.cpp:890-910, 1500-1526, 2020-2125, 2341-2370, 2407-2422, 2703-2710,
    libobs-d3d11/d3d11-rebuild.cpp:568-577). */
module OutputViews {
  import opened Options

  /** A render target: a texture of the caller, or the one inside a swap chain, which is two-dimensional. */
  datatype Target = Texture(id: nat, cube: bool) | ChainTexture(chain: nat)

  datatype Depth = Buffer(id: nat) | ChainBuffer(chain: nat)

  datatype Space = Srgb | Srgb16F | Scrgb709 | Extended709

  /** One of the views a target may have. */
  datatype Slot = Slot(target: Target, side: nat, linear: bool)

  datatype Bound = Bound(rtv: Option<nat>, dsv: Option<nat>)

  datatype Output = Output(
    target: Option<Target>,
    depth: Option<Depth>,
    side: nat,
    space: Space,
    srgb: bool,
    invalidate: bool,
    chain: Option<nat>,
    spaces: map<nat, Space>,
    rtvs: map<Slot, nat>,
    dsvs: map<Depth, nat>,
    bound: Bound)

  const INITIAL_OUTPUT := Output(None, None, 0, Srgb, false, false, None, map[], map[], map[], Bound(None, None))

  predicate IsCube(t: Option<Target>) {
    t.Some? && t.value.Texture? && t.value.cube
  }

  predicate IsUser(t: Option<Target>) {
    t.Some? ==> t.value.Texture?
  }

  predicate IsUserDepth(z: Option<Depth>) {
    z.Some? ==> z.value.Buffer?
  }

  function Get<K, V>(m: map<K, V>, k: K): Option<V> {
    if k in m then Some(m[k]) else None
  }

  /** The views a draw should go to. */
  function Chosen(s: Output): Bound {
    Bound(if s.target.None? then None else Get(s.rtvs, Slot(s.target.value, s.side, s.srgb)),
          if s.depth.None? then None else Get(s.dsvs, s.depth.value))
  }

  predicate HasView(s: Output) {
    s.target.None? || Slot(s.target.value, s.side, s.srgb) in s.rtvs
  }

  // ---- the operations ----

  /** A missing target or depth buffer is the loaded swap chain's. */
  function Filled(s: Output, t: Option<Target>): Option<Target> {
    if t.None? && s.chain.Some? then Some(ChainTexture(s.chain.value)) else t
  }

  function FilledDepth(s: Output, z: Option<Depth>): Option<Depth> {
    if z.None? && s.chain.Some? then Some(ChainBuffer(s.chain.value)) else z
  }

  /** device_set_render_target_internal. */
  function SetTarget(s: Output, tex: Option<Target>, zs: Option<Depth>, space: Space): Output {
    var t, z := Filled(s, tex), FilledDepth(s, zs);
    if IsCube(t) then if s.target == t && s.depth == z then s.(space := space) else s
    else if s.target == t && s.depth == z && s.side == 0 then s.(space := space)
    else s.(target := t, depth := z, side := 0, space := space, invalidate := true)
  }

  /** device_set_cube_render_target, of a texture unless a swap chain is loaded. */
  function SetCube(s: Output, tex: Option<Target>, side: nat, zs: Option<Depth>): Output {
    var t, z := Filled(s, tex), FilledDepth(s, zs);
    if !IsCube(t) || (s.target == t && s.side == side && s.depth == z) then s
    else s.(target := t, depth := z, side := side, space := Srgb, invalidate := true)
  }

  /** device_get_render_target and device_get_zstencil_target. */
  function GetTarget(s: Output): Option<Target> {
    if s.chain.Some? && s.target == Some(ChainTexture(s.chain.value)) then None else s.target
  }

  function GetDepth(s: Output): Option<Depth> {
    if s.chain.Some? && s.depth == Some(ChainBuffer(s.chain.value)) then None else s.depth
  }

  /** device_load_swapchain. */
  function LoadChain(s: Output, chain: Option<nat>): Output {
    var t, z, on := GetTarget(s), GetDepth(s), s.(chain := chain);
    if IsCube(s.target) then SetCube(on, t, s.side, z)
    else SetTarget(on, t, z, if chain.Some? && chain.value in s.spaces then s.spaces[chain.value] else Srgb)
  }

  /** FlushOutputViews. */
  function Flush(s: Output): Output {
    if s.invalidate && HasView(s) then s.(bound := Chosen(s), invalidate := false) else s
  }

  datatype Event =
    | Set(tex: Option<Target>, zs: Option<Depth>, space: Space)
    | SetSide(tex: Option<Target>, side: nat, zs: Option<Depth>)
    | EnableSrgb(enable: bool)
    | Load(chain: Option<nat>)
    | CreateViews(rtvs: map<Slot, nat>, dsvs: map<Depth, nat>, spaces: map<nat, Space>)
    | DestroyTexture(id: nat, cube: bool)
    | DestroyDepth(id: nat)
    | DestroyChain(gone: nat)
    | Resize(rtvs: map<Slot, nat>, dsvs: map<Depth, nat>, space: Space)
    | Present
    | PresentLost(rtvs: map<Slot, nat>, dsvs: map<Depth, nat>)
    | Draw

  /** The views of everything but one swap chain. */
  function KeepRtvs(rtvs: map<Slot, nat>, gone: Target): map<Slot, nat> {
    map k | k in rtvs && k.target != gone :: rtvs[k]
  }

  /** What a caller may do: it passes its own textures, a cube setter a cube unless a swap chain is there to
      fall back on, new objects' views only, and destroys nothing that is in use. */
  predicate Plays(s: Output, e: Event) {
    match e
    case Set(t, z, _) => IsUser(t) && IsUserDepth(z)
    case SetSide(t, _, z) => IsUser(t) && IsUserDepth(z) && (t.Some? || s.chain.Some?)
    case CreateViews(rtvs, dsvs, spaces) => rtvs.Keys !! s.rtvs.Keys && dsvs.Keys !! s.dsvs.Keys
                                            && (s.target.Some? ==> forall k :: k in rtvs ==> k.target != s.target.value)
                                            && (s.depth.Some? ==> s.depth.value !in dsvs)
    case DestroyTexture(id, cube) => s.target != Some(Texture(id, cube))
    case DestroyDepth(id) => s.depth != Some(Buffer(id))
    case Resize(rtvs, dsvs, _) => s.chain.Some? ==> (forall k :: k in rtvs ==> k.target == ChainTexture(s.chain.value))
                                                     && (forall z :: z in dsvs ==> z == ChainBuffer(s.chain.value))
    case _ => true
  }

  function Next(s: Output, e: Event): Output {
    match e
    case Set(t, z, space) => SetTarget(s, t, z, space)
    case SetSide(t, side, z) => SetCube(s, t, side, z)
    case EnableSrgb(b) => if s.srgb == b then s else s.(srgb := b, invalidate := true)
    case Load(c) => LoadChain(s, c)
    case CreateViews(rtvs, dsvs, spaces) => s.(rtvs := s.rtvs + rtvs, dsvs := s.dsvs + dsvs,
                                               spaces := s.spaces + spaces)
    case DestroyTexture(id, cube) => s.(rtvs := KeepRtvs(s.rtvs, Texture(id, cube)))
    case DestroyDepth(id) => s.(dsvs := s.dsvs - {Buffer(id)})
    case DestroyChain(c) =>
      var u := if s.chain == Some(c) then LoadChain(s, None) else s;
      u.(rtvs := KeepRtvs(u.rtvs, ChainTexture(c)), dsvs := u.dsvs - {ChainBuffer(c)}, spaces := u.spaces - {c})
    case Resize(rtvs, dsvs, space) =>
      if s.chain.None? then s
      else s.(bound := Bound(None, None), invalidate := true, spaces := s.spaces[s.chain.value := space],
              rtvs := KeepRtvs(s.rtvs, ChainTexture(s.chain.value)) + rtvs,
              dsvs := (s.dsvs - {ChainBuffer(s.chain.value)}) + dsvs)
    case Present => if s.chain.None? then s else s.(bound := Bound(None, None), invalidate := true)
    case PresentLost(rtvs, dsvs) =>
      if s.chain.None? then s
      else s.(bound := Bound(None, None), invalidate := true, rtvs := rtvs, dsvs := dsvs,
              target := None, depth := None, side := 0, chain := None)
    case Draw => if s.chain.None? && s.target.None? then s else Flush(s)
  }

  predicate Runs(s: Output, events: seq<Event>)
    decreases |events|
  {
    events == [] || (Plays(s, events[0]) && Runs(Next(s, events[0]), events[1..]))
  }

  function Run(s: Output, events: seq<Event>): Output
    decreases |events|
  {
    if events == [] then s else Run(Next(s, events[0]), events[1..])
  }

  // ---- safety ----

  /** Unless marked invalid, the bound views are the chosen ones; a loaded swap chain leaves no target
      missing; what lies in a swap chain is in use only while that chain is loaded; a target that is not a
      cube is used with side 0. */
  predicate Safe(s: Output) {
    && (!s.invalidate ==> HasView(s) && s.bound == Chosen(s))
    && (s.chain.Some? ==> s.target.Some? && s.depth.Some?)
    && (s.target.Some? && s.target.value.ChainTexture? ==> s.chain == Some(s.target.value.chain))
    && (s.depth.Some? && s.depth.value.ChainBuffer? ==> s.chain == Some(s.depth.value.chain))
    && (!IsCube(s.target) ==> s.side == 0)
  }

  lemma {:induction false} NextSafe(s: Output, e: Event)
    requires Safe(s) && Plays(s, e)
    ensures Safe(Next(s, e))
  {
    match e {
      case Set(t, z, space) => SetSafe(s, t, z, space);
      case SetSide(t, side, z) => CubeSafe(s, t, side, z);
      case Load(c) => LoadSafe(s, c);
      case DestroyChain(c) => DestroyChainSafe(s, c);
      case Resize(rtvs, dsvs, space) => ResizeSafe(s, rtvs, dsvs, space);
      case EnableSrgb(b) =>
      case CreateViews(rtvs, dsvs, spaces) => CreateSafe(s, rtvs, dsvs, spaces);
      case DestroyTexture(id, cube) => ForgetSafe(s, Texture(id, cube));
      case DestroyDepth(id) =>
      case Present =>
      case PresentLost(rtvs, dsvs) =>
      case Draw =>
    }
  }

  /** A target that is not a cube is always set, whatever was set before. */
  lemma {:induction false} SetFlat(s: Output, t: Option<Target>, z: Option<Depth>, space: Space)
    requires !IsCube(Filled(s, t))
    ensures var r := SetTarget(s, t, z, space);
            var same := s.target == Filled(s, t) && s.depth == FilledDepth(s, z) && s.side == 0;
            r == s.(target := Filled(s, t), depth := FilledDepth(s, z), side := 0, space := space,
                    invalidate := s.invalidate || !same)
  {
    hide Filled, FilledDepth;
  }

  lemma {:induction false} SameViews(s: Output, r: Output)
    requires (r.target, r.depth, r.side, r.srgb, r.rtvs, r.dsvs) == (s.target, s.depth, s.side, s.srgb, s.rtvs, s.dsvs)
    ensures Chosen(r) == Chosen(s) && HasView(r) == HasView(s)
  {
  }

  lemma {:induction false} SetSafe(s: Output, t: Option<Target>, z: Option<Depth>, space: Space)
    requires Safe(s) && IsUser(t) && IsUserDepth(z)
    ensures Safe(SetTarget(s, t, z, space))
  {
    var r := SetTarget(s, t, z, space);
    if IsCube(Filled(s, t)) {
      SameViews(s, r);
    } else {
      SetFlat(s, t, z, space);
      hide SetTarget, Chosen, HasView;
      if !r.invalidate {
        SameViews(s, r);
      }
    }
  }

  lemma {:induction false} CubeSafe(s: Output, t: Option<Target>, side: nat, z: Option<Depth>)
    requires Safe(s) && IsUser(t) && IsUserDepth(z)
    ensures Safe(SetCube(s, t, side, z))
  {
  }

  lemma {:induction false} LoadCubeSafe(s: Output, c: Option<nat>)
    requires Safe(s) && IsCube(s.target)
    ensures Safe(LoadChain(s, c))
    ensures c.None? ==>
            IsUser(LoadChain(s, c).target) && IsUserDepth(LoadChain(s, c).depth) && LoadChain(s, c).chain.None?
  {
    var on, r := s.(chain := c), LoadChain(s, c);
    SameViews(s, on);
    hide Chosen, HasView;
    if !r.invalidate {
      SameViews(on, r);
    }
  }

  lemma {:induction false} LoadFlatSafe(s: Output, c: Option<nat>)
    requires Safe(s) && !IsCube(s.target)
    ensures Safe(LoadChain(s, c))
    ensures c.None? ==>
            IsUser(LoadChain(s, c).target) && IsUserDepth(LoadChain(s, c).depth) && LoadChain(s, c).chain.None?
    ensures LoadChain(s, c).space == if c.Some? && c.value in s.spaces then s.spaces[c.value] else Srgb
  {
    var t, z, on, r := GetTarget(s), GetDepth(s), s.(chain := c), LoadChain(s, c);
    var space := if c.Some? && c.value in s.spaces then s.spaces[c.value] else Srgb;
    SetFlat(on, t, z, space);
    hide SetTarget, Chosen, HasView;
    if !r.invalidate {
      SameViews(s, r);
    }
  }

  lemma {:induction false} LoadSafe(s: Output, c: Option<nat>)
    requires Safe(s)
    ensures Safe(LoadChain(s, c))
    ensures c.None? ==>
            IsUser(LoadChain(s, c).target) && IsUserDepth(LoadChain(s, c).depth) && LoadChain(s, c).chain.None?
    ensures !IsCube(s.target) ==>
              LoadChain(s, c).space == if c.Some? && c.value in s.spaces then s.spaces[c.value] else Srgb
  {
    hide LoadChain;
    if IsCube(s.target) {
      LoadCubeSafe(s, c);
    } else {
      LoadFlatSafe(s, c);
    }
  }

  lemma {:induction false} CreateSafe(s: Output, rtvs: map<Slot, nat>, dsvs: map<Depth, nat>, spaces: map<nat, Space>)
    requires Safe(s) && Plays(s, CreateViews(rtvs, dsvs, spaces))
    ensures Safe(Next(s, CreateViews(rtvs, dsvs, spaces)))
  {
    var r := Next(s, CreateViews(rtvs, dsvs, spaces));
    assert Chosen(r) == Chosen(s) && HasView(r) == HasView(s);
  }

  lemma {:induction false} ForgetSafe(s: Output, gone: Target)
    requires Safe(s) && s.target != Some(gone)
    ensures Safe(s.(rtvs := KeepRtvs(s.rtvs, gone)))
  {
  }

  lemma {:induction false} DestroyChainSafe(s: Output, c: nat)
    requires Safe(s)
    ensures Safe(Next(s, DestroyChain(c)))
  {
    if s.chain == Some(c) {
      LoadSafe(s, None);
    }
    hide LoadChain, KeepRtvs, Chosen, HasView;
    var u := if s.chain == Some(c) then LoadChain(s, None) else s;
    ForgetSafe(u, ChainTexture(c));
    var v := u.(rtvs := KeepRtvs(u.rtvs, ChainTexture(c)));
    ForgetDepthSafe(v, ChainBuffer(c), u.spaces - {c});
  }

  lemma {:induction false} ForgetDepthSafe(s: Output, gone: Depth, spaces: map<nat, Space>)
    requires Safe(s) && s.depth != Some(gone)
    ensures Safe(s.(dsvs := s.dsvs - {gone}, spaces := spaces))
  {
  }

  lemma {:induction false} ResizeSafe(s: Output, rtvs: map<Slot, nat>, dsvs: map<Depth, nat>, space: Space)
    requires Safe(s)
    ensures Safe(Next(s, Resize(rtvs, dsvs, space)))
  {
    hide KeepRtvs;
  }

  lemma {:induction false} RunSafe(s: Output, events: seq<Event>)
    requires Safe(s) && Runs(s, events)
    ensures Safe(Run(s, events))
    decreases |events|
  {
    if events != [] {
      NextSafe(s, events[0]);
      RunSafe(Next(s, events[0]), events[1..]);
    }
  }

  // ---- what a caller asked for, told from its calls alone ----

  /** The target and depth buffer asked for last, None for the swap chain's; the side of a cube; the loaded swap chain
      and the sRGB flag. */
  datatype Wish = Wish(target: Option<Target>, depth: Option<Depth>, side: nat, srgb: bool, chain: Option<nat>)

  const NO_WISH := Wish(None, None, 0, false, None)

  /** Each setter takes its own kind of target, and leaves things alone when given the other; a lost device drops
      everything but the flag. */
  function Wishes(w: Wish, e: Event): Wish {
    match e
    case Set(t, z, _) => if IsCube(t) then w else w.(target := t, depth := z, side := 0)
    case SetSide(t, side, z) => if IsCube(t) then w.(target := t, depth := z, side := side) else w
    case EnableSrgb(b) => w.(srgb := b)
    case Load(c) => w.(chain := c)
    case DestroyChain(c) => if w.chain == Some(c) then w.(chain := None) else w
    case PresentLost(_, _) => if w.chain.Some? then NO_WISH.(srgb := w.srgb) else w
    case _ => w
  }

  function Wished(w: Wish, events: seq<Event>): Wish
    decreases |events|
  {
    if events == [] then w else Wished(Wishes(w, events[0]), events[1..])
  }

  /** The target itself: what was asked for, or the swap chain's, if one is loaded. */
  function TargetOf(w: Wish): Option<Target> {
    if w.target.Some? then w.target else if w.chain.Some? then Some(ChainTexture(w.chain.value)) else None
  }

  function DepthOf(w: Wish): Option<Depth> {
    if w.depth.Some? then w.depth else if w.chain.Some? then Some(ChainBuffer(w.chain.value)) else None
  }

  /** The device has that target, depth buffer, side and flag. */
  predicate Grants(s: Output, w: Wish) {
    && s.target == TargetOf(w) && s.depth == DepthOf(w) && s.side == w.side && s.srgb == w.srgb && s.chain == w.chain
    && IsUser(w.target) && IsUserDepth(w.depth) && (!IsCube(w.target) ==> w.side == 0)
  }

  lemma {:induction false} NextGrants(s: Output, w: Wish, e: Event)
    requires Grants(s, w) && Plays(s, e)
    ensures Grants(Next(s, e), Wishes(w, e))
  {
    match e {
      case Set(t, z, space) => if !IsCube(Filled(s, t)) { SetFlat(s, t, z, space); }
      case SetSide(t, side, z) => SetCubes(s, t, side, z);
      case Load(c) => LoadGrants(s, w, c);
      case DestroyChain(c) => if s.chain == Some(c) { LoadGrants(s, w, None); }
      case _ =>
    }
  }

  lemma {:induction false} LoadGrants(s: Output, w: Wish, c: Option<nat>)
    requires Grants(s, w)
    ensures Grants(LoadChain(s, c), w.(chain := c))
  {
    var on := s.(chain := c);
    if IsCube(s.target) {
      SetCubes(on, w.target, s.side, w.depth);
    } else {
      SetFlat(on, w.target, w.depth, if c.Some? && c.value in s.spaces then s.spaces[c.value] else Srgb);
    }
  }

  /** A side of a cube is always set, whatever was set before, and nothing else is. */
  lemma {:induction false} SetCubes(s: Output, t: Option<Target>, side: nat, z: Option<Depth>)
    ensures var r := SetCube(s, t, side, z);
            var same := s.target == t && s.depth == FilledDepth(s, z) && s.side == side;
            if IsCube(t) then
              r == s.(target := t, depth := FilledDepth(s, z), side := side, space := if same then s.space else Srgb,
                      invalidate := s.invalidate || !same)
            else r == s
  {
    hide FilledDepth;
  }

  /** In every run the device has the target, the depth buffer and the side that its callers asked for. */
  lemma {:induction false} RunGrants(s: Output, w: Wish, events: seq<Event>)
    requires Grants(s, w) && Runs(s, events)
    ensures Grants(Run(s, events), Wished(w, events))
    decreases |events|
  {
    if events != [] {
      NextGrants(s, w, events[0]);
      RunGrants(Next(s, events[0]), Wishes(w, events[0]), events[1..]);
    }
  }

  /** After any run from the start, a draw goes to the view of the side and kind asked for, of the target asked for,
      and to the depth buffer asked for, exactly when the target has such a view; otherwise it goes to whatever was
      bound before. */
  lemma {:induction false} DrawHits(events: seq<Event>)
    requires Runs(INITIAL_OUTPUT, events)
    requires TargetOf(Wished(NO_WISH, events)).Some?
    ensures var s, w := Run(INITIAL_OUTPUT, events), Wished(NO_WISH, events);
            var r, slot := Next(s, Draw), Slot(TargetOf(w).value, w.side, w.srgb);
            if slot in s.rtvs
            then !r.invalidate
                 && r.bound.rtv == Some(s.rtvs[slot])
                 && r.bound.dsv == (if DepthOf(w).None? then None else Get(s.dsvs, DepthOf(w).value))
            else r == s && s.invalidate
  {
    RunSafe(INITIAL_OUTPUT, events);
    RunGrants(INITIAL_OUTPUT, NO_WISH, events);
  }

  /** Reading the target, the depth buffer and the color space, and setting all three again later with the
      same swap chain loaded, restores them, whatever was done in between. */
  lemma {:induction false} Restores(s: Output, u: Output)
    requires Safe(s) && Safe(u) && u.chain == s.chain && !IsCube(s.target)
    ensures var r := SetTarget(u, GetTarget(s), GetDepth(s), s.space);
            && r.target == s.target && r.depth == s.depth && r.side == s.side && r.space == s.space
            && (HasView(r) ==> Flush(r).bound == Chosen(r) && !Flush(r).invalidate)
  {
    SetFlat(u, GetTarget(s), GetDepth(s), s.space);
    var r := SetTarget(u, GetTarget(s), GetDepth(s), s.space);
    assert Filled(u, GetTarget(s)) == s.target && FilledDepth(u, GetDepth(s)) == s.depth;
    hide SetTarget, GetTarget, GetDepth, Filled, FilledDepth, Chosen, HasView;
    if !r.invalidate {
      SameViews(u, r);
    }
  }

  /** Unloading a swap chain while only its own target and depth buffer are in use leaves none. */
  lemma {:induction false} UnloadsTargets(s: Output)
    requires Safe(s) && s.chain.Some? && GetTarget(s).None?
    ensures var r := LoadChain(s, None);
            r.target.None? && r.chain.None? && r.depth == GetDepth(s) && Chosen(r).rtv.None?
  {
  }

  /** A resize that throws after unbinding does not mark the views invalid: draws then go nowhere, though
      the state says otherwise, exactly when they were valid before. */
  function FailedResize(s: Output): Output
    requires s.chain.Some?
  {
    s.(bound := Bound(None, None), rtvs := KeepRtvs(s.rtvs, ChainTexture(s.chain.value)),
       dsvs := s.dsvs - {ChainBuffer(s.chain.value)})
  }

  lemma {:induction false} FailedResizeUnsafe(s: Output)
    requires Safe(s) && s.chain.Some?
    ensures var r := FailedResize(s);
            && (Safe(r) <==> s.invalidate)
            && (!s.invalidate ==> Next(r, Draw) == r && r.bound.rtv.None? && r.target.Some?)
  {
  }
}
