/** Which vertex buffers are bound when a draw happens: a cache of the last pair of vertex buffer and vertex
    shader, compared by address while addresses are reused
    (libobs-d3d11/d3d11-subsystem.cpp:1804-1841, 1922-1951, 2275-2298, 2902-2908, libobs-d3d11/d3d11-shader.cpp:387-393,
    libobs-d3d11/d3d11-rebuild.cpp:487-490, 568-584). */
module VertexBinding {
  import opened InputLayout
  import opened VertexBuffers
  import opened Options

  /** D3D11_IA_VERTEX_INPUT_RESOURCE_SLOT_COUNT. */
  const SLOT_COUNT := 32

  /** An address; 0 is the null pointer. */
  type Address = nat

  /** What the input assembler holds in a slot. */
  type Slots = seq<Option<Bound>>

  /** The live vertex buffers and vertex shaders by address, the device's pointers, and the slots. */
  datatype Device = Device(
    buffers: map<Address, VertexBuffer>,
    shaders: map<Address, seq<Element>>,
    curBuffer: Address,
    curShader: Address,
    lastBuffer: Address,
    lastShader: Address,
    slots: Slots)

  predicate Valid(d: Device) {
    && |d.slots| == SLOT_COUNT
    && 0 !in d.buffers && 0 !in d.shaders
    && forall a :: a in d.shaders ==> NumBuffersExpected(ExpectedOf(d.shaders[a])) <= SLOT_COUNT
  }

  function Somes(list: seq<Bound>): (r: Slots)
    ensures |r| == |list| && forall i :: 0 <= i < |r| ==> r[i] == Some(list[i])
  {
    seq(|list|, i requires 0 <= i < |list| => Some(list[i]))
  }

  function Nones(n: nat): (r: Slots)
    ensures |r| == n && forall i :: 0 <= i < n ==> r[i] == None
  {
    seq(n, i => None)
  }

  /** IASetVertexBuffers from slot 0 on. */
  function SetSlots(slots: Slots, list: Slots): Slots {
    if |list| <= |slots| then list + slots[|list|..] else slots
  }

  lemma {:induction false} ListLength(vb: VertexBuffer, x: Expected)
    ensures |BufferList(vb, x)| <= NumBuffersExpected(x)
  {
    hide Pushed;
    assert |TexCoords(vb, x)| <= x.texUnits;
  }

  /** What a fresh load would bind for a pair: the buffer list, or nothing. */
  function Wanted(d: Device, b: Address, s: Address): Slots
    requires s in d.shaders && (b == 0 || b in d.buffers)
  {
    var x := ExpectedOf(d.shaders[s]);
    if b == 0 then Nones(NumBuffersExpected(x)) else Somes(BufferList(d.buffers[b], x))
  }

  // ---- the events ----

  datatype Event =
    | CreateBuffer(at: Address, vb: VertexBuffer)
    | DestroyBuffer(at: Address)
    | CreateShader(at: Address, layout: seq<Element>)
    | DestroyShader(at: Address)
    | LoadBuffer(at: Address)
    | LoadShader(at: Address)
    | Draw
    | Rebuild(remade: map<Address, VertexBuffer>)

  /** What an allocator and a correct caller do: new objects do not lie on live ones, a draw is with live
      objects, and a rebuild makes new buffers for the live vertex buffers. */
  predicate Plays(d: Device, e: Event) {
    match e
    case CreateBuffer(a, vb) => a != 0 && a !in d.buffers
    case CreateShader(a, layout) => a != 0 && a !in d.shaders && NumBuffersExpected(ExpectedOf(layout)) <= SLOT_COUNT
    case Draw => d.curShader == 0 || (d.curShader in d.shaders && (d.curBuffer == 0 || d.curBuffer in d.buffers))
    case Rebuild(remade) => remade.Keys == d.buffers.Keys
    case _ => true
  }

  function Next(d: Device, e: Event): Device
    requires Plays(d, e)
  {
    match e
    case CreateBuffer(a, vb) => d.(buffers := d.buffers[a := vb])
    case DestroyBuffer(a) => d.(buffers := d.buffers - {a}, lastBuffer := if d.lastBuffer == a then 0 else d.lastBuffer)
    case CreateShader(a, layout) => d.(shaders := d.shaders[a := layout])
    case DestroyShader(a) => d.(shaders := d.shaders - {a}, lastShader := if d.lastShader == a then 0 else d.lastShader)
    case LoadBuffer(a) => d.(curBuffer := a)
    case LoadShader(a) => d.(curShader := a)
    case Draw =>
      if d.curShader == 0 || (d.curBuffer == d.lastBuffer && d.curShader == d.lastShader) then d
      else d.(slots := SetSlots(d.slots, Wanted(d, d.curBuffer, d.curShader)), lastBuffer := d.curBuffer,
              lastShader := d.curShader)
    case Rebuild(remade) => d.(buffers := remade, slots := Nones(SLOT_COUNT), curBuffer := 0, curShader := 0)
  }

  predicate Runs(d: Device, events: seq<Event>)
    decreases |events|
  {
    events == [] || (Plays(d, events[0]) && Runs(Next(d, events[0]), events[1..]))
  }

  function Run(d: Device, events: seq<Event>): Device
    requires Runs(d, events)
    decreases |events|
  {
    if events == [] then d else Run(Next(d, events[0]), events[1..])
  }

  // ---- what is loaded, told from the events alone ----

  /** The objects that live, and the two that are loaded. */
  datatype Scene = Scene(buffers: map<Address, VertexBuffer>, shaders: map<Address, seq<Element>>, buffer: Address,
                         shader: Address)

  function Shown(c: Scene, e: Event): Scene {
    match e
    case CreateBuffer(a, vb) => c.(buffers := c.buffers[a := vb])
    case DestroyBuffer(a) => c.(buffers := c.buffers - {a})
    case CreateShader(a, layout) => c.(shaders := c.shaders[a := layout])
    case DestroyShader(a) => c.(shaders := c.shaders - {a})
    case LoadBuffer(a) => c.(buffer := a)
    case LoadShader(a) => c.(shader := a)
    case Draw => c
    case Rebuild(remade) => Scene(remade, c.shaders, 0, 0)
  }

  function SceneAfter(c: Scene, events: seq<Event>): Scene
    decreases |events|
  {
    if events == [] then c else SceneAfter(Shown(c, events[0]), events[1..])
  }

  function SceneOf(d: Device): Scene {
    Scene(d.buffers, d.shaders, d.curBuffer, d.curShader)
  }

  /** The device knows what lives and what is loaded, whatever it remembers of draws. */
  lemma {:induction false} RunScene(d: Device, events: seq<Event>)
    requires Runs(d, events)
    ensures SceneOf(Run(d, events)) == SceneAfter(SceneOf(d), events)
    decreases |events|
  {
    if events != [] {
      assert SceneOf(Next(d, events[0])) == Shown(SceneOf(d), events[0]);
      RunScene(Next(d, events[0]), events[1..]);
    }
  }

  // ---- soundness of the cache ----

  predicate Holds(d: Device, b: Address, s: Address)
    requires s in d.shaders && (b == 0 || b in d.buffers)
  {
    Wanted(d, b, s) <= d.slots
  }

  /** The last pair, when both are set, is live, and its buffers are bound. */
  predicate Sound(d: Device) {
    && Valid(d)
    && (d.lastBuffer != 0 ==> d.lastBuffer in d.buffers)
    && (d.lastShader != 0 ==> d.lastShader in d.shaders)
    && (d.lastBuffer != 0 && d.lastShader != 0 ==> Holds(d, d.lastBuffer, d.lastShader))
  }

  lemma {:induction false} WantedFits(d: Device, b: Address, s: Address)
    requires Valid(d) && s in d.shaders && (b == 0 || b in d.buffers)
    ensures |Wanted(d, b, s)| <= SLOT_COUNT
    ensures var slots := SetSlots(d.slots, Wanted(d, b, s)); |slots| == SLOT_COUNT && Wanted(d, b, s) <= slots
  {
    if b != 0 {
      ListLength(d.buffers[b], ExpectedOf(d.shaders[s]));
    }
  }

  lemma {:induction false} NextSound(d: Device, e: Event)
    requires Sound(d) && Plays(d, e) && !e.Rebuild?
    ensures Sound(Next(d, e))
  {
    hide ExpectedOf, NumBuffersExpected, BufferList;
    if e.Draw? && d.curShader != 0 {
      WantedFits(d, d.curBuffer, d.curShader);
    }
  }

  lemma {:induction false} RunSound(d: Device, events: seq<Event>)
    requires Sound(d) && Runs(d, events) && forall e :: e in events ==> !e.Rebuild?
    ensures Sound(Run(d, events))
    decreases |events|
  {
    if events != [] {
      assert events[0] in events && forall e :: e in events[1..] ==> e in events;
      NextSound(d, events[0]);
      RunSound(Next(d, events[0]), events[1..]);
    }
  }

  /** What a device without a memory would have in its first slots for the loaded pair. */
  function Fresh(c: Scene): Slots
    requires c.shader in c.shaders && (c.buffer == 0 || c.buffer in c.buffers)
  {
    var x := ExpectedOf(c.shaders[c.shader]);
    if c.buffer == 0 then Nones(NumBuffersExpected(x)) else Somes(BufferList(c.buffers[c.buffer], x))
  }

  /** A live vertex shader is loaded, and a live vertex buffer or none. */
  predicate Ready(c: Scene) {
    c.shader != 0 && c.shader in c.shaders && (c.buffer == 0 || c.buffer in c.buffers)
  }

  /** In every run without a rebuild, a draw with a vertex buffer and a vertex shader finds in the slots
      exactly what a fresh load of the objects now at those addresses would put there. */
  lemma {:induction false} DrawFresh(d: Device, events: seq<Event>)
    requires Sound(d) && Runs(d, events) && forall e :: e in events ==> !e.Rebuild?
    requires var c := SceneAfter(SceneOf(d), events); Ready(c) && c.buffer != 0
    ensures Plays(Run(d, events), Draw)
    ensures Fresh(SceneAfter(SceneOf(d), events)) <= Next(Run(d, events), Draw).slots
  {
    RunSound(d, events);
    RunScene(d, events);
    var r := Run(d, events);
    NextSound(r, Draw);
    assert Holds(Next(r, Draw), r.curBuffer, r.curShader);
  }

  /** So, for a standard layout and a vertex buffer that supplies it, every element of the layout reads
      its own semantic's buffer with the right stride. */
  lemma {:induction false} DrawFeeds(d: Device, events: seq<Event>, layout: seq<Element>, i: nat)
    requires Sound(d) && Runs(d, events) && forall e :: e in events ==> !e.Rebuild?
    requires var c := SceneAfter(SceneOf(d), events);
             && Ready(c) && c.buffer != 0
             && c.shaders[c.shader] == Assigned(layout) && Standard(layout)
             && Supplies(c.buffers[c.buffer], ExpectedOf(layout))
    requires i < |layout|
    ensures Plays(Run(d, events), Draw)
    ensures var slots, c := Next(Run(d, events), Draw).slots, SceneAfter(SceneOf(d), events);
            var a := Assigned(layout)[i];
            a.key == layout[i].key && a.slot < |slots| && slots[a.slot] == Source(c.buffers[c.buffer], layout[i].key)
  {
    DrawFresh(d, events);
    var c := SceneAfter(SceneOf(d), events);
    SlotsAgree(layout, c.buffers[c.buffer]);
    SlotOf(layout, i);
    UptoKeys(layout, Stop(layout, 4));
    SameExpected(layout, Assigned(layout));
    hide Standard, Supplies, ExpectedOf, BufferList, Assigned;
    var a := Assigned(layout)[i];
    assert Fresh(c)[a.slot] == Next(Run(d, events), Draw).slots[a.slot];
  }

  // ---- exactly when a draw finds its buffers, over all runs ----

  /** What the slots were last loaded for: whether a vertex buffer was loaded, and whether the device has been
      rebuilt since. */
  datatype Track = Track(hadBuffer: bool, rebuilt: bool)

  const FRESH := Track(false, false)

  function Tracked(d: Device, t: Track, e: Event): Track {
    match e
    case Draw =>
      if d.curShader == 0 || (d.curBuffer == d.lastBuffer && d.curShader == d.lastShader) then t
      else Track(d.curBuffer != 0, false)
    case Rebuild(_) => t.(rebuilt := true)
    case _ => t
  }

  function TrackedRun(d: Device, t: Track, events: seq<Event>): Track
    requires Runs(d, events)
    decreases |events|
  {
    if events == [] then t else TrackedRun(Next(d, events[0]), Tracked(d, t, events[0]), events[1..])
  }

  /** What the slots hold, as far as the last pair goes. */
  predicate Follows(d: Device, t: Track) {
    && Valid(d)
    && (d.lastBuffer != 0 ==> d.lastBuffer in d.buffers && t.hadBuffer)
    && (d.lastShader != 0 ==> d.lastShader in d.shaders)
    && (d.lastShader != 0 ==>
          if t.rebuilt then d.slots == Nones(SLOT_COUNT)
          else if d.lastBuffer != 0 || !t.hadBuffer then Holds(d, d.lastBuffer, d.lastShader)
          else d.slots[0].Some?)
  }

  /** The remembered pair does not tell what is in the slots: after a rebuild a buffer is missing from them, and
      after the destruction of the buffer loaded last no buffer is too much to expect. */
  predicate Stale(t: Track, b: Address) {
    if b != 0 then t.rebuilt else t.hadBuffer && !t.rebuilt
  }

  function Start(): Device {
    Device(map[], map[], 0, 0, 0, 0, Nones(SLOT_COUNT))
  }

  lemma {:induction false} FirstSlot(d: Device, b: Address, s: Address)
    requires s in d.shaders && (b == 0 || b in d.buffers)
    ensures |Wanted(d, b, s)| > 0 && (Wanted(d, b, s)[0].Some? <==> b != 0)
  {
  }

  lemma {:induction false} NextFollows(d: Device, t: Track, e: Event)
    requires Follows(d, t) && Plays(d, e)
    ensures Follows(Next(d, e), Tracked(d, t, e))
  {
    if e.Draw? && d.curShader != 0 {
      WantedFits(d, d.curBuffer, d.curShader);
      hide ExpectedOf, NumBuffersExpected, BufferList;
    } else if e.DestroyBuffer? && e.at == d.lastBuffer && d.lastBuffer != 0 && d.lastShader != 0 && !t.rebuilt {
      FirstSlot(d, d.lastBuffer, d.lastShader);
      hide ExpectedOf, NumBuffersExpected, BufferList;
      assert Wanted(d, d.lastBuffer, d.lastShader)[0] == d.slots[0];
    } else {
      hide ExpectedOf, NumBuffersExpected, BufferList;
    }
  }

  lemma {:induction false} RunFollows(d: Device, t: Track, events: seq<Event>)
    requires Follows(d, t) && Runs(d, events)
    ensures Follows(Run(d, events), TrackedRun(d, t, events))
    decreases |events|
  {
    if events != [] {
      NextFollows(d, t, events[0]);
      RunFollows(Next(d, events[0]), Tracked(d, t, events[0]), events[1..]);
    }
  }

  /** Exact theorem. In every run, rebuilds and address reuse included, a draw with a vertex shader, with or
      without a vertex buffer, leaves in the slots what a fresh load would put there if and only if it does not
      repeat the remembered pair while that is stale. */
  lemma {:induction false} DrawExact(events: seq<Event>)
    requires Runs(Start(), events) && Ready(SceneAfter(SceneOf(Start()), events))
    ensures Plays(Run(Start(), events), Draw)
    ensures var r, c := Run(Start(), events), SceneAfter(SceneOf(Start()), events);
            Fresh(c) <= Next(r, Draw).slots
            <==> !((c.buffer, c.shader) == (r.lastBuffer, r.lastShader)
                   && Stale(TrackedRun(Start(), FRESH, events), c.buffer))
  {
    var r, t := Run(Start(), events), TrackedRun(Start(), FRESH, events);
    RunScene(Start(), events);
    RunFollows(Start(), FRESH, events);
    WantedFits(r, r.curBuffer, r.curShader);
    FirstSlot(r, r.curBuffer, r.curShader);
    NonesHold(r, r.curShader);
    hide ExpectedOf, NumBuffersExpected, BufferList;
    var want := Wanted(r, r.curBuffer, r.curShader);
    assert Fresh(SceneAfter(SceneOf(Start()), events)) == want;
    if (r.curBuffer, r.curShader) == (r.lastBuffer, r.lastShader) && want <= r.slots {
      assert want[0] == r.slots[0];
    }
  }

  /** Empty slots are what a shader without a vertex buffer wants. */
  lemma {:induction false} NonesHold(d: Device, s: Address)
    requires Valid(d) && s in d.shaders
    ensures d.slots == Nones(SLOT_COUNT) ==> Wanted(d, 0, s) <= d.slots
  {
  }

  // ---- where the cache is not sound ----

  /** RebuildDevice clears the bindings but keeps the last pair: the first draw after it finds its buffers
      bound exactly when its pair is not the one drawn last before. */
  lemma {:induction false} RebuildStale(d: Device, remade: map<Address, VertexBuffer>, b: Address, s: Address)
    requires Sound(d) && Plays(d, Rebuild(remade)) && b != 0 && s != 0 && b in d.buffers && s in d.shaders
    ensures Runs(d, [Rebuild(remade), LoadBuffer(b), LoadShader(s), Draw])
    ensures var r := Run(d, [Rebuild(remade), LoadBuffer(b), LoadShader(s), Draw]);
            b in r.buffers && s in r.shaders && (Holds(r, b, s) <==> (b, s) != (d.lastBuffer, d.lastShader))
  {
    var x := Next(d, Rebuild(remade));
    var y := x.(curBuffer := b, curShader := s);
    RunFour(d, Rebuild(remade), LoadBuffer(b), LoadShader(s), Draw);
    var r := Next(y, Draw);
    WantedFits(y, b, s);
    if (b, s) == (d.lastBuffer, d.lastShader) {
      assert r == y && Wanted(r, b, s)[0].Some? && r.slots[0] == None;
    }
  }

  lemma {:induction false} RunFour(d: Device, e0: Event, e1: Event, e2: Event, e3: Event)
    requires Plays(d, e0) && Plays(Next(d, e0), e1) && Plays(Next(Next(d, e0), e1), e2)
    requires Plays(Next(Next(Next(d, e0), e1), e2), e3)
    ensures Runs(d, [e0, e1, e2, e3])
    ensures Run(d, [e0, e1, e2, e3]) == Next(Next(Next(Next(d, e0), e1), e2), e3)
  {
    hide Next, Plays;
    assert [e0, e1, e2, e3][1..] == [e1, e2, e3] && [e1, e2, e3][1..] == [e2, e3] && [e2, e3][1..] == [e3] &&
           [e3][1..] == [];
    assert Run(Next(Next(Next(d, e0), e1), e2), [e3]) == Next(Next(Next(Next(d, e0), e1), e2), e3);
    assert Run(Next(Next(d, e0), e1), [e2, e3]) == Next(Next(Next(Next(d, e0), e1), e2), e3);
  }

  /** A draw without a vertex buffer, right after the buffer drawn last has been destroyed, is taken for the
      same pair again: what that buffer had bound stays bound. */
  lemma {:induction false} NullDrawStale(d: Device)
    requires Sound(d) && d.lastBuffer != 0 && d.lastShader != 0
    ensures Runs(d, [DestroyBuffer(d.lastBuffer), LoadBuffer(0), LoadShader(d.lastShader), Draw])
    ensures var r := Run(d, [DestroyBuffer(d.lastBuffer), LoadBuffer(0), LoadShader(d.lastShader), Draw]);
            r.slots == d.slots && d.lastShader in r.shaders && !Holds(r, 0, d.lastShader)
  {
    RunFour(d, DestroyBuffer(d.lastBuffer), LoadBuffer(0), LoadShader(d.lastShader), Draw);
    var want := Wanted(d, d.lastBuffer, d.lastShader);
    assert want[0].Some? && want[0] == d.slots[0];
  }
}
