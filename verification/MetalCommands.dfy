/** The deferred command buffer of the Metal device: which draws and clears have been committed before a texture
    is read (libobs-metal/MetalDevice.swift:207-329, 349-400, 535-589, 602-771,
    libobs-metal/metal-subsystem.swift:276-286, 357-403, 590-607, libobs-metal/metal-swapchain.swift:231-256). */
module MetalCommands {
  import opened Options

  /** A GPU command over textures; Generate makes a texture's mipmaps, Read is a blit out of a texture in a command
      buffer of its own, into another texture or elsewhere, Write one from elsewhere into a texture. */
  datatype Op<+T> =
    | Draw(t: T)
    | Clear(t: T)
    | Copy(src: T, dst: T)
    | Generate(of: T)
    | Read(src: T, to: Option<T>)
    | Write(dst: T)

  /** target is the current render target, changed the flag isRendertargetChanged, buffer the commands encoded
      but not committed, flagged the textures with hasPendingWrites, log every command in the order issued. */
  datatype Device<!T> = Device(
    target: Option<T>,
    srgb: bool,
    changed: bool,
    buffer: Option<seq<Op<T>>>,
    inFlight: set<T>,
    flagged: set<T>,
    committed: seq<Op<T>>,
    log: seq<Op<T>>)

  function Start<T>(): Device<T> {
    Device(None, false, false, None, {}, {}, [], [])
  }

  /** How far a draw or a clear gets: no command buffer could be made, the draw lacked a shader or buffer, the
      pipeline or the encoder could not be made, or the command was encoded. */
  datatype Outcome = NoBuffer | NotReady | NoPipeline | NoEncoder | Encoded

  datatype Event<T> =
    | BeginFrame
    | SetTarget(target: Option<T>, depth: bool)
    | EnableSrgb(enable: bool)
    | LoadChain(made: Option<T>, sdr: bool)
    | DoClear(how: Outcome)
    | DoDraw(how: Outcome)
    | CopyTexture(src: T, dst: T, how: Outcome)
    | GenerateMipmaps(of: T, how: Outcome)
    | Stage(from: T, to: Option<T>, encoded: bool)
    | Upload(onto: T, encoded: bool)
    | Flush

  /** finishPendingCommands. */
  function Finished<T>(d: Device<T>): Device<T> {
    match d.buffer
    case None => d
    case Some(ops) => d.(committed := d.committed + ops, flagged := d.flagged - d.inFlight, inFlight := {},
                         buffer := None)
  }

  /** ensureCommandBuffer, when it does not throw. */
  function Ensured<T>(d: Device<T>): Device<T> {
    if d.buffer.None? then d.(buffer := Some([])) else d
  }

  function Marked<T>(d: Device<T>, t: T): Device<T> {
    d.(flagged := d.flagged + {t}, inFlight := d.inFlight + {t})
  }

  function Encode<T>(d: Device<T>, op: Op<T>): Device<T>
    requires d.buffer.Some?
  {
    d.(buffer := Some(d.buffer.value + [op]), log := d.log + [op])
  }

  function Commit<T>(d: Device<T>, op: Op<T>): Device<T> {
    d.(committed := d.committed + [op], log := d.log + [op])
  }

  function FinishedFor<T>(d: Device<T>, src: T): Device<T> {
    if src in d.flagged then Finished(d) else d
  }

  function Next<T>(d: Device<T>, e: Event<T>): Device<T> {
    match e
    case BeginFrame => d.(target := None, srgb := false)
    case SetTarget(t, depth) => d.(target := t, changed := d.changed || t.Some? || depth)
    case EnableSrgb(b) => d.(srgb := b, changed := d.changed || d.srgb != b)
    case LoadChain(made, sdr) => if made.None? then d.(srgb := sdr)
                                 else d.(target := made, srgb := sdr, changed := true)
    case DoClear(how) =>
      if how.NoBuffer? && d.buffer.None? then d
      else
        var c := Ensured(d);
        if d.target.None? || how.NotReady? || how.NoPipeline? || how.NoBuffer? then c
        else
          var m := Marked(c, d.target.value);
          if how.Encoded? then Encode(m, Clear(d.target.value)) else m
    case DoDraw(how) =>
      if how.NoBuffer? && d.buffer.None? then d
      else
        var c := Ensured(d);
        if d.target.None? || how.NotReady? || how.NoBuffer? then c
        else
          var m := if d.changed then Marked(c, d.target.value) else c;
          if how.Encoded? then Encode(m, Draw(d.target.value)) else m
    case CopyTexture(src, dst, how) =>
      var f := FinishedFor(d, src);
      if how.NoBuffer? && f.buffer.None? then f
      else if how.Encoded? then Encode(Ensured(f), Copy(src, dst))
      else Ensured(f)
    case GenerateMipmaps(t, how) =>
      if how.NoBuffer? && d.buffer.None? then d
      else if how.Encoded? then Encode(Ensured(d), Generate(t))
      else Ensured(d)
    case Stage(src, dst, encoded) =>
      var f := FinishedFor(d, src);
      if encoded then Commit(f, Read(src, dst)) else f
    case Upload(dst, encoded) => if encoded then Commit(d, Write(dst)) else d
    case Flush => Finished(d)
  }

  function Run<T>(events: seq<Event<T>>): Device<T> {
    if events == [] then Start() else Next(Run(events[..|events| - 1]), events[|events| - 1])
  }

  // ---- what a run issues, told from its events alone ----

  /** The render target: the one set last, none once a frame begins, the drawable of a swap chain that has one. */
  function TargetAfter<T>(events: seq<Event<T>>): Option<T> {
    if events == [] then None
    else
      var before := TargetAfter(events[..|events| - 1]);
      match events[|events| - 1]
      case BeginFrame => None
      case SetTarget(t, _) => t
      case LoadChain(made, _) => if made.Some? then made else before
      case _ => before
  }

  /** The command that an event issues; a draw and a clear are into the target, if there is one. */
  function Issues<T>(target: Option<T>, e: Event<T>): seq<Op<T>> {
    match e
    case DoClear(how) => if how == Encoded && target.Some? then [Clear(target.value)] else []
    case DoDraw(how) => if how == Encoded && target.Some? then [Draw(target.value)] else []
    case CopyTexture(src, dst, how) => if how == Encoded then [Copy(src, dst)] else []
    case GenerateMipmaps(t, how) => if how == Encoded then [Generate(t)] else []
    case Stage(src, dst, encoded) => if encoded then [Read(src, dst)] else []
    case Upload(dst, encoded) => if encoded then [Write(dst)] else []
    case BeginFrame => []
    case SetTarget(_, _) => []
    case EnableSrgb(_) => []
    case LoadChain(_, _) => []
    case Flush => []
  }

  /** Every command that a run issues, in order. */
  function Issued<T>(events: seq<Event<T>>): seq<Op<T>> {
    if events == [] then []
    else
      var before := events[..|events| - 1];
      Issued(before) + Issues(TargetAfter(before), events[|events| - 1])
  }

  /** The device keeps the target and the commands that its events say. */
  lemma {:induction false} RunIssued<T>(events: seq<Event<T>>)
    ensures Run(events).log == Issued(events) && Run(events).target == TargetAfter(events)
  {
    if events != [] {
      var before, e := events[..|events| - 1], events[|events| - 1];
      RunIssued(before);
      hide Issued, TargetAfter, Issues, Run;
      NextIssued(Run(before), e);
      RunSnoc(before, e);
      IssuedSnoc(before, e);
      assert before + [e] == events;
    }
  }

  lemma {:induction false} NextIssued<T>(d: Device<T>, e: Event<T>)
    ensures Next(d, e).log == d.log + Issues(d.target, e)
    ensures Next(d, e).target == match e
                                 case BeginFrame => None
                                 case SetTarget(t, _) => t
                                 case LoadChain(made, _) => if made.Some? then made else d.target
                                 case _ => d.target
  {
    assert d.log + [] == d.log;
  }

  lemma {:induction false} IssuedSnoc<T>(before: seq<Event<T>>, e: Event<T>)
    ensures Issued(before + [e]) == Issued(before) + Issues(TargetAfter(before), e)
    ensures TargetAfter(before + [e]) == match e
                                         case BeginFrame => None
                                         case SetTarget(t, _) => t
                                         case LoadChain(made, _) => if made.Some? then made else TargetAfter(before)
                                         case _ => TargetAfter(before)
  {
    assert (before + [e])[..|before|] == before;
  }

  /** What has been committed, and what waits, is what was logged. */
  ghost predicate Conserves<T>(d: Device<T>) {
    multiset(d.committed) + multiset(Open(d)) == multiset(d.log)
  }

  /** No command is lost and none is made up: what has been committed, and what waits, is what was issued. */
  lemma {:induction false} NothingLost<T>(events: seq<Event<T>>)
    ensures multiset(Run(events).committed) + multiset(Open(Run(events))) == multiset(Issued(events))
  {
    RunConserves(events);
    RunIssued(events);
  }

  lemma {:induction false} RunConserves<T>(events: seq<Event<T>>)
    ensures Conserves(Run(events))
  {
    if events != [] {
      var before, e := events[..|events| - 1], events[|events| - 1];
      RunConserves(before);
      NextConserves(Run(before), e);
    }
  }

  lemma {:induction false} NextConserves<T>(d: Device<T>, e: Event<T>)
    requires Conserves(d)
    ensures Conserves(Next(d, e))
  {
    hide Conserves;
    if e.DoClear? || e.DoDraw? || e.CopyTexture? || e.GenerateMipmaps? {
      EncodingConserves(d, e);
    } else {
      FinishedConserves(d);
      hide Finished;
      if e.Stage? {
        CommitConserves(FinishedFor(d, e.from), Read(e.from, e.to));
      } else if e.Upload? {
        CommitConserves(d, Write(e.onto));
      } else if !e.Flush? {
        SameConserves(d, Next(d, e));
      }
    }
  }

  lemma {:induction false} EncodingConserves<T>(d: Device<T>, e: Event<T>)
    requires Conserves(d) && (e.DoClear? || e.DoDraw? || e.CopyTexture? || e.GenerateMipmaps?)
    ensures Conserves(Next(d, e))
  {
    hide Conserves;
    if e.CopyTexture? || e.GenerateMipmaps? {
      CopyingConserves(d, e);
    } else if d.target.None? || e.how != Encoded {
      SameConserves(d, Next(d, e));
    } else if e.DoClear? {
      EncodeConserves(d, Marked(Ensured(d), d.target.value), Clear(d.target.value));
    } else {
      EncodeConserves(d, if d.changed then Marked(Ensured(d), d.target.value) else Ensured(d), Draw(d.target.value));
    }
  }

  lemma {:induction false} CopyingConserves<T>(d: Device<T>, e: Event<T>)
    requires Conserves(d) && (e.CopyTexture? || e.GenerateMipmaps?)
    ensures Conserves(Next(d, e))
  {
    hide Conserves;
    if e.CopyTexture? {
      FinishedConserves(d);
      hide Finished;
      var f := FinishedFor(d, e.src);
      EncodeConserves(f, Ensured(f), Copy(e.src, e.dst));
      SameConserves(f, Ensured(f));
    } else {
      EncodeConserves(d, Ensured(d), Generate(e.of));
      SameConserves(d, Ensured(d));
    }
  }

  lemma {:induction false} FinishedConserves<T>(d: Device<T>)
    requires Conserves(d)
    ensures Conserves(Finished(d))
  {
  }

  lemma {:induction false} SameConserves<T>(d: Device<T>, r: Device<T>)
    requires Conserves(d) && (r.log, r.committed, Open(r)) == (d.log, d.committed, Open(d))
    ensures Conserves(r)
  {
  }

  lemma {:induction false} EncodeConserves<T>(d: Device<T>, m: Device<T>, op: Op<T>)
    requires Conserves(d) && (m.log, m.committed, Open(m)) == (d.log, d.committed, Open(d)) && m.buffer.Some?
    ensures Conserves(Encode(m, op))
  {
  }

  lemma {:induction false} CommitConserves<T>(d: Device<T>, op: Op<T>)
    requires Conserves(d)
    ensures Conserves(Commit(d, op))
  {
  }

  function Open<T>(d: Device<T>): seq<Op<T>> {
    if d.buffer.Some? then d.buffer.value else []
  }

  // ---- what every run keeps ----

  predicate Targets<T(==)>(op: Op<T>, t: T) {
    (op.Draw? || op.Clear?) && op.t == t
  }

  /** The draws and clears into a texture, in order. */
  function Into<T(==)>(ops: seq<Op<T>>, t: T): seq<Op<T>> {
    if ops == [] then [] else (if Targets(ops[0], t) then [ops[0]] else []) + Into(ops[1..], t)
  }

  /** The render-target flag is never taken back, so a target is never without it; a texture is flagged
      exactly when it is in flight; something in flight means an uncommitted buffer; every uncommitted draw
      or clear is into a texture in flight. */
  ghost predicate Sound<T>(d: Device<T>) {
    && (d.target.Some? ==> d.changed)
    && d.flagged == d.inFlight
    && (d.inFlight != {} ==> d.buffer.Some?)
    && (forall op :: op in Open(d) && (op.Draw? || op.Clear?) ==> op.t in d.inFlight)
  }

  /** For each texture, its draws and clears reach the GPU, or wait to, in the order they were issued. */
  ghost predicate Ordered<T>(d: Device<T>, t: T) {
    Into(d.log, t) == Into(d.committed, t) + Into(Open(d), t)
  }

  lemma {:induction false} IntoConcat<T>(a: seq<Op<T>>, b: seq<Op<T>>, t: T)
    ensures Into(a + b, t) == Into(a, t) + Into(b, t)
  {
    if a == [] {
      assert a + b == b;
    } else {
      assert (a + b)[1..] == a[1..] + b && (a + b)[0] == a[0];
      IntoConcat(a[1..], b, t);
      var first := if Targets(a[0], t) then [a[0]] else [];
      assert Into(a, t) == first + Into(a[1..], t) && Into(a + b, t) == first + Into(a[1..] + b, t);
      hide Into;
      assert first + (Into(a[1..], t) + Into(b, t)) == (first + Into(a[1..], t)) + Into(b, t);
    }
  }

  lemma {:induction false} IntoNone<T>(ops: seq<Op<T>>, t: T)
    requires forall op :: op in ops ==> !Targets(op, t)
    ensures Into(ops, t) == []
  {
    if ops != [] {
      assert ops[0] in ops;
      IntoNone(ops[1..], t);
    }
  }

  lemma {:induction false} FinishedSound<T>(d: Device<T>)
    requires Sound(d)
    ensures Sound(Finished(d)) && Finished(d).inFlight == {} && Open(Finished(d)) == []
  {
  }

  lemma {:induction false} NextSound<T>(d: Device<T>, e: Event<T>)
    requires Sound(d)
    ensures Sound(Next(d, e))
  {
    FinishedSound(d);
    hide Finished;
  }

  lemma {:induction false} FinishedOrdered<T>(d: Device<T>, t: T)
    requires Ordered(d, t)
    ensures Ordered(Finished(d), t)
  {
    if d.buffer.Some? {
      IntoConcat(d.committed, d.buffer.value, t);
      assert Into(d.committed, t) + Into(d.buffer.value, t) + [] == Into(d.committed, t) + Into(d.buffer.value, t);
    }
  }

  lemma {:induction false} EncodeOrdered<T>(d: Device<T>, op: Op<T>, t: T)
    requires Ordered(d, t) && d.buffer.Some?
    ensures Ordered(Encode(d, op), t)
  {
    hide Into;
    IntoConcat(d.log, [op], t);
    IntoConcat(d.buffer.value, [op], t);
    var a, b, c := Into(d.committed, t), Into(d.buffer.value, t), Into([op], t);
    assert (a + b) + c == a + (b + c);
  }

  lemma {:induction false} CommitOrdered<T>(d: Device<T>, op: Op<T>, t: T)
    requires Ordered(d, t) && !Targets(op, t)
    ensures Ordered(Commit(d, op), t)
  {
    IntoConcat(d.log, [op], t);
    IntoConcat(d.committed, [op], t);
    IntoNone([op], t);
    assert Into(d.log, t) + [] == Into(d.log, t) && Into(d.committed, t) + [] == Into(d.committed, t);
  }

  lemma {:induction false} SameOrdered<T>(d: Device<T>, r: Device<T>, t: T)
    requires Ordered(d, t) && (r.log, r.committed, Open(r)) == (d.log, d.committed, Open(d))
    ensures Ordered(r, t)
  {
  }

  lemma {:induction false} NextOrdered<T>(d: Device<T>, e: Event<T>, t: T)
    requires Ordered(d, t)
    ensures Ordered(Next(d, e), t)
  {
    hide Into;
    if e.DoClear? && d.target.Some? && e.how.Encoded? {
      EncodesOrdered(d, Marked(Ensured(d), d.target.value), Clear(d.target.value), t);
    } else if e.DoDraw? && d.target.Some? && e.how.Encoded? {
      EncodesOrdered(d, if d.changed then Marked(Ensured(d), d.target.value) else Ensured(d), Draw(d.target.value), t);
    } else if e.CopyTexture? {
      FinishedOrdered(d, t);
      CopyOrdered(FinishedFor(d, e.src), e, t);
    } else if e.GenerateMipmaps? {
      SameOrdered(d, Ensured(d), t);
      EncodeOrdered(Ensured(d), Generate(e.of), t);
    } else if e.Stage? {
      FinishedOrdered(d, t);
      CommitOrdered(FinishedFor(d, e.from), Read(e.from, e.to), t);
    } else if e.Upload? {
      CommitOrdered(d, Write(e.onto), t);
    } else if e.Flush? {
      FinishedOrdered(d, t);
    } else {
      hide Ordered;
      SameOrdered(d, Next(d, e), t);
    }
  }

  lemma {:induction false} CopyOrdered<T>(f: Device<T>, e: Event<T>, t: T)
    requires Ordered(f, t) && e.CopyTexture?
    ensures Ordered(Ensured(f), t) && Ordered(Encode(Ensured(f), Copy(e.src, e.dst)), t)
  {
    SameOrdered(f, Ensured(f), t);
    EncodeOrdered(Ensured(f), Copy(e.src, e.dst), t);
  }

  lemma {:induction false} EncodesOrdered<T>(d: Device<T>, m: Device<T>, op: Op<T>, t: T)
    requires Ordered(d, t) && (m.log, m.committed, Open(m)) == (d.log, d.committed, Open(d)) && m.buffer.Some?
    ensures Ordered(Encode(m, op), t)
  {
    SameOrdered(d, m, t);
    EncodeOrdered(m, op, t);
  }

  lemma {:induction false} RunSound<T>(events: seq<Event<T>>, t: T)
    ensures Sound(Run(events)) && Ordered(Run(events), t)
    ensures Into(Issued(events), t) == Into(Run(events).committed, t) + Into(Open(Run(events)), t)
  {
    RunIssued(events);
    if events != [] {
      var before := events[..|events| - 1];
      RunSound(before, t);
      NextSound(Run(before), events[|events| - 1]);
      NextOrdered(Run(before), events[|events| - 1], t);
    }
  }

  /** The textures with a draw or a clear pending, told from the events alone: one that got as far as its pipeline
      (a clear that has it, a draw that has its shaders), and no commit since. */
  function Pending<T(==)>(events: seq<Event<T>>): set<T> {
    if events == [] then {}
    else
      var before := events[..|events| - 1];
      PendingNext(Pending(before), TargetAfter(before), events[|events| - 1])
  }

  function PendingNext<T(==)>(pending: set<T>, target: Option<T>, e: Event<T>): set<T> {
    match e
    case DoClear(how) =>
      if target.Some? && how in {NoEncoder, Encoded} then pending + {target.value} else pending
    case DoDraw(how) =>
      if target.Some? && how in {NoPipeline, NoEncoder, Encoded} then pending + {target.value} else pending
    case CopyTexture(src, _, _) => if src in pending then {} else pending
    case Stage(src, _, _) => if src in pending then {} else pending
    case Flush => {}
    case _ => pending
  }

  /** Those are the textures that the device holds in flight. */
  lemma {:induction false} RunPending<T>(events: seq<Event<T>>, t: T)
    ensures Run(events).inFlight == Run(events).flagged == Pending(events)
  {
    RunSound(events, t);
    if events != [] {
      var before, e := events[..|events| - 1], events[|events| - 1];
      RunPending(before, t);
      RunSound(before, t);
      RunIssued(before);
      hide Issued, TargetAfter, Into, Ordered;
      NextPending(Run(before), e);
    }
  }

  lemma {:induction false} NextPending<T>(d: Device<T>, e: Event<T>)
    requires Sound(d)
    ensures Next(d, e).inFlight == PendingNext(d.inFlight, d.target, e)
  {
  }

  /** In every run, whatever fails in it: when a staging read or a region copy of a texture is committed, all
      draws and clears issued into that texture before it have been committed before it, in their order. */
  lemma {:induction false} ReadAfterDraws<T>(events: seq<Event<T>>, src: T, dst: Option<T>)
    ensures var d := Run(events);
            var r := Next(d, Stage(src, dst, true));
            && r.committed != [] && r.committed[|r.committed| - 1] == Read(src, dst)
            && Into(r.committed[..|r.committed| - 1], src) == Into(Issued(events), src)
  {
    hide Run, Into, Issued;
    RunSound(events, src);
    RunIssued(events);
    var d := Run(events);
    var f := FinishedFor(d, src);
    FinishedSound(d);
    FinishedOrdered(d, src);
    IntoNone(Open(f), src);
    assert (f.committed + [Read(src, dst)])[..|f.committed|] == f.committed;
    assert Into(f.committed, src) + [] == Into(f.committed, src);
  }

  /** The same for a copy encoded into the command buffer: the draws and clears into its source are committed
      before the buffer the copy is in. */
  lemma {:induction false} CopyAfterDraws<T>(events: seq<Event<T>>, src: T, dst: T)
    ensures var d := Run(events);
            var r := Next(d, CopyTexture(src, dst, Encoded));
            && Into(r.committed, src) == Into(Issued(events), src)
            && r.buffer.Some? && r.buffer.value != [] && r.buffer.value[|r.buffer.value| - 1] == Copy(src, dst)
  {
    hide Run, Into, Issued;
    RunSound(events, src);
    RunIssued(events);
    var d := Run(events);
    var f := FinishedFor(d, src);
    FinishedSound(d);
    FinishedOrdered(d, src);
    IntoNone(Open(f), src);
    assert Into(f.committed, src) + [] == Into(f.committed, src);
  }

  /** A copy's destination is not tracked: reading it next finds the copy committed exactly when the
      destination had a draw or clear pending and the source had none, so that the copy joined a buffer that
      the read then commits. */
  lemma {:induction false} CopiedThenReadIff<T>(events: seq<Event<T>>, src: T, dst: T, to: Option<T>)
    ensures var d := Run(events);
            var r := Next(Next(d, CopyTexture(src, dst, Encoded)), Stage(dst, to, true));
            r.buffer.None? <==> (src !in Pending(events) && dst in Pending(events))
    ensures var d := Run(events);
            var r := Next(Next(d, CopyTexture(src, dst, Encoded)), Stage(dst, to, true));
            if src !in Pending(events) && dst in Pending(events)
            then 2 <= |r.committed| && r.committed[|r.committed| - 2] == Copy(src, dst)
            else r.buffer.Some? && r.buffer.value != [] && r.buffer.value[|r.buffer.value| - 1] == Copy(src, dst)
  {
    hide Run, Ordered, Issued, Into, Pending;
    RunSound(events, src);
    RunPending(events, src);
    FinishedSound(Run(events));
  }

  /** A texture whose mipmaps are generated is not tracked either: reading it next finds them generated exactly
      when it had a draw or clear pending already. */
  lemma {:induction false} GeneratedThenReadIff<T>(events: seq<Event<T>>, t: T, to: Option<T>)
    ensures var d := Run(events);
            var r := Next(Next(d, GenerateMipmaps(t, Encoded)), Stage(t, to, true));
            if t in Pending(events)
            then r.buffer.None? && 2 <= |r.committed| && r.committed[|r.committed| - 2] == Generate(t)
            else r.buffer.Some? && r.buffer.value != [] && r.buffer.value[|r.buffer.value| - 1] == Generate(t)
                 && r.committed != [] && r.committed[|r.committed| - 1] == Read(t, to)
  {
    hide Run, Ordered, Issued, Into, Pending;
    RunSound(events, t);
    RunPending(events, t);
  }

  // ---- all commands on a texture ----

  predicate Touches<T(==)>(op: Op<T>, t: T) {
    match op
    case Draw(x) => x == t
    case Clear(x) => x == t
    case Copy(x, y) => x == t || y == t
    case Generate(x) => x == t
    case Read(x, to) => x == t || to == Some(t)
    case Write(y) => y == t
  }

  function On<T(==)>(ops: seq<Op<T>>, t: T): seq<Op<T>> {
    if ops == [] then [] else (if Touches(ops[0], t) then [ops[0]] else []) + On(ops[1..], t)
  }

  /** The commands on t reach the GPU, or wait to, in the order in which they were issued. */
  ghost predicate InIssueOrder<T>(d: Device<T>, t: T) {
    On(d.log, t) == On(d.committed, t) + On(Open(d), t)
  }

  /** The command that an event commits at once, in a command buffer of its own. */
  function AtOnce<T>(e: Event<T>): Option<Op<T>> {
    match e
    case Stage(src, dst, encoded) => if encoded then Some(Read(src, dst)) else None
    case Upload(dst, encoded) => if encoded then Some(Write(dst)) else None
    case _ => None
  }

  /** What is still waiting when it does. */
  function Waiting<T>(d: Device<T>, e: Event<T>): seq<Op<T>> {
    Open(if e.Stage? then FinishedFor(d, e.from) else d)
  }

  /** A blit on t is committed past a command on t that waits: a region copy, staging read or upload touches t,
      does not read from a flagged texture, and something on t is encoded but not committed. */
  ghost predicate Overtakes<T>(d: Device<T>, e: Event<T>, t: T) {
    AtOnce(e).Some? && Touches(AtOnce(e).value, t) && On(Waiting(d, e), t) != []
  }

  predicate WaitsOnly<T>(d: Device<T>) {
    forall op :: op in Open(d) ==> !op.Read? && !op.Write?
  }

  lemma {:induction false} OnConcat<T>(a: seq<Op<T>>, b: seq<Op<T>>, t: T)
    ensures On(a + b, t) == On(a, t) + On(b, t)
  {
    if a == [] {
      assert a + b == b;
    } else {
      assert (a + b)[1..] == a[1..] + b && (a + b)[0] == a[0];
      OnConcat(a[1..], b, t);
      var first := if Touches(a[0], t) then [a[0]] else [];
      assert On(a, t) == first + On(a[1..], t) && On(a + b, t) == first + On(a[1..] + b, t);
      hide On;
      assert first + (On(a[1..], t) + On(b, t)) == (first + On(a[1..], t)) + On(b, t);
    }
  }

  lemma {:induction false} OnMembers<T>(ops: seq<Op<T>>, t: T)
    ensures forall op :: op in On(ops, t) ==> op in ops && Touches(op, t)
  {
    if ops != [] {
      OnMembers(ops[1..], t);
    }
  }

  lemma {:induction false} FinishedIssue<T>(d: Device<T>, t: T)
    requires InIssueOrder(d, t)
    ensures InIssueOrder(Finished(d), t)
  {
    if d.buffer.Some? {
      OnConcat(d.committed, d.buffer.value, t);
      assert On(d.committed, t) + On(d.buffer.value, t) + [] == On(d.committed, t) + On(d.buffer.value, t);
    }
  }

  lemma {:induction false} EncodeIssue<T>(d: Device<T>, m: Device<T>, op: Op<T>, t: T)
    requires InIssueOrder(d, t) && (m.log, m.committed, Open(m)) == (d.log, d.committed, Open(d)) && m.buffer.Some?
    ensures InIssueOrder(Encode(m, op), t)
  {
    hide On;
    OnConcat(m.log, [op], t);
    OnConcat(m.buffer.value, [op], t);
    var a, b, c := On(m.committed, t), On(m.buffer.value, t), On([op], t);
    assert (a + b) + c == a + (b + c);
  }

  lemma {:induction false} SameIssue<T>(d: Device<T>, r: Device<T>, t: T)
    requires InIssueOrder(d, t) && (r.log, r.committed, Open(r)) == (d.log, d.committed, Open(d))
    ensures InIssueOrder(r, t)
  {
  }

  /** A command committed at once stays in order exactly when nothing on t waits, or it is not on t. */
  lemma {:induction false} CommitIssue<T>(d: Device<T>, op: Op<T>, t: T)
    requires InIssueOrder(d, t) && WaitsOnly(d) && (op.Read? || op.Write?)
    ensures InIssueOrder(Commit(d, op), t) <==> !(Touches(op, t) && On(Open(d), t) != [])
  {
    OnConcat(d.log, [op], t);
    OnConcat(d.committed, [op], t);
    OnMembers(Open(d), t);
    assert On([op], t) == (if Touches(op, t) then [op] else []) + [] by {
      assert [op][1..] == [];
    }
    var a, b := On(d.committed, t), On(Open(d), t);
    if Touches(op, t) {
      var l, r := a + b + [op], a + [op] + b;
      assert On([op], t) == [op];
      if b != [] {
        assert b[0] in b;
        assert l[|a|] == b[0] && r[|a|] == op;
      } else {
        assert l == r;
      }
    } else {
      assert a + b + [] == a + [] + b;
    }
  }

  lemma {:induction false} NextWaits<T>(d: Device<T>, e: Event<T>)
    requires WaitsOnly(d)
    ensures WaitsOnly(Next(d, e))
  {
  }

  lemma {:induction false} NextIssue<T>(d: Device<T>, e: Event<T>, t: T)
    requires InIssueOrder(d, t) && WaitsOnly(d)
    ensures InIssueOrder(Next(d, e), t) <==> !Overtakes(d, e, t)
  {
    hide InIssueOrder, On;
    if e.Stage? {
      FinishedIssue(d, t);
      var f := FinishedFor(d, e.from);
      if e.encoded {
        CommitIssue(f, Read(e.from, e.to), t);
      }
    } else if e.Upload? {
      if e.encoded {
        CommitIssue(d, Write(e.onto), t);
      }
    } else {
      PlainIssue(d, e, t);
    }
  }

  lemma {:induction false} PlainIssue<T>(d: Device<T>, e: Event<T>, t: T)
    requires InIssueOrder(d, t) && !e.Stage? && !e.Upload?
    ensures InIssueOrder(Next(d, e), t)
  {
    hide InIssueOrder;
    if e.DoClear? && d.target.Some? && e.how.Encoded? {
      EncodeIssue(d, Marked(Ensured(d), d.target.value), Clear(d.target.value), t);
    } else if e.DoDraw? && d.target.Some? && e.how.Encoded? {
      EncodeIssue(d, if d.changed then Marked(Ensured(d), d.target.value) else Ensured(d), Draw(d.target.value), t);
    } else if e.CopyTexture? {
      FinishedIssue(d, t);
      var f := FinishedFor(d, e.src);
      EncodeIssue(f, Ensured(f), Copy(e.src, e.dst), t);
      SameIssue(f, Ensured(f), t);
    } else if e.GenerateMipmaps? {
      EncodeIssue(d, Ensured(d), Generate(e.of), t);
      SameIssue(d, Ensured(d), t);
    } else if e.Flush? {
      FinishedIssue(d, t);
    } else {
      SameIssue(d, Next(d, e), t);
    }
  }

  lemma {:induction false} RunWaits<T>(events: seq<Event<T>>)
    ensures WaitsOnly(Run(events))
  {
    if events != [] {
      RunWaits(events[..|events| - 1]);
      NextWaits(Run(events[..|events| - 1]), events[|events| - 1]);
    }
  }

  ghost predicate KeepsOrder<T>(events: seq<Event<T>>, t: T) {
    forall k :: 0 <= k <= |events| ==>
      var d := Run(events[..k]);
      On(Issued(events[..k]), t) == On(d.committed, t) + On(Open(d), t)
  }

  lemma {:induction false} KeepsIff<T>(events: seq<Event<T>>, t: T)
    ensures KeepsOrder(events, t) <==> forall k :: 0 <= k <= |events| ==> InIssueOrder(Run(events[..k]), t)
  {
    hide Run, Issued, On;
    forall k | 0 <= k <= |events|
      ensures Run(events[..k]).log == Issued(events[..k])
    {
      RunIssued(events[..k]);
    }
  }

  ghost predicate NeverOvertakes<T>(events: seq<Event<T>>, t: T) {
    forall k :: 0 <= k < |events| ==> Overtakes(Run(events[..k]), events[k], t) == false
  }

  lemma {:induction false} KeepsSnoc<T>(before: seq<Event<T>>, e: Event<T>, t: T)
    ensures KeepsOrder(before + [e], t) <==> KeepsOrder(before, t) && InIssueOrder(Next(Run(before), e), t)
  {
    hide InIssueOrder, Next, KeepsOrder;
    var all := before + [e];
    RunSnoc(before, e);
    hide Run;
    KeepsIff(before, t);
    KeepsIff(all, t);
    forall k | 0 <= k <= |before|
      ensures all[..k] == before[..k]
    {
    }
    assert all[..|all|] == all;
    if KeepsOrder(all, t) {
      assert InIssueOrder(Run(all[..|all|]), t);
      forall k | 0 <= k <= |before|
        ensures InIssueOrder(Run(before[..k]), t)
      {
        assert all[..k] == before[..k];
      }
    }
  }

  lemma {:induction false} RunSnoc<T>(before: seq<Event<T>>, e: Event<T>)
    ensures Run(before + [e]) == Next(Run(before), e)
  {
    assert (before + [e])[..|before|] == before;
  }

  lemma {:induction false} NeverSnoc<T>(before: seq<Event<T>>, e: Event<T>, t: T)
    ensures NeverOvertakes(before + [e], t) <==> NeverOvertakes(before, t) && !Overtakes(Run(before), e, t)
  {
    hide Overtakes, Run;
    var all := before + [e];
    forall k | 0 <= k <= |before|
      ensures all[..k] == before[..k]
    {
    }
    assert before[..|before|] == before && all[|before|] == e;
    if NeverOvertakes(all, t) {
      assert Overtakes(Run(all[..|before|]), all[|before|], t) == false;
      forall k | 0 <= k < |before|
        ensures Overtakes(Run(before[..k]), before[k], t) == false
      {
        assert all[..k] == before[..k] && all[k] == before[k];
      }
    }
  }

  /** Over all runs: the commands on a texture are committed in the order of their issue, at every point of the
      run, if and only if no blit overtakes a waiting command on it. */
  lemma {:induction false} RunInIssueOrder<T>(events: seq<Event<T>>, t: T)
    ensures KeepsOrder(events, t) <==> NeverOvertakes(events, t)
  {
    if events == [] {
      StartInOrder(t);
    } else {
      var before, e := events[..|events| - 1], events[|events| - 1];
      hide InIssueOrder, Overtakes, Run, Next, KeepsOrder, NeverOvertakes;
      assert events == before + [e];
      RunInIssueOrder(before, t);
      KeepsSnoc(before, e, t);
      NeverSnoc(before, e, t);
      RunWaits(before);
      if KeepsOrder(before, t) {
        KeepsIff(before, t);
        assert before[..|before|] == before;
        assert InIssueOrder(Run(before[..|before|]), t);
        NextIssue(Run(before), e, t);
      }
    }
  }

  lemma {:induction false} StartInOrder<T>(t: T)
    ensures KeepsOrder([], t)
  {
  }
}
