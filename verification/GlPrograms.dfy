/** The GL program cache: one linked program per pair of shaders, found at each draw and dropped when
    either shader goes away (libobs-opengl/gl-shader.c:281-300, 601-690,
    libobs-opengl/gl-subsystem.c:327-340, 1076-1139). */
module GlPrograms {
  import opened IntrusiveList
  import opened Lists
  import opened Options
  import opened Stages

  /** A program's two shaders, by address. */
  datatype Key = Key(vertex: nat, pixel: nat)

  predicate Uses(k: Key, stage: Stage, shader: nat) {
    match stage
    case VertexStage => k.vertex == shader
    case PixelStage => k.pixel == shader
  }

  // ---- the cache as a value ----

  datatype Cache = Cache(keys: seq<Key>, current: Option<Key>)

  function Without(keys: seq<Key>, stage: Stage, shader: nat): seq<Key> {
    if keys == [] then []
    else (if Uses(keys[0], stage, shader) then [] else [keys[0]]) + Without(keys[1..], stage, shader)
  }

  datatype Event =
    | Draw(key: Key, links: bool)
    | Destroy(stage: Stage, shader: nat)

  function Next(c: Cache, e: Event): Cache {
    match e
    case Draw(k, links) =>
      if k in c.keys then Cache(c.keys, Some(k))
      else if links then Cache([k] + c.keys, Some(k))
      else c
    case Destroy(stage, s) =>
      Cache(Without(c.keys, stage, s),
            if c.current.Some? && c.current.value in c.keys && Uses(c.current.value, stage, s) then None else c.current)
  }

  function Run(events: seq<Event>): Cache {
    if events == [] then Cache([], None)
    else Next(Run(events[..|events| - 1]), events[|events| - 1])
  }

  lemma {:induction false} WithoutMembers(keys: seq<Key>, stage: Stage, s: nat, k: Key)
    ensures k in Without(keys, stage, s) <==> k in keys && !Uses(k, stage, s)
  {
    if keys != [] {
      WithoutMembers(keys[1..], stage, s, k);
    }
  }

  lemma {:induction false} WithoutDistinct(keys: seq<Key>, stage: Stage, s: nat)
    requires Distinct(keys)
    ensures Distinct(Without(keys, stage, s))
  {
    if keys != [] {
      WithoutDistinct(keys[1..], stage, s);
      WithoutMembers(keys[1..], stage, s, keys[0]);
      assert keys[0] !in keys[1..];
    }
  }

  /** k was drawn with success at i and neither of its shaders has been destroyed since. */
  predicate AliveSince(events: seq<Event>, k: Key, i: int) {
    && 0 <= i < |events| && events[i] == Draw(k, true)
    && forall j :: i < j < |events| && events[j].Destroy? ==> !Uses(k, events[j].stage, events[j].shader)
  }

  /** In every run of draws and shader destructions the cache holds at most one program per pair of
      shaders, the current program is in it, and the pairs in it are exactly those that have been drawn
      since either shader was last destroyed. */
  lemma {:induction false} RunExact(events: seq<Event>)
    ensures Distinct(Run(events).keys)
    ensures Run(events).current.Some? ==> Run(events).current.value in Run(events).keys
    ensures forall k :: k in Run(events).keys <==> exists i :: AliveSince(events, k, i)
  {
    if events != [] {
      var before, e := events[..|events| - 1], events[|events| - 1];
      RunExact(before);
      var c := Run(before);
      forall k
        ensures k in Run(events).keys <==> exists i :: AliveSince(events, k, i)
      {
        if e.Destroy? {
          WithoutMembers(c.keys, e.stage, e.shader, k);
        }
        AliveStep(before, e, k);
        assert before + [e] == events;
      }
      if e.Destroy? {
        WithoutDistinct(c.keys, e.stage, e.shader);
        if c.current.Some? {
          WithoutMembers(c.keys, e.stage, e.shader, c.current.value);
        }
      }
    }
  }

  /** The pair drawn last with a program of its own, as long as its shaders live: told from the events alone. */
  ghost function LastDrawn(events: seq<Event>): Option<Key> {
    if events == [] then None
    else
      var before := events[..|events| - 1];
      match events[|events| - 1]
      case Draw(k, links) =>
        if links || (exists i :: AliveSince(before, k, i)) then Some(k) else LastDrawn(before)
      case Destroy(stage, s) =>
        var last := LastDrawn(before);
        if last.Some? && Uses(last.value, stage, s) then None else last
  }

  /** The current program is the one of that pair. */
  lemma {:induction false} RunCurrent(events: seq<Event>)
    ensures Run(events).current == LastDrawn(events)
  {
    if events != [] {
      var before, e := events[..|events| - 1], events[|events| - 1];
      RunCurrent(before);
      RunExact(before);
      hide AliveSince, Without;
      if e.Draw? {
        assert e.key in Run(before).keys <==> exists i :: AliveSince(before, e.key, i);
      }
    }
  }

  lemma {:induction false} AliveStep(before: seq<Event>, e: Event, k: Key)
    ensures (exists i :: AliveSince(before + [e], k, i)) <==>
              (e == Draw(k, true) ||
               ((exists i :: AliveSince(before, k, i)) && !(e.Destroy? && Uses(k, e.stage, e.shader))))
  {
    var events := before + [e];
    if e == Draw(k, true) {
      assert AliveSince(events, k, |before|);
    } else if (exists i :: AliveSince(before, k, i)) && !(e.Destroy? && Uses(k, e.stage, e.shader)) {
      var i :| AliveSince(before, k, i);
      assert AliveSince(events, k, i);
    }
    if exists i :: AliveSince(events, k, i) {
      var i :| AliveSince(events, k, i);
      if i < |before| {
        assert events[|before|] == e;
        forall j | i < j < |before| && before[j].Destroy?
          ensures !Uses(k, before[j].stage, before[j].shader)
        {
          assert events[j] == before[j];
        }
        assert AliveSince(before, k, i);
      }
    }
  }

  // ---- the device ----

  function KeysOf(nodes: seq<Node<Key>>): (keys: seq<Key>)
    ensures |keys| == |nodes|
    ensures forall i :: 0 <= i < |nodes| ==> keys[i] == nodes[i].item
  {
    if nodes == [] then [] else [nodes[0].item] + KeysOf(nodes[1..])
  }

  /** The elements that do not use a shader. */
  ghost function Keep(nodes: seq<Node<Key>>, stage: Stage, s: nat): seq<Node<Key>> {
    if nodes == [] then []
    else (if Uses(nodes[0].item, stage, s) then [] else [nodes[0]]) + Keep(nodes[1..], stage, s)
  }

  lemma {:induction false} KeepKeys(nodes: seq<Node<Key>>, stage: Stage, s: nat)
    ensures KeysOf(Keep(nodes, stage, s)) == Without(KeysOf(nodes), stage, s)
    ensures forall n :: n in Keep(nodes, stage, s) <==> n in nodes && !Uses(n.item, stage, s)
  {
    if nodes != [] {
      KeepKeys(nodes[1..], stage, s);
      assert KeysOf(nodes)[1..] == KeysOf(nodes[1..]);
      assert !Uses(nodes[0].item, stage, s) ==> Keep(nodes, stage, s)[1..] == Keep(nodes[1..], stage, s);
    }
  }

  lemma {:induction false} KeysSplice(nodes: seq<Node<Key>>, i: nat)
    requires i < |nodes|
    ensures KeysOf(nodes[..i] + nodes[i + 1..]) == KeysOf(nodes)[..i] + KeysOf(nodes)[i + 1..]
  {
    if i == 0 {
      assert nodes[..0] + nodes[1..] == nodes[1..];
      assert KeysOf(nodes)[1..] == KeysOf(nodes[1..]);
    } else {
      var less, rest := nodes[..i] + nodes[i + 1..], nodes[1..];
      KeysSplice(rest, i - 1);
      assert less[1..] == rest[..i - 1] + rest[i..];
      assert KeysOf(nodes) == [nodes[0].item] + KeysOf(rest);
    }
  }

  /** One turn of the removal loop over the elements done and rest. */
  lemma {:induction false} KeepTurn(done: seq<Node<Key>>, rest: seq<Node<Key>>, stage: Stage, s: nat)
    returns (done': seq<Node<Key>>)
    requires rest != []
    ensures (done + rest)[|done|] == rest[0]
    ensures NextAt(done + rest, |done|) == if rest[1..] == [] then null else rest[1..][0]
    ensures done' + rest[1..] ==
            if Uses(rest[0].item, stage, s) then (done + rest)[..|done|] + (done + rest)[|done| + 1..] else done + rest
    ensures done + Keep(rest, stage, s) == done' + Keep(rest[1..], stage, s)
  {
    done' := if Uses(rest[0].item, stage, s) then done else done + [rest[0]];
    assert rest == [rest[0]] + rest[1..];
  }

  class Device {
    const programs: List<Key>
    var curProgram: Node?<Key>
    var curVertexShader: nat
    var curPixelShader: nat

    ghost predicate Valid()
      reads this, programs, programs.nodes
    {
      && programs.Valid()
      && Distinct(KeysOf(programs.nodes))
      && (curProgram != null ==> curProgram in programs.nodes)
    }

    ghost function Value(): Cache
      reads this, programs
    {
      Cache(KeysOf(programs.nodes), if curProgram == null then None else Some(curProgram.item))
    }

    constructor ()
      ensures Valid() && Value() == Cache([], None) && fresh(programs)
    {
      programs := new List<Key>();
      curProgram := null;
      curVertexShader, curPixelShader := 0, 0;
    }

    /** find_program. */
    method FindProgram() returns (program: Node?<Key>)
      requires Valid()
      ensures program == null ==> Key(curVertexShader, curPixelShader) !in KeysOf(programs.nodes)
      ensures program != null ==> program in programs.nodes && program.item == Key(curVertexShader, curPixelShader)
    {
      program := programs.first;
      ghost var i := 0;
      while program != null
        invariant 0 <= i <= |programs.nodes|
        invariant program == if i < |programs.nodes| then programs.nodes[i] else null
        invariant forall j :: 0 <= j < i ==> programs.nodes[j].item != Key(curVertexShader, curPixelShader)
        decreases |programs.nodes| - i
      {
        if program.item.vertex == curVertexShader && program.item.pixel == curPixelShader {
          return;
        }
        program := program.next;
        i := i + 1;
      }
    }

    /** gs_program_create: a program is put on the list only once it has linked; one that has not is
        destroyed before it ever gets there. */
    method CreateProgram(links: bool) returns (program: Node?<Key>)
      requires Valid() && Key(curVertexShader, curPixelShader) !in KeysOf(programs.nodes)
      modifies this`curProgram, programs, programs.Elements()
      ensures Valid() && (program == null <==> !links) && curProgram == old(curProgram)
      ensures !links ==> programs.nodes == old(programs.nodes)
      ensures links ==> fresh(program) && program.item == Key(curVertexShader, curPixelShader)
                        && programs.nodes == [program] + old(programs.nodes)
    {
      program := new Node<Key>(Key(curVertexShader, curPixelShader));
      if !links {
        DestroyProgram(program, -1);
        return null;
      }
      programs.LinkFront(program);
    }

    /** The program handling of device_draw. */
    method DrawWith(links: bool) returns (ok: bool)
      requires Valid()
      modifies this, programs, programs.Elements()
      ensures Valid()
      ensures Value() == Next(old(Value()), Draw(old(Key(curVertexShader, curPixelShader)), links))
      ensures ok ==> curProgram != null && curProgram.item == Key(curVertexShader, curPixelShader)
      ensures ok <==> links || old(Key(curVertexShader, curPixelShader) in KeysOf(programs.nodes))
    {
      var program := FindProgram();
      if program == null {
        program := CreateProgram(links);
        if program != null {
          assert programs.nodes[1..] == old(programs.nodes);
        }
      }
      if program == null {
        return false;
      }
      if program != curProgram {
        curProgram := program;
      }
      return true;
    }

    /** gs_program_destroy: program is element number i, or was never put on the list. */
    method DestroyProgram(program: Node<Key>, ghost i: int)
      requires Valid()
      requires if i == -1 then program !in programs.nodes && program.prevNext == Unlinked
               else 0 <= i < |programs.nodes| && programs.nodes[i] == program
      modifies this`curProgram, programs, programs.Elements()
      ensures Valid()
      ensures programs.nodes == if i == -1 then old(programs.nodes)
                                else old(programs.nodes)[..i] + old(programs.nodes)[i + 1..]
      ensures curProgram == if old(curProgram) == program then null else old(curProgram)
      ensures programs.Elements() <= old(programs.Elements())
      ensures program.next == old(program.next)
    {
      if i != -1 {
        programs.Stored(i);
        KeysSplice(programs.nodes, i);
        FewerNodes(programs.nodes, i);
        DropDistinct(KeysOf(programs.nodes), i);
      }
      hide Distinct, KeysOf, List.Valid, NodeSet;
      if curProgram == program {
        curProgram := null;
      }
      if program.prevNext != Unlinked {
        programs.Unlink(program, i);
      }
    }

    /** remove_program_references. */
    method RemoveProgramReferences(stage: Stage, shader: nat)
      requires Valid()
      modifies this`curProgram, programs, programs.Elements()
      ensures Valid() && programs.nodes == Keep(old(programs.nodes), stage, shader)
      ensures old(curProgram) == null ==> curProgram == null
      ensures old(curProgram) != null ==>
              curProgram == if Uses(old(curProgram.item), stage, shader) then null else old(curProgram)
    {
      ghost var done, rest: seq<Node<Key>> := [], programs.nodes;
      var program := programs.first;
      First();
      assert [] + rest == rest;
      hide Distinct, KeysOf, List.Valid, List.Elements, Uses;
      while program != null
        invariant Valid() && programs.nodes == done + rest
        invariant programs.Elements() <= old(programs.Elements())
        invariant done + Keep(rest, stage, shader) == Keep(old(programs.nodes), stage, shader)
        invariant program == if rest == [] then null else rest[0]
        invariant curProgram == old(curProgram) || (curProgram == null && Uses(old(curProgram).item, stage, shader))
        invariant curProgram != null && Uses(curProgram.item, stage, shader) ==> curProgram in rest
        decreases rest
      {
        assert rest == [rest[0]] + rest[1..];
        ghost var done';
        program, done' := RemoveTurn(program, done, rest, stage, shader);
        done, rest := done', rest[1..];
      }
      assert done + [] == done;
    }

    /** One turn of its loop: the successor is read before the program it belongs to is destroyed. */
    method RemoveTurn(program: Node<Key>, ghost done: seq<Node<Key>>, ghost rest: seq<Node<Key>>, stage: Stage,
                      shader: nat)
      returns (next: Node?<Key>, ghost done': seq<Node<Key>>)
      requires Valid() && programs.nodes == done + rest && rest != [] && program == rest[0]
      modifies this`curProgram, programs, programs.Elements()
      ensures Valid() && programs.nodes == done' + rest[1..]
      ensures programs.Elements() <= old(programs.Elements())
      ensures done + Keep(rest, stage, shader) == done' + Keep(rest[1..], stage, shader)
      ensures next == if rest[1..] == [] then null else rest[1..][0]
      ensures curProgram == if old(curProgram) == program && Uses(program.item, stage, shader) then null
                            else old(curProgram)
    {
      done' := KeepTurn(done, rest, stage, shader);
      programs.Stored(|done|);
      hide Distinct, KeysOf, List.Valid, List.Elements, Keep;
      next := program.next;
      if Uses(program.item, stage, shader) {
        DestroyProgram(program, |done|);
      }
    }

    /** gs_shader_destroy, as far as programs go. */
    method DestroyShader(stage: Stage, shader: nat)
      requires Valid()
      modifies this`curProgram, programs, programs.Elements()
      ensures Valid()
      ensures Value() == Next(old(Value()), Destroy(stage, shader))
    {
      if curProgram != null {
        ghost var c :| 0 <= c < |programs.nodes| && programs.nodes[c] == curProgram;
        assert KeysOf(programs.nodes)[c] == curProgram.item;
      }
      KeepKeys(programs.nodes, stage, shader);
      RemoveProgramReferences(stage, shader);
    }

    lemma {:induction false} First()
      requires Valid()
      ensures programs.first == if programs.nodes == [] then null else programs.nodes[0]
    {
    }

    /** device_destroy's loop: destroys the first program until there is none. */
    method DestroyAll()
      requires Valid()
      modifies this`curProgram, programs, programs.Elements()
      ensures Valid() && programs.first == null && programs.nodes == [] && curProgram == null
    {
      ghost var all, k: nat := programs.nodes, 0;
      First();
      hide Distinct, KeysOf, List.Valid, List.Elements, NodeSet;
      while programs.first != null
        invariant programs.Elements() <= old(programs.Elements())
        invariant Valid() && k <= |all| && programs.nodes == all[k..]
        invariant programs.first == if programs.nodes == [] then null else programs.nodes[0]
        decreases |all| - k
      {
        DestroyProgram(programs.first, 0);
        First();
        k := k + 1;
      }
    }
  }
}
