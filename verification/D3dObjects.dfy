/** The registered objects of the D3D11 device and the loop that rebuilds them
    (libobs-d3d11/d3d11-subsystem.cpp:50-68, 3293-3360, libobs-d3d11/d3d11-rebuild.cpp:124-189, 431-566). */
module D3dObjects {
  import opened D3dRebuild
  import opened IntrusiveList
  import opened Lists
  import opened Options

  datatype Kind =
    | VertexBuffer | IndexBuffer | Texture2D | ZStencilBuffer | StageSurface | SamplerState | VertexShader
    | PixelShader | Duplicator | SwapChain | Timer | TimerRange | Texture3D

  /** What an object holds on the GPU: something made on one device. */
  datatype Resource = Resource(device: nat, serial: nat)

  class GsObj {
    const kind: Kind
    const chroma: bool
    var paired: GsObj?
    var resource: Option<Resource>

    constructor (kind: Kind, chroma: bool, resource: Resource)
      ensures this.kind == kind && this.chroma == chroma && paired == null && this.resource == Some(resource)
    {
      this.kind, this.chroma := kind, chroma;
      paired, this.resource := null, Some(resource);
    }
  }

  ghost function EntryOf(o: GsObj): Entry<GsObj>
    reads o`paired
  {
    var partner: Option<GsObj> := if o.paired == null then None else Some(o.paired as GsObj);
    Entry(o, o.kind == Texture2D, partner, o.chroma)
  }

  ghost function EntriesOf(nodes: seq<Node<GsObj>>): (es: seq<Entry<GsObj>>)
    reads (set n | n in nodes :: n.item)`paired
    ensures |es| == |nodes|
  {
    if nodes == [] then [] else [EntryOf(nodes[0].item)] + EntriesOf(nodes[1..])
  }

  ghost function Items(nodes: seq<Node<GsObj>>): (r: seq<GsObj>)
    ensures |r| == |nodes|
  {
    if nodes == [] then [] else [nodes[0].item] + Items(nodes[1..])
  }

  lemma {:induction false} ItemsAt(nodes: seq<Node<GsObj>>, k: nat)
    requires k < |nodes|
    ensures Items(nodes)[k] == nodes[k].item && EntriesOf(nodes)[k] == EntryOf(nodes[k].item)
  {
    if k > 0 {
      ItemsAt(nodes[1..], k - 1);
    }
  }

  ghost predicate ItemsIn(nodes: seq<Node<GsObj>>, owned: set<GsObj>) {
    forall i :: 0 <= i < |nodes| ==> nodes[i].item in owned
  }

  ghost predicate ItemsDistinct(nodes: seq<Node<GsObj>>) {
    forall i, j :: 0 <= i < j < |nodes| ==> nodes[i].item != nodes[j].item
  }

  lemma {:induction false} ItemsCons(n: Node<GsObj>, nodes: seq<Node<GsObj>>, owned: set<GsObj>)
    requires ItemsIn(nodes, owned) && ItemsDistinct(nodes) && n.item !in owned
    ensures ItemsIn([n] + nodes, owned + {n.item}) && ItemsDistinct([n] + nodes)
  {
  }

  lemma {:induction false} ItemsSplice(nodes: seq<Node<GsObj>>, i: nat, owned: set<GsObj>)
    requires ItemsIn(nodes, owned) && ItemsDistinct(nodes) && i < |nodes|
    ensures ItemsIn(nodes[..i] + nodes[i + 1..], owned) && ItemsDistinct(nodes[..i] + nodes[i + 1..])
  {
    var less := nodes[..i] + nodes[i + 1..];
    forall a | 0 <= a < |less|
      ensures less[a] == nodes[if a < i then a else a + 1]
    {
    }
  }

  // ---- what the GPU holds ----

  /** What every object holds, and how many resources have been made. */
  datatype Gpu<!T> = Gpu(held: map<T, Option<Resource>>, created: nat)

  /** One turn of the rebuilding loop on device number d. */
  ghost function RemakeOne<T>(g: Gpu<T>, e: Entry<T>, d: nat): Gpu<T> {
    var made := Some(Resource(d, g.created));
    if Luma(e) then Gpu(g.held[e.self := made][e.partner.value := made], g.created + 1)
    else if Chroma(e) then g
    else Gpu(g.held[e.self := made], g.created + 1)
  }

  ghost function RemakeAll<T>(g: Gpu<T>, es: seq<Entry<T>>, d: nat): Gpu<T>
    decreases |es|
  {
    if es == [] then g else RemakeAll(RemakeOne(g, es[0], d), es[1..], d)
  }

  ghost predicate Holds<T>(g: Gpu<T>, x: T, d: nat) {
    x in g.held && g.held[x].Some? && g.held[x].value.device == d
  }

  /** What the loop rebuilds is on the new device, and nothing else changes. */
  lemma {:induction false} RemakeAllHolds<T>(g: Gpu<T>, es: seq<Entry<T>>, d: nat, x: T)
    ensures x in Rebuilt(es) || Holds(g, x, d) ==> Holds(RemakeAll(g, es, d), x, d)
    ensures x !in Rebuilt(es) ==> (x in RemakeAll(g, es, d).held <==> x in g.held)
    ensures x !in Rebuilt(es) && x in g.held ==> RemakeAll(g, es, d).held[x] == g.held[x]
    decreases |es|
  {
    if es != [] {
      RemakeAllHolds(RemakeOne(g, es[0], d), es[1..], d, x);
    }
  }

  /** No two entries' pairs overlap: what the involution of the pairs amounts to on a list. */
  ghost predicate Apart<T>(es: seq<Entry<T>>) {
    forall i, j :: 0 <= i < |es| && 0 <= j < |es| && i != j && Luma(es[i]) ==>
      forall x :: x in D3dRebuild.Turn(es[j]) ==> x != es[i].self && x != es[i].partner.value
  }

  /** The planes of each listed pair end up with one texture. */
  lemma {:induction false} PlanesShare<T>(g: Gpu<T>, es: seq<Entry<T>>, d: nat, k: nat)
    requires Apart(es) && k < |es| && Luma(es[k])
    ensures var r := RemakeAll(g, es, d).held;
            es[k].self in r && es[k].partner.value in r && r[es[k].self] == r[es[k].partner.value]
    decreases |es|
  {
    var h, t := RemakeOne(g, es[0], d), es[1..];
    assert forall i :: 0 <= i < |t| ==> t[i] == es[i + 1];
    if k > 0 {
      PlanesShare(h, t, d, k - 1);
    } else {
      NotRebuilt(t, es[0].self);
      NotRebuilt(t, es[0].partner.value);
      RemakeAllHolds(h, t, d, es[0].self);
      RemakeAllHolds(h, t, d, es[0].partner.value);
    }
  }

  lemma {:induction false} NotRebuilt<T>(es: seq<Entry<T>>, x: T)
    requires forall i :: 0 <= i < |es| ==> x !in D3dRebuild.Turn(es[i])
    ensures x !in Rebuilt(es)
  {
    if es != [] {
      NotRebuilt(es[1..], x);
    }
  }

  lemma {:induction false} RemakeStep<T>(g: Gpu<T>, es: seq<Entry<T>>, k: nat, d: nat)
    requires k < |es|
    ensures RemakeAll(g, es[k..], d) == RemakeAll(RemakeOne(g, es[k], d), es[k + 1..], d)
  {
    assert es[k..][1..] == es[k + 1..];
  }

  lemma {:induction false} RemakeNone<T>(g: Gpu<T>, es: seq<Entry<T>>, k: nat, d: nat)
    requires k == |es|
    ensures RemakeAll(g, es[k..], d) == g
  {
  }

  lemma {:induction false} SameMembers<T>(a: seq<T>, b: seq<T>, x: T)
    requires multiset(a) == multiset(b) && x in a
    ensures x in b
  {
    assert x in multiset(a);
  }

  class Device {
    const objects: List<GsObj>
    var generation: nat
    var created: nat
    ghost var owned: set<GsObj>

    ghost predicate Registered()
      reads this`owned, objects, objects.nodes
    {
      && objects.Valid()
      && ItemsIn(objects.nodes, owned)
      && ItemsDistinct(objects.nodes)
    }

    /** The two planes of a pair name each other for as long as they are remembered. */
    ghost predicate Involution()
      reads this`owned, owned`paired
    {
      forall o :: o in owned && o.paired != null ==>
        && o.paired in owned && o.paired.paired == o
        && o.kind == Texture2D && o.paired.kind == Texture2D && o.chroma != o.paired.chroma
    }

    ghost predicate Valid()
      reads this`owned, objects, objects.nodes, owned`paired
    {
      Registered() && Involution()
    }

    /** Both planes of every listed pair are listed. */
    ghost predicate PairsListed()
      reads this`owned, objects, objects.nodes, owned`paired
      requires Valid()
    {
      forall o :: o in owned && o in Items(objects.nodes) && o.paired != null ==> o.paired in Items(objects.nodes)
    }

    ghost function Entries(): seq<Entry<GsObj>>
      reads objects, (set n | n in objects.nodes :: n.item)`paired
    {
      EntriesOf(objects.nodes)
    }

    constructor ()
      ensures Valid() && objects.nodes == [] && PairsListed() && fresh(objects)
    {
      objects := new List<GsObj>();
      generation, created, owned := 0, 0, {};
    }

    /** gs_obj::gs_obj. */
    method Register(o: GsObj) returns (n: Node<GsObj>)
      requires Valid() && o !in owned && o.paired == null
      modifies this`owned, objects, objects.nodes
      ensures Valid() && fresh(n) && n.item == o && objects.nodes == [n] + old(objects.nodes)
      ensures owned == old(owned) + {o}
    {
      hide List.Valid;
      n := new Node<GsObj>(o);
      ItemsCons(n, objects.nodes, owned);
      hide ItemsIn, ItemsDistinct;
      objects.LinkFront(n);
      owned := owned + {o};
    }

    /** gs_obj::~gs_obj. */
    method Destroy(n: Node<GsObj>, ghost i: nat)
      requires Valid() && i < |objects.nodes| && objects.nodes[i] == n
      modifies objects, objects.nodes
      ensures Valid() && objects.nodes == old(objects.nodes)[..i] + old(objects.nodes)[i + 1..]
    {
      ItemsSplice(objects.nodes, i, owned);
      hide List.Valid, ItemsIn, ItemsDistinct;
      objects.Unlink(n, i);
    }

    /** device_texture_create_nv12 and device_texture_create_p010. */
    method CreatePair() returns (y: GsObj, uv: GsObj, atY: Node<GsObj>, atUv: Node<GsObj>)
      requires Valid()
      modifies this`owned, this`created, objects, objects.nodes
      ensures Valid() && fresh(y) && fresh(uv) && y != uv
      ensures objects.nodes == [atUv] + ([atY] + old(objects.nodes)) && atUv.item == uv && atY.item == y
      ensures y.paired == uv && uv.paired == y && !y.chroma && uv.chroma && y.resource == uv.resource
    {
      hide List.Valid, Device.Registered, Device.Involution;
      var texture := Resource(generation, created);
      created := created + 1;
      y := new GsObj(Texture2D, false, texture);
      atY := Register(y);
      uv := new GsObj(Texture2D, true, texture);
      atUv := Register(uv);
      Pair(y, uv);
    }

    method Pair(y: GsObj, uv: GsObj)
      requires Valid() && y in owned && uv in owned && y.paired == null && uv.paired == null
      requires y.kind == Texture2D && uv.kind == Texture2D && !y.chroma && uv.chroma
      modifies y`paired, uv`paired
      ensures Valid() && y.paired == uv && uv.paired == y
    {
      hide Device.Registered;
      assert forall o :: o in owned && o.paired != null ==> o.paired != y && o.paired != uv;
      y.paired, uv.paired := uv, y;
    }

    method Remake(o: GsObj)
      modifies this`created, o`resource
      ensures o.resource == Some(Resource(generation, old(created))) && created == old(created) + 1
    {
      o.resource := Some(Resource(generation, created));
      created := created + 1;
    }

    /** gs_texture_2d::RebuildPaired_UV: takes over its partner's texture. */
    method RebuildPairedUV(o: GsObj)
      requires o.paired != null && o.paired != o
      modifies o`resource
      ensures o.resource == o.paired.resource
    {
      var y := o.paired;
      o.resource := y.resource;
    }

    /** gs_texture_2d::RebuildPaired_Y. */
    method RebuildPairedY(o: GsObj)
      requires o.paired != null && o.paired.paired == o && o.paired != o
      modifies this`created, o`resource, o.paired`resource
      ensures o.resource == Some(Resource(generation, old(created))) && created == old(created) + 1
      ensures o.paired.resource == o.resource
    {
      var uv := o.paired;
      Remake(o);
      RebuildPairedUV(uv);
    }

    ghost function State(): Gpu<GsObj>
      reads this`owned, this`created, owned`resource
    {
      Gpu(map o | o in owned :: o.resource, created)
    }

    /** The first loop of RebuildDevice. */
    method ReleaseObjects() returns (ghost released: seq<GsObj>)
      requires Valid()
      modifies owned`resource
      ensures Valid() && released == Items(objects.nodes)
      ensures forall o :: o in released ==> o.resource == None
      ensures forall o :: o in owned && o !in released ==> o.resource == old(o.resource)
    {
      ghost var k: nat := 0;
      First();
      released := [];
      var obj := objects.first;
      hide *;
      while obj != null
        invariant Valid() && k <= |objects.nodes| && obj == if k < |objects.nodes| then objects.nodes[k] else null
        invariant released == Items(objects.nodes)[..k]
        invariant forall o :: o in released ==> o.resource == None
        invariant forall o :: o in owned && o !in released ==> o.resource == old(o.resource)
        decreases |objects.nodes| - k
      {
        Turn(k);
        obj.item.resource := None;
        released := released + [obj.item];
        obj := obj.next;
        k := k + 1;
      }
    }

    /** What a traversal needs to know at element k. */
    lemma {:induction false} Turn(k: nat)
      requires Valid() && k < |objects.nodes|
      ensures Entries()[k] == EntryOf(objects.nodes[k].item)
      ensures objects.nodes[k].item in owned
      ensures objects.nodes[k].next == if k + 1 < |objects.nodes| then objects.nodes[k + 1] else null
      ensures Items(objects.nodes)[k] == objects.nodes[k].item
    {
      objects.Stored(k);
      ItemsAt(objects.nodes, k);
    }

    /** The switch of the last loop of RebuildDevice. */
    method RebuildObject(o: GsObj)
      requires Valid() && o in owned
      modifies this`created, owned`resource
      ensures Valid() && State() == RemakeOne(old(State()), EntryOf(o), generation)
    {
      hide Device.Registered;
      if o.kind == Texture2D {
        if o.paired == null {
          Remake(o);
        } else if !o.chroma {
          RebuildPairedY(o);
        }
      } else {
        Remake(o);
      }
    }

    /** The last loop of RebuildDevice. */
    method RebuildObjects()
      requires Valid()
      modifies this`created, owned`resource
      ensures Valid() && State() == RemakeAll(old(State()), Entries(), generation)
    {
      ghost var k: nat, es := 0, Entries();
      First();
      var obj := objects.first;
      assert es[0..] == es;
      hide *;
      while obj != null
        invariant Valid() && k <= |objects.nodes| && obj == if k < |objects.nodes| then objects.nodes[k] else null
        invariant es == Entries() && |es| == |objects.nodes|
        invariant RemakeAll(State(), es[k..], generation) == RemakeAll(old(State()), es, generation)
        decreases |objects.nodes| - k
      {
        Turn(k);
        RemakeStep(State(), es, k, generation);
        RebuildObject(obj.item);
        obj := obj.next;
        k := k + 1;
      }
      RemakeNone(State(), es, k, generation);
    }

    /** RebuildDevice. */
    method RebuildDevice()
      requires Valid()
      modifies this`created, this`generation, owned`resource
      ensures Valid() && generation == old(generation) + 1
      ensures forall o :: o in Rebuilt(Entries()) ==> OnDevice(o)
      ensures forall o :: o in Items(objects.nodes) && o !in Rebuilt(Entries()) ==> o.resource == None
      ensures forall o :: o in Items(objects.nodes) && o.paired != null && !o.chroma ==> o.resource == o.paired.resource
      ensures PairsListed() ==> forall o :: o in Items(objects.nodes) ==> OnDevice(o)
    {
      hide *;
      ghost var released := ReleaseObjects();
      generation := generation + 1;
      ghost var g := State();
      StateHeld();
      RebuildObjects();
      Listed();
      AfterRebuild(g, Entries(), Items(objects.nodes));
      if PairsListed() {
        AllRebuilt();
      }
    }

    lemma {:induction false} StateHeld()
      ensures forall o :: o in owned ==> o in State().held && State().held[o] == o.resource
    {
    }

    lemma {:induction false} AfterRebuild(g: Gpu<GsObj>, es: seq<Entry<GsObj>>, items: seq<GsObj>)
      requires Sees(es, items) && State() == RemakeAll(g, es, generation)
      requires forall o :: o in owned ==> o in g.held
      ensures forall o :: o in Rebuilt(es) ==> OnDevice(o)
      ensures forall o :: o in items && o !in Rebuilt(es) ==> o in owned && o.resource == g.held[o]
      ensures forall o :: o in items && o.paired != null && !o.chroma ==> o.resource == o.paired.resource
    {
      EntriesApart(es, items);
      RebuiltState(g, es, items);
      RebuiltPlanes(g, es, items);
    }

    lemma {:induction false} AllRebuilt()
      requires Valid() && PairsListed()
      ensures forall o :: o in Items(objects.nodes) ==> o in Rebuilt(Entries())
    {
      OnceIffPairsListed();
      Listed();
      hide *;
      forall o | o in Items(objects.nodes)
        ensures o in Rebuilt(Entries())
      {
        SameMembers(Selves(Entries()), Rebuilt(Entries()), o);
      }
    }

    /** The entries, from the listed objects. */
    lemma {:induction false} Listed()
      requires Valid()
      ensures Items(objects.nodes) == Selves(Entries()) && Sees(Entries(), Items(objects.nodes))
    {
      forall k | 0 <= k < |objects.nodes|
        ensures Items(objects.nodes)[k] == Selves(Entries())[k] == objects.nodes[k].item
        ensures Entries()[k] == EntryOf(Items(objects.nodes)[k])
      {
        ItemsAt(objects.nodes, k);
      }
    }

    lemma {:induction false} EntriesApart(es: seq<Entry<GsObj>>, items: seq<GsObj>)
      requires Sees(es, items)
      ensures Apart(es)
    {
      forall i, j | 0 <= i < |es| && 0 <= j < |es| && i != j && Luma(es[i])
        ensures forall x :: x in D3dRebuild.Turn(es[j]) ==> x != es[i].self && x != es[i].partner.value
      {
        var a, b := items[i], items[j];
        assert es[i] == EntryOf(a) && es[j] == EntryOf(b) && a != b && a in owned && b in owned;
      }
    }

    lemma {:induction false} RebuiltOwned(es: seq<Entry<GsObj>>)
      requires forall e :: e in es ==> e.self in owned && (e.partner.Some? ==> e.partner.value in owned)
      ensures forall o :: o in Rebuilt(es) ==> o in owned
    {
      if es != [] {
        RebuiltOwned(es[1..]);
      }
    }

    /** es is what the loop sees of items. */
    ghost predicate Sees(es: seq<Entry<GsObj>>, items: seq<GsObj>)
      reads this`owned, owned`paired
    {
      && |es| == |items| && Involution() && Distinct(items)
      && (forall i :: 0 <= i < |items| ==> items[i] in owned)
      && (forall i :: 0 <= i < |items| ==> (items[i] in owned && es[i] == EntryOf(items[i])))
    }

    /** The rebuilt objects, read off the state the loop leaves. */
    lemma {:induction false} RebuiltState(g: Gpu<GsObj>, es: seq<Entry<GsObj>>, items: seq<GsObj>)
      requires Sees(es, items) && State() == RemakeAll(g, es, generation)
      requires forall o :: o in owned ==> o in g.held
      ensures forall o :: o in Rebuilt(es) ==> o in owned && OnDevice(o)
      ensures forall o :: o in owned && o !in Rebuilt(es) ==> o.resource == g.held[o]
    {
      RebuiltOwned(es);
      hide RemakeAll, Rebuilt;
      forall o | o in owned
        ensures o in Rebuilt(es) ==> OnDevice(o)
        ensures o !in Rebuilt(es) ==> o.resource == g.held[o]
      {
        RemakeAllHolds(g, es, generation, o);
        assert State().held[o] == o.resource;
      }
    }

    lemma {:induction false} RebuiltPlanes(g: Gpu<GsObj>, es: seq<Entry<GsObj>>, items: seq<GsObj>)
      requires Sees(es, items) && Apart(es) && State() == RemakeAll(g, es, generation)
      ensures forall o :: o in items && o.paired != null && !o.chroma ==> o.resource == o.paired.resource
    {
      hide RemakeAll, Rebuilt, Apart, Distinct;
      forall o | o in items && o.paired != null && !o.chroma
        ensures o.resource == o.paired.resource
      {
        var k :| 0 <= k < |items| && items[k] == o;
        assert es[k] == EntryOf(o) && o in owned;
        PlanesShare(g, es, generation, k);
        assert State().held[o] == o.resource && State().held[o.paired] == o.paired.resource;
      }
    }

    /** Every listed object is rebuilt exactly once, and nothing else is rebuilt, exactly when no pair has
        lost one of its planes. */
    lemma {:induction false} OnceIffPairsListed()
      requires Valid()
      ensures multiset(Rebuilt(Entries())) == multiset(Selves(Entries())) <==> PairsListed()
    {
      Listed();
      OnceIffMatched(Entries());
      if PairsListed() {
        AllMatched(Entries(), Items(objects.nodes));
      } else {
        var o :| o in Items(objects.nodes) && o.paired != null && o.paired !in Items(objects.nodes);
        PlaneLost(Entries(), Items(objects.nodes), o);
      }
    }

    lemma {:induction false} AllMatched(es: seq<Entry<GsObj>>, items: seq<GsObj>)
      requires Sees(es, items)
      requires forall o :: o in owned && o in items && o.paired != null ==> o.paired in items
      ensures Matched(es)
    {
      forall k | 0 <= k < |es|
        ensures Luma(es[k]) ==> IsChromaOf(es, es[k].partner.value)
        ensures Chroma(es[k]) ==> IsNamed(es, es[k].self)
      {
        var o := items[k];
        assert es[k] == EntryOf(o) && o in owned;
        if o.paired != null {
          assert o in items && o.paired in items;
          var j :| 0 <= j < |items| && items[j] == o.paired;
          assert es[j] == EntryOf(o.paired);
        }
      }
      forall i, j | 0 <= i < j < |es| && Luma(es[i]) && Luma(es[j])
        ensures es[i].partner != es[j].partner
      {
        assert es[i] == EntryOf(items[i]) && es[j] == EntryOf(items[j]) && items[i] in owned && items[j] in owned;
      }
    }

    lemma {:induction false} PlaneLost(es: seq<Entry<GsObj>>, items: seq<GsObj>, o: GsObj)
      requires Sees(es, items) && o in items && o.paired != null && o.paired !in items
      ensures !Matched(es)
    {
      hide Distinct, NamedOnce, IsNamed, IsChromaOf;
      var k :| 0 <= k < |items| && items[k] == o;
      assert es[k] == EntryOf(o) && o in owned;
      if Luma(es[k]) {
        ChromaListed(es, es[k].partner.value);
      } else {
        NamedListed(es, items, k);
      }
    }

    lemma {:induction false} NamedListed(es: seq<Entry<GsObj>>, items: seq<GsObj>, k: nat)
      requires Sees(es, items) && k < |items| && Chroma(es[k])
      ensures IsNamed(es, es[k].self) ==> items[k].paired in items
    {
      hide Distinct;
      if IsNamed(es, es[k].self) {
        var i :| 0 <= i < |es| && Luma(es[i]) && es[i].partner.value == es[k].self;
        assert es[i] == EntryOf(items[i]) && es[k] == EntryOf(items[k]);
        assert items[k].paired == items[i];
      }
    }

    ghost predicate OnDevice(o: GsObj)
      reads this`generation, o`resource
    {
      o.resource.Some? && o.resource.value.device == generation
    }

    lemma {:induction false} First()
      requires Valid()
      ensures objects.first == if objects.nodes == [] then null else objects.nodes[0]
    {
    }
  }
}
