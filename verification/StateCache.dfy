/** The memoised blend, rasterizer and depth-stencil objects of the D3D11 device. The three lists work alike;
    here they are one, over any type of requested state
    (libobs-d3d11/d3d11-subsystem.cpp:701-870, libobs-d3d11/d3d11-rebuild.cpp:474-483, 578-594). */
module StateCache {
  import opened Options

  /** A saved state: what was requested, and the object made for it. */
  datatype Saved<+K> = Saved(key: K, obj: nat)

  /** What was requested when an object was made, and which device made it. */
  datatype Made<+K> = Made(key: K, device: nat)

  /** descs remembers every object ever made; devices are counted as they are lost. */
  datatype Memo<!K> = Memo(
    requested: K,
    changed: bool,
    saved: seq<Saved<K>>,
    current: Option<nat>,
    bound: Option<nat>,
    descs: map<nat, Made<K>>,
    created: nat,
    device: nat)

  function Start<K>(k: K): Memo<K> {
    Memo(k, true, [], None, None, map[], 0, 0)
  }

  /** The place of the first saved state with this key, or the length. */
  function Find<K(==)>(saved: seq<Saved<K>>, k: K): (i: nat)
    ensures i <= |saved| && (i < |saved| ==> saved[i].key == k)
  {
    if saved == [] || saved[0].key == k then 0 else 1 + Find(saved[1..], k)
  }

  datatype Event<K> =
    | Request(k: K, force: bool)
    | Update(made: bool)
    | Rebuild

  /** A setter marks the state changed when it is; the scissor setter always does. */
  function Requested<K(==)>(m: Memo<K>, k: K, force: bool): Memo<K> {
    m.(requested := k, changed := m.changed || force || k != m.requested)
  }

  /** The object for the requested state, made and saved if there is none. */
  function Added<K(==)>(m: Memo<K>): (Memo<K>, nat) {
    var i := Find(m.saved, m.requested);
    if i < |m.saved| then (m, m.saved[i].obj)
    else
      (m.(saved := m.saved + [Saved(m.requested, m.created)],
          descs := m.descs[m.created := Made(m.requested, m.device)], created := m.created + 1), m.created)
  }

  /** Update...State; made says whether the device can make an object, should one be needed. */
  function Updated<K(==)>(m: Memo<K>, made: bool): Memo<K> {
    if !m.changed || Throws(m, made) then m
    else
      var (n, o) := Added(m);
      n.(changed := false, current := Some(o), bound := if m.current == Some(o) then m.bound else Some(o))
  }

  predicate Throws<K(==)>(m: Memo<K>, made: bool) {
    m.changed && Find(m.saved, m.requested) == |m.saved| && !made
  }

  /** Every saved state gets a new object; nothing is bound on the new device. */
  function Rebuilt<K(==)>(m: Memo<K>): Memo<K> {
    var n := Remade(m.(saved := [], device := m.device + 1), m.saved);
    n.(changed := true, current := None, bound := None)
  }

  function Remade<K(==)>(m: Memo<K>, rest: seq<Saved<K>>): Memo<K>
    decreases |rest|
  {
    if rest == [] then m
    else
      var k := rest[0].key;
      Remade(m.(saved := m.saved + [Saved(k, m.created)], descs := m.descs[m.created := Made(k, m.device)],
                created := m.created + 1), rest[1..])
  }

  function Next<K(==)>(m: Memo<K>, e: Event<K>): Memo<K> {
    match e
    case Request(k, force) => Requested(m, k, force)
    case Update(made) => Updated(m, made)
    case Rebuild => Rebuilt(m)
  }

  function Run<K(==)>(k: K, events: seq<Event<K>>): Memo<K> {
    if events == [] then Start(k) else Next(Run(k, events[..|events| - 1]), events[|events| - 1])
  }

  // What a run asked for, told from its events alone.

  /** The state asked for last, or the one to begin with. */
  function LastRequested<K>(k: K, events: seq<Event<K>>): K {
    if events == [] then k
    else
      var e := events[|events| - 1];
      if e.Request? then e.k else LastRequested(k, events[..|events| - 1])
  }

  /** The states that were asked for at a draw, when the device could make objects. */
  function Flushed<K(==)>(k: K, events: seq<Event<K>>): set<K> {
    if events == [] then {}
    else
      var before, e := events[..|events| - 1], events[|events| - 1];
      Flushed(k, before) + if e.Update? && e.made then {LastRequested(k, before)} else {}
  }

  ghost predicate KeysDistinct<K>(saved: seq<Saved<K>>) {
    forall i, j :: 0 <= i < j < |saved| ==> saved[i].key != saved[j].key
  }

  ghost function Keys<K>(saved: seq<Saved<K>>): set<K> {
    set i | 0 <= i < |saved| :: saved[i].key
  }

  /** Every saved object was made for its key, by the current device. */
  ghost predicate OnDevice<K>(m: Memo<K>) {
    forall i :: 0 <= i < |m.saved| ==>
      m.saved[i].obj in m.descs && m.descs[m.saved[i].obj] == Made(m.saved[i].key, m.device)
  }

  ghost predicate Sound<K>(m: Memo<K>) {
    && KeysDistinct(m.saved)
    && OnDevice(m)
    && (forall o :: o in m.descs ==> o < m.created)
    && m.bound == m.current
    && (m.bound.Some? ==> m.bound.value in m.descs && m.descs[m.bound.value].device == m.device)
    && (!m.changed ==> m.bound.Some? && m.descs[m.bound.value].key == m.requested && m.requested in Keys(m.saved))
  }

  lemma {:induction false} FindKey<K>(saved: seq<Saved<K>>, k: K)
    ensures Find(saved, k) < |saved| <==> k in Keys(saved)
  {
    if saved != [] {
      var t := saved[1..];
      FindKey(t, k);
      if k in Keys(t) {
        var i :| 0 <= i < |t| && t[i].key == k;
        assert saved[i + 1].key == k;
      }
      if k in Keys(saved) && saved[0].key != k {
        var i :| 0 <= i < |saved| && saved[i].key == k;
        assert t[i - 1].key == k;
      }
    }
  }

  lemma {:induction false} AddedSound<K>(m: Memo<K>)
    requires Sound(m)
    ensures var (n, o) := Added(m);
            && KeysDistinct(n.saved) && Keys(n.saved) == Keys(m.saved) + {m.requested}
            && OnDevice(n) && (forall p :: p in n.descs ==> p < n.created)
            && o in n.descs && n.descs[o] == Made(m.requested, m.device)
            && (n.requested, n.current, n.bound, n.device) == (m.requested, m.current, m.bound, m.device)
            && (forall p :: p in m.descs ==> p in n.descs && n.descs[p] == m.descs[p])
  {
    FindKey(m.saved, m.requested);
    var i := Find(m.saved, m.requested);
    if i == |m.saved| {
      var all := m.saved + [Saved(m.requested, m.created)];
      KeysSnoc(m.saved, Saved(m.requested, m.created));
      forall j | 0 <= j < |m.saved|
        ensures m.saved[j].key != m.requested && all[j] == m.saved[j]
      {
      }
    }
  }

  lemma {:induction false} KeysSnoc<K>(saved: seq<Saved<K>>, s: Saved<K>)
    ensures Keys(saved + [s]) == Keys(saved) + {s.key}
  {
    var all := saved + [s];
    forall k | k in Keys(saved) + {s.key}
      ensures k in Keys(all)
    {
      if k == s.key {
        assert all[|saved|].key == k;
      } else {
        var i :| 0 <= i < |saved| && saved[i].key == k;
        assert all[i].key == k;
      }
    }
  }

  lemma {:induction false} RemadeSound<K>(m: Memo<K>, rest: seq<Saved<K>>)
    requires KeysDistinct(m.saved + rest) && (forall o :: o in m.descs ==> o < m.created)
    requires OnDevice(m)
    ensures var n := Remade(m, rest);
            && KeysDistinct(n.saved) && Keys(n.saved) == Keys(m.saved + rest)
            && OnDevice(n) && n.device == m.device
            && (forall o :: o in n.descs ==> o < n.created) && n.requested == m.requested
    decreases |rest|
  {
    if rest == [] {
      assert m.saved + rest == m.saved;
    } else {
      var k := rest[0].key;
      var s := Saved(k, m.created);
      var n := m.(saved := m.saved + [s], descs := m.descs[m.created := Made(k, m.device)], created := m.created + 1);
      var a, b := m.saved + rest, n.saved + rest[1..];
      assert |a| == |b| && forall i :: 0 <= i < |a| ==> a[i].key == b[i].key;
      SameKeys(a, b);
      RemadeSound(n, rest[1..]);
    }
  }

  lemma {:induction false} SameKeys<K>(a: seq<Saved<K>>, b: seq<Saved<K>>)
    requires |a| == |b| && forall i :: 0 <= i < |a| ==> a[i].key == b[i].key
    ensures Keys(a) == Keys(b) && (KeysDistinct(a) ==> KeysDistinct(b))
  {
    forall k | k in Keys(a)
      ensures k in Keys(b)
    {
      var i :| 0 <= i < |a| && a[i].key == k;
      assert b[i].key == k;
    }
    forall k | k in Keys(b)
      ensures k in Keys(a)
    {
      var i :| 0 <= i < |b| && b[i].key == k;
      assert a[i].key == k;
    }
    if KeysDistinct(a) {
      forall i, j | 0 <= i < j < |b|
        ensures b[i].key != b[j].key
      {
        assert a[i].key != a[j].key;
      }
    }
  }

  lemma {:induction false} NextSound<K>(m: Memo<K>, e: Event<K>)
    requires Sound(m)
    ensures Sound(Next(m, e))
    ensures Keys(Next(m, e).saved) == Keys(m.saved) + if e.Update? && !Throws(m, e.made) then {m.requested} else {}
  {
    match e
    case Request(k, force) =>
    case Update(made) => UpdateSound(m, made);
    case Rebuild => RebuildSound(m);
  }

  lemma {:induction false} UpdateSound<K>(m: Memo<K>, made: bool)
    requires Sound(m)
    ensures Sound(Updated(m, made))
    ensures Keys(Updated(m, made).saved) == Keys(m.saved) + if !Throws(m, made) then {m.requested} else {}
  {
    if m.changed && !Throws(m, made) {
      AddedSound(m);
      hide Added, KeysDistinct, Keys;
    }
  }

  lemma {:induction false} RebuildSound<K>(m: Memo<K>)
    requires Sound(m)
    ensures Sound(Rebuilt(m)) && Keys(Rebuilt(m).saved) == Keys(m.saved)
  {
    hide Remade, KeysDistinct, Keys, OnDevice;
    var n := m.(saved := [], device := m.device + 1);
    assert [] + m.saved == m.saved;
    NothingSaved(n);
    RemadeSound(n, m.saved);
    SameObjects(Remade(n, m.saved), Rebuilt(m));
  }

  lemma {:induction false} NothingSaved<K>(m: Memo<K>)
    requires m.saved == []
    ensures OnDevice(m)
  {
  }

  lemma {:induction false} SameObjects<K>(m: Memo<K>, n: Memo<K>)
    requires OnDevice(m) && (n.saved, n.descs, n.device) == (m.saved, m.descs, m.device)
    ensures OnDevice(n)
  {
  }

  /** Over all runs of setters, draws, failures and rebuilds: no two saved states have equal keys, the saved
      keys are exactly the states flushed so far, the requested state is the one asked for last, and whenever
      nothing is marked changed the bound object is one made for the requested state, on the current device. */
  lemma {:induction false} RunSound<K>(k: K, events: seq<Event<K>>)
    ensures Sound(Run(k, events))
    ensures Keys(Run(k, events).saved) == Flushed(k, events)
    ensures |Run(k, events).saved| == |Flushed(k, events)|
    ensures Run(k, events).requested == LastRequested(k, events)
  {
    if events != [] {
      var before, e := events[..|events| - 1], events[|events| - 1];
      RunSound(k, before);
      NextSound(Run(k, before), e);
      NextRequested(Run(k, before), e);
      if e.Update? {
        ThrowsIff(Run(k, before), e.made);
      }
    }
    KeysCount(Run(k, events).saved);
  }

  lemma {:induction false} NextRequested<K>(m: Memo<K>, e: Event<K>)
    ensures Next(m, e).requested == if e.Request? then e.k else m.requested
  {
    if e.Rebuild? {
      RemadeRequested(m.(saved := [], device := m.device + 1), m.saved);
    }
  }

  lemma {:induction false} RemadeRequested<K>(m: Memo<K>, rest: seq<Saved<K>>)
    ensures Remade(m, rest).requested == m.requested
    decreases |rest|
  {
    if rest != [] {
      var k := rest[0].key;
      RemadeRequested(m.(saved := m.saved + [Saved(k, m.created)], descs := m.descs[m.created := Made(k, m.device)],
                         created := m.created + 1), rest[1..]);
    }
  }

  /** A draw throws exactly when it needs an object and the device cannot make one. */
  lemma {:induction false} ThrowsIff<K>(m: Memo<K>, made: bool)
    requires Sound(m)
    ensures Throws(m, made) <==> !made && m.requested !in Keys(m.saved)
  {
    FindKey(m.saved, m.requested);
  }

  lemma {:induction false} KeysCount<K>(saved: seq<Saved<K>>)
    requires KeysDistinct(saved)
    ensures |Keys(saved)| == |saved|
  {
    if saved != [] {
      var t := saved[..|saved| - 1];
      var s := saved[|saved| - 1];
      assert saved == t + [s];
      KeysCount(t);
      KeysSnoc(t, s);
      assert s.key !in Keys(t);
    }
  }

  /** How many devices were lost in a run. */
  function Losses<K(==)>(events: seq<Event<K>>): nat {
    if events == [] then 0
    else Losses(events[..|events| - 1]) + if events[|events| - 1].Rebuild? then 1 else 0
  }

  lemma {:induction false} DeviceCounts<K>(k: K, events: seq<Event<K>>)
    ensures Run(k, events).device == Losses(events)
  {
    if events != [] {
      var before := events[..|events| - 1];
      DeviceCounts(k, before);
      NextDevice(Run(k, before), events[|events| - 1]);
    }
  }

  lemma {:induction false} NextDevice<K>(m: Memo<K>, e: Event<K>)
    ensures Next(m, e).device == m.device + if e.Rebuild? then 1 else 0
  {
    if e.Rebuild? {
      RemadeDevice(m.(saved := [], device := m.device + 1), m.saved);
    }
  }

  lemma {:induction false} RemadeDevice<K>(m: Memo<K>, rest: seq<Saved<K>>)
    ensures Remade(m, rest).device == m.device
    decreases |rest|
  {
    if rest != [] {
      var k := rest[0].key;
      RemadeDevice(m.(saved := m.saved + [Saved(k, m.created)], descs := m.descs[m.created := Made(k, m.device)],
                      created := m.created + 1), rest[1..]);
    }
  }

  /** So a draw throws if and only if the device cannot make an object and none was made for the state asked for
      last; and otherwise it binds what making a fresh object would: one made for that state, by the device of the
      last rebuild. */
  lemma {:induction false} DrawBindsRequested<K>(k: K, events: seq<Event<K>>, made: bool)
    ensures Throws(Run(k, events), made) <==> !made && LastRequested(k, events) !in Flushed(k, events)
    ensures var m := Next(Run(k, events), Update(made));
            made || LastRequested(k, events) in Flushed(k, events) ==>
              && m.bound.Some? && m.bound.value in m.descs
              && m.descs[m.bound.value] == Made(LastRequested(k, events), Losses(events))
  {
    RunSound(k, events);
    DeviceCounts(k, events);
    ThrowsIff(Run(k, events), made);
    NextSound(Run(k, events), Update(made));
    NextDevice(Run(k, events), Update(made));
    NextRequested(Run(k, events), Update(made));
    hide Keys, KeysDistinct, OnDevice;
  }

  // ---- the cache ----

  class Cache<K(==)> {
    var requested: K
    var changed: bool
    var saved: seq<Saved<K>>
    var current: Option<nat>
    var bound: Option<nat>
    ghost var descs: map<nat, Made<K>>
    var created: nat
    ghost var device: nat

    ghost function Value(): Memo<K>
      reads this
    {
      Memo(requested, changed, saved, current, bound, descs, created, device)
    }

    constructor (k: K)
      ensures Value() == Start(k)
    {
      requested, changed, saved, current, bound, descs, created, device := k, true, [], None, None, map[], 0, 0;
    }

    /** A setter. */
    method Set(k: K, force: bool)
      modifies this`requested, this`changed
      ensures Value() == Requested(old(Value()), k, force)
      ensures requested == k && changed == (old(changed) || force || k != old(requested))
    {
      if !force && k == requested {
        return;
      }
      requested := k;
      changed := true;
    }

    /** Add...State: thrown when the device cannot make the object. */
    method AddState(made: bool) returns (obj: nat, thrown: bool)
      requires Find(saved, requested) == |saved|
      modifies this`saved, this`descs, this`created
      ensures thrown == !made
      ensures if thrown then Value() == old(Value()) else (Value(), obj) == Added(old(Value()))
    {
      if !made {
        return 0, true;
      }
      obj := created;
      saved := saved + [Saved(requested, obj)];
      descs := descs[obj := Made(requested, device)];
      created := created + 1;
      return obj, false;
    }

    /** Update...State. */
    method UpdateState(made: bool) returns (thrown: bool)
      modifies this
      ensures Value() == Updated(old(Value()), made) && thrown == Throws(old(Value()), made)
    {
      if !changed {
        return false;
      }
      var state: Option<nat> := None;
      var i := 0;
      while i < |saved|
        invariant 0 <= i <= |saved| && Value() == old(Value())
        invariant Find(saved, requested) == if state.Some? then i else i + Find(saved[i..], requested)
        invariant state.Some? ==> i < |saved| && state == Some(saved[i].obj)
      {
        assert saved[i..][1..] == saved[i + 1..];
        if saved[i].key == requested {
          state := Some(saved[i].obj);
          break;
        }
        i := i + 1;
      }
      var obj: nat;
      if state.None? {
        obj, thrown := AddState(made);
        if thrown {
          return true;
        }
      } else {
        obj := state.value;
      }
      if Some(obj) != current {
        bound := Some(obj);
        current := Some(obj);
      }
      changed := false;
      return false;
    }

    /** The part of RebuildDevice about one list. */
    method RebuildStates()
      modifies this
      ensures Value() == Rebuilt(old(Value()))
    {
      device := device + 1;
      bound := None;
      changed := true;
      current := None;
      hide Remade;
      ghost var was, start := saved, Value().(saved := []);
      var i := 0;
      while i < |saved|
        invariant 0 <= i <= |saved| == |was| && forall j :: i <= j < |was| ==> saved[j] == was[j]
        invariant Value().(saved := [], descs := start.descs, created := start.created) == start
        invariant Remade(Value().(saved := saved[..i]), was[i..]) == Remade(start, was)
      {
        ReplacedAt(saved, was, i, Saved(saved[i].key, created));
        RemadeStep(Value().(saved := saved[..i]), was[i..]);
        saved := saved[i := Saved(saved[i].key, created)];
        descs := descs[created := Made(saved[i].key, device)];
        created := created + 1;
        i := i + 1;
      }
      assert saved[..i] == saved;
      NothingLeft(Value());
      RemadeFields(old(Value()).(saved := [], device := device), was);
    }

    static lemma {:induction false} ReplacedAt(saved: seq<Saved<K>>, was: seq<Saved<K>>, i: nat, s: Saved<K>)
      requires i < |saved| == |was| && forall j :: i <= j < |was| ==> saved[j] == was[j]
      ensures was[i..] != [] && was[i..][0] == saved[i] && was[i..][1..] == was[i + 1..]
      ensures saved[i := s][..i + 1] == saved[..i] + [s]
      ensures forall j :: i < j < |was| ==> saved[i := s][j] == was[j]
    {
    }

    static lemma {:induction false} RemadeStep(m: Memo<K>, rest: seq<Saved<K>>)
      requires rest != []
      ensures var s, made := Saved(rest[0].key, m.created), Made(rest[0].key, m.device);
              Remade(m, rest) ==
              Remade(m.(saved := m.saved + [s], descs := m.descs[m.created := made], created := m.created + 1),
                     rest[1..])
    {
    }

    static lemma {:induction false} NothingLeft(m: Memo<K>)
      ensures Remade(m, []) == m
    {
    }

    static lemma {:induction false} RemadeFields(m: Memo<K>, rest: seq<Saved<K>>)
      ensures var n := Remade(m.(changed := true, current := None, bound := None), rest);
              n == Remade(m, rest).(changed := true, current := None, bound := None)
      decreases |rest|
    {
      if rest != [] {
        var k := rest[0].key;
        RemadeFields(m.(saved := m.saved + [Saved(k, m.created)], descs := m.descs[m.created := Made(k, m.device)],
                        created := m.created + 1), rest[1..]);
      }
    }
  }
}
