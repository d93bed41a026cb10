/** Losing and rebuilding the whole D3D11 device: every registered object is released, then rebuilt on the
    new device, a chroma plane only through the luma plane it shares a texture with
    (libobs-d3d11/d3d11-subsystem.cpp:50-68, libobs-d3d11/d3d11-rebuild.cpp:124-189, 431-566). */
module D3dRebuild {
  import opened IntrusiveList
  import opened Lists
  import opened Options

  // ---- what the rebuilding loop reaches ----

  /** A listed object as the loop sees it. */
  datatype Entry<T> = Entry(self: T, texture2d: bool, partner: Option<T>, chroma: bool)

  ghost predicate Luma<T>(e: Entry<T>) {
    e.texture2d && e.partner.Some? && !e.chroma
  }

  ghost predicate Chroma<T>(e: Entry<T>) {
    e.texture2d && e.partner.Some? && e.chroma
  }

  ghost function Turn<T>(e: Entry<T>): seq<T> {
    if Luma(e) then [e.self, e.partner.value] else if Chroma(e) then [] else [e.self]
  }

  ghost function Rebuilt<T>(es: seq<Entry<T>>): seq<T> {
    if es == [] then [] else Turn(es[0]) + Rebuilt(es[1..])
  }

  ghost function Selves<T>(es: seq<Entry<T>>): (r: seq<T>)
    ensures |r| == |es| && forall i :: 0 <= i < |es| ==> r[i] == es[i].self
  {
    if es == [] then [] else [es[0].self] + Selves(es[1..])
  }

  ghost predicate IsChromaOf<T>(es: seq<Entry<T>>, x: T) {
    exists j :: 0 <= j < |es| && Chroma(es[j]) && es[j].self == x
  }

  ghost predicate IsNamed<T>(es: seq<Entry<T>>, x: T) {
    exists i :: 0 <= i < |es| && Luma(es[i]) && es[i].partner.value == x
  }

  /** The pairing is a matching between the listed luma planes and the listed chroma planes. */
  ghost predicate Matched<T>(es: seq<Entry<T>>) {
    && (forall i :: 0 <= i < |es| && Luma(es[i]) ==> IsChromaOf(es, es[i].partner.value))
    && (forall i :: 0 <= i < |es| && Chroma(es[i]) ==> IsNamed(es, es[i].self))
    && NamedOnce(es)
  }

  ghost predicate NamedOnce<T>(es: seq<Entry<T>>) {
    forall i, j :: 0 <= i < j < |es| && Luma(es[i]) && Luma(es[j]) ==> es[i].partner != es[j].partner
  }

  ghost function Others<T>(es: seq<Entry<T>>): seq<T> {
    if es == [] then []
    else (if Chroma(es[0]) then [] else [es[0].self]) + Others(es[1..])
  }

  ghost function Chromas<T>(es: seq<Entry<T>>): seq<T> {
    if es == [] then [] else (if Chroma(es[0]) then [es[0].self] else []) + Chromas(es[1..])
  }

  ghost function Partners<T>(es: seq<Entry<T>>): seq<T> {
    if es == [] then [] else (if Luma(es[0]) then [es[0].partner.value] else []) + Partners(es[1..])
  }

  /** Everything the loop rebuilds is either visited itself or named by a luma plane. */
  lemma {:induction false} RebuiltCount<T>(es: seq<Entry<T>>, x: T)
    ensures multiset(Rebuilt(es))[x] == multiset(Others(es))[x] + multiset(Partners(es))[x]
  {
    if es != [] {
      RebuiltCount(es[1..], x);
      CountConcat(Turn(es[0]), Rebuilt(es[1..]), x);
      CountConcat(if Chroma(es[0]) then [] else [es[0].self], Others(es[1..]), x);
      CountConcat(if Luma(es[0]) then [es[0].partner.value] else [], Partners(es[1..]), x);
    }
  }

  lemma {:induction false} ListedCount<T>(es: seq<Entry<T>>, x: T)
    ensures multiset(Selves(es))[x] == multiset(Others(es))[x] + multiset(Chromas(es))[x]
  {
    if es != [] {
      ListedCount(es[1..], x);
      CountConcat([es[0].self], Selves(es[1..]), x);
      CountConcat(if Chroma(es[0]) then [] else [es[0].self], Others(es[1..]), x);
      CountConcat(if Chroma(es[0]) then [es[0].self] else [], Chromas(es[1..]), x);
    }
  }

  lemma {:induction false} CountConcat<T>(a: seq<T>, b: seq<T>, x: T)
    ensures multiset(a + b)[x] == multiset(a)[x] + multiset(b)[x]
  {
  }

  lemma {:induction false} InChromas<T>(es: seq<Entry<T>>, x: T)
    ensures x in Chromas(es) <==> IsChromaOf(es, x)
  {
    if es != [] {
      var t := es[1..];
      InChromas(t, x);
      if IsChromaOf(t, x) {
        var j :| 0 <= j < |t| && Chroma(t[j]) && t[j].self == x;
        assert Chroma(es[j + 1]) && es[j + 1].self == x;
      }
      if IsChromaOf(es, x) {
        var j :| 0 <= j < |es| && Chroma(es[j]) && es[j].self == x;
        assert j > 0 ==> Chroma(t[j - 1]) && t[j - 1].self == x;
      }
    }
  }

  lemma {:induction false} InPartners<T>(es: seq<Entry<T>>, x: T)
    ensures x in Partners(es) <==> IsNamed(es, x)
  {
    if es != [] {
      var t := es[1..];
      InPartners(t, x);
      if IsNamed(t, x) {
        var i :| 0 <= i < |t| && Luma(t[i]) && t[i].partner.value == x;
        assert Luma(es[i + 1]) && es[i + 1].partner.value == x;
      }
      if IsNamed(es, x) {
        var i :| 0 <= i < |es| && Luma(es[i]) && es[i].partner.value == x;
        assert i > 0 ==> Luma(t[i - 1]) && t[i - 1].partner.value == x;
      }
    }
  }

  lemma {:induction false} DistinctCons<T>(x: T, t: seq<T>)
    ensures Distinct([x] + t) <==> x !in t && Distinct(t)
  {
    var s := [x] + t;
    if Distinct(s) {
      forall i, j | 0 <= i < j < |t| ensures t[i] != t[j] { assert s[i + 1] != s[j + 1]; }
      forall i | 0 <= i < |t| ensures t[i] != x { assert s[0] != s[i + 1]; }
    }
  }

  lemma {:induction false} DistinctCounts<T>(s: seq<T>)
    ensures Distinct(s) <==> forall x :: x in s ==> multiset(s)[x] == 1
  {
    if s != [] {
      var t := s[1..];
      DistinctCounts(t);
      assert s == [s[0]] + t;
      DistinctCons(s[0], t);
      hide Distinct;
      assert multiset(s) == multiset{s[0]} + multiset(t);
      if !Distinct(t) {
        var x :| x in t && multiset(t)[x] != 1;
        assert x in s && multiset(s)[x] > 1;
      }
      assert s[0] in t ==> multiset(s)[s[0]] > 1;
    }
  }

  lemma {:induction false} ChromasDistinct<T>(es: seq<Entry<T>>)
    requires Distinct(Selves(es))
    ensures Distinct(Chromas(es))
  {
    if es != [] {
      var t := es[1..];
      assert Selves(es) == [es[0].self] + Selves(t);
      DistinctCons(es[0].self, Selves(t));
      ChromasDistinct(t);
      InChromas(t, es[0].self);
      DistinctCons(es[0].self, Chromas(t));
      hide Distinct;
      ChromaListed(t, es[0].self);
      assert [] + Chromas(t) == Chromas(t);
    }
  }

  lemma {:induction false} ChromaListed<T>(es: seq<Entry<T>>, x: T)
    ensures IsChromaOf(es, x) ==> x in Selves(es)
  {
    if IsChromaOf(es, x) {
      var j :| 0 <= j < |es| && Chroma(es[j]) && es[j].self == x;
      assert Selves(es)[j] == x;
    }
  }

  lemma {:induction false} PartnersDistinct<T>(es: seq<Entry<T>>)
    ensures Distinct(Partners(es)) <==> NamedOnce(es)
  {
    if es != [] {
      var t := es[1..];
      PartnersDistinct(t);
      NamedOnceCons(es[0], t);
      assert es == [es[0]] + t && [] + Partners(t) == Partners(t);
      if Luma(es[0]) {
        InPartners(t, es[0].partner.value);
        DistinctCons(es[0].partner.value, Partners(t));
      }
    }
  }

  lemma {:induction false} NamedOnceCons<T>(e: Entry<T>, t: seq<Entry<T>>)
    ensures NamedOnce([e] + t) <==> NamedOnce(t) && (Luma(e) ==> !IsNamed(t, e.partner.value))
  {
    var s := [e] + t;
    if NamedOnce(s) {
      forall i, j | 0 <= i < j < |t| && Luma(t[i]) && Luma(t[j])
        ensures t[i].partner != t[j].partner
      {
        assert Luma(s[i + 1]) && Luma(s[j + 1]);
      }
      forall i | 0 <= i < |t| && Luma(t[i]) && Luma(e)
        ensures t[i].partner != e.partner
      {
        assert Luma(s[0]) && Luma(s[i + 1]);
      }
    }
  }

  lemma {:induction false} SameCounts<T>(p: seq<T>, c: seq<T>)
    requires Distinct(c)
    ensures multiset(p) == multiset(c) <==> Distinct(p) && forall x :: x in p <==> x in c
  {
    DistinctCounts(p);
    DistinctCounts(c);
    hide Distinct;
    if multiset(p) == multiset(c) {
      forall x
        ensures x in p <==> x in c
      {
        assert x in p <==> x in multiset(p);
        assert x in c <==> x in multiset(c);
      }
    } else if Distinct(p) && forall x :: x in p <==> x in c {
      forall x
        ensures multiset(p)[x] == multiset(c)[x]
      {
        assert x in p <==> x in multiset(p);
        assert x in c <==> x in multiset(c);
      }
      assert false;
    }
  }

  /** RebuildDevice rebuilds every listed object exactly once, and nothing that is not listed, exactly
      when the pairing is a matching on the list. */
  lemma {:induction false} OnceIffMatched<T>(es: seq<Entry<T>>)
    requires Distinct(Selves(es))
    ensures multiset(Rebuilt(es)) == multiset(Selves(es)) <==> Matched(es)
  {
    ChromasDistinct(es);
    PartnersDistinct(es);
    SameCounts(Partners(es), Chromas(es));
    forall x
      ensures (x in Chromas(es) <==> IsChromaOf(es, x)) && (x in Partners(es) <==> IsNamed(es, x))
    {
      InChromas(es, x);
      InPartners(es, x);
    }
    SameSets(es);
    hide *;
    PartsDecide(multiset(Rebuilt(es)), multiset(Selves(es)), multiset(Partners(es)), multiset(Chromas(es)),
                multiset(Others(es))) by {
      forall x
        ensures multiset(Rebuilt(es))[x] == multiset(Others(es))[x] + multiset(Partners(es))[x]
        ensures multiset(Selves(es))[x] == multiset(Others(es))[x] + multiset(Chromas(es))[x]
      {
        RebuiltCount(es, x);
        ListedCount(es, x);
      }
    }
    MatchedParts(es);
  }

  lemma {:induction false} MatchedParts<T>(es: seq<Entry<T>>)
    ensures Matched(es) <==>
              && (forall i :: 0 <= i < |es| && Luma(es[i]) ==> IsChromaOf(es, es[i].partner.value))
              && (forall i :: 0 <= i < |es| && Chroma(es[i]) ==> IsNamed(es, es[i].self))
              && NamedOnce(es)
  {
  }

  lemma {:induction false} PartsDecide<T>(r: multiset<T>, s: multiset<T>, p: multiset<T>, c: multiset<T>,
                                          o: multiset<T>)
    requires forall x :: r[x] == o[x] + p[x]
    requires forall x :: s[x] == o[x] + c[x]
    ensures r == s <==> p == c
  {
    if r == s {
      forall x ensures p[x] == c[x] { assert r[x] == s[x]; }
      assert p == c;
    }
    if p == c {
      forall x ensures r[x] == s[x] { assert p[x] == c[x]; }
      assert r == s;
    }
  }

  lemma {:induction false} SameSets<T>(es: seq<Entry<T>>)
    ensures (forall x :: IsNamed(es, x) <==> IsChromaOf(es, x))
       <==> (forall i :: 0 <= i < |es| && Luma(es[i]) ==> IsChromaOf(es, es[i].partner.value))
            && (forall i :: 0 <= i < |es| && Chroma(es[i]) ==> IsNamed(es, es[i].self))
  {
  }

  // ---- the life of a pair ----

  /** A new pair, registered chroma plane last, and any other new object, keep the matching. */
  lemma {:induction false} PairKeepsMatched<T>(es: seq<Entry<T>>, y: T, uv: T)
    requires Matched(es) && uv !in Selves(es)
    ensures Matched([Entry(uv, true, Some(y), true)] + ([Entry(y, true, Some(uv), false)] + es))
  {
    var a, b := Entry(uv, true, Some(y), true), Entry(y, true, Some(uv), false);
    var all := [a] + ([b] + es);
    NotNamed(es, uv);
    NamedOnceCons(b, es);
    NamedOnceCons(a, [b] + es);
    hide NamedOnce, IsNamed, IsChromaOf;
    forall i | 0 <= i < |all|
      ensures Luma(all[i]) ==> IsChromaOf(all, all[i].partner.value)
      ensures Chroma(all[i]) ==> IsNamed(all, all[i].self)
    {
      if i > 1 {
        assert all[i] == es[i - 2];
        EntryStays(a, b, es, es[i - 2]);
      } else {
        Grows(a, [b] + es, uv);
        Grows(b, es, uv);
      }
    }
  }

  lemma {:induction false} EntryStays<T>(a: Entry<T>, b: Entry<T>, es: seq<Entry<T>>, e: Entry<T>)
    requires Luma(e) ==> IsChromaOf(es, e.partner.value)
    requires Chroma(e) ==> IsNamed(es, e.self)
    ensures Luma(e) ==> IsChromaOf([a] + ([b] + es), e.partner.value)
    ensures Chroma(e) ==> IsNamed([a] + ([b] + es), e.self)
  {
    if Luma(e) {
      Grows(b, es, e.partner.value);
      Grows(a, [b] + es, e.partner.value);
    }
    if Chroma(e) {
      Grows(b, es, e.self);
      Grows(a, [b] + es, e.self);
    }
  }

  lemma {:induction false} Grows<T>(e: Entry<T>, es: seq<Entry<T>>, x: T)
    ensures IsChromaOf([e] + es, x) <==> (Chroma(e) && e.self == x) || IsChromaOf(es, x)
    ensures IsNamed([e] + es, x) <==> (Luma(e) && e.partner.value == x) || IsNamed(es, x)
  {
    InChromas(es, x);
    InPartners(es, x);
    InChromas([e] + es, x);
    InPartners([e] + es, x);
  }

  lemma {:induction false} NotNamed<T>(es: seq<Entry<T>>, x: T)
    requires Matched(es) && x !in Selves(es)
    ensures !IsNamed(es, x)
  {
    ChromaListed(es, x);
  }

  ghost predicate Removed<T>(es: seq<Entry<T>>, k: nat, less: seq<Entry<T>>) {
    && k < |es| && |less| == |es| - 1
    && forall i :: 0 <= i < |less| ==> less[i] == es[Back(k, i)]
  }

  ghost function Back(k: nat, i: nat): nat {
    if i < k then i else i + 1
  }

  lemma {:induction false} Forth<T>(es: seq<Entry<T>>, k: nat, less: seq<Entry<T>>, i: nat) returns (o: nat)
    requires Removed(es, k, less) && i < |es| && i != k
    ensures o < |less| && less[o] == es[i]
  {
    o := if i < k then i else i - 1;
    assert Back(k, o) == i;
  }

  lemma {:induction false} OnlyName<T>(es: seq<Entry<T>>, k: nat, less: seq<Entry<T>>)
    requires Removed(es, k, less) && NamedOnce(es) && Luma(es[k])
    ensures !IsNamed(less, es[k].partner.value)
  {
    forall i | 0 <= i < |less| && Luma(less[i])
      ensures less[i].partner.value != es[k].partner.value
    {
      assert less[i] == es[Back(k, i)];
    }
  }

  lemma {:induction false} OnlySelf<T>(es: seq<Entry<T>>, k: nat, less: seq<Entry<T>>)
    requires Removed(es, k, less) && Distinct(Selves(es))
    ensures !IsChromaOf(less, es[k].self)
  {
    hide Chroma;
    forall i | 0 <= i < |less|
      ensures less[i].self != es[k].self
    {
      var b := Back(k, i);
      var u, v := if b < k then b else k, if b < k then k else b;
      assert Selves(es)[u] != Selves(es)[v];
    }
  }

  lemma {:induction false} OthersMatched<T>(es: seq<Entry<T>>, k: nat, less: seq<Entry<T>>)
    requires Removed(es, k, less) && Matched(es) && !Luma(es[k]) && !Chroma(es[k])
    ensures Matched(less)
  {
    forall i | 0 <= i < |less|
      ensures Luma(less[i]) ==> IsChromaOf(less, less[i].partner.value)
      ensures Chroma(less[i]) ==> IsNamed(less, less[i].self)
    {
      var e := es[Back(k, i)];
      assert less[i] == e;
      if Luma(e) {
        assert IsChromaOf(es, e.partner.value);
        var j :| 0 <= j < |es| && Chroma(es[j]) && es[j].self == e.partner.value;
        var o := Forth(es, k, less, j);
      }
      if Chroma(e) {
        assert IsNamed(es, e.self);
        var j :| 0 <= j < |es| && Luma(es[j]) && es[j].partner.value == e.self;
        var o := Forth(es, k, less, j);
      }
    }
    forall i, j | 0 <= i < j < |less| && Luma(less[i]) && Luma(less[j])
      ensures less[i].partner != less[j].partner
    {
      assert less[i] == es[Back(k, i)] && less[j] == es[Back(k, j)];
    }
  }

  /** Destroying one object keeps the matching exactly when it is not a plane of a pair: destroying one
      plane leaves the other naming a texture that is gone. */
  lemma {:induction false} RemovalKeepsMatched<T>(es: seq<Entry<T>>, k: nat)
    requires Distinct(Selves(es)) && Matched(es) && k < |es|
    ensures Matched(es[..k] + es[k + 1..]) <==> !Luma(es[k]) && !Chroma(es[k])
  {
    hide *;
    RemovedSlice(es, k);
    RemovalDecides(es, k, es[..k] + es[k + 1..]);
  }

  lemma {:induction false} RemovalDecides<T>(es: seq<Entry<T>>, k: nat, less: seq<Entry<T>>)
    requires Removed(es, k, less) && Distinct(Selves(es)) && Matched(es)
    ensures Matched(less) <==> !Luma(es[k]) && !Chroma(es[k])
  {
    hide Distinct, Matched, Luma, Chroma;
    if !Luma(es[k]) && !Chroma(es[k]) {
      OthersMatched(es, k, less);
    } else {
      PlaneMissed(es, k, less);
    }
  }

  lemma {:induction false} RemovedSlice<T>(es: seq<Entry<T>>, k: nat)
    requires k < |es|
    ensures Removed(es, k, es[..k] + es[k + 1..])
  {
  }

  lemma {:induction false} PlaneMissed<T>(es: seq<Entry<T>>, k: nat, less: seq<Entry<T>>)
    requires Removed(es, k, less) && Distinct(Selves(es)) && Matched(es)
    requires Luma(es[k]) || Chroma(es[k])
    ensures !Matched(less)
  {
    if Luma(es[k]) {
      assert IsChromaOf(es, es[k].partner.value);
      var j :| 0 <= j < |es| && Chroma(es[j]) && es[j].self == es[k].partner.value;
      OnlyName(es, k, less);
      var o := Forth(es, k, less, j);
      hide NamedOnce, Distinct, IsNamed, IsChromaOf;
      assert Chroma(less[o]) && !IsNamed(less, less[o].self);
    } else {
      assert IsNamed(es, es[k].self);
      var j :| 0 <= j < |es| && Luma(es[j]) && es[j].partner.value == es[k].self;
      OnlySelf(es, k, less);
      var o := Forth(es, k, less, j);
      hide NamedOnce, Distinct, IsNamed, IsChromaOf;
      assert Luma(less[o]) && !IsChromaOf(less, less[o].partner.value);
    }
  }
}
