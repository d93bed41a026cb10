/** What an intrusive list holds after any interleaving of constructions and destructions
    (libobs-d3d11/d3d11-subsystem.cpp:50-68, libobs-opengl/gl-shader.c:646-650, 671-690). */
module ListRuns {
  import opened IntrusiveList
  import opened Lists

  datatype Event<T> = Constructed(x: T) | Destroyed(x: T)

  ghost function WithoutOne<T>(s: seq<T>, x: T): seq<T> {
    if s == [] then [] else if s[0] == x then s[1..] else [s[0]] + WithoutOne(s[1..], x)
  }

  /** The list after a run: a construction links at the front, a destruction unlinks. */
  ghost function Listed<T>(events: seq<Event<T>>): seq<T> {
    if events == [] then []
    else
      var before := Listed(events[..|events| - 1]);
      match events[|events| - 1]
      case Constructed(x) => [x] + before
      case Destroyed(x) => WithoutOne(before, x)
  }

  /** An object is constructed when it is not live and destroyed when it is. */
  ghost predicate Lifelike<T>(events: seq<Event<T>>) {
    events == [] ||
    (Lifelike(events[..|events| - 1]) &&
     match events[|events| - 1]
     case Constructed(x) => !Live(events[..|events| - 1], x)
     case Destroyed(x) => Live(events[..|events| - 1], x))
  }

  /** The last event about x is its construction. */
  ghost predicate Live<T>(events: seq<Event<T>>, x: T) {
    events != [] &&
    var e := events[|events| - 1];
    if e.x == x then e.Constructed? else Live(events[..|events| - 1], x)
  }

  lemma {:induction false} WithoutOneMembers<T>(s: seq<T>, x: T, y: T)
    requires Distinct(s)
    ensures y in WithoutOne(s, x) <==> y in s && y != x
  {
    if s != [] {
      var t := s[1..];
      assert Distinct(t) && s[0] !in t by {
        assert forall i :: 0 <= i < |t| ==> t[i] == s[i + 1];
      }
      WithoutOneMembers(t, x, y);
      assert y in s <==> y == s[0] || y in t;
    }
  }

  lemma {:induction false} WithoutOneDistinct<T>(s: seq<T>, x: T)
    requires Distinct(s)
    ensures Distinct(WithoutOne(s, x))
  {
    if s != [] {
      var t := s[1..];
      assert Distinct(t) && s[0] !in t by {
        assert forall i :: 0 <= i < |t| ==> t[i] == s[i + 1];
      }
      WithoutOneDistinct(t, x);
      WithoutOneMembers(t, x, s[0]);
    }
  }

  /** In every run the list holds exactly the live objects, each once. */
  lemma {:induction false} ListedIsLive<T>(events: seq<Event<T>>, y: T)
    requires Lifelike(events)
    ensures Distinct(Listed(events))
    ensures y in Listed(events) <==> Live(events, y)
  {
    if events != [] {
      var before, e := events[..|events| - 1], events[|events| - 1];
      ListedIsLive(before, y);
      ListedIsLive(before, e.x);
      if e.Destroyed? {
        WithoutOneDistinct(Listed(before), e.x);
        WithoutOneMembers(Listed(before), e.x, y);
      }
    }
  }

  /** Unlinking element i of a list without duplicates is removing that element. */
  lemma {:induction false} UnlinkIsWithout<T>(s: seq<T>, i: nat)
    requires Distinct(s) && i < |s|
    ensures s[..i] + s[i + 1..] == WithoutOne(s, s[i])
  {
    if i > 0 {
      var t := s[1..];
      assert Distinct(t) by {
        assert forall k :: 0 <= k < |t| ==> t[k] == s[k + 1];
      }
      UnlinkIsWithout(t, i - 1);
      assert s[0] != s[i] && t[i - 1] == s[i];
      assert s[..i] + s[i + 1..] == [s[0]] + (t[..i - 1] + t[i..]);
    }
  }

  /** So linking and unlinking the nodes of a list follow the run: construction. */
  method Construct<T>(list: List<T>, n: Node<T>, ghost events: seq<Event<Node<T>>>)
    requires list.Valid() && Lifelike(events) && list.nodes == Listed(events) && !Live(events, n)
    modifies list, list.nodes, n
    ensures list.Valid() && Lifelike(events + [Constructed(n)]) && list.nodes == Listed(events + [Constructed(n)])
  {
    ListedIsLive(events, n);
    list.LinkFront(n);
    assert (events + [Constructed(n)])[..|events|] == events;
  }

  /** Destruction of element i. */
  method Destruct<T>(list: List<T>, n: Node<T>, ghost i: nat, ghost events: seq<Event<Node<T>>>)
    requires list.Valid() && Lifelike(events) && list.nodes == Listed(events) && i < |list.nodes| && list.nodes[i] == n
    modifies list, list.nodes
    ensures list.Valid() && Lifelike(events + [Destroyed(n)]) && list.nodes == Listed(events + [Destroyed(n)])
  {
    ListedIsLive(events, n);
    UnlinkIsWithout(list.nodes, i);
    list.Unlink(n, i);
    assert (events + [Destroyed(n)])[..|events|] == events;
  }
}
