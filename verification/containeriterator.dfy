/**
 The breadth-first iterator over a container (src/container.cpp): a queue of containers and a place in
 the first one's list. It yields everything inside the container exactly once, level by level.
 */
module ContainerIterators {
  import opened Bytes
  import opened Containers
  import opened Forests
  import opened LevelOrder

  lemma {:induction false} ChildrenAppend<K>(g: Graph<K>, a: seq<K>, b: seq<K>)
    requires (forall c <- a :: c in g) && (forall c <- b :: c in g)
    ensures forall c <- a + b :: c in g
    ensures Children(g, a + b) == Children(g, a) + Children(g, b)
  {
    assert forall c <- a + b :: c in a || c in b;
    if a == [] {
      assert a + b == b;
    } else {
      assert (a + b)[1..] == a[1..] + b;
      ChildrenAppend(g, a[1..], b);
    }
  }

  ghost predicate Closed(s: Heap) {
    forall x, c :: x in s && c in s[x].items ==> c in s
  }

  lemma SoundClosed(s: Heap)
    requires Sound(s)
    ensures Closed(s)
  {
    forall x, c | x in s && c in s[x].items
      ensures c in s
    {
      assert LinkedDown(s, x);
    }
  }

  /** A queue of non-empty containers, and a place in the first one's list. */
  ghost predicate PlaceIn(s: Heap, over: seq<Item>, cur: nat) {
    && (forall c <- over :: c in s && s[c].items != [])
    && (over != [] ==> cur < |s[over[0]].items|)
  }

  /** What is queued but not yet reached. */
  ghost function Queued(s: Heap, over: seq<Item>, cur: nat): seq<Item>
    requires PlaceIn(s, over, cur)
  {
    if over == [] then [] else s[over[0]].items[cur..] + Children(Kids(s), over[1..])
  }

  // Queueing x behind the rest, unless it has no items.
  lemma QueueOne(s: Heap, over: seq<Item>, cur: nat, x: Item)
    requires PlaceIn(s, over, cur) && over != [] && x in s && s[x].items != []
    ensures PlaceIn(s, over + [x], cur) && Queued(s, over + [x], cur) == Queued(s, over, cur) + s[x].items
  {
    var o := over + [x];
    assert o[0] == over[0] && o[1..] == over[1..] + [x];
    ChildrenAppend(Kids(s), over[1..], [x]);
    assert Children(Kids(s), [x]) == s[x].items;
  }

  // Moving to the next place in the first container.
  lemma NextPlace(s: Heap, over: seq<Item>, cur: nat)
    requires PlaceIn(s, over, cur) && over != [] && cur + 1 < |s[over[0]].items|
    ensures PlaceIn(s, over, cur + 1)
    ensures Queued(s, over, cur) == [s[over[0]].items[cur]] + Queued(s, over, cur + 1)
  {
    hide Children;
    var l, k := s[over[0]].items, Children(Kids(s), over[1..]);
    assert l[cur..] == [l[cur]] + l[cur + 1..];
    Assoc([l[cur]], l[cur + 1..], k);
  }

  // Moving from the last place in the first container to the next container.
  lemma NextContainer(s: Heap, over: seq<Item>, cur: nat)
    requires PlaceIn(s, over, cur) && over != [] && cur + 1 == |s[over[0]].items|
    ensures PlaceIn(s, over[1..], 0)
    ensures Queued(s, over, cur) == [s[over[0]].items[cur]] + Queued(s, over[1..], 0)
  {
    var l := s[over[0]].items;
    assert l[cur..] == [l[cur]];
    if |over| > 1 {
      var k := s[over[1]].items;
      assert k[0..] == k;
    }
  }

  lemma EmptyQueue(s: Heap, over: seq<Item>, cur: nat)
    requires PlaceIn(s, over, cur)
    ensures over == [] <==> Queued(s, over, cur) == []
  {
    if over != [] {
      assert s[over[0]].items[cur..] != [];
    }
  }

  /** The iterator's next state: x, the current item, queues its own items; then the place moves on. */
  function After(s: Heap, over: seq<Item>, cur: nat): (seq<Item>, nat)
    requires over != [] && over[0] in s && cur < |s[over[0]].items| && s[over[0]].items[cur] in s
  {
    var x := s[over[0]].items[cur];
    var o := if s[x].container && s[x].items != [] then over + [x] else over;
    if cur + 1 == |s[over[0]].items| then (o[1..], 0) else (o, cur + 1)
  }

  lemma PlaceNow(s: Heap, over: seq<Item>, cur: nat)
    requires PlaceIn(s, over, cur) && over != [] && ParentsAgree(s)
    ensures over[0] in s && cur < |s[over[0]].items| && s[over[0]].items[cur] in s
    ensures var x := s[over[0]].items[cur]; x in s && (s[x].items != [] ==> s[x].container)
  {
    assert over[0] in over && LinkedDown(s, over[0]);
    var x := s[over[0]].items[cur];
    assert x in s[over[0]].items && x in s && LinkedDown(s, x);
  }

  lemma AdvanceLaw(s: Heap, over: seq<Item>, cur: nat)
    requires PlaceIn(s, over, cur) && over != [] && ParentsAgree(s)
    ensures over[0] in s && cur < |s[over[0]].items| && s[over[0]].items[cur] in s
    ensures var x, n := s[over[0]].items[cur], After(s, over, cur);
      && Queued(s, over, cur) != [] && x == Queued(s, over, cur)[0]
      && PlaceIn(s, n.0, n.1) && Queued(s, n.0, n.1) == Queued(s, over, cur)[1..] + s[x].items
      && (n.0 != [] <==> Queued(s, n.0, n.1) != [])
  {
    hide Queued, PlaceIn, ParentsAgree;
    PlaceNow(s, over, cur);
    var x, l, q := s[over[0]].items[cur], s[over[0]].items, Queued(s, over, cur);
    var o := over;
    if s[x].items != [] {
      QueueOne(s, over, cur, x);
      o := over + [x];
      assert o[0] == over[0];
    } else {
      assert q + s[x].items == q;
    }
    if cur + 1 == |l| {
      NextContainer(s, over, cur);
      NextContainer(s, o, cur);
      EmptyQueue(s, o[1..], 0);
    } else {
      NextPlace(s, over, cur);
      NextPlace(s, o, cur);
      EmptyQueue(s, o, cur + 1);
    }
    var n := After(s, over, cur);
    assert [x] + Queued(s, n.0, n.1) == q + s[x].items;
    assert Queued(s, n.0, n.1) == ([x] + Queued(s, n.0, n.1))[1..] == q[1..] + s[x].items;
  }

  class ContainerIterator {
    var over: seq<Item>
    var cur: nat

    ghost predicate Ready(s: Heap)
      reads this
    {
      PlaceIn(s, over, cur)
    }

    ghost function Pending(s: Heap): seq<Item>
      requires Ready(s)
      reads this
    {
      Queued(s, over, cur)
    }

    /** `Container::iterator`. */
    constructor (c: Item, ghost w: set<Item>)
      requires c in w
      ensures Ready(Snap(w)) && Pending(Snap(w)) == c.itemlist && (HasNext() <==> Pending(Snap(w)) != [])
      ensures Snap(w) == old(Snap(w))
    {
      over, cur := [], 0;
      if c.itemlist != [] {
        over := [c];
      }
    }

    predicate HasNext()
      reads this
    {
      over != []
    }

    function Current(ghost w: set<Item>): (x: Item)
      requires HasNext() && Ready(Snap(w))
      reads this, w
      ensures Pending(Snap(w)) != [] && x == Pending(Snap(w))[0]
    {
      assert over[0] in over;
      over[0].itemlist[cur]
    }

    /** `ContainerIterator::advance`: past the current item, with that item's own items queued behind the rest. */
    method Advance(ghost w: set<Item>)
      requires HasNext() && Ready(Snap(w)) && Closed(Snap(w)) && ParentsAgree(Snap(w))
      modifies this
      ensures Ready(Snap(w)) && Snap(w) == old(Snap(w))
      ensures old(Pending(Snap(w))) != [] && old(Pending(Snap(w)))[0] in w
      ensures Pending(Snap(w)) == old(Pending(Snap(w)))[1..] + Snap(w)[old(Pending(Snap(w)))[0]].items
      ensures HasNext() <==> Pending(Snap(w)) != []
    {
      hide Queued, PlaceIn, ParentsAgree, Closed;
      ghost var s := Snap(w);
      AdvanceLaw(s, over, cur);
      var x := over[0].itemlist[cur];
      hide Snap;
      if x.container && x.itemlist != [] {
        over := over + [x];
      }
      cur := cur + 1;
      if cur == |over[0].itemlist| {
        over := over[1..];
        cur := 0;
      }
    }
  }

  /** Everything inside c, level by level. */
  ghost function Inside(s: Heap, c: Item): seq<Item>
    requires Forested(s) && c in s
  {
    InsideListed(s, c);
    Levels<Item>(Kids(s), Ranks(s), s[c].items, Ranks(s)[c])
  }

  lemma InsideListed(s: Heap, c: Item)
    requires Forested(s) && c in s
    ensures c in Ranks(s) && Listed<Item>(Kids(s), Ranks(s), s[c].items, Ranks(s)[c])
  {
    ChildrenBelow<Item>(Kids(s), Ranks(s), c);
  }

  lemma {:induction false} SizeIsDeep<K>(g: Graph<K>, h: Rank<K>, v: map<K, int>, l: seq<K>, bound: nat)
    requires Listed(g, h, l, bound) && v.Keys == g.Keys && forall x <- v :: v[x] == 1
    ensures Size(g, h, l, bound) == DeepList(g, h, v, l, bound)
    decreases bound, |l|
  {
    if l != [] {
      SizeIsDeep(g, h, v, g[l[0]], h[l[0]]);
      SizeIsDeep(g, h, v, l[1..], bound);
    }
  }

  /** Each item inside c is listed exactly once, and the list is as long as c's items are many. */
  lemma InsideExactly(s: Heap, c: Item)
    requires Forested(s) && c in s
    ensures NoDuplicates(Inside(s, c))
    ensures forall x :: x in Inside(s, c) <==> x != c && Holds(s, c, x)
    ensures |Inside(s, c)| == Total(s, (x: Face) => 1, c)
  {
    InsideListed(s, c);
    BelowInLevels<Item>(Kids(s), Ranks(s), c);
    SizeIsDeep<Item>(Kids(s), Ranks(s), Values(s, (x: Face) => 1), s[c].items, Ranks(s)[c]);
  }

  /** The items seen so far, and those the queue will still yield, are all those inside c. */
  ghost predicate Going(s: Heap, c: Item, seen: seq<Item>, q: seq<Item>)
    requires Forested(s) && c in s
  {
    && Listed<Item>(Kids(s), Ranks(s), q, Ranks(s)[c])
    && seen + Queue<Item>(Kids(s), Ranks(s), q, Ranks(s)[c]) == Inside(s, c)
  }

  lemma GoingStart(s: Heap, c: Item)
    requires Forested(s) && c in s
    ensures Going(s, c, [], s[c].items)
  {
    InsideListed(s, c);
    QueueIsLevels<Item>(Kids(s), Ranks(s), s[c].items, Ranks(s)[c]);
  }

  lemma GoingStep(s: Heap, c: Item, seen: seq<Item>, q: seq<Item>)
    requires Forested(s) && c in s && Going(s, c, seen, q) && q != []
    ensures q[0] in s && Going(s, c, seen + [q[0]], q[1..] + s[q[0]].items)
    ensures |seen| < |Inside(s, c)| && q[0] in Inside(s, c)
  {
    var k := Queue<Item>(Kids(s), Ranks(s), q, Ranks(s)[c]);
    assert q[0] in q;
    QueuePop<Item>(Kids(s), Ranks(s), q, Ranks(s)[c]);
    assert k != [] && k[0] == q[0] && seen + k == seen + [q[0]] + k[1..];
    assert (seen + k)[|seen|] == q[0];
  }

  lemma GoingEnd(s: Heap, c: Item, seen: seq<Item>)
    requires Forested(s) && c in s && Going(s, c, seen, [])
    ensures seen == Inside(s, c)
  {
  }

  lemma SoundParts(s: Heap)
    requires Sound(s)
    ensures Forested(s) && ParentsAgree(s) && Closed(s)
  {
    SoundClosed(s);
  }

  /** `Container::getItemHoldingCount`: how many items are inside c, each counted once. */
  method GetItemHoldingCount(c: Item, ghost w: set<Item>) returns (counter: nat, ghost seen: seq<Item>)
    requires c in w && Sound(Snap(w))
    ensures seen == Inside(Snap(w), c) && counter == |seen|
    ensures counter == Total(Snap(w), (x: Face) => 1, c)
  {
    hide Sound, Forested, ParentsAgree, Closed, Total, Inside, Going, Snap, PlaceIn, Queued;
    ghost var s := Snap(w);
    SoundParts(s);
    InSnap(w, c);
    InsideExactly(s, c);
    GoingStart(s, c);
    seen := [];
    counter := 0;
    var it := new ContainerIterator(c, w);
    while it.HasNext()
      invariant Snap(w) == s && it.Ready(s) && Going(s, c, seen, it.Pending(s))
      invariant it.HasNext() <==> it.Pending(s) != []
      invariant counter == |seen|
      decreases |Inside(s, c)| - |seen|
    {
      GoingStep(s, c, seen, it.Pending(s));
      seen := seen + [it.Pending(s)[0]];
      counter := counter + 1;
      it.Advance(w);
    }
    GoingEnd(s, c, seen);
  }

  /** `Container::isHoldingItem`: whether x is inside c, at any depth. */
  method IsHoldingItem(c: Item, x: Item, ghost w: set<Item>) returns (holding: bool)
    requires c in w && Sound(Snap(w))
    ensures holding <==> x != c && Holds(Snap(w), c, x)
  {
    hide Sound, Forested, ParentsAgree, Closed, Total, Inside, Going, Snap, PlaceIn, Queued, Holds;
    ghost var s := Snap(w);
    SoundParts(s);
    InSnap(w, c);
    InsideExactly(s, c);
    GoingStart(s, c);
    ghost var seen: seq<Item> := [];
    var it := new ContainerIterator(c, w);
    while it.HasNext()
      invariant Snap(w) == s && it.Ready(s) && Going(s, c, seen, it.Pending(s))
      invariant it.HasNext() <==> it.Pending(s) != []
      invariant x !in seen
      decreases |Inside(s, c)| - |seen|
    {
      GoingStep(s, c, seen, it.Pending(s));
      seen := seen + [it.Pending(s)[0]];
      if it.Current(w) == x {
        return true;
      }
      it.Advance(w);
    }
    GoingEnd(s, c, seen);
    return false;
  }

  // ---------------------------------------------------------------- whole lists at a time

  /** Taking a whole list off the front of the queue puts all its items' own items at the back. */
  lemma GoingOverList(s: Heap, c: Item, seen: seq<Item>, l: seq<Item>, m: seq<Item>)
    requires Forested(s) && c in s && Going(s, c, seen, l + m)
    ensures (forall x <- l :: x in s) && Going(s, c, seen + l, m + Children(Kids(s), l))
    ensures seen + l <= Inside(s, c)
  {
    var g, h, b := Kids(s), Ranks(s), Ranks(s)[c];
    assert forall x <- l :: x in l + m;
    QueueRotates<Item>(g, h, l, m, b);
    Assoc(seen, l, Queue<Item>(g, h, m + Children(g, l), b));
  }

  /** Any sum over what is listed inside c is the sum over what is inside c. */
  lemma InsideSum(s: Heap, c: Item, f: Face -> int)
    requires Forested(s) && c in s
    ensures (forall x <- Inside(s, c) :: x in Values(s, f)) && Sum<Item>(Values(s, f), Inside(s, c)) == Total(s, f, c)
  {
    InsideListed(s, c);
    QueueIsLevels<Item>(Kids(s), Ranks(s), s[c].items, Ranks(s)[c]);
    QueueSum<Item>(Kids(s), Ranks(s), Values(s, f), s[c].items, Ranks(s)[c]);
  }
}
