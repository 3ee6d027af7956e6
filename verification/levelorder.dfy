/**
 Listing a forest level by level, and the queue that does it: the queue lists every node below a given
 one exactly once, all nodes of one level before those of the next.
 */
module LevelOrder {
  import opened Forests

  ghost predicate Listed<K>(g: Graph<K>, h: Rank<K>, l: seq<K>, bound: nat) {
    IsForest(g, h) && forall c <- l :: c in g && h[c] < bound
  }

  /** How many nodes are listed in l or lie below one listed. */
  ghost function Size<K>(g: Graph<K>, h: Rank<K>, l: seq<K>, bound: nat): nat
    requires Listed(g, h, l, bound)
    decreases bound, |l|
  {
    if l == [] then 0 else 1 + Size(g, h, g[l[0]], h[l[0]]) + Size(g, h, l[1..], bound)
  }

  lemma {:induction false} SizeAppend<K>(g: Graph<K>, h: Rank<K>, a: seq<K>, b: seq<K>, bound: nat)
    requires Listed(g, h, a, bound) && Listed(g, h, b, bound)
    ensures Listed(g, h, a + b, bound) && Size(g, h, a + b, bound) == Size(g, h, a, bound) + Size(g, h, b, bound)
    decreases |a|
  {
    hide IsForest;
    assert forall c <- a + b :: c in a || c in b;
    if a == [] {
      assert a + b == b;
    } else {
      assert (a + b)[1..] == a[1..] + b;
      SizeAppend(g, h, a[1..], b, bound);
    }
  }

  lemma {:induction false} SizeBound<K>(g: Graph<K>, h: Rank<K>, l: seq<K>, b: nat, b': nat)
    requires Listed(g, h, l, b) && Listed(g, h, l, b')
    ensures Size(g, h, l, b) == Size(g, h, l, b')
    decreases |l|
  {
    hide IsForest;
    if l != [] {
      SizeBound(g, h, l[1..], b, b');
    }
  }

  /** The children of all the listed nodes, in order. */
  function Children<K(==)>(g: Graph<K>, l: seq<K>): seq<K>
    requires forall c <- l :: c in g
  {
    if l == [] then [] else g[l[0]] + Children(g, l[1..])
  }

  lemma {:induction false} ChildrenListed<K>(g: Graph<K>, h: Rank<K>, l: seq<K>, bound: nat)
    requires Listed(g, h, l, bound)
    ensures bound > 0 || l == []
    ensures bound > 0 ==> Listed(g, h, Children(g, l), bound - 1)
  {
    if l != [] {
      ChildrenListed(g, h, l[1..], bound);
      assert l[0] in l;
      forall c <- Children(g, l)
        ensures c in g && h[c] < bound - 1
      {
        assert c in g[l[0]] || c in Children(g, l[1..]);
      }
    }
  }

  /** Level order: the listed nodes, then their children, then theirs. */
  ghost function Levels<K>(g: Graph<K>, h: Rank<K>, l: seq<K>, bound: nat): seq<K>
    requires Listed(g, h, l, bound)
    decreases bound
  {
    if l == [] then [] else
      ChildrenListed(g, h, l, bound);
      l + Levels(g, h, Children(g, l), bound - 1)
  }

  lemma QueuePop<K>(g: Graph<K>, h: Rank<K>, q: seq<K>, bound: nat)
    requires Listed(g, h, q, bound) && q != []
    ensures Listed(g, h, q[1..] + g[q[0]], bound)
    ensures Size(g, h, q[1..] + g[q[0]], bound) == Size(g, h, q, bound) - 1
  {
    assert q[0] in q;
    SizeAppend(g, h, q[1..], g[q[0]], bound);
    SizeBound(g, h, g[q[0]], h[q[0]], bound);
  }

  /** What a queue yields that takes nodes from its front and puts their children at its back. */
  ghost function Queue<K>(g: Graph<K>, h: Rank<K>, q: seq<K>, bound: nat): seq<K>
    requires Listed(g, h, q, bound)
    decreases Size(g, h, q, bound)
  {
    if q == [] then [] else
      QueuePop(g, h, q, bound);
      [q[0]] + Queue(g, h, q[1..] + g[q[0]], bound)
  }

  lemma QueueUnfold<K>(g: Graph<K>, h: Rank<K>, x: K, k: seq<K>, bound: nat)
    requires Listed(g, h, [x] + k, bound)
    ensures x in g && Listed(g, h, k, bound) && Listed(g, h, k + g[x], bound)
    ensures Queue(g, h, [x] + k, bound) == [x] + Queue(g, h, k + g[x], bound)
  {
    hide IsForest, Size;
    var q := [x] + k;
    assert q[0] == x && q[1..] == k && x in q && forall c <- k :: c in q;
    QueuePop(g, h, q, bound);
  }

  lemma ChildrenUnfold<K>(g: Graph<K>, x: K, k: seq<K>)
    requires x in g && forall c <- k :: c in g
    ensures (forall c <- [x] + k :: c in g) && Children(g, [x] + k) == g[x] + Children(g, k)
  {
    assert ([x] + k)[1..] == k;
  }

  lemma ListedLeft<K>(g: Graph<K>, h: Rank<K>, a: seq<K>, b: seq<K>, bound: nat)
    requires Listed(g, h, a + b, bound)
    ensures Listed(g, h, a, bound) && Listed(g, h, b, bound) && forall c <- a :: c in g
  {
    hide IsForest;
    assert forall c <- a :: c in a + b;
    assert forall c <- b :: c in a + b;
  }

  lemma {:induction false} QueueRotates<K>(g: Graph<K>, h: Rank<K>, l: seq<K>, m: seq<K>, bound: nat)
    requires Listed(g, h, l + m, bound)
    ensures (forall c <- l :: c in g) && Listed(g, h, m + Children(g, l), bound)
    ensures Queue(g, h, l + m, bound) == l + Queue(g, h, m + Children(g, l), bound)
    decreases |l|
  {
    hide Listed, IsForest, Size, Queue;
    ListedLeft(g, h, l, m, bound);
    if l == [] {
      assert l + m == m && m + Children(g, l) == m;
      assert l + Queue(g, h, m, bound) == Queue(g, h, m, bound);
    } else {
      hide Children;
      var x, k := l[0], l[1..];
      assert l == [x] + k && [x] + k + m == [x] + (k + m) && k + m + g[x] == k + (m + g[x]);
      QueueUnfold(g, h, x, k + m, bound);
      QueueRotates(g, h, k, m + g[x], bound);
      ChildrenUnfold(g, x, k);
      assert m + g[x] + Children(g, k) == m + (g[x] + Children(g, k));
      var rest := Queue(g, h, m + Children(g, l), bound);
      assert [x] + (k + rest) == [x] + k + rest;
    }
  }

  lemma {:induction false} QueueBound<K>(g: Graph<K>, h: Rank<K>, q: seq<K>, b: nat, b': nat)
    requires Listed(g, h, q, b) && Listed(g, h, q, b')
    ensures Queue(g, h, q, b) == Queue(g, h, q, b')
    decreases Size(g, h, q, b)
  {
    hide IsForest, Size;
    if q != [] {
      QueuePop(g, h, q, b);
      QueuePop(g, h, q, b');
      QueueBound(g, h, q[1..] + g[q[0]], b, b');
    }
  }

  /** The queue lists level by level. */
  lemma {:induction false} QueueIsLevels<K>(g: Graph<K>, h: Rank<K>, l: seq<K>, bound: nat)
    requires Listed(g, h, l, bound)
    ensures Queue(g, h, l, bound) == Levels(g, h, l, bound)
    decreases bound
  {
    hide Listed, IsForest, Size, Children;
    if l != [] {
      hide Queue;
      assert l + [] == l;
      ListedLeft(g, h, l, [], bound);
      ChildrenListed(g, h, l, bound);
      var k := Children(g, l);
      assert [] + k == k;
      QueueRotates(g, h, l, [], bound);
      QueueBound(g, h, k, bound, bound - 1);
      QueueIsLevels(g, h, k, bound - 1);
    }
  }

  lemma {:induction false} QueueSize<K>(g: Graph<K>, h: Rank<K>, q: seq<K>, bound: nat)
    requires Listed(g, h, q, bound)
    ensures |Queue(g, h, q, bound)| == Size(g, h, q, bound)
    decreases Size(g, h, q, bound)
  {
    if q != [] {
      QueuePop(g, h, q, bound);
      QueueSize(g, h, q[1..] + g[q[0]], bound);
    }
  }

  ghost predicate Below<K>(g: Graph<K>, h: Rank<K>, l: seq<K>, x: K)
    requires IsForest(g, h) && forall c <- l :: c in g
  {
    exists c :: c in l && Within(g, h, c, x)
  }

  lemma BelowPop<K>(g: Graph<K>, h: Rank<K>, q: seq<K>, bound: nat, x: K)
    requires Listed(g, h, q, bound) && q != []
    ensures forall c <- q[1..] + g[q[0]] :: c in g
    ensures Below(g, h, q, x) <==> x == q[0] || Below(g, h, q[1..] + g[q[0]], x)
  {
    assert q[0] in q && Within(g, h, q[0], q[0]);
    var r := q[1..] + g[q[0]];
    forall c <- r
      ensures c in g && (Within(g, h, c, x) ==> Below(g, h, q, x))
    {
      if c in g[q[0]] {
        if Within(g, h, c, x) {
          WithinUp2(g, h, q[0], c, x);
        }
      } else {
        assert c in q;
      }
    }
    if Below(g, h, q, x) && x != q[0] {
      var c :| c in q && Within(g, h, c, x);
      if c == q[0] {
        var e :| e in g[c] && Within(g, h, e, x);
        assert e in r;
      } else {
        assert c in q[1..];
        assert c in r;
      }
    }
  }

  /** The queue yields what is listed and everything below it, and nothing else. */
  lemma {:induction false} QueueMembers<K>(g: Graph<K>, h: Rank<K>, q: seq<K>, bound: nat, x: K)
    requires Listed(g, h, q, bound)
    ensures x in Queue(g, h, q, bound) <==> Below(g, h, q, x)
    decreases Size(g, h, q, bound)
  {
    if q != [] {
      QueuePop(g, h, q, bound);
      BelowPop(g, h, q, bound, x);
      hide Below, Size, IsForest;
      QueueMembers(g, h, q[1..] + g[q[0]], bound, x);
    }
  }

  /** No node lies below two of the listed ones. */
  ghost predicate Apart<K>(g: Graph<K>, h: Rank<K>, l: seq<K>)
    requires IsForest(g, h) && forall c <- l :: c in g
  {
    forall i, j, x :: 0 <= i < j < |l| && x in g && Within(g, h, l[i], x) ==> !Within(g, h, l[j], x)
  }

  lemma SiblingsApart<K>(g: Graph<K>, h: Rank<K>, y: K)
    requires IsForest(g, h) && y in g
    ensures forall c <- g[y] :: c in g
    ensures Apart(g, h, g[y])
  {
    ChildrenBelow(g, h, y);
    var l := g[y];
    assert NoDuplicates(l);
    forall i, j, x | 0 <= i < j < |l| && x in g && Within(g, h, l[i], x)
      ensures !Within(g, h, l[j], x)
    {
      if Within(g, h, l[j], x) {
        SiblingsDisjoint(g, h, y, l[i], l[j], x);
      }
    }
  }

  lemma ApartPop<K>(g: Graph<K>, h: Rank<K>, q: seq<K>, bound: nat)
    requires Listed(g, h, q, bound) && q != [] && Apart(g, h, q)
    ensures forall c <- q[1..] + g[q[0]] :: c in g
    ensures Apart(g, h, q[1..] + g[q[0]]) && !Below(g, h, q[1..] + g[q[0]], q[0])
  {
    var y, t := q[0], q[1..];
    assert y in q;
    var r := t + g[y];
    ChildrenBelow(g, h, y);
    SiblingsApart(g, h, y);
    forall i, j, x | 0 <= i < j < |r| && x in g && Within(g, h, r[i], x)
      ensures !Within(g, h, r[j], x)
    {
      if j < |t| {
        assert r[i] == q[i + 1] && r[j] == q[j + 1];
      } else {
        assert r[j] == g[y][j - |t|];
        if i < |t| {
          assert r[i] == q[i + 1];
          if Within(g, h, r[j], x) {
            WithinUp2(g, h, y, r[j], x);
          }
        } else {
          assert r[i] == g[y][i - |t|];
        }
      }
    }
    forall c <- r
      ensures !Within(g, h, c, y)
    {
      if c in t {
        var i :| 0 <= i < |t| && t[i] == c;
        assert q[i + 1] == c && Within(g, h, q[0], y);
      }
    }
  }

  /** The queue yields nothing twice. */
  lemma {:induction false} QueueDistinct<K>(g: Graph<K>, h: Rank<K>, q: seq<K>, bound: nat)
    requires Listed(g, h, q, bound) && Apart(g, h, q)
    ensures NoDuplicates(Queue(g, h, q, bound))
    decreases Size(g, h, q, bound)
  {
    if q != [] {
      QueuePop(g, h, q, bound);
      ApartPop(g, h, q, bound);
      var r := q[1..] + g[q[0]];
      hide Apart, Below, IsForest, Size;
      QueueDistinct(g, h, r, bound);
      QueueMembers(g, h, r, bound, q[0]);
    }
  }

  /** Everything below y, each node once, level by level. */
  lemma BelowInLevels<K>(g: Graph<K>, h: Rank<K>, y: K)
    requires IsForest(g, h) && y in g
    ensures Listed(g, h, g[y], h[y])
    ensures NoDuplicates(Levels(g, h, g[y], h[y]))
    ensures forall x :: x in Levels(g, h, g[y], h[y]) <==> x != y && Within(g, h, y, x)
    ensures |Levels(g, h, g[y], h[y])| == Size(g, h, g[y], h[y])
  {
    ChildrenBelow(g, h, y);
    SiblingsApart(g, h, y);
    QueueIsLevels(g, h, g[y], h[y]);
    QueueDistinct(g, h, g[y], h[y]);
    QueueSize(g, h, g[y], h[y]);
    forall x
      ensures x in Queue(g, h, g[y], h[y]) <==> x != y && Within(g, h, y, x)
    {
      QueueMembers(g, h, g[y], h[y], x);
    }
  }

  /** The sum of v over a list. */
  function Sum<K(==)>(v: map<K, int>, l: seq<K>): int
    requires forall x <- l :: x in v
  {
    if l == [] then 0 else v[l[0]] + Sum(v, l[1..])
  }

  /** The sum over what the queue yields is the sum over what is listed and all below it. */
  lemma {:induction false} QueueSum<K>(g: Graph<K>, h: Rank<K>, v: map<K, int>, q: seq<K>, bound: nat)
    requires Listed(g, h, q, bound) && v.Keys == g.Keys
    ensures forall x <- Queue(g, h, q, bound) :: x in v
    ensures Sum(v, Queue(g, h, q, bound)) == DeepList(g, h, v, q, bound)
    decreases Size(g, h, q, bound)
  {
    if q != [] {
      var x, t := q[0], q[1..];
      QueuePop(g, h, q, bound);
      assert x in q && Listed(g, h, t, bound) && Listed(g, h, g[x], bound) && Listed(g, h, g[x], h[x]);
      QueueSum(g, h, v, t + g[x], bound);
      hide IsForest, Size;
      DeepListAppend(g, h, v, t, g[x], bound);
      DeepListBound(g, h, v, g[x], h[x], bound);
      var k := Queue(g, h, q, bound);
      assert k[1..] == Queue(g, h, t + g[x], bound);
    }
  }

  lemma {:induction false} DeepListAppend<K>(g: Graph<K>, h: Rank<K>, v: map<K, int>, a: seq<K>, b: seq<K>, bound: nat)
    requires Listed(g, h, a, bound) && Listed(g, h, b, bound) && v.Keys == g.Keys
    ensures Listed(g, h, a + b, bound)
    ensures DeepList(g, h, v, a + b, bound) == DeepList(g, h, v, a, bound) + DeepList(g, h, v, b, bound)
    decreases |a|
  {
    hide IsForest, Deep;
    assert forall c <- a + b :: c in a || c in b;
    if a == [] {
      assert a + b == b;
    } else {
      assert (a + b)[1..] == a[1..] + b;
      DeepListAppend(g, h, v, a[1..], b, bound);
    }
  }
}
