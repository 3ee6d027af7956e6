/**
 Forests given by child lists: who lies within whom, sums over everything a node holds, and the
 level order of its descendants. The container modules instantiate the nodes with item objects.
 */
module Forests {

  type Graph<!K> = map<K, seq<K>>
  type Rank<!K> = map<K, nat>

  predicate NoDuplicates<K(==)>(l: seq<K>) {
    forall i, j :: 0 <= i < j < |l| ==> l[i] != l[j]
  }

  ghost predicate Descending<K>(g: Graph<K>, h: Rank<K>) {
    h.Keys == g.Keys && forall x, c :: x in g && c in g[x] ==> c in g && h[c] < h[x]
  }

  ghost predicate ListsDistinct<K>(g: Graph<K>) {
    forall x :: x in g ==> NoDuplicates(g[x])
  }

  ghost predicate OnePlace<K>(g: Graph<K>) {
    forall x, y, c :: x in g && y in g && c in g[x] && c in g[y] ==> x == y
  }

  /** Child lists that form a forest: ranks fall towards the children, and no child has two places. */
  ghost predicate IsForest<K>(g: Graph<K>, h: Rank<K>)
    ensures IsForest(g, h) ==> h.Keys == g.Keys
  {
    Descending(g, h) && ListsDistinct(g) && OnePlace(g)
  }

  /** x is a or lies somewhere below a. */
  ghost predicate Within<K>(g: Graph<K>, h: Rank<K>, a: K, x: K)
    requires IsForest(g, h) && a in g
    decreases h[a]
  {
    x == a || exists c :: c in g[a] && Within(g, h, c, x)
  }

  ghost predicate Orphan<K>(g: Graph<K>, x: K) {
    forall y :: y in g ==> x !in g[y]
  }

  /** The sum of v over everything below x. */
  ghost function Deep<K>(g: Graph<K>, h: Rank<K>, v: map<K, int>, x: K): int
    requires IsForest(g, h) && v.Keys == g.Keys && x in g
    decreases h[x], |g[x]| + 1
  {
    DeepList(g, h, v, g[x], h[x])
  }

  /** The sum of v over the listed nodes and everything below them. */
  ghost function DeepList<K>(g: Graph<K>, h: Rank<K>, v: map<K, int>, l: seq<K>, bound: nat): int
    requires IsForest(g, h) && v.Keys == g.Keys
    requires forall c <- l :: c in g && h[c] < bound
    decreases bound, |l|
  {
    if l == [] then 0
    else v[l[0]] + Deep(g, h, v, l[0]) + DeepList(g, h, v, l[1..], bound)
  }

  // ---------------------------------------------------------------- going up

  lemma {:induction false} WithinRank<K>(g: Graph<K>, h: Rank<K>, a: K, x: K)
    requires IsForest(g, h) && a in g && Within(g, h, a, x)
    ensures x in g && h[x] <= h[a] && (x != a ==> h[x] < h[a])
    decreases h[a]
  {
    if x != a {
      var c :| c in g[a] && Within(g, h, c, x);
      WithinRank(g, h, c, x);
    }
  }

  lemma {:induction false} WithinTrans<K>(g: Graph<K>, h: Rank<K>, a: K, b: K, x: K)
    requires IsForest(g, h) && a in g && b in g && Within(g, h, a, b) && Within(g, h, b, x)
    ensures Within(g, h, a, x)
    decreases h[a]
  {
    if a != b {
      var c :| c in g[a] && Within(g, h, c, b);
      WithinTrans(g, h, c, b, x);
    }
  }

  // What holds x, other than x, holds x's parent.
  lemma {:induction false} WithinUp<K>(g: Graph<K>, h: Rank<K>, a: K, p: K, x: K)
    requires IsForest(g, h) && a in g && p in g && x in g[p]
    ensures Within(g, h, a, x) <==> x == a || Within(g, h, a, p)
    decreases h[a]
  {
    if Within(g, h, a, p) {
      assert Within(g, h, p, x);
      WithinTrans(g, h, a, p, x);
    }
    if Within(g, h, a, x) && x != a {
      var c :| c in g[a] && Within(g, h, c, x);
      if c == x {
        assert a == p;
      } else {
        WithinUp(g, h, c, p, x);
      }
    }
  }

  lemma WithinOrphan<K>(g: Graph<K>, h: Rank<K>, a: K, x: K)
    requires IsForest(g, h) && a in g && Orphan(g, x)
    ensures Within(g, h, a, x) <==> a == x
    decreases h[a]
  {
    if a != x && Within(g, h, a, x) {
      var c :| c in g[a] && Within(g, h, c, x);
      WithinOrphan(g, h, c, x);
    }
  }

  // Siblings share nothing.
  lemma {:induction false} SiblingsDisjoint<K>(g: Graph<K>, h: Rank<K>, y: K, c: K, d: K, x: K)
    requires IsForest(g, h) && y in g && c in g[y] && d in g[y]
    requires x in g && Within(g, h, c, x) && Within(g, h, d, x)
    ensures c == d
    decreases if h[y] > h[x] then h[y] - h[x] else 0
  {
    WithinRank(g, h, c, x);
    WithinRank(g, h, d, x);
    if x == c || x == d {
      WithinUp(g, h, c, y, x);
      WithinUp(g, h, d, y, x);
      if c != d && x == c {
        WithinRank(g, h, d, y);
      }
      if c != d && x == d {
        WithinRank(g, h, c, y);
      }
    } else {
      var p := ParentBelow(g, h, c, x);
      WithinUp(g, h, c, p, x);
      WithinUp(g, h, d, p, x);
      SiblingsDisjoint(g, h, y, c, d, p);
    }
  }

  lemma {:induction false} ParentBelow<K>(g: Graph<K>, h: Rank<K>, a: K, x: K) returns (p: K)
    requires IsForest(g, h) && a in g && Within(g, h, a, x) && x != a
    ensures p in g && x in g[p] && Within(g, h, a, p) && h[p] > h[x]
    decreases h[a]
  {
    var c :| c in g[a] && Within(g, h, c, x);
    if c == x {
      p := a;
    } else {
      p := ParentBelow(g, h, c, x);
      WithinTrans(g, h, a, c, p);
    }
  }

  // ---------------------------------------------------------------- a change at one node

  /** The graphs differ at most in p's child list, and v at most on p's children. */
  ghost predicate ChangedAt<K>(g: Graph<K>, v: map<K, int>, g': Graph<K>, v': map<K, int>, p: K) {
    && g'.Keys == g.Keys && v.Keys == g.Keys && v'.Keys == g.Keys
    && forall y :: y in g && y != p ==> g'[y] == g[y] && forall c <- g[y] :: c in v && c in v' && v'[c] == v[c]
  }

  /** Nothing changes for a node that does not hold p. */
  lemma {:induction false} Unaffected<K>(g: Graph<K>, h: Rank<K>, v: map<K, int>, g': Graph<K>, h': Rank<K>, v': map<K, int>, p: K, y: K)
    requires IsForest(g, h) && IsForest(g', h') && ChangedAt(g, v, g', v', p)
    requires y in g && !Within(g, h, y, p)
    ensures Deep(g', h', v', y) == Deep(g, h, v, y)
    decreases h[y], |g[y]| + 1
  {
    UnaffectedList(g, h, v, g', h', v', p, g[y], h[y], h'[y]);
  }

  lemma {:induction false} UnaffectedList<K>(g: Graph<K>, h: Rank<K>, v: map<K, int>, g': Graph<K>, h': Rank<K>, v': map<K, int>, p: K,
      l: seq<K>, b: nat, b': nat)
    requires IsForest(g, h) && IsForest(g', h') && ChangedAt(g, v, g', v', p)
    requires forall c <- l :: c in g && h[c] < b && h'[c] < b' && v'[c] == v[c] && !Within(g, h, c, p)
    ensures DeepList(g', h', v', l, b') == DeepList(g, h, v, l, b)
    decreases b, |l|
  {
    hide IsForest, Within, ChangedAt, Deep;
    if l != [] {
      Unaffected(g, h, v, g', h', v', p, l[0]);
      UnaffectedList(g, h, v, g', h', v', p, l[1..], b, b');
    }
  }

  /** A change of d in what p holds is a change of d in what every holder of p holds, and no other change. */
  lemma {:induction false} Perturb<K>(g: Graph<K>, h: Rank<K>, v: map<K, int>, g': Graph<K>, h': Rank<K>, v': map<K, int>, p: K, d: int, y: K)
    requires IsForest(g, h) && IsForest(g', h') && ChangedAt(g, v, g', v', p) && p in g && y in g
    requires Deep(g', h', v', p) == Deep(g, h, v, p) + d
    ensures Deep(g', h', v', y) == Deep(g, h, v, y) + (if Within(g, h, y, p) then d else 0)
    decreases h[y]
  {
    if !Within(g, h, y, p) {
      Unaffected(g, h, v, g', h', v', p, y);
    } else if y != p {
      var c :| c in g[y] && Within(g, h, c, p);
      Perturb(g, h, v, g', h', v', p, d, c);
      forall e <- g[y]
        ensures Within(g, h, e, p) ==> e == c
      {
        if Within(g, h, e, p) {
          WithinRank(g, h, c, p);
          SiblingsDisjoint(g, h, y, c, e, p);
        }
      }
      var i :| 0 <= i < |g[y]| && g[y][i] == c;
      PerturbList(g, h, v, g', h', v', p, d, g[y], i, h[y], h'[y]);
    }
  }

  // A list with exactly one holder of p, at i.
  lemma {:induction false} PerturbList<K>(g: Graph<K>, h: Rank<K>, v: map<K, int>, g': Graph<K>, h': Rank<K>, v': map<K, int>, p: K, d: int,
      l: seq<K>, i: nat, b: nat, b': nat)
    requires IsForest(g, h) && IsForest(g', h') && ChangedAt(g, v, g', v', p) && i < |l|
    requires forall c <- l :: c in g && h[c] < b && h'[c] < b' && v'[c] == v[c]
    requires NoDuplicates(l) && forall c <- l :: Within(g, h, c, p) ==> c == l[i]
    requires Deep(g', h', v', l[i]) == Deep(g, h, v, l[i]) + d
    ensures DeepList(g', h', v', l, b') == DeepList(g, h, v, l, b) + d
    decreases |l|
  {
    hide IsForest, Within, ChangedAt, Deep;
    if i == 0 {
      UnaffectedList(g, h, v, g', h', v', p, l[1..], b, b');
    } else {
      Unaffected(g, h, v, g', h', v', p, l[0]);
      PerturbList(g, h, v, g', h', v', p, d, l[1..], i - 1, b, b');
    }
  }

  // Which nodes hold p does not depend on what p holds.
  lemma {:induction false} AboveUnchanged<K>(g: Graph<K>, h: Rank<K>, g': Graph<K>, h': Rank<K>, p: K, y: K)
    requires IsForest(g, h) && IsForest(g', h') && g.Keys == g'.Keys && y in g
    requires forall z :: z in g && z != p ==> g'[z] == g[z]
    ensures Within(g', h', y, p) <==> Within(g, h, y, p)
    decreases h[y]
  {
    if y != p {
      forall c <- g[y]
        ensures Within(g', h', c, p) <==> Within(g, h, c, p)
      {
        AboveUnchanged(g, h, g', h', p, c);
      }
    }
  }

  // ---------------------------------------------------------------- ranks do not matter

  lemma {:induction false} DeepAnyRank<K>(g: Graph<K>, h: Rank<K>, h': Rank<K>, v: map<K, int>, x: K)
    requires IsForest(g, h) && IsForest(g, h') && v.Keys == g.Keys && x in g
    ensures Deep(g, h, v, x) == Deep(g, h', v, x)
    decreases h[x], |g[x]| + 1
  {
    DeepListAnyRank(g, h, h', v, g[x], h[x], h'[x]);
  }

  lemma {:induction false} DeepListAnyRank<K>(g: Graph<K>, h: Rank<K>, h': Rank<K>, v: map<K, int>, l: seq<K>, b: nat, b': nat)
    requires IsForest(g, h) && IsForest(g, h') && v.Keys == g.Keys
    requires forall c <- l :: c in g && h[c] < b && h'[c] < b'
    ensures DeepList(g, h, v, l, b) == DeepList(g, h', v, l, b')
    decreases b, |l|
  {
    hide IsForest, Deep;
    if l != [] {
      DeepAnyRank(g, h, h', v, l[0]);
      DeepListAnyRank(g, h, h', v, l[1..], b, b');
    }
  }

  // ---------------------------------------------------------------- sums of sums

  lemma {:induction false} DeepLinear<K>(g: Graph<K>, h: Rank<K>, u: map<K, int>, v: map<K, int>, t: map<K, int>, j: int, x: K)
    requires IsForest(g, h) && u.Keys == g.Keys && v.Keys == g.Keys && t.Keys == g.Keys && x in g
    requires forall y <- t :: t[y] == u[y] + j * v[y]
    ensures Deep(g, h, t, x) == Deep(g, h, u, x) + j * Deep(g, h, v, x)
    decreases h[x], |g[x]| + 1
  {
    DeepListLinear(g, h, u, v, t, j, g[x], h[x]);
  }

  lemma {:induction false} DeepListLinear<K>(g: Graph<K>, h: Rank<K>, u: map<K, int>, v: map<K, int>, t: map<K, int>, j: int, l: seq<K>, b: nat)
    requires IsForest(g, h) && u.Keys == g.Keys && v.Keys == g.Keys && t.Keys == g.Keys
    requires forall y <- t :: t[y] == u[y] + j * v[y]
    requires forall c <- l :: c in g && h[c] < b
    ensures DeepList(g, h, t, l, b) == DeepList(g, h, u, l, b) + j * DeepList(g, h, v, l, b)
    decreases b, |l|
  {
    hide IsForest, Deep;
    if l != [] {
      DeepLinear(g, h, u, v, t, j, l[0]);
      DeepListLinear(g, h, u, v, t, j, l[1..], b);
      var c, p, q, r := l[0], DeepList(g, h, v, l[1..], b), Deep(g, h, v, l[0]), v[l[0]];
      Distribute(j, r, q, p);
    }
  }

  lemma Distribute(j: int, a: int, b: int, c: int)
    ensures j * (a + b + c) == j * a + j * b + j * c
  {
  }

  lemma {:induction false} DeepNonNegative<K>(g: Graph<K>, h: Rank<K>, v: map<K, int>, x: K)
    requires IsForest(g, h) && v.Keys == g.Keys && x in g && forall y <- v :: v[y] >= 0
    ensures Deep(g, h, v, x) >= 0
    decreases h[x], |g[x]| + 1
  {
    DeepListNonNegative(g, h, v, g[x], h[x]);
  }

  lemma {:induction false} DeepListNonNegative<K>(g: Graph<K>, h: Rank<K>, v: map<K, int>, l: seq<K>, b: nat)
    requires IsForest(g, h) && v.Keys == g.Keys && (forall y <- v :: v[y] >= 0) && forall c <- l :: c in g && h[c] < b
    ensures DeepList(g, h, v, l, b) >= 0
    decreases b, |l|
  {
    hide IsForest, Deep;
    if l != [] {
      DeepNonNegative(g, h, v, l[0]);
      DeepListNonNegative(g, h, v, l[1..], b);
    }
  }

  // ---------------------------------------------------------------- ranks after an edit

  /** Ranks for the graph in which c, so far without a place, is put among p's children. */
  ghost function Lifted<K>(g: Graph<K>, h: Rank<K>, p: K, c: K): Rank<K>
    requires IsForest(g, h) && p in g && c in g
  {
    map x | x in g :: if Within(g, h, x, p) then h[x] + h[c] + 1 else h[x]
  }

  lemma AttachRanks<K>(g: Graph<K>, h: Rank<K>, p: K, c: K, x: K, e: K)
    requires IsForest(g, h) && p in g && c in g && !Within(g, h, c, p) && x in g
    requires e in g[x] || (x == p && e == c)
    ensures Lifted(g, h, p, c)[e] < Lifted(g, h, p, c)[x]
  {
    if e in g[x] {
      if Within(g, h, e, p) {
        WithinUp2(g, h, x, e, p);
      }
    } else {
      assert Within(g, h, p, p);
    }
  }

  lemma AttachPlaces<K>(g: Graph<K>, p: K, c: K, l: seq<K>)
    requires OnePlace(g) && p in g && Orphan(g, c) && forall e <- l :: e == c || e in g[p]
    ensures OnePlace(g[p := l])
  {
  }

  /** Putting an orphan that does not hold p among p's children keeps the forest. */
  lemma AttachForest<K>(g: Graph<K>, h: Rank<K>, p: K, c: K, l: seq<K>)
    requires IsForest(g, h) && p in g && c in g && Orphan(g, c) && !Within(g, h, c, p)
    requires NoDuplicates(l) && forall x <- l :: x == c || x in g[p]
    ensures IsForest(g[p := l], Lifted(g, h, p, c))
  {
    var g', h' := g[p := l], Lifted(g, h, p, c);
    AttachPlaces(g, p, c, l);
    hide Within, NoDuplicates, Lifted, Orphan, OnePlace;
    forall x, e | x in g' && e in g'[x]
      ensures e in g' && h'[e] < h'[x]
    {
      AttachRanks(g, h, p, c, x, e);
    }
  }

  lemma WithinUp2<K>(g: Graph<K>, h: Rank<K>, x: K, e: K, p: K)
    requires IsForest(g, h) && x in g && e in g[x] && Within(g, h, e, p)
    ensures Within(g, h, x, p)
  {
  }

  /** Taking children away from p, or reordering them, keeps the forest and its ranks. */
  lemma DetachForest<K>(g: Graph<K>, h: Rank<K>, p: K, l: seq<K>)
    requires IsForest(g, h) && p in g && NoDuplicates(l) && forall x <- l :: x in g[p]
    ensures IsForest(g[p := l], h)
  {
  }

  // Shorter lists hold no more.
  lemma {:induction false} WithinFewer<K>(g: Graph<K>, h: Rank<K>, g': Graph<K>, h': Rank<K>, a: K, x: K)
    requires IsForest(g, h) && IsForest(g', h') && g'.Keys <= g.Keys && a in g'
    requires forall y, c :: y in g' && c in g'[y] ==> y in g && c in g[y]
    requires Within(g', h', a, x)
    ensures Within(g, h, a, x)
    decreases h'[a]
  {
    if x != a {
      var c :| c in g'[a] && Within(g', h', c, x);
      WithinFewer(g, h, g', h', c, x);
    }
  }

  // What a node holds does not depend on the lists of a node it does not hold.
  lemma {:induction false} WithinElsewhere<K>(g: Graph<K>, h: Rank<K>, g': Graph<K>, h': Rank<K>, p: K, a: K, x: K)
    requires IsForest(g, h) && IsForest(g', h') && g'.Keys == g.Keys && a in g && !Within(g, h, a, p)
    requires forall y :: y in g && y != p ==> g'[y] == g[y]
    ensures Within(g', h', a, x) <==> Within(g, h, a, x)
    decreases h[a]
  {
    assert g'[a] == g[a];
    forall c <- g[a]
      ensures Within(g', h', c, x) <==> Within(g, h, c, x)
    {
      WithinUp3(g, h, a, c, p);
      WithinElsewhere(g, h, g', h', p, c, x);
    }
  }

  // What a node holds does not depend on nodes that are new.
  lemma {:induction false} WithinGrown<K>(g: Graph<K>, h: Rank<K>, g': Graph<K>, h': Rank<K>, a: K, x: K)
    requires IsForest(g, h) && IsForest(g', h') && a in g && forall y :: y in g ==> y in g' && g'[y] == g[y]
    ensures Within(g', h', a, x) <==> Within(g, h, a, x)
    decreases h[a]
  {
    assert g'[a] == g[a];
    forall c <- g[a]
      ensures Within(g', h', c, x) <==> Within(g, h, c, x)
    {
      WithinGrown(g, h, g', h', c, x);
    }
  }

  lemma WithinUp3<K>(g: Graph<K>, h: Rank<K>, x: K, c: K, p: K)
    requires IsForest(g, h) && x in g && c in g[x] && !Within(g, h, x, p)
    ensures c in g && h[c] < h[x] && !Within(g, h, c, p)
  {
  }

  // Taking a leaf away loses that leaf only.
  lemma {:induction false} WithinBut<K>(g: Graph<K>, h: Rank<K>, g': Graph<K>, h': Rank<K>, leaf: K, a: K, x: K)
    requires IsForest(g, h) && IsForest(g', h') && g'.Keys == g.Keys && a in g && leaf in g && g[leaf] == []
    requires forall y, c :: y in g && c in g[y] && c != leaf ==> y in g' && c in g'[y]
    requires Within(g, h, a, x) && x != leaf
    ensures Within(g', h', a, x)
    decreases h[a]
  {
    if x != a {
      var c :| c in g[a] && Within(g, h, c, x);
      WithinBut(g, h, g', h', leaf, c, x);
      assert c in g'[a];
    }
  }

  lemma LeafAlone<K>(g: Graph<K>, h: Rank<K>, v: map<K, int>, x: K, b: K)
    requires IsForest(g, h) && v.Keys == g.Keys && x in g && g[x] == []
    ensures Deep(g, h, v, x) == 0 && (Within(g, h, x, b) <==> b == x)
  {
  }

  // ---------------------------------------------------------------- a new node by itself

  lemma IsolatedForest<K>(g: Graph<K>, h: Rank<K>, x: K)
    requires IsForest(g, h) && x !in g
    ensures IsForest(g[x := []], h[x := 0])
  {
  }

  lemma {:induction false} IsolatedWithin<K>(g: Graph<K>, h: Rank<K>, x: K, a: K, b: K)
    requires IsForest(g, h) && x !in g && a in g && IsForest(g[x := []], h[x := 0])
    ensures Within(g[x := []], h[x := 0], a, b) <==> Within(g, h, a, b)
    decreases h[a]
  {
    forall c <- g[a]
      ensures Within(g[x := []], h[x := 0], c, b) <==> Within(g, h, c, b)
    {
      IsolatedWithin(g, h, x, c, b);
    }
  }

  lemma {:induction false} IsolatedDeep<K>(g: Graph<K>, h: Rank<K>, v: map<K, int>, x: K, n: int, y: K)
    requires IsForest(g, h) && v.Keys == g.Keys && x !in g && y in g && IsForest(g[x := []], h[x := 0])
    ensures Deep(g[x := []], h[x := 0], v[x := n], y) == Deep(g, h, v, y)
    decreases h[y], |g[y]| + 1
  {
    IsolatedDeepList(g, h, v, x, n, g[y], h[y]);
  }

  lemma {:induction false} IsolatedDeepList<K>(g: Graph<K>, h: Rank<K>, v: map<K, int>, x: K, n: int, l: seq<K>, b: nat)
    requires IsForest(g, h) && v.Keys == g.Keys && x !in g && IsForest(g[x := []], h[x := 0])
    requires forall c <- l :: c in g && h[c] < b
    ensures forall c <- l :: c in g[x := []] && h[x := 0][c] < b
    ensures DeepList(g[x := []], h[x := 0], v[x := n], l, b) == DeepList(g, h, v, l, b)
    decreases b, |l|
  {
    hide IsForest, Deep;
    if l != [] {
      IsolatedDeep(g, h, v, x, n, l[0]);
      IsolatedDeepList(g, h, v, x, n, l[1..], b);
    }
  }

  // ---------------------------------------------------------------- sums over edited lists

  /** What a list holds is what the list without one entry holds, plus that entry and all below it. */
  lemma {:induction false} DeepListMid<K>(g: Graph<K>, h: Rank<K>, v: map<K, int>, a: seq<K>, c: K, b: seq<K>, bound: nat)
    requires IsForest(g, h) && v.Keys == g.Keys && c in g && h[c] < bound
    requires forall e <- a + b :: e in g && h[e] < bound
    ensures forall e <- a + [c] + b :: e in g && h[e] < bound
    ensures DeepList(g, h, v, a + [c] + b, bound) == DeepList(g, h, v, a + b, bound) + v[c] + Deep(g, h, v, c)
    decreases |a|
  {
    hide IsForest, Deep;
    var l := a + [c] + b;
    forall e <- l
      ensures e in g && h[e] < bound
    {
      assert e == c || e in a + b;
    }
    if a == [] {
      assert a + b == b && l[1..] == b;
    } else {
      assert (a + b)[1..] == a[1..] + b && l[1..] == a[1..] + [c] + b;
      DeepListMid(g, h, v, a[1..], c, b, bound);
    }
  }

  // The bound only serves termination.
  lemma {:induction false} DeepListBound<K>(g: Graph<K>, h: Rank<K>, v: map<K, int>, l: seq<K>, b: nat, b': nat)
    requires IsForest(g, h) && v.Keys == g.Keys
    requires forall e <- l :: e in g && h[e] < b && h[e] < b'
    ensures DeepList(g, h, v, l, b) == DeepList(g, h, v, l, b')
    decreases |l|
  {
    hide IsForest, Deep;
    if l != [] {
      DeepListBound(g, h, v, l[1..], b, b');
    }
  }

  // No child holds its parent.
  lemma ChildrenBelow<K>(g: Graph<K>, h: Rank<K>, p: K)
    requires IsForest(g, h) && p in g
    ensures forall e <- g[p] :: e in g && h[e] < h[p] && !Within(g, h, e, p)
  {
    forall e <- g[p]
      ensures e in g && h[e] < h[p] && !Within(g, h, e, p)
    {
      if Within(g, h, e, p) {
        WithinRank(g, h, e, p);
      }
    }
  }

  lemma RelistedAt<K>(g: Graph<K>, h: Rank<K>, v: map<K, int>, p: K, l: seq<K>)
    requires IsForest(g, h) && v.Keys == g.Keys && p in g
    ensures ChangedAt(g, v, g[p := l], v, p)
  {
  }

  /** p's list gains c at some place: p holds c and all c holds, besides what it held. */
  lemma AttachDeep<K>(g: Graph<K>, h: Rank<K>, v: map<K, int>, g': Graph<K>, h': Rank<K>, p: K, a: seq<K>, c: K, b: seq<K>)
    requires IsForest(g, h) && v.Keys == g.Keys && p in g && c in g && !Within(g, h, c, p)
    requires g[p] == a + b && g' == g[p := a + [c] + b] && IsForest(g', h')
    ensures Deep(g', h', v, p) == Deep(g, h, v, p) + v[c] + Deep(g, h, v, c)
  {
    RelistedAt(g, h, v, p, a + [c] + b);
    ChildrenBelow(g, h, p);
    ChildrenBelow(g', h', p);
    hide IsForest, ChangedAt, Within, DeepList;
    Unaffected(g, h, v, g', h', v, p, c);
    assert forall e <- a + b :: e in g'[p];
    assert c in g'[p];
    UnaffectedList(g, h, v, g', h', v, p, a + b, h[p], h'[p]);
    DeepListMid(g', h', v, a, c, b, h'[p]);
  }

  /** p's list loses c: p no longer holds c and all c holds. */
  lemma DetachDeep<K>(g: Graph<K>, h: Rank<K>, v: map<K, int>, g': Graph<K>, h': Rank<K>, p: K, a: seq<K>, c: K, b: seq<K>)
    requires IsForest(g, h) && v.Keys == g.Keys && p in g && c in g
    requires g[p] == a + [c] + b && g' == g[p := a + b] && IsForest(g', h')
    ensures Deep(g', h', v, p) == Deep(g, h, v, p) - v[c] - Deep(g, h, v, c)
  {
    assert c in g[p];
    RelistedAt(g, h, v, p, a + b);
    ChildrenBelow(g, h, p);
    AboveUnchanged(g, h, g', h', p, c);
    hide IsForest, ChangedAt, Within, Deep;
    assert g == g'[p := a + [c] + b];
    AttachDeep(g', h', v, g, h, p, a, c, b);
    Unaffected(g, h, v, g', h', v, p, c);
  }

  /** What p gains, its holders gain, and no one else. */
  lemma AttachEverywhere<K>(g: Graph<K>, h: Rank<K>, v: map<K, int>, g': Graph<K>, h': Rank<K>, p: K, a: seq<K>, c: K, b: seq<K>, y: K)
    requires IsForest(g, h) && v.Keys == g.Keys && p in g && c in g && !Within(g, h, c, p) && y in g
    requires g[p] == a + b && g' == g[p := a + [c] + b] && IsForest(g', h')
    ensures Within(g', h', y, p) <==> Within(g, h, y, p)
    ensures Deep(g', h', v, y) == Deep(g, h, v, y) + (if Within(g, h, y, p) then v[c] + Deep(g, h, v, c) else 0)
  {
    RelistedAt(g, h, v, p, a + [c] + b);
    hide IsForest, Within, Deep, ChangedAt;
    AttachDeep(g, h, v, g', h', p, a, c, b);
    Perturb(g, h, v, g', h', v, p, v[c] + Deep(g, h, v, c), y);
    AboveUnchanged(g, h, g', h', p, y);
  }

  /** What p loses, its holders lose, and no one else. */
  lemma DetachEverywhere<K>(g: Graph<K>, h: Rank<K>, v: map<K, int>, g': Graph<K>, h': Rank<K>, p: K, a: seq<K>, c: K, b: seq<K>, y: K)
    requires IsForest(g, h) && v.Keys == g.Keys && p in g && c in g && y in g
    requires g[p] == a + [c] + b && g' == g[p := a + b] && IsForest(g', h')
    ensures Within(g', h', y, p) <==> Within(g, h, y, p)
    ensures Deep(g', h', v, y) == Deep(g, h, v, y) - (if Within(g, h, y, p) then v[c] + Deep(g, h, v, c) else 0)
  {
    RelistedAt(g, h, v, p, a + b);
    hide IsForest, Within, Deep, ChangedAt;
    DetachDeep(g, h, v, g', h', p, a, c, b);
    Perturb(g, h, v, g', h', v, p, -v[c] - Deep(g, h, v, c), y);
    AboveUnchanged(g, h, g', h', p, y);
  }

  lemma RevaluedAt<K>(g: Graph<K>, h: Rank<K>, v: map<K, int>, p: K, c: K, n: int)
    requires IsForest(g, h) && v.Keys == g.Keys && p in g && c in g[p]
    ensures c in g && ChangedAt(g, v, g, v[c := n], p)
  {
  }

  /** One of p's children changes its own value. */
  lemma RevalueDeep<K>(g: Graph<K>, h: Rank<K>, v: map<K, int>, p: K, c: K, n: int)
    requires IsForest(g, h) && v.Keys == g.Keys && p in g && c in g[p]
    ensures c in v && v[c := n].Keys == g.Keys && Deep(g, h, v[c := n], p) == Deep(g, h, v, p) + n - v[c]
  {
    var i :| 0 <= i < |g[p]| && g[p][i] == c;
    var a, b, v' := g[p][..i], g[p][i + 1..], v[c := n];
    assert g[p] == a + [c] + b;
    RevaluedAt(g, h, v, p, c, n);
    ChildrenBelow(g, h, p);
    assert NoDuplicates(a + [c] + b);
    OnlyOnce(a, c, b);
    hide IsForest, ChangedAt, Within, DeepList;
    assert forall e <- a + b :: e in g[p];
    Unaffected(g, h, v, g, h, v', p, c);
    UnaffectedList(g, h, v, g, h, v', p, a + b, h[p], h[p]);
    DeepListMid(g, h, v, a, c, b, h[p]);
    DeepListMid(g, h, v', a, c, b, h[p]);
  }

  // What a node holds does not depend on its own value.
  lemma RevalueOrphan<K>(g: Graph<K>, h: Rank<K>, v: map<K, int>, x: K, n: int, y: K)
    requires IsForest(g, h) && v.Keys == g.Keys && x in g && Orphan(g, x) && y in g
    ensures v[x := n].Keys == g.Keys && Deep(g, h, v[x := n], y) == Deep(g, h, v, y)
  {
    var v' := v[x := n];
    assert v'.Keys == g.Keys;
    assert ChangedAt(g, v, g, v', x);
    if y == x {
      assert forall c <- g[y] :: v'[c] == v[c];
      ChildrenBelow(g, h, y);
      UnaffectedList(g, h, v, g, h, v', x, g[y], h[y], h[y]);
    } else {
      WithinOrphan(g, h, y, x);
      Unaffected(g, h, v, g, h, v', x, y);
    }
  }

  lemma OnlyOnce<K>(a: seq<K>, c: K, b: seq<K>)
    requires NoDuplicates(a + [c] + b)
    ensures c !in a + b && NoDuplicates(a + b)
  {
    var l := a + [c] + b;
    assert l[|a|] == c;
    assert forall i :: 0 <= i < |a| ==> l[i] == a[i];
    assert forall i :: 0 <= i < |b| ==> l[|a| + 1 + i] == b[i];
  }
}
