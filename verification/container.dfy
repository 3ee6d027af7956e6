/**
 Items and containers as the server holds them (src/container.cpp): objects with a parent pointer, a
 list of items and a cached total weight. Methods change the objects in place; what they do is stated
 on a snapshot of the heap, and every one of them keeps the heap sound: parent pointers agree with the
 lists, containment is a forest, and each cache is the weight of everything below, modulo 2^32.
 */
module Containers {
  import opened Bytes
  import opened Forests

  const WEIGHT_MODULUS := 0x1_0000_0000

  /** A catalogue row. Items with the same id share their row. */
  datatype ItemType = ItemType(
    id: nat, stackable: bool, pickupable: bool, moveable: bool, fluid: bool, charges: nat,
    decayTime: nat, decayTo: int, stopTime: bool, weight: nat)

  /** An item's attributes; others stands for all those no operation here reads or writes. */
  datatype Attributes = Attributes(
    present: bool, weight: Option<nat>, duration: Option<int>, decaying: Option<nat>, corpseOwner: Option<nat>,
    charges: Option<nat>, fluidType: Option<nat>, others: nat)

  /** What an item is in itself, wherever it lies. */
  datatype Face = Face(kind: ItemType, count: nat, attrs: Attributes)

  datatype Cell = Cell(face: Face, container: bool, maxSize: nat, parent: Item?, items: seq<Item>, total: nat)

  type Heap = map<Item, Cell>

  class Item {
    var face: Face
    const container: bool
    const maxSize: nat
    var parent: Item?
    var itemlist: seq<Item>
    var totalWeight: nat

    constructor (face: Face, container: bool, maxSize: nat)
      ensures this.face == face && this.container == container && this.maxSize == maxSize
      ensures parent == null && itemlist == [] && totalWeight == 0
    {
      this.face, this.container, this.maxSize := face, container, maxSize;
      parent, itemlist, totalWeight := null, [], 0;
    }
  }

  // ---------------------------------------------------------------- the heap as a value

  ghost function CellOf(x: Item): Cell
    reads x
  {
    Cell(x.face, x.container, x.maxSize, x.parent, x.itemlist, x.totalWeight)
  }

  ghost function Snap(w: set<Item>): Heap
    reads w
  {
    map x | x in w :: CellOf(x)
  }

  lemma InSnap(w: set<Item>, x: Item)
    ensures x in w <==> x in Snap(w)
    ensures x in w ==> Snap(w)[x] == CellOf(x)
  {
  }

  ghost function Kids(s: Heap): Graph<Item> {
    map x | x in s :: s[x].items
  }

  ghost function Values(s: Heap, f: Face -> int): map<Item, int> {
    map x | x in s :: f(s[x].face)
  }

  ghost predicate Ranked(s: Heap, older h: Rank<Item>) {
    IsForest<Item>(Kids(s), h)
  }

  /** Containment has no cycle, and nothing lies in two places. */
  ghost predicate Forested(s: Heap) {
    exists h :: Ranked(s, h)
  }

  ghost function Ranks(s: Heap): (h: Rank<Item>)
    requires Forested(s)
    ensures Ranked(s, h)
  {
    var h :| Ranked(s, h);
    h
  }

  /** x is a or lies somewhere inside it. */
  ghost predicate Holds(s: Heap, a: Item, x: Item)
    requires Forested(s) && a in s
  {
    Within<Item>(Kids(s), Ranks(s), a, x)
  }

  /** The sum of f over everything inside x. */
  ghost function Total(s: Heap, f: Face -> int, x: Item): int
    requires Forested(s) && x in s
  {
    Deep<Item>(Kids(s), Ranks(s), Values(s, f), x)
  }

  /** `Item::getBaseWeight`: its own attribute's, or its type's. */
  function BaseWeight(x: Face): nat {
    if x.attrs.present && x.attrs.weight.Some? then x.attrs.weight.value else x.kind.weight
  }

  /** `Item::getWeight`: by the stack for stackable items, an empty stack counting as one. */
  function OwnWeight(x: Face): int {
    if x.kind.stackable then BaseWeight(x) * (if x.count == 0 then 1 else x.count) else BaseWeight(x)
  }

  /**
   A stack weighs what its parts do; a single one weighs what its attribute or else its type says, and so does
   a stack of none, and whatever does not stack.
   */
  lemma WeighsByParts(x: Face, a: nat, b: nat)
    ensures x.kind.stackable && a > 0 && b > 0 ==> OwnWeight(x.(count := a + b)) == OwnWeight(x.(count := a)) + OwnWeight(x.(count := b))
    ensures !x.kind.stackable || a <= 1 ==>
              OwnWeight(x.(count := a)) == if x.attrs.present && x.attrs.weight.Some? then x.attrs.weight.value else x.kind.weight
  {
    if x.kind.stackable && a > 0 && b > 0 {
      assert BaseWeight(x) * (a + b) == BaseWeight(x) * a + BaseWeight(x) * b;
    }
  }

  ghost predicate LinkedUp(s: Heap, x: Item)
    requires x in s
  {
    s[x].parent != null ==> s[x].parent in s && x in s[s[x].parent].items
  }

  ghost predicate LinkedDown(s: Heap, x: Item)
    requires x in s
  {
    && (forall c <- s[x].items :: c in s && s[c].parent == x)
    && (s[x].items != [] ==> s[x].container)
  }

  /** Parent pointers agree with the lists, and only containers hold anything. */
  ghost predicate ParentsAgree(s: Heap) {
    forall x <- s :: LinkedUp(s, x) && LinkedDown(s, x)
  }

  /** Every cache is right. */
  ghost predicate Weighted(s: Heap)
    requires Forested(s)
  {
    forall x <- s :: s[x].total == Total(s, OwnWeight, x) % WEIGHT_MODULUS
  }

  ghost predicate Sound(s: Heap) {
    Forested(s) && ParentsAgree(s) && Weighted(s)
  }

  // ---------------------------------------------------------------- any ranks will do

  lemma TotalWith(s: Heap, h: Rank<Item>, f: Face -> int, x: Item)
    requires Ranked(s, h) && x in s
    ensures Forested(s) && Total(s, f, x) == Deep<Item>(Kids(s), h, Values(s, f), x)
  {
    assert Forested(s);
    hide IsForest, Deep;
    DeepAnyRank<Item>(Kids(s), Ranks(s), h, Values(s, f), x);
  }

  lemma HoldsWith(s: Heap, h: Rank<Item>, a: Item, x: Item)
    requires Ranked(s, h) && a in s
    ensures Forested(s) && (Holds(s, a, x) <==> Within<Item>(Kids(s), h, a, x))
  {
    assert Forested(s);
    hide IsForest, Within;
    AboveUnchanged<Item>(Kids(s), Ranks(s), Kids(s), h, x, a);
  }

  lemma HoldsSelf(s: Heap, x: Item)
    requires Forested(s) && x in s
    ensures Holds(s, x, x)
  {
  }

  // A container holds itself and what its items hold.
  lemma HoldsDown(s: Heap, a: Item, c: Item, x: Item)
    requires Forested(s) && a in s && c in s[a].items
    ensures c in s && (Holds(s, c, x) ==> Holds(s, a, x))
  {
    assert c in Kids(s)[a];
    ChildrenBelow<Item>(Kids(s), Ranks(s), a);
    if Holds(s, c, x) {
      WithinUp2<Item>(Kids(s), Ranks(s), a, c, x);
    }
  }

  // What holds x, other than x, holds its parent.
  lemma HoldsUp(s: Heap, a: Item, p: Item, x: Item)
    requires Forested(s) && a in s && p in s && x in s[p].items
    ensures Holds(s, a, x) <==> a == x || Holds(s, a, p)
    ensures x in s && !Holds(s, x, p)
  {
    assert x in Kids(s)[p];
    hide Within;
    ChildrenBelow<Item>(Kids(s), Ranks(s), p);
    WithinUp<Item>(Kids(s), Ranks(s), a, p, x);
  }

  lemma HoldsOrphan(s: Heap, a: Item, x: Item)
    requires Forested(s) && ParentsAgree(s) && a in s && x in s && s[x].parent == null
    ensures Orphan<Item>(Kids(s), x) && (Holds(s, a, x) <==> a == x)
  {
    NobodyListsAnOrphan(s, x);
    hide IsForest, Within;
    WithinOrphan<Item>(Kids(s), Ranks(s), a, x);
  }

  lemma NobodyListsAnOrphan(s: Heap, x: Item)
    requires ParentsAgree(s) && x in s && s[x].parent == null
    ensures Orphan<Item>(Kids(s), x)
  {
    forall y | y in Kids(s)
      ensures x !in Kids(s)[y]
    {
      assert LinkedDown(s, y);
    }
  }

  lemma ParentLists(s: Heap, x: Item)
    requires ParentsAgree(s) && x in s && s[x].parent != null
    ensures s[x].parent in s && x in s[s[x].parent].items
  {
    assert LinkedUp(s, x);
  }

  // ---------------------------------------------------------------- edits of the heap

  /** x becomes the i-th item of p. */
  ghost function Attached(s: Heap, p: Item, x: Item, i: nat): Heap
    requires p in s && x in s && i <= |s[p].items|
  {
    var s1 := s[x := s[x].(parent := p)];
    s1[p := s1[p].(items := s[p].items[..i] + [x] + s[p].items[i..])]
  }

  /** The i-th item of p is taken out. */
  ghost function Detached(s: Heap, p: Item, i: nat): Heap
    requires p in s && i < |s[p].items| && s[p].items[i] in s
  {
    var x := s[p].items[i];
    var s1 := s[x := s[x].(parent := null)];
    s1[p := s1[p].(items := s[p].items[..i] + s[p].items[i + 1..])]
  }

  /** x changes in itself. */
  ghost function Refaced(s: Heap, x: Item, face: Face): Heap
    requires x in s
  {
    s[x := s[x].(face := face)]
  }

  /** The caches of p and of everything that holds it move by d. */
  ghost function Credited(s: Heap, p: Item, d: int): Heap
    requires Forested(s)
  {
    map y | y in s :: if Holds(s, y, p) then s[y].(total := (s[y].total + d) % WEIGHT_MODULUS) else s[y]
  }

  ghost predicate MayAttach(s: Heap, p: Item, x: Item) {
    && Forested(s) && ParentsAgree(s) && p in s && x in s
    && s[p].container && s[x].parent == null && !Holds(s, x, p)
  }

  lemma AttachFacts(s: Heap, p: Item, x: Item, i: nat)
    requires p in s && x in s && i <= |s[p].items|
    ensures Attached(s, p, x, i).Keys == s.Keys
    ensures forall y <- s :: Attached(s, p, x, i)[y].total == s[y].total
  {
  }

  lemma DetachFacts(s: Heap, p: Item, i: nat)
    requires p in s && i < |s[p].items| && s[p].items[i] in s
    ensures Detached(s, p, i).Keys == s.Keys
    ensures forall y <- s :: Detached(s, p, i)[y].total == s[y].total
  {
  }

  lemma RefaceFacts(s: Heap, x: Item, face: Face)
    requires x in s
    ensures Refaced(s, x, face).Keys == s.Keys
    ensures forall y <- s :: Refaced(s, x, face)[y].total == s[y].total
  {
  }

  lemma AttachRanked(s: Heap, p: Item, x: Item, i: nat)
    requires MayAttach(s, p, x) && i <= |s[p].items|
    ensures Kids(Attached(s, p, x, i)) == Kids(s)[p := s[p].items[..i] + [x] + s[p].items[i..]]
    ensures Forested(Attached(s, p, x, i))
  {
    hide Within, Orphan, LinkedUp;
    var g, l, s' := Kids(s), s[p].items, Attached(s, p, x, i);
    HoldsOrphan(s, p, x);
    assert LinkedDown(s, p);
    HoldsSelf(s, p);
    assert x !in l && NoDuplicates(g[p]);
    InsertDistinct(l, x, i);
    hide ParentsAgree, LinkedDown, NoDuplicates;
    assert Kids(s') == g[p := l[..i] + [x] + l[i..]];
    AttachForest<Item>(g, Ranks(s), p, x, l[..i] + [x] + l[i..]);
    assert Ranked(s', Lifted<Item>(g, Ranks(s), p, x));
  }

  lemma InsertDistinct(l: seq<Item>, x: Item, i: nat)
    requires NoDuplicates(l) && x !in l && i <= |l|
    ensures NoDuplicates(l[..i] + [x] + l[i..]) && forall e <- l[..i] + [x] + l[i..] :: e == x || e in l
  {
  }

  lemma AttachAgrees(s: Heap, p: Item, x: Item, i: nat)
    requires MayAttach(s, p, x) && i <= |s[p].items|
    ensures ParentsAgree(Attached(s, p, x, i))
  {
    var s' := Attached(s, p, x, i);
    NobodyListsAnOrphan(s, x);
    HoldsSelf(s, x);
    forall y <- s'
      ensures LinkedUp(s', y) && LinkedDown(s', y)
    {
      assert LinkedUp(s, y) && LinkedDown(s, y) && LinkedDown(s, p);
      assert y in Kids(s) && p in Kids(s);
      AttachLinks(s, p, x, i, y);
    }
  }

  lemma AttachLinks(s: Heap, p: Item, x: Item, i: nat, y: Item)
    requires p in s && x in s && y in s && p != x && i <= |s[p].items|
    requires s[p].container && s[x].parent == null && x !in s[y].items && x !in s[p].items
    requires LinkedUp(s, y) && LinkedDown(s, y) && LinkedDown(s, p)
    ensures LinkedUp(Attached(s, p, x, i), y) && LinkedDown(Attached(s, p, x, i), y)
  {
    assert forall e <- s[p].items :: e in s[p].items[..i] + [x] + s[p].items[i..];
    assert x in s[p].items[..i] + [x] + s[p].items[i..];
  }

  /** Adding x to p adds x, and all it holds, to what p and its holders hold, and to nothing else. */
  lemma AttachTotal(s: Heap, p: Item, x: Item, i: nat, f: Face -> int, y: Item)
    requires MayAttach(s, p, x) && i <= |s[p].items| && y in s
    ensures var s' := Attached(s, p, x, i);
      && Forested(s') && (Holds(s', y, p) <==> Holds(s, y, p))
      && Total(s', f, y) == Total(s, f, y) + (if Holds(s, y, p) then f(s[x].face) + Total(s, f, x) else 0)
  {
    hide IsForest, Within, Deep, ParentsAgree;
    var s', g, l := Attached(s, p, x, i), Kids(s), s[p].items;
    AttachRanked(s, p, x, i);
    var g', h, h', v := Kids(s'), Ranks(s), Ranks(s'), Values(s, f);
    assert v == Values(s', f);
    hide Kids, Attached;
    assert l == l[..i] + l[i..];
    AttachEverywhere<Item>(g, h, v, g', h', p, l[..i], x, l[i..], y);
  }

  ghost predicate MayDetach(s: Heap, p: Item, i: nat) {
    Forested(s) && ParentsAgree(s) && p in s && i < |s[p].items| && s[p].items[i] in s
  }

  lemma DetachRanked(s: Heap, p: Item, i: nat)
    requires MayDetach(s, p, i)
    ensures Kids(Detached(s, p, i)) == Kids(s)[p := s[p].items[..i] + s[p].items[i + 1..]]
    ensures Forested(Detached(s, p, i))
  {
    var g, l, s' := Kids(s), s[p].items, Detached(s, p, i);
    HoldsUp(s, p, p, l[i]);
    assert NoDuplicates(g[p]);
    DropDistinct(l, i);
    hide Within, NoDuplicates;
    assert Kids(s') == g[p := l[..i] + l[i + 1..]];
    DetachForest<Item>(g, Ranks(s), p, l[..i] + l[i + 1..]);
    assert Ranked(s', Ranks(s));
  }

  lemma DropDistinct(l: seq<Item>, i: nat)
    requires NoDuplicates(l) && i < |l|
    ensures NoDuplicates(l[..i] + l[i + 1..]) && forall e <- l[..i] + l[i + 1..] :: e in l
  {
  }

  lemma DetachAgrees(s: Heap, p: Item, i: nat)
    requires MayDetach(s, p, i)
    ensures ParentsAgree(Detached(s, p, i))
  {
    var s', x := Detached(s, p, i), s[p].items[i];
    HoldsUp(s, p, p, x);
    HoldsSelf(s, p);
    assert NoDuplicates(Kids(s)[p]);
    forall y <- s'
      ensures LinkedUp(s', y) && LinkedDown(s', y)
    {
      assert LinkedUp(s, y) && LinkedDown(s, y) && LinkedDown(s, p);
      assert x in Kids(s)[p] && (y != p ==> x !in Kids(s)[y]);
      DetachLinks(s, p, i, y);
    }
  }

  lemma DetachLinks(s: Heap, p: Item, i: nat, y: Item)
    requires p in s && y in s && i < |s[p].items| && s[p].items[i] in s && s[p].items[i] != p
    requires NoDuplicates(s[p].items) && (y != p ==> s[p].items[i] !in s[y].items)
    requires LinkedUp(s, y) && LinkedDown(s, y) && LinkedDown(s, p)
    ensures LinkedUp(Detached(s, p, i), y) && LinkedDown(Detached(s, p, i), y)
  {
    var l, k := s[p].items, s[p].items[..i] + s[p].items[i + 1..];
    assert l == l[..i] + [l[i]] + l[i + 1..];
    OnlyOnce(l[..i], l[i], l[i + 1..]);
    assert forall e <- k :: e in l;
    assert y in l && y != l[i] ==> y in k;
  }

  /** Taking x out takes x, and all it holds, from what its container and that one's holders hold. */
  lemma DetachTotal(s: Heap, p: Item, i: nat, f: Face -> int, y: Item)
    requires MayDetach(s, p, i) && y in s
    ensures var s', x := Detached(s, p, i), s[p].items[i];
      && Forested(s') && (Holds(s', y, p) <==> Holds(s, y, p))
      && Total(s', f, y) == Total(s, f, y) - (if Holds(s, y, p) then f(s[x].face) + Total(s, f, x) else 0)
  {
    hide IsForest, Within, Deep, ParentsAgree;
    var s', g, l := Detached(s, p, i), Kids(s), s[p].items;
    var x := l[i];
    DetachRanked(s, p, i);
    var g', h, h', v := Kids(s'), Ranks(s), Ranks(s'), Values(s, f);
    assert v == Values(s', f);
    hide Kids, Detached;
    assert l == l[..i] + [x] + l[i + 1..];
    DetachEverywhere<Item>(g, h, v, g', h', p, l[..i], x, l[i + 1..], y);
  }

  lemma RefaceAgrees(s: Heap, x: Item, face: Face)
    requires ParentsAgree(s) && x in s
    ensures Kids(Refaced(s, x, face)) == Kids(s) && ParentsAgree(Refaced(s, x, face))
  {
    var s' := Refaced(s, x, face);
    assert Kids(s') == Kids(s);
    forall z <- s'
      ensures LinkedUp(s', z) && LinkedDown(s', z)
    {
      assert LinkedUp(s, z) && LinkedDown(s, z);
    }
  }

  /** Where the graph is the same, the same items hold the same items. */
  lemma SameHolds(s: Heap, s': Heap, a: Item, b: Item)
    requires Forested(s) && Kids(s') == Kids(s) && a in s
    ensures a in s' && Forested(s') && (Holds(s', a, b) <==> Holds(s, a, b))
  {
    hide Within, IsForest;
    assert s'.Keys == s.Keys by {
      assert s'.Keys == Kids(s').Keys && s.Keys == Kids(s).Keys;
    }
    assert Ranked(s', Ranks(s));
    HoldsWith(s', Ranks(s), a, b);
  }

  lemma RefaceParts(s: Heap, x: Item, face: Face, f: Face -> int)
    requires Forested(s) && ParentsAgree(s) && x in s
    ensures var s', v := Refaced(s, x, face), Values(s, f);
      && s'.Keys == s.Keys == v.Keys == Kids(s).Keys && Kids(s') == Kids(s) && Ranked(s', Ranks(s))
      && Values(s', f) == v[x := f(face)] && v[x] == f(s[x].face)
      && (s[x].parent != null ==> s[x].parent in s && x in s[s[x].parent].items && x in Kids(s)[s[x].parent])
  {
    RefaceAgrees(s, x, face);
    assert LinkedUp(s, x);
    hide ParentsAgree, IsForest, LinkedUp, LinkedDown;
    assert Values(Refaced(s, x, face), f) == Values(s, f)[x := f(face)];
  }

  /** A change of x in itself changes what its holders hold by as much, and nothing else. */
  lemma RefaceTotal(s: Heap, x: Item, face: Face, f: Face -> int, y: Item)
    requires Forested(s) && ParentsAgree(s) && x in s && y in s
    ensures var s' := Refaced(s, x, face);
      && Forested(s')
      && Total(s', f, y) == Total(s, f, y) + (if y != x && Holds(s, y, x) then f(face) - f(s[x].face) else 0)
  {
    hide Refaced, ParentsAgree, Kids, IsForest, Within, Deep, Values;
    var s', g, h, v, p := Refaced(s, x, face), Kids(s), Ranks(s), Values(s, f), s[x].parent;
    RefaceParts(s, x, face, f);
    TotalWith(s', h, f, y);
    if p == null {
      HoldsOrphan(s, y, x);
      RevalueOrphan<Item>(g, h, v, x, f(face), y);
    } else {
      var q: Item := p;
      HoldsUp(s, y, q, x);
      HoldsUp(s, x, q, x);
      RevalueDeep<Item>(g, h, v, q, x, f(face));
      RevaluedAt<Item>(g, h, v, q, x, f(face));
      Perturb<Item>(g, h, v, g, h, v[x := f(face)], q, f(face) - v[x], y);
    }
  }

  // ---------------------------------------------------------------- the caches

  /** Equal structure and equal faces make equal sums. */
  lemma SameTotal(s: Heap, s': Heap, f: Face -> int, y: Item)
    requires Forested(s) && Kids(s') == Kids(s) && Values(s', f) == Values(s, f) && y in s
    ensures y in s' && Forested(s') && Total(s', f, y) == Total(s, f, y)
  {
    hide Within, IsForest, Deep;
    SameHolds(s, s', y, y);
    assert Ranked(s', Ranks(s));
    TotalWith(s', Ranks(s), f, y);
  }

  /** Only caches differ. */
  ghost predicate SameButTotals(s: Heap, s': Heap) {
    s'.Keys == s.Keys && forall x <- s :: s'[x] == s[x].(total := s'[x].total)
  }

  lemma TotalsAside(s: Heap, s': Heap)
    requires Forested(s) && SameButTotals(s, s')
    ensures Kids(s') == Kids(s) && Forested(s') && (ParentsAgree(s) ==> ParentsAgree(s'))
    ensures forall f: Face -> int :: Values(s', f) == Values(s, f)
  {
    assert Kids(s') == Kids(s);
    assert Ranked(s', Ranks(s)) by {
      hide SameButTotals, Kids, IsForest;
    }
    hide IsForest, Kids, Forested;
    if ParentsAgree(s) {
      forall z <- s'
        ensures LinkedUp(s', z) && LinkedDown(s', z)
      {
        assert LinkedUp(s, z) && LinkedDown(s, z);
      }
    }
  }

  /** Crediting the caches changes no sum and no holder. */
  lemma CreditKeeps(s: Heap, p: Item, d: int, f: Face -> int, y: Item)
    requires Forested(s) && y in s
    ensures var s' := Credited(s, p, d);
      && SameButTotals(s, s') && Kids(s') == Kids(s) && Forested(s') && (ParentsAgree(s) ==> ParentsAgree(s'))
      && Total(s', f, y) == Total(s, f, y) && (Holds(s', y, p) <==> Holds(s, y, p))
  {
    var s' := Credited(s, p, d);
    hide ParentsAgree, Kids, Values, Forested, Holds;
    TotalsAside(s, s');
    SameTotal(s, s', f, y);
    SameHolds(s, s', y, p);
  }

  /** Crediting keeps the structure. */
  lemma CreditStructure(s: Heap, p: Item, d: int)
    requires Forested(s)
    ensures var s' := Credited(s, p, d);
      SameButTotals(s, s') && Kids(s') == Kids(s) && Forested(s') && (ParentsAgree(s) ==> ParentsAgree(s'))
  {
    hide ParentsAgree, Kids, Values, Forested, Holds;
    TotalsAside(s, Credited(s, p, d));
  }

  // After an edit inside p worth e, crediting p's holders with e modulo 2^32 makes y's cache right.
  lemma CreditRight(s0: Heap, s: Heap, p: Item, e: int, d: int, y: Item)
    requires Forested(s0) && Forested(s) && y in s && y in s0
    requires s[y].total == s0[y].total == Total(s0, OwnWeight, y) % WEIGHT_MODULUS
    requires Total(s, OwnWeight, y) == Total(s0, OwnWeight, y) + (if Holds(s, y, p) then e else 0)
    requires (e - d) % WEIGHT_MODULUS == 0
    ensures var s' := Credited(s, p, d);
      Forested(s') && s'[y].total == Total(s', OwnWeight, y) % WEIGHT_MODULUS
  {
    hide Forested, Holds, Total, Kids, OwnWeight, SameButTotals, ParentsAgree;
    CreditKeeps(s, p, d, OwnWeight, y);
    AddMod(Total(s0, OwnWeight, y), e, d);
  }

  /** After an edit inside p worth e, crediting p's holders with e modulo 2^32 makes every cache right. */
  lemma CreditSound(s0: Heap, s: Heap, p: Item, e: int, d: int)
    requires Sound(s0) && Forested(s) && ParentsAgree(s) && s.Keys == s0.Keys
    requires forall y <- s :: s[y].total == s0[y].total
    requires forall y <- s :: Total(s, OwnWeight, y) == Total(s0, OwnWeight, y) + (if Holds(s, y, p) then e else 0)
    requires (e - d) % WEIGHT_MODULUS == 0
    ensures Sound(Credited(s, p, d))
  {
    var s' := Credited(s, p, d);
    hide Forested, ParentsAgree, Holds, Total, Kids, OwnWeight, Credited;
    CreditStructure(s, p, d);
    assert s'.Keys == s.Keys;
    forall y <- s'
      ensures s'[y].total == Total(s', OwnWeight, y) % WEIGHT_MODULUS
    {
      CreditRight(s0, s, p, e, d, y);
    }
  }

  lemma UncreditedSound(s0: Heap, s: Heap)
    requires Sound(s0) && Forested(s) && ParentsAgree(s) && s.Keys == s0.Keys
    requires forall y <- s :: s[y].total == s0[y].total && Total(s, OwnWeight, y) == Total(s0, OwnWeight, y)
    ensures Sound(s)
  {
    hide Forested, ParentsAgree, Total, OwnWeight;
  }

  lemma AddMod(t: int, e: int, d: int)
    requires (e - d) % WEIGHT_MODULUS == 0
    ensures (t % WEIGHT_MODULUS + d) % WEIGHT_MODULUS == (t + e) % WEIGHT_MODULUS
    ensures t % WEIGHT_MODULUS % WEIGHT_MODULUS == t % WEIGHT_MODULUS
  {
    var k, q := (e - d) / WEIGHT_MODULUS, t / WEIGHT_MODULUS;
    assert t + e == t % WEIGHT_MODULUS + d + (k + q) * WEIGHT_MODULUS;
  }

  // ---------------------------------------------------------------- climbing the parents

  /** x, and everything that holds it, has its parent pointer right. */
  ghost predicate Climbs(s: Heap, x: Item) {
    Forested(s) && x in s && forall y <- s :: Holds(s, y, x) ==> LinkedUp(s, y) && (s[y].parent == null ==> Orphan<Item>(Kids(s), y))
  }

  ghost function Holders(s: Heap, x: Item): set<Item>
    requires Forested(s)
  {
    set y | y in s && Holds(s, y, x)
  }

  lemma AgreeingClimbs(s: Heap, x: Item)
    requires Forested(s) && ParentsAgree(s) && x in s
    ensures Climbs(s, x)
  {
    forall y <- s
      ensures LinkedUp(s, y) && (s[y].parent == null ==> Orphan<Item>(Kids(s), y))
    {
      if s[y].parent == null {
        NobodyListsAnOrphan(s, y);
      }
    }
  }

  lemma ClimbUp(s: Heap, x: Item)
    requires Climbs(s, x) && s[x].parent != null
    ensures s[x].parent in s && Climbs(s, s[x].parent)
    ensures Holders(s, x) == {x} + Holders(s, s[x].parent) && x !in Holders(s, s[x].parent)
  {
    HoldsSelf(s, x);
    var p: Item := s[x].parent;
    assert LinkedUp(s, x);
    hide Within, IsForest;
    forall y <- s
      ensures Holds(s, y, x) <==> y == x || Holds(s, y, p)
    {
      HoldsUp(s, y, p, x);
    }
    HoldsUp(s, x, p, x);
  }

  lemma ClimbTop(s: Heap, x: Item)
    requires Climbs(s, x) && s[x].parent == null
    ensures Holders(s, x) == {x}
  {
    HoldsSelf(s, x);
    forall y <- s
      ensures Holds(s, y, x) <==> y == x
    {
      WithinOrphan<Item>(Kids(s), Ranks(s), y, x);
    }
  }

  ghost function CacheMoved(s: Heap, x: Item, d: int): Heap
    requires x in s
  {
    s[x := s[x].(total := (s[x].total + d) % WEIGHT_MODULUS)]
  }

  lemma CacheMovedKeeps(s: Heap, x: Item, d: int, a: Item, b: Item)
    requires Forested(s) && x in s && a in s
    ensures var s1 := CacheMoved(s, x, d);
      SameButTotals(s, s1) && Kids(s1) == Kids(s) && Forested(s1) && (Holds(s1, a, b) <==> Holds(s, a, b))
  {
    var s1 := CacheMoved(s, x, d);
    assert SameButTotals(s, s1);
    TotalsAside(s, s1);
    SameHolds(s, s1, a, b);
  }

  lemma CacheMovedClimbs(s: Heap, x: Item, d: int)
    requires Climbs(s, x)
    ensures Climbs(CacheMoved(s, x, d), x)
  {
    var s1 := CacheMoved(s, x, d);
    CacheMovedKeeps(s, x, d, x, x);
    hide Forested, Holds;
    forall y <- s1 | Holds(s1, y, x)
      ensures LinkedUp(s1, y) && (s1[y].parent == null ==> Orphan<Item>(Kids(s1), y))
    {
      CacheMovedKeeps(s, x, d, y, x);
      assert LinkedUp(s, y);
    }
  }

  lemma HoldersMember(s: Heap, x: Item, y: Item)
    requires Forested(s) && y in s
    ensures y in Holders(s, x) <==> Holds(s, y, x)
  {
  }

  lemma CacheMovedHolders(s: Heap, x: Item, d: int)
    requires Forested(s) && x in s
    ensures Forested(CacheMoved(s, x, d)) && Holders(CacheMoved(s, x, d), x) == Holders(s, x)
  {
    CacheMovedKeeps(s, x, d, x, x);
    hide Forested, Holds;
    forall y <- s
      ensures y in Holders(CacheMoved(s, x, d), x) <==> y in Holders(s, x)
    {
      CacheMovedKeeps(s, x, d, y, x);
    }
  }

  lemma CreditTop(s: Heap, x: Item, d: int)
    requires Forested(s) && x in s && Holders(s, x) == {x}
    ensures Credited(s, x, d) == CacheMoved(s, x, d)
  {
    hide Holds, Forested;
    assert forall y <- s :: y in Holders(s, x) <==> Holds(s, y, x);
  }

  lemma CreditUp(s: Heap, s1: Heap, x: Item, p: Item, d: int)
    requires Forested(s) && x in s && s1 == CacheMoved(s, x, d) && Forested(s1)
    requires Holders(s, x) == {x} + Holders(s1, p) && x !in Holders(s1, p)
    ensures Credited(s, x, d) == Credited(s1, p, d)
  {
    hide Holds, Forested;
    forall y <- s
      ensures Credited(s, x, d)[y] == Credited(s1, p, d)[y]
    {
      hide Holders;
      HoldersMember(s, x, y);
      HoldersMember(s1, p, y);
    }
  }

  lemma CreditStep(s: Heap, x: Item, d: int)
    requires Climbs(s, x)
    ensures var s1, p := CacheMoved(s, x, d), s[x].parent;
      && Forested(s1) && Holders(s1, x) == Holders(s, x)
      && Credited(s, x, d) == (if p == null then s1 else Credited(s1, p, d))
      && (p != null ==> p in s1 && Climbs(s1, p) && Holders(s1, p) < Holders(s1, x))
  {
    var s1, p := CacheMoved(s, x, d), s[x].parent;
    CacheMovedClimbs(s, x, d);
    CacheMovedHolders(s, x, d);
    hide Holds, Forested, Holders, Credited;
    if p == null {
      ClimbTop(s, x);
      CreditTop(s, x, d);
    } else {
      ClimbUp(s1, x);
      CreditUp(s, s1, x, p, d);
    }
  }

  /** `Container::updateItemWeight`: the caches of x and of every container around it move by diff. */
  method UpdateItemWeight(x: Item, diff: int, ghost w: set<Item>)
    requires x in w && Climbs(Snap(w), x)
    modifies w`totalWeight
    ensures Snap(w) == Credited(old(Snap(w)), x, diff)
    decreases Holders(Snap(w), x)
  {
    hide Climbs, Credited, Holders, Forested;
    CreditStep(Snap(w), x, diff);
    x.totalWeight := (x.totalWeight + diff) % WEIGHT_MODULUS;
    assert Snap(w) == CacheMoved(old(Snap(w)), x, diff);
    var p := x.parent;
    assert p == old(Snap(w))[x].parent;
    hide Snap, CacheMoved;
    if p != null {
      UpdateItemWeight(p, diff, w);
    }
  }

  // ---------------------------------------------------------------- what each operation does to the heap

  /** `Container::getWeight` and `Item::getWeight`; only containers have anything in their cache. */
  ghost function WeightOf(s: Heap, x: Item): int
    requires x in s
  {
    OwnWeight(s[x].face) + s[x].total
  }

  ghost function Added(s: Heap, p: Item, x: Item, i: nat): Heap
    requires MayAttach(s, p, x) && i <= |s[p].items|
  {
    AttachRanked(s, p, x, i);
    Credited(Attached(s, p, x, i), p, WeightOf(s, x))
  }

  ghost function Removed(s: Heap, p: Item, i: nat): Heap
    requires MayDetach(s, p, i)
  {
    DetachRanked(s, p, i);
    Credited(Detached(s, p, i), p, -WeightOf(s, s[p].items[i]))
  }

  /** x changes in itself, and the containers around it are told. */
  ghost function Changed(s: Heap, x: Item, face: Face): Heap
    requires Forested(s) && ParentsAgree(s) && x in s
  {
    RefaceTotal(s, x, face, OwnWeight, x);
    var s' := Refaced(s, x, face);
    if s[x].parent == null then s' else Credited(s', s[x].parent, OwnWeight(face) - OwnWeight(s[x].face))
  }

  /** Adding keeps the heap sound. */
  lemma AddedSound(s: Heap, p: Item, x: Item, i: nat)
    requires Sound(s) && MayAttach(s, p, x) && i <= |s[p].items|
    ensures Sound(Added(s, p, x, i))
  {
    hide Sound, Forested, Holds, Total, Kids, Credited, ParentsAgree, OwnWeight, Attached;
    AttachRanked(s, p, x, i);
    AttachAgrees(s, p, x, i);
    AttachFacts(s, p, x, i);
    var s' := Attached(s, p, x, i);
    var e := OwnWeight(s[x].face) + Total(s, OwnWeight, x);
    forall y <- s'
      ensures Total(s', OwnWeight, y) == Total(s, OwnWeight, y) + (if Holds(s', y, p) then e else 0)
    {
      AttachTotal(s, p, x, i, OwnWeight, y);
    }
    CacheIs(s, x);
    ModDiff(Total(s, OwnWeight, x), OwnWeight(s[x].face));
    CreditSound(s, s', p, e, WeightOf(s, x));
  }

  lemma CacheIs(s: Heap, x: Item)
    requires Sound(s) && x in s
    ensures Forested(s) && ParentsAgree(s) && s[x].total == Total(s, OwnWeight, x) % WEIGHT_MODULUS
  {
  }

  lemma ModDiff(t: int, a: int)
    ensures (a + t - (a + t % WEIGHT_MODULUS)) % WEIGHT_MODULUS == 0
    ensures (a - t - (a - t % WEIGHT_MODULUS)) % WEIGHT_MODULUS == 0
  {
    var q := t / WEIGHT_MODULUS;
    assert a + t - (a + t % WEIGHT_MODULUS) == q * WEIGHT_MODULUS;
    assert a - t - (a - t % WEIGHT_MODULUS) == -q * WEIGHT_MODULUS;
  }

  /** Adding x adds x, and all it holds, to p and its holders; every sum over faces moves accordingly. */
  lemma AddedTotal(s: Heap, p: Item, x: Item, i: nat, f: Face -> int, y: Item)
    requires MayAttach(s, p, x) && i <= |s[p].items| && y in s
    ensures var s' := Added(s, p, x, i);
      && Forested(s') && (Holds(s', y, p) <==> Holds(s, y, p))
      && Total(s', f, y) == Total(s, f, y) + (if Holds(s, y, p) then f(s[x].face) + Total(s, f, x) else 0)
  {
    hide Forested, Holds, Total, Kids, Credited, ParentsAgree;
    AttachTotal(s, p, x, i, f, y);
    CreditKeeps(Attached(s, p, x, i), p, WeightOf(s, x), f, y);
  }

  /** Removing keeps the heap sound. */
  lemma RemovedSound(s: Heap, p: Item, i: nat)
    requires Sound(s) && MayDetach(s, p, i)
    ensures Sound(Removed(s, p, i))
  {
    hide Sound, Forested, Holds, Total, Kids, Credited, ParentsAgree, OwnWeight, Detached;
    DetachRanked(s, p, i);
    DetachAgrees(s, p, i);
    DetachFacts(s, p, i);
    var s', x := Detached(s, p, i), s[p].items[i];
    var e := -OwnWeight(s[x].face) - Total(s, OwnWeight, x);
    forall y <- s'
      ensures Total(s', OwnWeight, y) == Total(s, OwnWeight, y) + (if Holds(s', y, p) then e else 0)
    {
      DetachTotal(s, p, i, OwnWeight, y);
    }
    CacheIs(s, x);
    ModDiff(Total(s, OwnWeight, x), -OwnWeight(s[x].face));
    CreditSound(s, s', p, e, -WeightOf(s, x));
  }

  /** Removing x takes x, and all it holds, from p and its holders, and changes nothing inside x. */
  lemma RemovedTotal(s: Heap, p: Item, i: nat, f: Face -> int, y: Item)
    requires MayDetach(s, p, i) && y in s
    ensures var s', x := Removed(s, p, i), s[p].items[i];
      && Forested(s') && (Holds(s', y, p) <==> Holds(s, y, p))
      && Total(s', f, y) == Total(s, f, y) - (if Holds(s, y, p) then f(s[x].face) + Total(s, f, x) else 0)
      && Total(s', f, x) == Total(s, f, x) && !Holds(s', x, p)
  {
    hide Sound, Forested, Holds, Total, Kids, Credited, ParentsAgree, Detached;
    var x := s[p].items[i];
    HoldsUp(s, p, p, x);
    DetachFacts(s, p, i);
    DetachTotal(s, p, i, f, y);
    DetachTotal(s, p, i, f, x);
    CreditKeeps(Detached(s, p, i), p, -WeightOf(s, x), f, y);
    CreditKeeps(Detached(s, p, i), p, -WeightOf(s, x), f, x);
  }

  /** Changing an item in itself keeps the heap sound. */
  lemma ChangedSound(s: Heap, x: Item, face: Face)
    requires Sound(s) && x in s
    ensures Sound(Changed(s, x, face))
  {
    hide Sound, Forested, Holds, Total, Kids, Credited, ParentsAgree, OwnWeight, Refaced;
    CacheIs(s, x);
    if s[x].parent != null {
      ParentLists(s, x);
    }
    RefaceAgrees(s, x, face);
    RefaceFacts(s, x, face);
    RefaceTotal(s, x, face, OwnWeight, x);
    var s', p := Refaced(s, x, face), s[x].parent;
    var e := OwnWeight(face) - OwnWeight(s[x].face);
    forall y <- s'
      ensures Total(s', OwnWeight, y) == Total(s, OwnWeight, y) + (if p != null && Holds(s', y, p) then e else 0)
    {
      RefaceTotal(s, x, face, OwnWeight, y);
      if p == null {
        HoldsOrphan(s, y, x);
      } else {
        HoldsUp(s, y, p, x);
        SameHolds(s, s', y, p);
      }
    }
    if p != null {
      assert (e - e) % WEIGHT_MODULUS == 0;
      CreditSound(s, s', p, e, e);
    } else {
      UncreditedSound(s, s');
    }
  }

  /** Changing x changes every sum over its holders by the change in x. */
  lemma ChangedTotal(s: Heap, x: Item, face: Face, f: Face -> int, y: Item)
    requires Forested(s) && ParentsAgree(s) && x in s && y in s
    ensures var s' := Changed(s, x, face);
      && Forested(s') && ParentsAgree(s') && Kids(s') == Kids(s)
      && Total(s', f, y) == Total(s, f, y) + (if y != x && Holds(s, y, x) then f(face) - f(s[x].face) else 0)
  {
    hide Forested, Holds, Total, Kids, Credited, ParentsAgree, Refaced;
    RefaceAgrees(s, x, face);
    RefaceFacts(s, x, face);
    RefaceTotal(s, x, face, f, y);
    if s[x].parent != null {
      CreditKeeps(Refaced(s, x, face), s[x].parent, OwnWeight(face) - OwnWeight(s[x].face), f, y);
    }
  }

  // ---------------------------------------------------------------- the operations

  /** `Container::internalAddThing`: x goes to the front of c. */
  method InternalAddThing(c: Item, x: Item, ghost w: set<Item>)
    requires c in w && x in w && Sound(Snap(w)) && MayAttach(Snap(w), c, x)
    modifies c`itemlist, x`parent, w`totalWeight
    ensures Snap(w) == Added(old(Snap(w)), c, x, 0) && Sound(Snap(w))
  {
    hide Forested, Holds, Total, Kids, Credited, ParentsAgree, OwnWeight, Climbs;
    ghost var s := Snap(w);
    AddedSound(s, c, x, 0);
    HoldsSelf(s, x);
    AttachRanked(s, c, x, 0);
    AttachAgrees(s, c, x, 0);
    x.parent := c;
    c.itemlist := [x] + c.itemlist;
    assert c.itemlist == s[c].items[..0] + [x] + s[c].items[0..];
    assert Snap(w) == Attached(s, c, x, 0);
    AgreeingClimbs(Snap(w), c);
    UpdateItemWeight(c, OwnWeight(x.face) + x.totalWeight, w);
  }

  /** `Container::addThing`: x goes to the front of c whatever the index, unless that is past c's capacity. */
  method AddThing(c: Item, index: int, x: Item, ghost w: set<Item>)
    requires c in w && x in w && Sound(Snap(w)) && MayAttach(Snap(w), c, x)
    modifies c`itemlist, x`parent, w`totalWeight
    ensures Snap(w) == if index >= c.maxSize then old(Snap(w)) else Added(old(Snap(w)), c, x, 0)
    ensures Sound(Snap(w))
  {
    hide Sound, MayAttach, Added, Snap;
    if index >= c.maxSize {
      return;
    }
    InternalAddThing(c, x, w);
  }

  /** `Container::addItemBack`: x goes to the back of c. */
  method AddItemBack(c: Item, x: Item, ghost w: set<Item>)
    requires c in w && x in w && Sound(Snap(w)) && MayAttach(Snap(w), c, x)
    modifies c`itemlist, x`parent, w`totalWeight
    ensures Snap(w) == Added(old(Snap(w)), c, x, |old(c.itemlist)|) && Sound(Snap(w))
  {
    hide Forested, Holds, Total, Kids, Credited, ParentsAgree, OwnWeight, Climbs;
    ghost var s, n := Snap(w), |c.itemlist|;
    AddedSound(s, c, x, n);
    HoldsSelf(s, x);
    AttachRanked(s, c, x, n);
    AttachAgrees(s, c, x, n);
    c.itemlist := c.itemlist + [x];
    x.parent := c;
    assert c.itemlist == s[c].items[..n] + [x] + s[c].items[n..];
    assert Snap(w) == Attached(s, c, x, n);
    AgreeingClimbs(Snap(w), c);
    UpdateItemWeight(c, OwnWeight(x.face) + x.totalWeight, w);
  }

  /** The place of x in a list. */
  function IndexIn(l: seq<Item>, x: Item): (i: nat)
    requires x in l
    ensures i < |l| && l[i] == x && x !in l[..i]
  {
    if l[0] == x then 0 else 1 + IndexIn(l[1..], x)
  }

  /** x, one of c's items, is taken out. */
  ghost function RemovedItem(s: Heap, c: Item, x: Item): Heap
    requires Forested(s) && ParentsAgree(s) && c in s && x in s[c].items
  {
    ListedParent(s, c, x);
    Removed(s, c, IndexIn(s[c].items, x))
  }

  /** `Container::getThingIndex`. */
  method GetThingIndex(c: Item, x: Item) returns (index: int)
    ensures index == -1 || 0 <= index < |c.itemlist|
    ensures index == -1 ==> x !in c.itemlist
    ensures index != -1 ==> x in c.itemlist && index == IndexIn(c.itemlist, x)
  {
    index := 0;
    while index < |c.itemlist|
      invariant 0 <= index <= |c.itemlist|
      invariant x !in c.itemlist[..index]
    {
      if c.itemlist[index] == x {
        return;
      }
      index := index + 1;
    }
    index := -1;
  }

  /** `Item::setID`: what the new type does to the attributes that say how the item decays. */
  function WithId(x: Face, kind: ItemType): Face {
    var newDuration := kind.decayTime * 1000;
    var a := x.attrs.(corpseOwner := None);
    var b := if newDuration == 0 && !kind.stopTime && kind.decayTo < 0 then a.(decaying := None, duration := None) else a;
    if newDuration > 0 && (!x.kind.stopTime || b.duration == None) then
      Face(kind, x.count, b.(present := true, decaying := Some(0), duration := Some(newDuration)))
    else
      Face(kind, x.count, b)
  }

  /** `Item::setSubType`. */
  function WithSubType(x: Face, n: nat): Face {
    if x.kind.fluid then x.(attrs := x.attrs.(present := true, fluidType := Some(n)))
    else if x.kind.stackable then x.(count := n)
    else if x.kind.charges != 0 then x.(attrs := x.attrs.(present := true, charges := Some(n)))
    else x.(count := n)
  }

  /** `Item::getSubType`. */
  function SubTypeOf(x: Face): nat {
    if x.kind.fluid then (if x.attrs.present && x.attrs.fluidType.Some? then x.attrs.fluidType.value else 0)
    else if x.kind.stackable then x.count
    else if x.kind.charges != 0 then (if x.attrs.present && x.attrs.charges.Some? then x.attrs.charges.value else 0)
    else x.count
  }

  /** Asked for its subtype, an item answers with the one it was given; and nothing else of it has changed. */
  lemma SubTypeSet(x: Face, n: nat)
    ensures SubTypeOf(WithSubType(x, n)) == n
    ensures var y := WithSubType(x, n);
      && y.kind == x.kind && (x.kind.fluid || (!x.kind.stackable && x.kind.charges != 0) ==> y.count == x.count)
      && y.attrs.(present := x.attrs.present, fluidType := x.attrs.fluidType, charges := x.attrs.charges) == x.attrs
      && (!x.kind.fluid ==> y.attrs.fluidType == x.attrs.fluidType)
      && (x.kind.fluid || x.kind.stackable || x.kind.charges == 0 ==> y.attrs.charges == x.attrs.charges)
  {
  }

  /**
   An item given another type no longer belongs to a corpse's owner. If the new type decays it starts with the new type's
   duration, unless time stands still for the old one, with some of it on record; and if it neither decays, nor
   keeps its time, nor has anything to decay to, there is no time left on record.
   */
  lemma TypeSet(x: Face, kind: ItemType)
    ensures var y := WithId(x, kind);
      var kept := x.kind.stopTime && x.attrs.duration.Some?;
      var a, b := x.attrs, y.attrs;
      && y.kind == kind && y.count == x.count && b.corpseOwner == None
      && b.weight == a.weight && b.charges == a.charges && b.fluidType == a.fluidType && b.others == a.others
      && (kind.decayTime > 0 && !kept ==> b.present && b.duration == Some(1000 * kind.decayTime) && b.decaying == Some(0))
      && (kind.decayTime > 0 && kept ==> b.duration == a.duration && b.decaying == a.decaying)
      && (kind.decayTime == 0 && !kind.stopTime && kind.decayTo < 0 ==> b.duration == None && b.decaying == None)
      && (kind.decayTime == 0 && (kind.stopTime || kind.decayTo >= 0) ==> b.duration == a.duration && b.decaying == a.decaying)
  {
  }

  method SetFace(c: Item, x: Item, face: Face, ghost w: set<Item>)
    requires c in w && x in w && Sound(Snap(w)) && x in c.itemlist
    modifies x`face, w`totalWeight
    ensures Sound(Snap(w)) && Snap(w) == Changed(old(Snap(w)), x, face)
  {
    hide Forested, Holds, Total, Kids, Credited, ParentsAgree, OwnWeight, Climbs, Weighted;
    ghost var s := Snap(w);
    ListedParent(s, c, x);
    ChangedSound(s, x, face);
    RefaceAgrees(s, x, face);
    RefaceTotal(s, x, face, OwnWeight, x);
    var oldWeight := OwnWeight(x.face);
    x.face := face;
    assert Snap(w) == Refaced(s, x, face);
    AgreeingClimbs(Snap(w), c);
    UpdateItemWeight(c, OwnWeight(x.face) - oldWeight, w);
  }

  /** `Container::updateThing`. */
  method UpdateThing(c: Item, x: Item, kind: ItemType, n: nat, ghost w: set<Item>)
    requires c in w && x in w && Sound(Snap(w))
    modifies x`face, w`totalWeight
    ensures Sound(Snap(w))
    ensures Snap(w) ==
      if x in old(c.itemlist) then Changed(old(Snap(w)), x, WithSubType(WithId(old(x.face), kind), n)) else old(Snap(w))
  {
    var index := GetThingIndex(c, x);
    if index == -1 {
      return;
    }
    SetFace(c, x, WithSubType(WithId(x.face, kind), n), w);
  }

  /** Part of a stack is taken off it: the item stays, in its place, with what remains. */
  predicate TakesPart(x: Face, count: nat) {
    x.kind.stackable && count != x.count
  }

  /** `Container::removeThing`. */
  method RemoveThing(c: Item, x: Item, count: nat, ghost w: set<Item>)
    requires c in w && x in w && Sound(Snap(w))
    modifies c`itemlist, x`parent, x`face, w`totalWeight
    ensures Sound(Snap(w))
    ensures x !in old(c.itemlist) ==> Snap(w) == old(Snap(w))
    ensures x in old(c.itemlist) && TakesPart(old(x.face), count) ==>
      Snap(w) == Changed(old(Snap(w)), x, old(x.face).(count := if old(x.face).count >= count then old(x.face).count - count else 0))
    ensures x in old(c.itemlist) && !TakesPart(old(x.face), count) ==> Snap(w) == RemovedItem(old(Snap(w)), c, x)
  {
    hide Forested, Holds, Total, Kids, Credited, ParentsAgree, OwnWeight, Weighted, IndexIn, Changed, RemovedItem;
    var index := GetThingIndex(c, x);
    if index == -1 {
      return;
    }
    if x.face.kind.stackable && count != x.face.count {
      var newCount := if x.face.count >= count then x.face.count - count else 0;
      SetFace(c, x, x.face.(count := newCount), w);
    } else {
      TakeOut(c, x, index, w);
    }
  }

  method SetItems(c: Item, l: seq<Item>, ghost w: set<Item>)
    requires c in w
    modifies c`itemlist
    ensures c in old(Snap(w)) && Snap(w) == old(Snap(w))[c := old(Snap(w))[c].(items := l)]
  {
    c.itemlist := l;
  }

  method SetParent(x: Item, p: Item?, ghost w: set<Item>)
    requires x in w
    modifies x`parent
    ensures x in old(Snap(w)) && Snap(w) == old(Snap(w))[x := old(Snap(w))[x].(parent := p)]
  {
    x.parent := p;
  }

  method TakeOut(c: Item, x: Item, index: nat, ghost w: set<Item>)
    requires c in w && x in w && Sound(Snap(w)) && x in c.itemlist && index == IndexIn(c.itemlist, x)
    modifies c`itemlist, x`parent, w`totalWeight
    ensures Sound(Snap(w)) && Snap(w) == RemovedItem(old(Snap(w)), c, x)
  {
    hide Sound, Forested, Credited, OwnWeight, Climbs, IndexIn, RemovedItem, Detached;
    ghost var s := Snap(w);
    TakePlan(s, c, x);
    var diff := -(OwnWeight(x.face) + x.totalWeight);
    assert diff == -WeightOf(s, x);
    hide Snap, WeightOf;
    UpdateItemWeight(c, diff, w);
    SetParent(x, null, w);
    SetItems(c, c.itemlist[..index] + c.itemlist[index + 1..], w);
  }

  // The caches are told first; then the item is taken out of the list.
  lemma TakePlan(s: Heap, c: Item, x: Item)
    requires Sound(s) && c in s && x in s[c].items
    ensures x in s && x != c && Climbs(s, c) && Forested(s) && Sound(RemovedItem(s, c, x))
    ensures var i := IndexIn(s[c].items, x);
      var u := Credited(s, c, -WeightOf(s, x));
      && c in u && x in u && u[c].items == s[c].items
      && u[x := u[x].(parent := null)][c := u[c].(items := s[c].items[..i] + s[c].items[i + 1..])] == RemovedItem(s, c, x)
  {
    hide Forested, ParentsAgree, Weighted, Holds, Total, Kids, Credited, OwnWeight, Climbs, IndexIn;
    var i := IndexIn(s[c].items, x);
    ListedParent(s, c, x);
    RemovedSound(s, c, i);
    AgreeingClimbs(s, c);
    CreditThenDetach(s, c, i, -WeightOf(s, x));
  }

  lemma ListedParent(s: Heap, c: Item, x: Item)
    requires Forested(s) && ParentsAgree(s) && c in s && x in s[c].items
    ensures x in s && s[x].parent == c && x != c
  {
    assert LinkedDown(s, c);
    HoldsUp(s, c, c, x);
    HoldsSelf(s, c);
  }

  ghost function DetachedCellOf(s: Heap, p: Item, i: nat, y: Item): Cell
    requires p in s && i < |s[p].items| && y in s
  {
    var c := if y == s[p].items[i] then s[y].(parent := null) else s[y];
    if y == p then c.(items := s[p].items[..i] + s[p].items[i + 1..]) else c
  }

  lemma DetachedCell(s: Heap, p: Item, i: nat, y: Item)
    requires p in s && i < |s[p].items| && s[p].items[i] in s && y in s
    ensures y in Detached(s, p, i) && Detached(s, p, i)[y] == DetachedCellOf(s, p, i, y)
  {
  }

  lemma CreditThenDetachAt(s: Heap, c: Heap, t: Heap, p: Item, i: nat, d: int, y: Item)
    requires Forested(s) && Forested(t) && p in s && i < |s[p].items| && y in s && y in t && c == Credited(s, p, d)
    requires t[y] == DetachedCellOf(s, p, i, y) && (Holds(t, y, p) <==> Holds(s, y, p))
    ensures y in c && p in c && c[p].items == s[p].items && DetachedCellOf(c, p, i, y) == Credited(t, p, d)[y]
  {
    hide Forested, Holds;
  }

  lemma CreditFacts(s: Heap, p: Item, d: int)
    requires Forested(s)
    ensures Credited(s, p, d).Keys == s.Keys
    ensures forall y <- s :: Credited(s, p, d)[y].items == s[y].items
  {
    hide Forested, Holds;
  }

  // The caches may be told before the item leaves.
  lemma CreditThenDetach(s: Heap, p: Item, i: nat, d: int)
    requires MayDetach(s, p, i)
    ensures Credited(s, p, d).Keys == s.Keys && Credited(s, p, d)[p].items == s[p].items
    ensures Forested(Detached(s, p, i)) && Detached(Credited(s, p, d), p, i) == Credited(Detached(s, p, i), p, d)
  {
    hide Forested, ParentsAgree, Holds, Total, Detached, DetachedCellOf, Credited, Kids;
    DetachRanked(s, p, i);
    CreditFacts(s, p, d);
    var c, t := Credited(s, p, d), Detached(s, p, i);
    CreditFacts(t, p, d);
    DetachFacts(c, p, i);
    DetachFacts(s, p, i);
    forall y <- s
      ensures Detached(c, p, i)[y] == Credited(t, p, d)[y]
    {
      DetachTotal(s, p, i, OwnWeight, y);
      DetachedCell(s, p, i, y);
      DetachedCell(c, p, i, y);
      CreditThenDetachAt(s, c, t, p, i, d, y);
    }
  }

  // ---------------------------------------------------------------- items come and go

  /** A new item, so far without a place. */
  ghost function Enlarged(s: Heap, x: Item, face: Face, container: bool := false, maxSize: nat := 0): Heap {
    s[x := Cell(face, container, maxSize, null, [], 0)]
  }

  lemma EnlargedRanked(s: Heap, x: Item, face: Face, container: bool := false, maxSize: nat := 0)
    requires Forested(s) && x !in s
    ensures var t := Enlarged(s, x, face, container, maxSize);
      Kids(t) == Kids(s)[x := []] && Ranked(t, Ranks(s)[x := 0]) && Forested(t)
  {
    IsolatedForest<Item>(Kids(s), Ranks(s), x);
    assert Kids(Enlarged(s, x, face, container, maxSize)) == Kids(s)[x := []];
    assert Ranked(Enlarged(s, x, face, container, maxSize), Ranks(s)[x := 0]);
  }

  /** A new item without a place holds nothing and is held by nothing. */
  lemma EnlargedTotal(s: Heap, x: Item, face: Face, f: Face -> int, y: Item, container: bool := false, maxSize: nat := 0)
    requires Forested(s) && x !in s && y in s
    ensures var t := Enlarged(s, x, face, container, maxSize);
      && Forested(t) && Total(t, f, y) == Total(s, f, y) && (forall b :: Holds(t, y, b) <==> Holds(s, y, b))
  {
    var t := Enlarged(s, x, face, container, maxSize);
    EnlargedRanked(s, x, face, container, maxSize);
    var g, h, v := Kids(s), Ranks(s), Values(s, f);
    assert Values(t, f) == v[x := f(face)];
    TotalWith(t, h[x := 0], f, y);
    IsolatedDeep<Item>(g, h, v, x, f(face), y);
    forall b
      ensures Holds(t, y, b) <==> Holds(s, y, b)
    {
      HoldsWith(t, h[x := 0], y, b);
      IsolatedWithin<Item>(g, h, x, y, b);
    }
  }

  lemma EnlargedAlone(s: Heap, x: Item, face: Face, f: Face -> int, b: Item, container: bool := false, maxSize: nat := 0)
    requires Forested(s) && x !in s
    ensures var t := Enlarged(s, x, face, container, maxSize);
      Forested(t) && Total(t, f, x) == 0 && (Holds(t, x, b) <==> b == x)
  {
    EnlargedRanked(s, x, face, container, maxSize);
    var t := Enlarged(s, x, face, container, maxSize);
    LeafAlone<Item>(Kids(t), Ranks(t), Values(t, f), x, b);
  }

  lemma LeafTotal(s: Heap, x: Item, f: Face -> int)
    requires Forested(s) && x in s && s[x].items == []
    ensures Total(s, f, x) == 0
  {
    LeafAlone<Item>(Kids(s), Ranks(s), Values(s, f), x, x);
  }

  lemma EnlargedAgrees(s: Heap, x: Item, face: Face, container: bool := false, maxSize: nat := 0)
    requires Forested(s) && ParentsAgree(s) && x !in s
    ensures ParentsAgree(Enlarged(s, x, face, container, maxSize))
  {
    hide Forested;
    var t := Enlarged(s, x, face, container, maxSize);
    forall y <- t
      ensures LinkedUp(t, y) && LinkedDown(t, y)
    {
      if y != x {
        assert LinkedUp(s, y) && LinkedDown(s, y);
      }
    }
  }

  /** A new item keeps the heap sound. */
  lemma EnlargedSound(s: Heap, x: Item, face: Face, container: bool := false, maxSize: nat := 0)
    requires Sound(s) && x !in s
    ensures Sound(Enlarged(s, x, face, container, maxSize))
  {
    var t := Enlarged(s, x, face, container, maxSize);
    hide Forested, ParentsAgree, Total, Holds, OwnWeight;
    EnlargedRanked(s, x, face, container, maxSize);
    EnlargedAgrees(s, x, face, container, maxSize);
    forall y <- t
      ensures t[y].total == Total(t, OwnWeight, y) % WEIGHT_MODULUS
    {
      if y == x {
        EnlargedAlone(s, x, face, OwnWeight, x, container, maxSize);
      } else {
        EnlargedTotal(s, x, face, OwnWeight, y, container, maxSize);
      }
    }
  }

  lemma HoldsFewer(s: Heap, s': Heap, a: Item, b: Item)
    requires Forested(s) && Forested(s') && s'.Keys <= s.Keys && a in s'
    requires forall y, c :: y in s' && c in s'[y].items ==> y in s && c in s[y].items
    requires Holds(s', a, b)
    ensures Holds(s, a, b)
  {
    hide Within, IsForest;
    WithinFewer<Item>(Kids(s), Ranks(s), Kids(s'), Ranks(s'), a, b);
  }

  lemma DetachFewer(s: Heap, p: Item, i: nat)
    requires p in s && i < |s[p].items| && s[p].items[i] in s
    ensures forall y, c :: y in Detached(s, p, i) && c in Detached(s, p, i)[y].items ==> y in s && c in s[y].items
  {
  }

  // What is held before an item that holds nothing is taken out is held after, that item aside.
  lemma LeafAside(s: Heap, s': Heap, leaf: Item, a: Item, b: Item)
    requires Forested(s) && Forested(s') && s'.Keys == s.Keys && a in s && leaf in s && s[leaf].items == []
    requires forall y, c :: y in s && c in s[y].items && c != leaf ==> y in s' && c in s'[y].items
    requires Holds(s, a, b) && b != leaf
    ensures Holds(s', a, b)
  {
    hide Within, IsForest;
    WithinBut<Item>(Kids(s), Ranks(s), Kids(s'), Ranks(s'), leaf, a, b);
  }

  lemma DetachHolds(s: Heap, p: Item, i: nat, a: Item, b: Item)
    requires MayDetach(s, p, i) && a in s
    ensures Forested(Detached(s, p, i)) && (Holds(Detached(s, p, i), a, b) ==> Holds(s, a, b))
  {
    hide Holds, ParentsAgree, Forested, Kids;
    DetachRanked(s, p, i);
    DetachFewer(s, p, i);
    DetachFacts(s, p, i);
    hide Detached;
    if Holds(Detached(s, p, i), a, b) {
      HoldsFewer(s, Detached(s, p, i), a, b);
    }
  }

  // What is held after an item is taken out was held before.
  lemma RemovedHolds(s: Heap, p: Item, i: nat, a: Item, b: Item)
    requires MayDetach(s, p, i) && a in s
    ensures Forested(Removed(s, p, i)) && (Holds(Removed(s, p, i), a, b) ==> Holds(s, a, b))
  {
    hide Holds, ParentsAgree, Forested, Kids, Credited, Detached;
    DetachHolds(s, p, i, a, b);
    DetachFacts(s, p, i);
    CreditStructure(Detached(s, p, i), p, -WeightOf(s, s[p].items[i]));
    SameHolds(Detached(s, p, i), Removed(s, p, i), a, b);
  }

  // ---------------------------------------------------------------- replacing an item

  /** x takes the place of the i-th item of c. */
  ghost function Swapped(s: Heap, c: Item, i: nat, x: Item): Heap
    requires MayDetach(s, c, i) && MayAttach(s, c, x)
  {
    MayAttachAfter(s, c, i, x);
    Attached(Detached(s, c, i), c, x, i)
  }

  lemma MayAttachAfter(s: Heap, c: Item, i: nat, x: Item)
    requires MayDetach(s, c, i) && MayAttach(s, c, x)
    ensures MayAttach(Detached(s, c, i), c, x) && |Detached(s, c, i)[c].items| == |s[c].items| - 1
  {
    hide Forested, Holds, Total, Kids, ParentsAgree;
    DetachRanked(s, c, i);
    DetachAgrees(s, c, i);
    DetachTotal(s, c, i, OwnWeight, x);
  }

  ghost function Replaced(s: Heap, c: Item, i: nat, x: Item): Heap
    requires MayDetach(s, c, i) && MayAttach(s, c, x)
  {
    MayAttachAfter(s, c, i, x);
    AttachRanked(Detached(s, c, i), c, x, i);
    Credited(Swapped(s, c, i, x), c, WeightOf(s, x) - WeightOf(s, s[c].items[i]))
  }

  lemma SwapTotal(s: Heap, c: Item, i: nat, x: Item, f: Face -> int, y: Item)
    requires MayDetach(s, c, i) && MayAttach(s, c, x) && y in s
    ensures var s', r := Swapped(s, c, i, x), s[c].items[i];
      && Forested(s') && (Holds(s', y, c) <==> Holds(s, y, c)) && r in s
      && Total(s', f, y) == Total(s, f, y)
           + (if Holds(s, y, c) then f(s[x].face) + Total(s, f, x) - f(s[r].face) - Total(s, f, r) else 0)
  {
    hide Forested, Holds, Total, Kids, ParentsAgree, Attached, Credited;
    MayAttachAfter(s, c, i, x);
    var t := Detached(s, c, i);
    assert t[x].face == s[x].face;
    hide Detached;
    DetachTotal(s, c, i, f, y);
    DetachTotal(s, c, i, f, x);
    AttachTotal(t, c, x, i, f, y);
  }

  /** Replacing moves every sum over c's holders by the difference between the two items. */
  lemma ReplacedTotal(s: Heap, c: Item, i: nat, x: Item, f: Face -> int, y: Item)
    requires MayDetach(s, c, i) && MayAttach(s, c, x) && y in s
    ensures var s', r := Replaced(s, c, i, x), s[c].items[i];
      && Forested(s') && r in s
      && Total(s', f, y) == Total(s, f, y)
           + (if Holds(s, y, c) then f(s[x].face) + Total(s, f, x) - f(s[r].face) - Total(s, f, r) else 0)
  {
    hide Forested, Holds, Total, Kids, ParentsAgree, Attached, Credited, Detached, Swapped;
    SwapTotal(s, c, i, x, f, y);
    SwapFacts(s, c, i, x);
    assert s[c].items[i] in s && x in s;
    CreditKeeps(Swapped(s, c, i, x), c, WeightOf(s, x) - WeightOf(s, s[c].items[i]), f, y);
  }

  lemma SwapFacts(s: Heap, c: Item, i: nat, x: Item)
    requires MayDetach(s, c, i) && MayAttach(s, c, x)
    ensures var s' := Swapped(s, c, i, x);
      && s'.Keys == s.Keys && Forested(s') && ParentsAgree(s') && (forall y <- s :: s'[y].total == s[y].total)
  {
    hide Forested, Holds, Total, Kids, ParentsAgree, Attached, Credited, Detached;
    MayAttachAfter(s, c, i, x);
    var t := Detached(s, c, i);
    DetachFacts(s, c, i);
    AttachFacts(t, c, x, i);
    AttachRanked(t, c, x, i);
    AttachAgrees(t, c, x, i);
  }

  /** Replacing keeps the heap sound. */
  lemma ReplacedSound(s: Heap, c: Item, i: nat, x: Item)
    requires Sound(s) && MayDetach(s, c, i) && MayAttach(s, c, x)
    ensures Sound(Replaced(s, c, i, x))
  {
    hide Sound, Forested, Holds, Total, Kids, Credited, ParentsAgree, OwnWeight, Swapped;
    var s', r := Swapped(s, c, i, x), s[c].items[i];
    SwapFacts(s, c, i, x);
    CacheIs(s, x);
    CacheIs(s, r);
    var t, u := Total(s, OwnWeight, x), Total(s, OwnWeight, r);
    var e, d := OwnWeight(s[x].face) + t - OwnWeight(s[r].face) - u, WeightOf(s, x) - WeightOf(s, r);
    forall y <- s'
      ensures Total(s', OwnWeight, y) == Total(s, OwnWeight, y) + (if Holds(s', y, c) then e else 0)
    {
      SwapTotal(s, c, i, x, OwnWeight, y);
    }
    assert (e - d) % WEIGHT_MODULUS == 0 by {
      var q, k := t / WEIGHT_MODULUS, u / WEIGHT_MODULUS;
      assert e - d == (q - k) * WEIGHT_MODULUS;
    }
    CreditSound(s, s', c, e, d);
  }

  // While the caches are told, the item replaced still points at c.
  ghost function Dangling(s: Heap, r: Item, c: Item): Heap
    requires r in s
  {
    s[r := s[r].(parent := c)]
  }

  lemma DanglingSame(s: Heap, r: Item, c: Item, a: Item, b: Item)
    requires Forested(s) && r in s && a in s
    ensures Forested(Dangling(s, r, c)) && (Holds(Dangling(s, r, c), a, b) <==> Holds(s, a, b))
    ensures Kids(Dangling(s, r, c)) == Kids(s)
  {
    assert Kids(Dangling(s, r, c)) == Kids(s);
    SameHolds(s, Dangling(s, r, c), a, b);
  }

  lemma DanglingLinks(s: Heap, r: Item, c: Item, y: Item)
    requires r in s && y in s && y != r && LinkedUp(s, y)
    ensures LinkedUp(Dangling(s, r, c), y) && Dangling(s, r, c)[y] == s[y]
  {
  }

  lemma DanglingClimbs(s: Heap, r: Item, c: Item)
    requires Forested(s) && ParentsAgree(s) && r in s && c in s && !Holds(s, r, c)
    ensures Climbs(Dangling(s, r, c), c)
  {
    hide Forested, Holds, LinkedUp, LinkedDown, Kids, Orphan;
    var t := Dangling(s, r, c);
    DanglingSame(s, r, c, c, c);
    forall y <- t | Holds(t, y, c)
      ensures LinkedUp(t, y) && (t[y].parent == null ==> Orphan<Item>(Kids(t), y))
    {
      DanglingSame(s, r, c, y, c);
      DanglingLinks(s, r, c, y);
      if t[y].parent == null {
        NobodyListsAnOrphan(s, y);
      }
    }
  }

  lemma CreditedCell(s: Heap, p: Item, d: int, y: Item)
    requires Forested(s) && y in s
    ensures y in Credited(s, p, d)
    ensures Credited(s, p, d)[y] == if Holds(s, y, p) then s[y].(total := (s[y].total + d) % WEIGHT_MODULUS) else s[y]
  {
    hide Forested, Holds;
  }

  /** The new item stands where the old one stood; the old one has no parent; everything else is where it was. */
  lemma ReplacedPlaces(s: Heap, c: Item, i: nat, x: Item, y: Item)
    requires MayDetach(s, c, i) && MayAttach(s, c, x) && y in s
    ensures var t, r := Replaced(s, c, i, x), s[c].items[i];
      && t.Keys == s.Keys && t[y].face == s[y].face && t[y].container == s[y].container && t[y].maxSize == s[y].maxSize
      && t[y].items == (if y == c then s[c].items[i := x] else s[y].items)
      && x != r && t[y].parent == (if y == x then c else if y == r then null else s[y].parent)
  {
    hide Forested, Holds, ParentsAgree, Weighted, Kids, Credited;
    var r := s[c].items[i];
    ListedParent(s, c, r);
    HoldsSelf(s, x);
    MayAttachAfter(s, c, i, x);
    AttachRanked(Detached(s, c, i), c, x, i);
    var e := WeightOf(s, x) - WeightOf(s, r);
    CreditFacts(Swapped(s, c, i, x), c, e);
    CreditedCell(Swapped(s, c, i, x), c, e, y);
    var l := s[c].items;
    assert (l[..i] + l[i + 1..])[..i] + [x] + (l[..i] + l[i + 1..])[i..] == l[i := x];
  }

  /** An item added stands at its place, with the container as its parent; everything else is where it was. */
  lemma AddedPlaces(s: Heap, c: Item, x: Item, i: nat, y: Item)
    requires MayAttach(s, c, x) && i <= |s[c].items| && y in s
    ensures var t := Added(s, c, x, i);
      && t.Keys == s.Keys && t[y].face == s[y].face && t[y].container == s[y].container && t[y].maxSize == s[y].maxSize
      && t[y].items == (if y == c then s[c].items[..i] + [x] + s[c].items[i..] else s[y].items)
      && t[y].parent == (if y == x then c else s[y].parent)
  {
    hide Forested, Holds, ParentsAgree, Weighted, Kids, Credited;
    HoldsSelf(s, x);
    AttachRanked(s, c, x, i);
    AttachFacts(s, c, x, i);
    CreditFacts(Attached(s, c, x, i), c, WeightOf(s, x));
    CreditedCell(Attached(s, c, x, i), c, WeightOf(s, x), y);
  }

  lemma DanglingCredit(s: Heap, r: Item, c: Item, d: int)
    requires Forested(s) && r in s && s[r].parent == null
    ensures Forested(Dangling(s, r, c)) && r in Credited(Dangling(s, r, c), c, d)
    ensures var u := Credited(Dangling(s, r, c), c, d);
      u[r := u[r].(parent := null)] == Credited(s, c, d)
  {
    hide Forested, Holds, Credited, Kids;
    var t := Dangling(s, r, c);
    DanglingSame(s, r, c, r, c);
    CreditFacts(s, c, d);
    CreditFacts(t, c, d);
    var u, v := Credited(t, c, d), Credited(s, c, d);
    forall y <- s
      ensures u[r := u[r].(parent := null)][y] == v[y]
    {
      DanglingSame(s, r, c, y, c);
      CreditedCell(s, c, d, y);
      CreditedCell(t, c, d, y);
    }
  }

  /** `Container::replaceThing`: x takes the place of the item at the index, if there is one. */
  method ReplaceThing(c: Item, index: nat, x: Item, ghost w: set<Item>)
    requires c in w && x in w && Sound(Snap(w)) && MayAttach(Snap(w), c, x)
    requires index < |c.itemlist| ==> c.itemlist[index] in w
    modifies c`itemlist, w`parent, w`totalWeight
    ensures Sound(Snap(w))
    ensures index >= |old(c.itemlist)| ==> Snap(w) == old(Snap(w))
    ensures index < |old(c.itemlist)| ==> Snap(w) == Replaced(old(Snap(w)), c, index, x)
  {
    if index >= |c.itemlist| {
      return;
    }
    var r := c.itemlist[index];
    SwapInPlace(c, index, r, x, w);
  }

  method SwapInPlace(c: Item, index: nat, r: Item, x: Item, ghost w: set<Item>)
    requires c in w && x in w && Sound(Snap(w)) && MayAttach(Snap(w), c, x)
    requires index < |c.itemlist| && c.itemlist[index] == r && r in w
    modifies c`itemlist, w`parent, w`totalWeight
    ensures Sound(Snap(w)) && Snap(w) == Replaced(old(Snap(w)), c, index, x)
  {
    hide Sound, Forested, Credited, OwnWeight, Climbs, MayAttach, Replaced, MayDetach, Kids;
    ghost var s := Snap(w);
    SwapPlan(s, c, index, x);
    var diff := -(OwnWeight(r.face) + r.totalWeight) + (OwnWeight(x.face) + x.totalWeight);
    assert diff == WeightOf(s, x) - WeightOf(s, r);
    hide Snap, WeightOf;
    SetItems(c, c.itemlist[index := x], w);
    SetParent(x, c, w);
    assert Snap(w) == SwapAssigned(s, c, index, x);
    hide SwapAssigned;
    UpdateItemWeight(c, diff, w);
    SetParent(r, null, w);
  }

  ghost function SwapAssigned(s: Heap, c: Item, i: nat, x: Item): Heap
    requires c in s && x in s && i < |s[c].items|
  {
    s[c := s[c].(items := s[c].items[i := x])][x := s[x].(parent := c)]
  }

  // After the code's first two assignments the caches can be told; clearing r's parent then ends the exchange.
  lemma SwapPlan(s: Heap, c: Item, i: nat, x: Item)
    requires Sound(s) && MayAttach(s, c, x) && i < |s[c].items| && s[c].items[i] in s
    ensures MayDetach(s, c, i) && Sound(Replaced(s, c, i, x)) && x in s && x != c && s[c].items[i] != c && s[c].items[i] != x
    ensures var a, r := SwapAssigned(s, c, i, x), s[c].items[i];
      && Climbs(a, c) && Forested(a)
      && var u := Credited(a, c, WeightOf(s, x) - WeightOf(s, r));
      r in u && u[r := u[r].(parent := null)] == Replaced(s, c, i, x)
  {
    hide Sound, Forested, Holds, Total, Kids, Credited, ParentsAgree, OwnWeight, Climbs, Swapped, Dangling, MayAttach, Replaced;
    SwapStart(s, c, i, x);
    SwapUpdates(s, c, i, x);
    ReplacedIs(s, c, i, x);
    ReplacedSound(s, c, i, x);
    var t, r := Swapped(s, c, i, x), s[c].items[i];
    DanglingClimbs(t, r, c);
    DanglingCredit(t, r, c, WeightOf(s, x) - WeightOf(s, r));
    ClimbsForested(Dangling(t, r, c), c);
  }

  lemma ClimbsForested(s: Heap, x: Item)
    requires Climbs(s, x)
    ensures Forested(s)
  {
  }

  lemma SwapStart(s: Heap, c: Item, i: nat, x: Item)
    requires Sound(s) && MayAttach(s, c, x) && i < |s[c].items| && s[c].items[i] in s
    ensures MayDetach(s, c, i) && s[x].parent == null && s[s[c].items[i]].parent == c && s[c].items[i] != c && x != c
    ensures !Holds(s, s[c].items[i], c)
  {
    hide Forested, Holds, Kids, ParentsAgree, Total, Weighted;
    ListedParent(s, c, s[c].items[i]);
    HoldsSelf(s, x);
    HoldsUp(s, c, c, s[c].items[i]);
  }

  lemma ReplacedIs(s: Heap, c: Item, i: nat, x: Item)
    requires MayDetach(s, c, i) && MayAttach(s, c, x)
    ensures Forested(Swapped(s, c, i, x)) && x in s && s[c].items[i] in s
    ensures Replaced(s, c, i, x) == Credited(Swapped(s, c, i, x), c, WeightOf(s, x) - WeightOf(s, s[c].items[i]))
  {
    hide Forested, Holds, Kids, ParentsAgree, Total, Attached, Detached, Credited;
    SwapFacts(s, c, i, x);
  }

  // The two assignments the code makes before it tells the caches.
  lemma SwapUpdates(s: Heap, c: Item, i: nat, x: Item)
    requires MayDetach(s, c, i) && MayAttach(s, c, x)
    requires s[x].parent == null && s[s[c].items[i]].parent == c && s[c].items[i] != c && x != c && !Holds(s, s[c].items[i], c)
    ensures var t, r := Swapped(s, c, i, x), s[c].items[i];
      && r in t && c in t && t[r].parent == null && Forested(t) && ParentsAgree(t) && !Holds(t, r, c)
      && Dangling(t, r, c) == s[c := s[c].(items := s[c].items[i := x])][x := s[x].(parent := c)]
  {
    hide Forested, Holds, Kids, ParentsAgree, Attached, Detached, Dangling, Total, Credited;
    SwapTotal(s, c, i, x, OwnWeight, s[c].items[i]);
    SwapFacts(s, c, i, x);
    SwapShape(s, c, i, x);
  }

  lemma SwapShape(s: Heap, c: Item, i: nat, x: Item)
    requires c in s && x in s && i < |s[c].items| && s[c].items[i] in s
    requires s[x].parent == null && s[s[c].items[i]].parent == c && s[c].items[i] != c && x != c
    ensures var r, d := s[c].items[i], Detached(s, c, i);
      && c in d && x in d && i <= |d[c].items| && r in Attached(d, c, x, i) && Attached(d, c, x, i)[r].parent == null
      && Dangling(Attached(d, c, x, i), r, c) == s[c := s[c].(items := s[c].items[i := x])][x := s[x].(parent := c)]
  {
    var l := s[c].items;
    var a := l[..i] + l[i + 1..];
    assert a[..i] == l[..i] && a[i..] == l[i + 1..];
    assert l[i := x] == l[..i] + [x] + l[i + 1..];
  }
}
