/**
 What `Game::internalAddItem` (src/game.cpp) loses. `Item::clone` registers a copy with time left for decay, so
 what is left of a stack that was not registered no longer equals the stacks the item was accepted for. For
 every stack that can be split, nothing is ever lost if and only if its copies are like it.
 */
module AddItemLosses {
  import opened Bytes
  import opened Forests
  import opened Containers
  import opened ContainerQueries
  import opened MoveItem
  import opened AddItem
  import Items

  /** A full bag with two stacks like x, of a and of b, and x beside it. */
  ghost function Crowded(bag: Face, x: Face, a: nat, b: nat, to: Item, y1: Item, y2: Item, item: Item): Heap {
    var y1Face, y2Face := x.(count := a), x.(count := b);
    map[to := Cell(bag, true, 2, null, [y1, y2], (OwnWeight(y1Face) + OwnWeight(y2Face)) % WEIGHT_MODULUS),
        y1 := Cell(y1Face, false, 0, to, [], 0),
        y2 := Cell(y2Face, false, 0, to, [], 0),
        item := Cell(x, false, 0, null, [], 0)]
  }

  /** A stack that can be split, and for which there is a stack of a with less room than that, and one of b with enough. */
  ghost predicate Crowding(bag: Face, x: Face, a: nat, b: nat, to: Item, y1: Item, y2: Item, item: Item) {
    && !bag.kind.stackable && PlainStack(x.kind) && x.kind.pickupable && x.count <= STACK_SIZE
    && a < STACK_SIZE < a + x.count && b <= STACK_SIZE && a + b + x.count <= 2 * STACK_SIZE
    && to != y1 && to != y2 && to != item && y1 != y2 && y1 != item && y2 != item
  }

  lemma CrowdedCells(bag: Face, x: Face, a: nat, b: nat, to: Item, y1: Item, y2: Item, item: Item)
    requires Crowding(bag, x, a, b, to, y1, y2, item)
    ensures var s := Crowded(bag, x, a, b, to, y1, y2, item);
      && s.Keys == {to, y1, y2, item}
      && s[to] == Cell(bag, true, 2, null, [y1, y2], (OwnWeight(x.(count := a)) + OwnWeight(x.(count := b))) % WEIGHT_MODULUS)
      && s[y1] == Cell(x.(count := a), false, 0, to, [], 0) && s[y2] == Cell(x.(count := b), false, 0, to, [], 0)
      && s[item] == Cell(x, false, 0, null, [], 0)
  {
  }

  lemma PairForest(g: Graph<Item>, h: Rank<Item>, to: Item, y1: Item, y2: Item)
    requires h.Keys == g.Keys && to in g && g[to] == [y1, y2] && y1 != y2 && y1 in g && y2 in g
    requires h[to] == 1 && h[y1] == h[y2] == 0 && forall x :: x in g && x != to ==> g[x] == []
    ensures IsForest<Item>(g, h)
  {
    assert Descending<Item>(g, h);
    assert ListsDistinct<Item>(g);
    assert OnePlace<Item>(g);
  }

  lemma CrowdedForested(bag: Face, x: Face, a: nat, b: nat, to: Item, y1: Item, y2: Item, item: Item)
    requires Crowding(bag, x, a, b, to, y1, y2, item)
    ensures Forested(Crowded(bag, x, a, b, to, y1, y2, item))
  {
    hide Crowded;
    var s := Crowded(bag, x, a, b, to, y1, y2, item);
    CrowdedCells(bag, x, a, b, to, y1, y2, item);
    var g, h := Kids(s), map[to := 1, y1 := 0, y2 := 0, item := 0];
    assert g[to] == [y1, y2] && g[y1] == g[y2] == g[item] == [];
    assert g.Keys == {to, y1, y2, item};
    hide Kids, OwnWeight;
    assert h[y1] == h[y2] == h[item] == 0 && h[to] == 1 && h.Keys == g.Keys;
    PairForest(g, h, to, y1, y2);
    assert Ranked(s, h);
  }

  lemma CrowdedAgrees(bag: Face, x: Face, a: nat, b: nat, to: Item, y1: Item, y2: Item, item: Item)
    requires Crowding(bag, x, a, b, to, y1, y2, item)
    ensures ParentsAgree(Crowded(bag, x, a, b, to, y1, y2, item)) && Tidy(Crowded(bag, x, a, b, to, y1, y2, item))
  {
    hide Crowded;
    var s := Crowded(bag, x, a, b, to, y1, y2, item);
    CrowdedCells(bag, x, a, b, to, y1, y2, item);
    forall z <- s
      ensures LinkedUp(s, z) && LinkedDown(s, z) && Neat(s[z])
    {
      assert y1 in s[to].items && y2 in s[to].items;
    }
  }

  lemma PairTotal(s: Heap, f: Face -> int, c: Item, y1: Item, y2: Item)
    requires Forested(s) && c in s && s[c].items == [y1, y2] && y1 in s && y2 in s && s[y1].items == [] && s[y2].items == []
    ensures Total(s, f, c) == f(s[y1].face) + f(s[y2].face)
  {
    LeafTotal(s, y1, f);
    LeafTotal(s, y2, f);
    var g, h, v := Kids(s), Ranks(s), Values(s, f);
    ChildrenBelow<Item>(g, h, c);
    assert g[c] == [y1] + [y2] && y1 in g[c] && y2 in g[c];
    hide IsForest, Deep;
    DeepListPair(g, h, v, y1, y2, h[c]);
    assert v[y1] == f(s[y1].face) && v[y2] == f(s[y2].face);
    assert Total(s, f, c) == DeepList<Item>(g, h, v, g[c], h[c]) by {
      DeepIs(s, f, c);
    }
  }

  lemma DeepIs(s: Heap, f: Face -> int, c: Item)
    requires Forested(s) && c in s
    ensures var g, h, v := Kids(s), Ranks(s), Values(s, f);
      (forall y <- g[c] :: y in g && h[y] < h[c]) && Total(s, f, c) == DeepList<Item>(g, h, v, g[c], h[c])
  {
    ChildrenBelow<Item>(Kids(s), Ranks(s), c);
  }

  lemma DeepListPair(g: Graph<Item>, h: Rank<Item>, v: map<Item, int>, y1: Item, y2: Item, bound: nat)
    requires IsForest<Item>(g, h) && v.Keys == g.Keys && y1 in g && y2 in g && h[y1] < bound && h[y2] < bound
    ensures DeepList<Item>(g, h, v, [y1, y2], bound) == v[y1] + Deep<Item>(g, h, v, y1) + v[y2] + Deep<Item>(g, h, v, y2)
  {
    hide IsForest, Deep;
    assert [y1, y2][1..] == [y2] && [y2][1..] == [];
    assert DeepList<Item>(g, h, v, [y2], bound) == v[y2] + Deep<Item>(g, h, v, y2);
  }

  lemma CrowdedSound(bag: Face, x: Face, a: nat, b: nat, to: Item, y1: Item, y2: Item, item: Item)
    requires Crowding(bag, x, a, b, to, y1, y2, item)
    ensures Addable(Crowded(bag, x, a, b, to, y1, y2, item), to, item)
  {
    hide Crowded, Forested, ParentsAgree, Tidy, Total;
    var s := Crowded(bag, x, a, b, to, y1, y2, item);
    CrowdedCells(bag, x, a, b, to, y1, y2, item);
    CrowdedForested(bag, x, a, b, to, y1, y2, item);
    CrowdedAgrees(bag, x, a, b, to, y1, y2, item);
    LeafTotal(s, y1, OwnWeight);
    LeafTotal(s, y2, OwnWeight);
    LeafTotal(s, item, OwnWeight);
    PairTotal(s, OwnWeight, to, y1, y2);
    forall z <- s
      ensures s[z].total == Total(s, OwnWeight, z) % WEIGHT_MODULUS
    {
      assert z == to || z == y1 || z == y2 || z == item;
    }
  }

  /** The item is accepted, since there is room for all of it, and goes onto the first stack so far as it can. */
  lemma CrowdedAccepts(bag: Face, x: Face, a: nat, b: nat, to: Item, y1: Item, y2: Item, item: Item)
    requires Crowding(bag, x, a, b, to, y1, y2, item)
    ensures var s := Crowded(bag, x, a, b, to, y1, y2, item);
      && Addable(s, to, item) && Accepts(s, to, item) && Splits(s, to, item) && Place(s, to, item).onto == y1
      && Merging(s[item].face, Some(s[y1].face), s[item].face.count) == STACK_SIZE - a
  {
    hide Crowded, Weighted, Forested, Holds, ParentsAgree, Tidy, OwnWeight, FirstStack, SpareOnAll, SpareOn;
    var s := Crowded(bag, x, a, b, to, y1, y2, item);
    CrowdedCells(bag, x, a, b, to, y1, y2, item);
    CrowdedSound(bag, x, a, b, to, y1, y2, item);
    HoldsLeaf(s, item, to);
    ItemsInHeap(s, to);
    PairPlace(s, to, item, y1, y2);
    PairSpare(s, to, item, y1, y2);
    assert ItemAt(s[to].items, 0) == y1;
  }

  lemma PairPlace(s: Heap, to: Item, x: Item, y1: Item, y2: Item)
    requires x in s && y1 in s && y2 in s
    ensures [y1, y2][0] == y1 && [y1, y2][1..] == [y2]
    ensures forall y <- [y1, y2] :: y in s
    ensures FirstStack(s, [y1, y2], x) == if StacksIn(s, y1, x) then 0 else if StacksIn(s, y2, x) then 1 else 2
  {
    assert [y1, y2][1..] == [y2] && [y2][1..] == [];
  }

  ghost function SpareIn(s: Heap, y: Item, x: Item): nat
    requires x in s && y in s
  {
    if StacksIn(s, y, x) then STACK_SIZE - s[y].face.count else 0
  }

  lemma PairSpare(s: Heap, to: Item, x: Item, y1: Item, y2: Item)
    requires Forested(s) && to in s && x in s && y1 in s && y2 in s
    ensures forall y <- [y1, y2] :: y in s
    ensures SpareOnAll(s, to, [y1, y2], x, UNLIMITED) == SpareOn(s, to, y1, x, UNLIMITED) + SpareOn(s, to, y2, x, UNLIMITED)
    ensures s[x].face.kind.pickupable && !Holds(s, x, to) ==> forall y <- [y1, y2] :: SpareOn(s, to, y, x, UNLIMITED) == SpareIn(s, y, x)
  {
    hide Forested, Holds;
    assert [y1, y2][1..] == [y2] && [y2][1..] == [];
    assert forall y <- [y1, y2] :: y == y1 || y == y2;
    assert SpareOnAll(s, to, [y2], x, UNLIMITED) == SpareOn(s, to, y2, x, UNLIMITED);
  }

  lemma HoldsLeaf(s: Heap, x: Item, y: Item)
    requires Forested(s) && x in s && s[x].items == []
    ensures Holds(s, x, y) <==> x == y
  {
    assert Kids(s)[x] == [];
  }

  // ---------------------------------------------------------------- the loss

  /** The copy is registered for decay, equals neither stack, and there is no free slot. */
  lemma CrowdedLoses(bag: Face, x: Face, a: nat, b: nat, to: Item, y1: Item, y2: Item, item: Item, z: Item)
    requires Crowding(bag, x, a, b, to, y1, y2, item) && z !in {to, y1, y2, item} && !CopiesAlike(x)
    ensures var s := Crowded(bag, x, a, b, to, y1, y2, item);
      && Addable(s, to, item) && Accepts(s, to, item) && Splits(s, to, item) && z !in s
      && var t := Rest(s, to, item, z);
         t[z].face == CloneFace(x, x.count - (STACK_SIZE - a)) && !Accepts(t, to, z)
  {
    hide Crowded, Crowding, Weighted, Forested, Holds, ParentsAgree, Tidy, OwnWeight, FirstStack, Split, Place, Splits, RoomFor, CopiesAlike, CloneFace, OntoStack;
    var s := Crowded(bag, x, a, b, to, y1, y2, item);
    CrowdedCells(bag, x, a, b, to, y1, y2, item);
    CrowdedAccepts(bag, x, a, b, to, y1, y2, item);
    StackPlace(s, to, item);
    assert Splits(s, to, item);
    var t := Rest(s, to, item, z);
    RestIs(s, to, item, y1, z);
    SplitCell(s, to, item, y1, z, to);
    SplitCell(s, to, item, y1, z, y1);
    SplitCell(s, to, item, y1, z, y2);
    SplitKind(s, to, item, y1, z);
    CopiesAlikeIff(x, x.count - (STACK_SIZE - a));
    PairPlace(t, to, z, y1, y2);
    PlaceIs(t, to, z);
  }

  lemma RestIs(s: Heap, to: Item, x: Item, y: Item, z: Item)
    requires Addable(s, to, x) && Splits(s, to, x) && z !in s && Place(s, to, x).onto == y
    ensures MaySplit(s, to, x, y, z) && Rest(s, to, x, z) == Split(s, to, x, y, z)
  {
    hide Weighted, Forested, ParentsAgree, Tidy, Split, Place, Merging;
    StackPlace(s, to, x);
  }

  /**
   Two stacks of sixty in a bag of two slots, and eighty more with a second left and not registered for decay:
   there is room for all of it and it is accepted; forty are lost.
   */
  lemma FortyAreLost(bag: Face, x: Face, to: Item, y1: Item, y2: Item, item: Item, z: Item)
    requires !bag.kind.stackable && PlainStack(x.kind) && x.kind.pickupable && x.count == 80
    requires x.attrs.present && x.attrs.duration == Some(1000) && x.attrs.decaying == None
    requires to != y1 && to != y2 && to != item && y1 != y2 && y1 != item && y2 != item && z !in {to, y1, y2, item}
    ensures var s := Crowded(bag, x, 60, 60, to, y1, y2, item);
      && s[to].maxSize == 2 && s[y1].face == s[y2].face == x.(count := 60)
      && Addable(s, to, item) && Accepts(s, to, item) && Supplied(s, to, item, [z])
      && Filed(s, to, item, [z]).lost == Reported(s, to, item, [z]) == 40
  {
    assert Crowding(bag, x, 60, 60, to, y1, y2, item);
    hide Crowded, Crowding, Weighted, Forested, Holds, ParentsAgree, Tidy, OwnWeight, Splits, Accepts, Addable, Filed, Reported, Supplied, Rest;
    assert !CopiesAlike(x);
    CrowdedCells(bag, x, 60, 60, to, y1, y2, item);
    CrowdedLoses(bag, x, 60, 60, to, y1, y2, item, z);
    FiledLost(Crowded(bag, x, 60, 60, to, y1, y2, item), to, item, z);
  }

  /** A stack that can be split. */
  predicate Splittable(x: Face) {
    PlainStack(x.kind) && x.kind.pickupable && 2 <= x.count <= STACK_SIZE
  }

  /**
   All or nothing, for every container, if and only if the stack, having attributes, has no time left or is
   registered for decay already, or, having none, is as it would be created. (The objects named are any five, to
   make a container of that loses something.)
   */
  lemma NeverLostIff(x: Face, to: Item, y1: Item, y2: Item, item: Item, z: Item, bag: Face)
    requires Splittable(x) && !bag.kind.stackable
    requires to != y1 && to != y2 && to != item && y1 != y2 && y1 != item && y2 != item && z !in {to, y1, y2, item}
    ensures CopiesAlike(x) <==>
      (forall s: Heap, c: Item, i: Item, copies: seq<Item> ::
         Addable(s, c, i) && s[i].face == x && Accepts(s, c, i) && Supplied(s, c, i, copies) ==> Filed(s, c, i, copies).lost == 0)
  {
    hide Crowded, Weighted, Forested, Holds, ParentsAgree, Tidy, OwnWeight, Splits, Accepts, Filed, Reported, Supplied, Rest, CopiesAlike, AddedBut;
    if CopiesAlike(x) {
      forall s: Heap, c: Item, i: Item, copies: seq<Item> |
          Addable(s, c, i) && i in s && s[i].face == x && Accepts(s, c, i) && Supplied(s, c, i, copies)
        ensures Filed(s, c, i, copies).lost == 0
      {
        FiledRight(s, c, i, copies);
      }
    } else {
      var a, b := STACK_SIZE - 1, 1;
      var s := Crowded(bag, x, a, b, to, y1, y2, item);
      CrowdedCells(bag, x, a, b, to, y1, y2, item);
      CrowdedLoses(bag, x, a, b, to, y1, y2, item, z);
      FiledLost(s, to, item, z);
      assert Filed(s, to, item, [z]).lost > 0;
    }
  }
}
