/**
 Coins (src/game.cpp, `Game::addMoney` and `Game::removeMoney`): paying with what lies anywhere inside a
 container, and giving change. Money is neither made nor lost: what the container is worth, together with
 the change dropped on the ground for want of room, falls by exactly the price.
 */
module Money {
  import opened Bytes
  import opened Containers
  import opened ContainerQueries
  import opened MoveItem
  import opened AddItem
  import opened Forests
  import opened LevelOrder
  import opened ContainerIterators

  const ITEM_GOLD_COIN := 2148
  const ITEM_PLATINUM_COIN := 2152
  const ITEM_CRYSTAL_COIN := 2160

  /** What one coin of this type is worth; nothing, if it is no coin. */
  function Denomination(id: nat): nat {
    if id == ITEM_GOLD_COIN then 1 else if id == ITEM_PLATINUM_COIN then 100 else if id == ITEM_CRYSTAL_COIN then 10000 else 0
  }

  lemma DenominationBound(id: nat)
    ensures Denomination(id) <= 10000
  {
  }

  /** `Item::getWorth`. */
  function Worth(x: Face): int {
    if x.kind.id == ITEM_GOLD_COIN then x.count
    else if x.kind.id == ITEM_PLATINUM_COIN then x.count * 100
    else if x.kind.id == ITEM_CRYSTAL_COIN then x.count * 10000
    else 0
  }

  /** The catalogue's rows for the coins: they stack, can be picked up, and do not decay. */
  datatype Coins = Coins(gold: ItemType, platinum: ItemType, crystal: ItemType) {
    predicate Valid() {
      && gold.id == ITEM_GOLD_COIN && platinum.id == ITEM_PLATINUM_COIN && crystal.id == ITEM_CRYSTAL_COIN
      && Minted(gold) && Minted(platinum) && Minted(crystal)
    }

    predicate Minted(kind: ItemType) {
      PlainStack(kind) && kind.pickupable && kind.decayTime == 0
    }

    /** The row an item has if it is a coin. */
    predicate Row(kind: ItemType) {
      && (kind.id == ITEM_GOLD_COIN ==> kind == gold)
      && (kind.id == ITEM_PLATINUM_COIN ==> kind == platinum)
      && (kind.id == ITEM_CRYSTAL_COIN ==> kind == crystal)
    }
  }

  ghost predicate Catalogued(s: Heap, k: Coins) {
    k.Valid() && forall x <- s :: k.Row(s[x].face.kind)
  }

  /** What the coins inside c are worth, at any depth. */
  ghost function WorthIn(s: Heap, c: Item): int
    requires Forested(s) && c in s
  {
    Total(s, Worth, c)
  }

  lemma TotalLinear(s: Heap, a: Face -> int, b: Face -> int, t: Face -> int, j: int, x: Item)
    requires Forested(s) && x in s && forall y <- s :: t(s[y].face) == a(s[y].face) + j * b(s[y].face)
    ensures Total(s, t, x) == Total(s, a, x) + j * Total(s, b, x)
  {
    hide IsForest, Deep;
    DeepLinear<Item>(Kids(s), Ranks(s), Values(s, a), Values(s, b), Values(s, t), j, x);
  }

  lemma CoinWorth(k: Coins, x: Face)
    requires k.Valid() && k.Row(x.kind)
    ensures Worth(x) == UnitsOf(ITEM_GOLD_COIN, x) + 100 * UnitsOf(ITEM_PLATINUM_COIN, x) + 10000 * UnitsOf(ITEM_CRYSTAL_COIN, x)
  {
  }

  lemma WorthIsUnits(s: Heap, k: Coins, c: Item)
    requires Forested(s) && Catalogued(s, k) && c in s
    ensures WorthIn(s, c) == UnitsIn(s, ITEM_GOLD_COIN, c) + 100 * UnitsIn(s, ITEM_PLATINUM_COIN, c) + 10000 * UnitsIn(s, ITEM_CRYSTAL_COIN, c)
  {
    hide Forested, Total;
    var a := (x: Face) => UnitsOf(ITEM_GOLD_COIN, x);
    var b := (x: Face) => UnitsOf(ITEM_PLATINUM_COIN, x);
    var d := (x: Face) => UnitsOf(ITEM_CRYSTAL_COIN, x);
    var u := (x: Face) => a(x) + 100 * b(x);
    forall y <- s
      ensures Worth(s[y].face) == u(s[y].face) + 10000 * d(s[y].face)
    {
      CoinWorth(k, s[y].face);
    }
    TotalLinear(s, a, b, u, 100, c);
    TotalLinear(s, u, d, Worth, 10000, c);
  }

  // ---------------------------------------------------------------- adding coins

  /** Only coins of denominations up to the limit may have changed, and only c may list more. */
  ghost predicate StaysAt(s: Heap, t: Heap, c: Item, limit: nat, y: Item)
    requires y in s && y in t
  {
    && t[y].face.kind == s[y].face.kind && SameOutside(t[y], s[y]) && t[y].parent == s[y].parent
    && (y != c ==> t[y].items == s[y].items) && (forall z <- s[y].items :: z in t[y].items)
    && (Denomination(s[y].face.kind.id) == 0 || Denomination(s[y].face.kind.id) > limit ==> t[y].face == s[y].face)
  }

  ghost predicate Stays(s: Heap, t: Heap, c: Item, limit: nat) {
    forall y <- s :: y in t && StaysAt(s, t, c, limit, y)
  }

  lemma StaysTrans(s: Heap, t: Heap, u: Heap, c: Item, limit: nat)
    requires Stays(s, t, c, limit) && Stays(t, u, c, limit)
    ensures Stays(s, u, c, limit)
  {
    forall y <- s
      ensures y in u && StaysAt(s, u, c, limit, y)
    {
      assert y in t && StaysAt(s, t, c, limit, y) && StaysAt(t, u, c, limit, y);
    }
  }

  ghost predicate Purse(s: Heap, k: Coins, c: Item) {
    Sound(s) && Tidy(s) && Catalogued(s, k) && c in s && s[c].container
  }

  function NewCoin(kind: ItemType, n: nat): Face {
    Face(kind, n, NewAttributes(kind, n))
  }

  lemma CoinEnters(s: Heap, k: Coins, c: Item, x: Item, kind: ItemType, n: nat)
    requires Purse(s, k, c) && x !in s && k.Row(kind) && Denomination(kind.id) > 0 && n <= STACK_SIZE
    ensures CopiesAlike(NewCoin(kind, n))
    ensures var t := Enlarged(s, x, NewCoin(kind, n));
      && Purse(t, k, c) && Addable(t, c, x) && Stays(s, t, c, Denomination(kind.id)) && WorthIn(t, c) == WorthIn(s, c)
  {
    hide Forested, ParentsAgree, Weighted, Total, OwnWeight;
    var t := Enlarged(s, x, NewCoin(kind, n));
    EnlargedSound(s, x, NewCoin(kind, n));
    EnlargedTidy(s, x, NewCoin(kind, n));
    EnlargedTotal(s, x, NewCoin(kind, n), Worth, c);
    forall y <- t
      ensures k.Row(t[y].face.kind)
    {
      assert y == x || (y in s && k.Row(s[y].face.kind));
    }
    assert Stays(s, t, c, Denomination(kind.id)) by {
      forall y <- s
        ensures y in t && StaysAt(s, t, c, Denomination(kind.id), y)
      {
      }
    }
  }

  lemma CoinAdded(s: Heap, t: Heap, k: Coins, c: Item, x: Item)
    requires Purse(s, k, c) && Addable(s, c, x) && Denomination(s[x].face.kind.id) > 0 && AllAdded(s, t, c, x)
    requires x !in s[c].items && s[x].items == []
    ensures Purse(t, k, c) && WorthIn(t, c) == WorthIn(s, c) + Worth(s[x].face)
    ensures forall y <- s :: y != x ==> y in t && StaysAt(s, t, c, Denomination(s[x].face.kind.id), y)
  {
    hide Forested, ParentsAgree, Weighted, Total, Holds, Tidy;
    assert k.Row(s[x].face.kind);
    forall y <- t
      ensures k.Row(t[y].face.kind)
    {
      if y in s {
        assert FramedAt(s, t, c, x, y) && k.Row(s[y].face.kind);
      }
    }
    assert FramedAt(s, t, c, x, c);
    forall y <- s | y != x
      ensures y in t && StaysAt(s, t, c, Denomination(s[x].face.kind.id), y)
    {
      assert FramedAt(s, t, c, x, y);
      assert k.Row(s[y].face.kind);
    }
    WorthIsUnits(s, k, c);
    WorthIsUnits(t, k, c);
    HoldsSelf(s, c);
    CoinUnits(s, t, c, x, ITEM_GOLD_COIN);
    CoinUnits(s, t, c, x, ITEM_PLATINUM_COIN);
    CoinUnits(s, t, c, x, ITEM_CRYSTAL_COIN);
  }

  lemma CoinUnits(s: Heap, t: Heap, c: Item, x: Item, id: nat)
    requires Forested(s) && c in s && x in s && AllAdded(s, t, c, x) && s[x].items == []
    ensures Forested(t) && c in t && UnitsIn(t, id, c) == UnitsIn(s, id, c) + UnitsOf(id, s[x].face)
  {
    hide Forested, ParentsAgree, Weighted, Total, Holds, Tidy;
    assert FramedAt(s, t, c, x, c);
    HoldsSelf(s, c);
    LeafTotal(s, x, (z: Face) => UnitsOf(id, z));
    assert GainedAt(s, t, c, x, 0, c, id);
  }

  /** What a list of dropped coins is worth. */
  function WorthOf(l: seq<Face>): int {
    if l == [] then 0 else WorthOf(l[..|l| - 1]) + Worth(l[|l| - 1])
  }

  /** How many of one coin are among those dropped. */
  function UnitsDropped(id: nat, l: seq<Face>): int {
    if l == [] then 0 else UnitsDropped(id, l[..|l| - 1]) + UnitsOf(id, l[|l| - 1])
  }

  /** How much more of an item the stacks in a list that are like it have room for. */
  ghost function Gaps(s: Heap, l: seq<Item>, x: Face): nat {
    if l == [] then 0
    else (if l[0] in s && Equals(s[l[0]].face, x) && s[l[0]].face.count < STACK_SIZE then STACK_SIZE - s[l[0]].face.count else 0) + Gaps(s, l[1..], x)
  }

  /** There is a free slot, or the stacks like it have room for all of it. */
  ghost predicate Fits(s: Heap, c: Item, x: Face)
    requires c in s
  {
    |s[c].items| < s[c].maxSize || x.count <= Gaps(s, s[c].items, x)
  }

  lemma {:induction false} GapsAreSpare(s: Heap, x: Item, face: Face, l: seq<Item>)
    requires x !in s && forall y <- l :: y in s
    ensures var t := Enlarged(s, x, face);
      && (forall y <- l :: y in t)
      && var yes := Takers(t, l, x, UNLIMITED);
         Gaps(s, l, face) + CountIn(t, yes) == STACK_SIZE * |yes|
  {
    var t := Enlarged(s, x, face);
    if l != [] {
      GapsAreSpare(s, x, face, l[1..]);
      var rest := Takers(t, l[1..], x, UNLIMITED);
      assert ([l[0]] + rest)[0] == l[0] && ([l[0]] + rest)[1..] == rest && [] + rest == rest;
    }
  }

  /** A new stack of coins is accepted exactly if it fits. */
  lemma CoinFits(s: Heap, k: Coins, c: Item, x: Item, kind: ItemType, n: nat)
    requires Purse(s, k, c) && x !in s && k.Row(kind) && Denomination(kind.id) > 0 && 0 < n <= STACK_SIZE
    ensures var t := Enlarged(s, x, NewCoin(kind, n));
      Addable(t, c, x) && (Accepts(t, c, x) <==> Fits(s, c, NewCoin(kind, n)))
  {
    hide Forested, ParentsAgree, Weighted, Total, Tidy, Takers, CountIn, Accepts, Gaps, Holds;
    var t := Enlarged(s, x, NewCoin(kind, n));
    CoinEnters(s, k, c, x, kind, n);
    EnlargedAlone(s, x, NewCoin(kind, n), OwnWeight, c);
    ItemsInHeap(s, c);
    GapsAreSpare(s, x, NewCoin(kind, n), s[c].items);
    AcceptsIff(t, c, x);
  }

  lemma CoinStacks(s: Heap, k: Coins, kind: ItemType)
    requires Catalogued(s, k) && k.Row(kind) && Denomination(kind.id) > 0
    ensures kind.stackable
  {
  }

  lemma CoinRows(s: Heap, k: Coins, c: Item)
    requires Purse(s, k, c)
    ensures k.Row(k.gold) && k.Row(k.platinum) && k.Row(k.crystal)
    ensures k.gold.id == ITEM_GOLD_COIN && k.platinum.id == ITEM_PLATINUM_COIN && k.crystal.id == ITEM_CRYSTAL_COIN
    ensures Denomination(k.gold.id) == 1 && Denomination(k.platinum.id) == 100 && Denomination(k.crystal.id) == 10000
  {
  }

  // How many coins there are, by type.
  function CoinsOf(id: nat, gold: nat, platinum: nat, crystal: nat): nat {
    if id == ITEM_GOLD_COIN then gold else if id == ITEM_PLATINUM_COIN then platinum else if id == ITEM_CRYSTAL_COIN then crystal else 0
  }

  /** So many coins have entered c, or been dropped. */
  ghost predicate Received(s: Heap, t: Heap, c: Item, dropped: seq<Face>, gold: nat, platinum: nat, crystal: nat)
    requires Forested(s) && Forested(t) && c in s && c in t
  {
    forall id: nat :: UnitsIn(t, id, c) + UnitsDropped(id, dropped) == UnitsIn(s, id, c) + CoinsOf(id, gold, platinum, crystal)
  }

  lemma OneMore(l: seq<Face>, x: Face)
    requires x.kind.stackable
    ensures forall id: nat :: UnitsDropped(id, l + [x]) == UnitsDropped(id, l) + (if id == x.kind.id then x.count else 0)
  {
    assert (l + [x])[..|l|] == l;
  }

  lemma CoinEntersUnits(s: Heap, c: Item, x: Item, face: Face)
    requires Forested(s) && c in s && x !in s && Forested(Enlarged(s, x, face))
    ensures forall id: nat :: UnitsIn(Enlarged(s, x, face), id, c) == UnitsIn(s, id, c)
  {
    hide Forested;
    forall id: nat
      ensures c in Enlarged(s, x, face) && UnitsIn(Enlarged(s, x, face), id, c) == UnitsIn(s, id, c)
    {
      EnlargedTotal(s, x, face, (z: Face) => UnitsOf(id, z), c);
    }
  }

  lemma CoinAddedUnits(s: Heap, t: Heap, c: Item, x: Item, face: Face)
    requires Forested(s) && c in s && x in s && AllAdded(s, t, c, x) && s[x].items == [] && s[x].face == face && face.kind.stackable
    requires Forested(t) && c in t
    ensures forall id: nat :: UnitsIn(t, id, c) == UnitsIn(s, id, c) + (if id == face.kind.id then face.count else 0)
  {
    hide Forested, AddedBut, UnitsIn;
    forall id: nat
      ensures UnitsIn(t, id, c) == UnitsIn(s, id, c) + (if id == face.kind.id then face.count else 0)
    {
      CoinUnits(s, t, c, x, id);
    }
  }

  /**
   A new stack of n coins goes into c if it fits, and else onto the ground, where anything fits.
   */
  method HandOver(k: Coins, c: Item, kind: ItemType, n: nat, dropped: seq<Face>, ghost w: set<Item>)
    returns (dropped': seq<Face>, ghost w': set<Item>)
    requires c in w && Purse(Snap(w), k, c) && k.Row(kind) && Denomination(kind.id) > 0 && 0 < n <= STACK_SIZE
    modifies w`itemlist, w`parent, w`face, w`totalWeight
    ensures w <= w' && fresh(w' - w) && Purse(Snap(w'), k, c) && Stays(old(Snap(w)), Snap(w'), c, Denomination(kind.id))
    ensures dropped' == if old(Fits(Snap(w), c, NewCoin(kind, n))) then dropped else dropped + [NewCoin(kind, n)]
    ensures |c.itemlist| <= |old(c.itemlist)| + 1
    ensures forall id: nat :: UnitsIn(Snap(w'), id, c) + UnitsDropped(id, dropped')
                              == UnitsIn(old(Snap(w)), id, c) + UnitsDropped(id, dropped) + (if id == kind.id then n else 0)
    ensures WorthIn(Snap(w'), c) + WorthOf(dropped') == WorthIn(old(Snap(w)), c) + WorthOf(dropped) + n * Denomination(kind.id)
  {
    hide Forested, ParentsAgree, Weighted, Tidy, Catalogued, WorthIn, Addable, AddedBut, Stays, Filed, Supplied, Reported, Queueing, Accepts, CopiesAlike, Fits, UnitsIn, UnitsDropped;
    ghost var s := Snap(w);
    var coin := new Item(NewCoin(kind, n), false, 0);
    w' := w + {coin};
    ghost var t := Snap(w');
    assert t == Enlarged(s, coin, NewCoin(kind, n));
    CoinEnters(s, k, c, coin, kind, n);
    CoinFits(s, k, c, coin, kind, n);
    CoinStacks(s, k, kind);
    CoinEntersUnits(s, c, coin, NewCoin(kind, n));
    var ret, remainder, queued;
    ghost var copies;
    ret, remainder, queued, copies, w' := InternalAddItem(c, coin, false, w');
    dropped' := dropped;
    if ret != NoError {
      dropped' := dropped + [coin.face];
      OneMore(dropped, NewCoin(kind, n));
    } else {
      FiledGrows(t, c, coin, copies);
      NobodyHas(t, c, coin);
      CoinAdded(t, Snap(w'), k, c, coin);
      CoinAddedUnits(t, Snap(w'), c, coin, NewCoin(kind, n));
      StaysBut(s, t, Snap(w'), c, coin, Denomination(kind.id));
    }
  }

  lemma NobodyHas(s: Heap, c: Item, x: Item)
    requires Addable(s, c, x)
    ensures x !in s[c].items
  {
    ItemsInHeap(s, c);
  }

  lemma StaysBut(s: Heap, t: Heap, u: Heap, c: Item, x: Item, limit: nat)
    requires Stays(s, t, c, limit) && x !in s && forall y <- t :: y != x ==> y in u && StaysAt(t, u, c, limit, y)
    ensures Stays(s, u, c, limit)
  {
    forall y <- s
      ensures y in u && StaysAt(s, u, c, limit, y)
    {
      assert y in t && StaysAt(s, t, c, limit, y) && StaysAt(t, u, c, limit, y);
    }
  }

  lemma StaysWider(s: Heap, t: Heap, c: Item, limit: nat, wider: nat)
    requires Stays(s, t, c, limit) && limit <= wider
    ensures Stays(s, t, c, wider)
  {
    forall y <- s
      ensures y in t && StaysAt(s, t, c, wider, y)
    {
      assert StaysAt(s, t, c, limit, y);
    }
  }

  lemma StaysSelf(s: Heap, c: Item, limit: nat)
    ensures Stays(s, s, c, limit)
  {
  }

  /** How many free slots are enough for an amount: one for each stack it is paid out in. */
  function Slots(amount: nat): nat {
    (amount / 10000 + 99) / 100 + (if amount % 10000 >= 100 then 1 else 0) + (if amount % 100 > 0 then 1 else 0)
  }

  /** Where paying out stands: so many coins so far, in so many stacks. */
  ghost predicate PaidOut(s: Heap, t: Heap, k: Coins, c: Item, limit: nat, dropped: seq<Face>, gold: nat, platinum: nat, crystal: nat, stacks: nat)
    requires Purse(s, k, c)
  {
    && Purse(t, k, c) && Stays(s, t, c, limit) && Received(s, t, c, dropped, gold, platinum, crystal)
    && WorthIn(t, c) + WorthOf(dropped) == WorthIn(s, c) + gold + platinum * 100 + crystal * 10000
    && |t[c].items| <= |s[c].items| + stacks && t[c].maxSize == s[c].maxSize
    && (|s[c].items| + stacks <= s[c].maxSize ==> dropped == [])
  }

  lemma NothingPaidOut(s: Heap, k: Coins, c: Item, limit: nat)
    requires Purse(s, k, c)
    ensures PaidOut(s, s, k, c, limit, [], 0, 0, 0, 0)
  {
    StaysSelf(s, c, limit);
  }

  method HandOverWithin(k: Coins, c: Item, kind: ItemType, n: nat, dropped: seq<Face>, ghost limit: nat, ghost s: Heap,
      ghost gold: nat, ghost platinum: nat, ghost crystal: nat, ghost stacks: nat, ghost w: set<Item>)
    returns (dropped': seq<Face>, ghost w': set<Item>)
    requires c in w && Purse(Snap(w), k, c) && k.Row(kind) && 0 < Denomination(kind.id) <= limit && 0 < n <= STACK_SIZE
    requires Purse(s, k, c) && PaidOut(s, Snap(w), k, c, limit, dropped, gold, platinum, crystal, stacks)
    modifies w`itemlist, w`parent, w`face, w`totalWeight
    ensures w <= w' && fresh(w' - w) && Purse(Snap(w'), k, c)
    ensures PaidOut(s, Snap(w'), k, c, limit, dropped',
      gold + (if kind.id == ITEM_GOLD_COIN then n else 0), platinum + (if kind.id == ITEM_PLATINUM_COIN then n else 0),
      crystal + (if kind.id == ITEM_CRYSTAL_COIN then n else 0), stacks + 1)
  {
    hide Sound, Tidy, Catalogued, WorthIn, Stays, UnitsIn, UnitsDropped, Gaps;
    ghost var t := Snap(w);
    dropped', w' := HandOver(k, c, kind, n, dropped, w);
    StaysWider(t, Snap(w'), c, Denomination(kind.id), limit);
    StaysTrans(s, t, Snap(w'), c, limit);
    StaysSize(t, Snap(w'), c, limit);
  }

  lemma StaysSize(s: Heap, t: Heap, c: Item, limit: nat)
    requires Stays(s, t, c, limit) && c in s
    ensures c in t && t[c].maxSize == s[c].maxSize
  {
    assert StaysAt(s, t, c, limit, c);
  }

  /** The crystal coins of `Game::addMoney`, in stacks of a hundred. */
  method AddCrystals(k: Coins, c: Item, crystalCoins: nat, ghost limit: nat, ghost s: Heap, ghost w: set<Item>)
    returns (dropped: seq<Face>, ghost w': set<Item>)
    requires c in w && Purse(Snap(w), k, c) && s == Snap(w) && (crystalCoins > 0 ==> limit >= 10000)
    modifies w`itemlist, w`parent, w`face, w`totalWeight
    ensures w <= w' && fresh(w' - w)
    ensures Purse(Snap(w'), k, c) && PaidOut(s, Snap(w'), k, c, limit, dropped, 0, 0, crystalCoins, (crystalCoins + 99) / 100)
  {
    hide Sound, Tidy, PaidOut, Catalogued, Denomination;
    NothingPaidOut(s, k, c, limit);
    CoinRows(s, k, c);
    dropped, w' := [], w;
    var left: nat := crystalCoins;
    ghost var stacks := 0;
    while left > 0
      invariant left <= crystalCoins && w <= w' && fresh(w' - w) && Purse(Snap(w'), k, c)
      invariant PaidOut(s, Snap(w'), k, c, limit, dropped, 0, 0, crystalCoins - left, stacks)
      invariant stacks + (left + 99) / 100 == (crystalCoins + 99) / 100
    {
      var count := if left < 100 then left else 100;
      dropped, w' := HandOverWithin(k, c, k.crystal, count, dropped, limit, s, 0, 0, crystalCoins - left, stacks, w');
      left, stacks := left - count, stacks + 1;
    }
  }

  /**
   `Game::addMoney`: exactly the money is added to c, in the coins of the largest denominations, or dropped where
   it does not fit; and with a free slot for each stack nothing is dropped.
   */
  method AddMoney(k: Coins, c: Item, amount: nat, ghost w: set<Item>) returns (dropped: seq<Face>, ghost w': set<Item>)
    requires c in w && Purse(Snap(w), k, c) && amount < 0x1_0000_0000
    modifies w`itemlist, w`parent, w`face, w`totalWeight
    ensures w <= w' && fresh(w' - w) && Purse(Snap(w'), k, c) && Stays(old(Snap(w)), Snap(w'), c, amount)
    ensures WorthIn(Snap(w'), c) + WorthOf(dropped) == WorthIn(old(Snap(w)), c) + amount
    ensures Received(old(Snap(w)), Snap(w'), c, dropped, amount % 100, amount % 10000 / 100, amount / 10000)
    ensures old(|c.itemlist| + Slots(amount) <= c.maxSize) ==> dropped == [] && WorthIn(Snap(w'), c) == WorthIn(old(Snap(w)), c) + amount
  {
    hide WorthIn, Stays, WorthOf, PaidOut, Received, Denomination, Purse, Coins.Row;
    ghost var s := Snap(w);
    CoinRows(s, k, c);
    if amount == 0 {
      dropped, w' := [], w;
      NothingPaidOut(s, k, c, amount);
      PaidOutMeans(s, Snap(w'), k, c, amount, dropped, 0, 0, 0, 0);
      return;
    }
    var crystalCoins := amount / 10000;
    Digits(amount);
    dropped, w' := AddCrystals(k, c, crystalCoins, amount, s, w);
    ghost var stacks := (crystalCoins + 99) / 100;
    var money := amount - crystalCoins * 10000;
    var platinumCoins := money / 100;
    if platinumCoins != 0 {
      dropped, w' := HandOverWithin(k, c, k.platinum, platinumCoins, dropped, amount, s, 0, 0, crystalCoins, stacks, w');
      money, stacks := money - platinumCoins * 100, stacks + 1;
    }
    if money != 0 {
      dropped, w' := HandOverWithin(k, c, k.gold, money, dropped, amount, s, 0, platinumCoins, crystalCoins, stacks, w');
      stacks := stacks + 1;
    }
    PaidOutMeans(s, Snap(w'), k, c, amount, dropped, money, platinumCoins, crystalCoins, stacks);
  }

  lemma Digits(amount: nat)
    ensures var rest := amount - amount / 10000 * 10000;
      && 0 <= rest == amount % 10000 < 10000 && rest / 100 < 100 && 0 <= rest - rest / 100 * 100 == amount % 100 < 100
      && (rest / 100 != 0 ==> rest >= 100) && (rest >= 100 ==> rest / 100 != 0)
  {
  }

  lemma PaidOutMeans(s: Heap, t: Heap, k: Coins, c: Item, limit: nat, dropped: seq<Face>, gold: nat, platinum: nat, crystal: nat, stacks: nat)
    requires Purse(s, k, c) && PaidOut(s, t, k, c, limit, dropped, gold, platinum, crystal, stacks)
    ensures Purse(t, k, c) && Stays(s, t, c, limit) && Received(s, t, c, dropped, gold, platinum, crystal)
    ensures WorthIn(t, c) + WorthOf(dropped) == WorthIn(s, c) + gold + platinum * 100 + crystal * 10000
    ensures |s[c].items| + stacks <= s[c].maxSize ==> dropped == [] && WorthOf(dropped) == 0
  {
  }

  lemma NothingDropped()
    ensures WorthOf([]) == 0
  {
  }

  // ---------------------------------------------------------------- finding coins

  datatype Entry = Entry(worth: nat, item: Item)

  predicate Cheapest(m: seq<Entry>) {
    forall i, j :: 0 <= i < j < |m| ==> m[i].worth <= m[j].worth
  }

  predicate Separate(m: seq<Entry>) {
    forall i, j :: 0 <= i < j < |m| ==> m[i].item != m[j].item
  }

  /** Into a map ordered by worth, behind its equals. */
  function Emplace(m: seq<Entry>, n: Entry): seq<Entry> {
    if m == [] || n.worth < m[0].worth then [n] + m else [m[0]] + Emplace(m[1..], n)
  }

  lemma {:induction false} EmplaceMembers(m: seq<Entry>, n: Entry)
    ensures n in Emplace(m, n) && forall e <- m :: e in Emplace(m, n)
    ensures forall e <- Emplace(m, n) :: e in m || e == n
  {
    if m != [] && n.worth >= m[0].worth {
      EmplaceMembers(m[1..], n);
    }
  }

  function EntrySum(m: seq<Entry>): int {
    if m == [] then 0 else m[0].worth + EntrySum(m[1..])
  }

  lemma ConsCheapest(e: Entry, r: seq<Entry>)
    requires Cheapest(r) && forall x <- r :: e.worth <= x.worth
    ensures Cheapest([e] + r)
  {
    var m := [e] + r;
    forall i, j | 0 <= i < j < |m|
      ensures m[i].worth <= m[j].worth
    {
      assert m[j] == r[j - 1];
    }
  }

  lemma ConsSeparate(e: Entry, r: seq<Entry>)
    requires Separate(r) && forall x <- r :: e.item != x.item
    ensures Separate([e] + r)
  {
    var m := [e] + r;
    forall i, j | 0 <= i < j < |m|
      ensures m[i].item != m[j].item
    {
      assert m[j] == r[j - 1];
    }
  }

  lemma {:induction false} Emplaced(m: seq<Entry>, n: Entry)
    requires Cheapest(m) && Separate(m) && forall e <- m :: e.item != n.item
    ensures Cheapest(Emplace(m, n)) && Separate(Emplace(m, n)) && EntrySum(Emplace(m, n)) == EntrySum(m) + n.worth
  {
    EmplacedSum(m, n);
    hide EntrySum, Cheapest, Separate;
    if m == [] {
      assert Emplace(m, n) == [n];
      OneEntry(n);
    } else if n.worth >= m[0].worth {
      FirstOf(m);
      Emplaced(m[1..], n);
      EmplacedBehind(m[0], m[1..], n);
    } else {
      FirstOf(m);
      assert forall e <- m :: e in m[1..] || e == m[0];
      ConsCheapest(n, m);
      ConsSeparate(n, m);
    }
  }

  lemma OneEntry(n: Entry)
    ensures Cheapest([n]) && Separate([n])
  {
  }

  lemma EmplacedBehind(first: Entry, t: seq<Entry>, n: Entry)
    requires Cheapest(Emplace(t, n)) && Separate(Emplace(t, n))
    requires first.worth <= n.worth && first.item != n.item && forall e <- t :: first.worth <= e.worth && first.item != e.item
    ensures Cheapest([first] + Emplace(t, n)) && Separate([first] + Emplace(t, n))
  {
    hide Cheapest, Separate;
    EmplaceMembers(t, n);
    ConsCheapest(first, Emplace(t, n));
    ConsSeparate(first, Emplace(t, n));
  }

  lemma FirstOf(m: seq<Entry>)
    requires Cheapest(m) && Separate(m) && m != []
    ensures Cheapest(m[1..]) && Separate(m[1..]) && forall e <- m[1..] :: e.worth >= m[0].worth && e.item != m[0].item
  {
  }

  /** The entries are exactly the coins among the items seen, each once, cheapest first. */
  ghost predicate Gathered(s: Heap, m: seq<Entry>, seen: seq<Item>) {
    && Cheapest(m) && Separate(m) && (forall x <- seen :: x in s)
    && (forall e <- m :: e.item in seen && Pays(s, e))
    && EntrySum(m) == Sum<Item>(Values(s, Worth), seen)
  }

  ghost predicate Pays(s: Heap, e: Entry) {
    e.item in s && e.worth == Worth(s[e.item].face) > 0 && !s[e.item].container
  }

  lemma {:induction false} SumAppend<K>(v: map<K, int>, a: seq<K>, x: K)
    requires x in v && forall y <- a :: y in v
    ensures (forall y <- a + [x] :: y in v) && Sum(v, a + [x]) == Sum(v, a) + v[x]
  {
    if a != [] {
      assert (a + [x])[1..] == a[1..] + [x];
      SumAppend(v, a[1..], x);
    }
  }

  /** The entries once x too is seen. */
  ghost function With(s: Heap, m: seq<Entry>, x: Item): seq<Entry>
    requires x in s
  {
    if !s[x].container && Worth(s[x].face) > 0 then Emplace(m, Entry(Worth(s[x].face), x)) else m
  }

  lemma GatherOne(s: Heap, k: Coins, m: seq<Entry>, seen: seq<Item>, x: Item)
    requires Tidy(s) && Catalogued(s, k) && Gathered(s, m, seen) && x in s && x !in seen
    ensures Gathered(s, With(s, m, x), seen + [x])
  {
    hide Cheapest, Separate, Tidy, Catalogued;
    SumAppend<Item>(Values(s, Worth), seen, x);
    IsCoin(s, k, x);
    hide Sum;
    assert x in seen + [x] && forall y <- seen :: y in seen + [x];
    assert forall e <- m :: e.item != x;
    if Worth(s[x].face) > 0 {
      var n := Entry(Worth(s[x].face), x);
      Emplaced(m, n);
      EmplaceMembers(m, n);
      hide Emplace, EntrySum;
      var r := With(s, m, x);
      assert r == Emplace(m, n);
      assert Cheapest(r) && Separate(r);
      assert EntrySum(r) == Sum<Item>(Values(s, Worth), seen + [x]);
      assert Pays(s, n);
      assert forall e <- r :: Pays(s, e);
      assert forall e <- r :: e.item in seen + [x];
    }
  }

  lemma IsCoin(s: Heap, k: Coins, x: Item)
    requires Tidy(s) && Catalogued(s, k) && x in s
    ensures Worth(s[x].face) >= 0 && (Worth(s[x].face) > 0 ==> !s[x].container && s[x].face.kind.stackable)
  {
    assert k.Row(s[x].face.kind) && Neat(s[x]);
  }

  ghost function ContainersIn(s: Heap, l: seq<Item>): seq<Item>
    requires forall x <- l :: x in s
  {
    if l == [] then [] else (if s[l[0]].container then [l[0]] else []) + ContainersIn(s, l[1..])
  }

  // Only containers have items of their own.
  lemma {:induction false} ContainersChildren(s: Heap, l: seq<Item>)
    requires ParentsAgree(s) && forall x <- l :: x in s
    ensures (forall x <- ContainersIn(s, l) :: x in s) && Children<Item>(Kids(s), ContainersIn(s, l)) == Children<Item>(Kids(s), l)
  {
    if l != [] {
      ContainersChildren(s, l[1..]);
      assert LinkedDown(s, l[0]);
      var k := ContainersIn(s, l[1..]);
      assert ([l[0]] + k)[1..] == k && [] + k == k;
      var r := Children<Item>(Kids(s), l[1..]);
      assert [] + r == r;
    }
  }

  /** One pass over a list: its containers are queued, its coins are entered. */
  method Sift(l: seq<Item>, containers: seq<Item>, moneyMap: seq<Entry>, moneyCount: nat,
      ghost k: Coins, ghost seen: seq<Item>, ghost w: set<Item>)
    returns (containers': seq<Item>, moneyMap': seq<Entry>, moneyCount': nat)
    requires Tidy(Snap(w)) && Catalogued(Snap(w), k) && (forall x <- l :: x in w) && NoDuplicates(seen + l)
    requires Gathered(Snap(w), moneyMap, seen) && moneyCount == EntrySum(moneyMap)
    ensures forall x <- l :: x in Snap(w)
    ensures containers' == containers + ContainersIn(Snap(w), l)
    ensures Gathered(Snap(w), moneyMap', seen + l) && moneyCount' == EntrySum(moneyMap')
  {
    hide Tidy, Catalogued, Gathered, EntrySum;
    ghost var s := Snap(w);
    containers', moneyMap', moneyCount' := containers, moneyMap, moneyCount;
    var i := 0;
    assert seen + l[..0] == seen;
    while i < |l|
      invariant i <= |l|
      invariant containers' + ContainersIn(s, l[i..]) == containers + ContainersIn(s, l)
      invariant Gathered(s, moneyMap', seen + l[..i]) && moneyCount' == EntrySum(moneyMap')
    {
      var item := l[i];
      assert item in l && l[i..][0] == item && l[i..][1..] == l[i + 1..] && l[..i + 1] == l[..i] + [item];
      Assoc(seen, l[..i], [item]);
      NotYet(seen, l, i);
      GatherOne(s, k, moneyMap', seen + l[..i], item);
      if item.container {
        Assoc(containers', [item], ContainersIn(s, l[i + 1..]));
        containers' := containers' + [item];
      } else {
        var worth := Worth(item.face);
        if worth != 0 {
          EmplacedSum(moneyMap', Entry(worth, item));
          moneyCount' := moneyCount' + worth;
          moneyMap' := Emplace(moneyMap', Entry(worth, item));
        }
      }
      i := i + 1;
    }
    assert l[..i] == l;
  }

  lemma {:induction false} EmplacedSum(m: seq<Entry>, n: Entry)
    ensures EntrySum(Emplace(m, n)) == EntrySum(m) + n.worth
  {
    if m != [] && n.worth >= m[0].worth {
      EmplacedSum(m[1..], n);
    }
  }

  lemma NotYet(seen: seq<Item>, l: seq<Item>, i: nat)
    requires NoDuplicates(seen + l) && i < |l|
    ensures l[i] !in seen + l[..i]
  {
    var a := seen + l;
    assert a[|seen| + i] == l[i];
    assert forall j :: 0 <= j < |seen| ==> a[j] == seen[j];
    assert forall j :: 0 <= j < i ==> a[|seen| + j] == l[j];
  }

  // The search's state: the queue of containers stands for the queue of their items.
  lemma SearchStep(s: Heap, c: Item, seen: seq<Item>, front: Item, rest: seq<Item>)
    requires Sound(s) && c in s && front in s && (forall x <- rest :: x in s)
    requires Going(s, c, seen, s[front].items + Children<Item>(Kids(s), rest))
    ensures forall x <- s[front].items :: x in s
    ensures forall x <- rest + ContainersIn(s, s[front].items) :: x in s
    ensures Going(s, c, seen + s[front].items, Children<Item>(Kids(s), rest + ContainersIn(s, s[front].items)))
    ensures NoDuplicates(seen + s[front].items)
  {
    var l := s[front].items;
    ItemsInHeap(s, front);
    hide ParentsAgree, Weighted, Forested, Going, Inside, Children, ContainersIn;
    GoingOverList(s, c, seen, l, Children<Item>(Kids(s), rest));
    ContainersChildren(s, l);
    ChildrenAppend<Item>(Kids(s), rest, ContainersIn(s, l));
    InsideExactly(s, c);
    PrefixDistinct(seen + l, Inside(s, c));
  }

  lemma PrefixDistinct(a: seq<Item>, b: seq<Item>)
    requires a <= b && NoDuplicates(b)
    ensures NoDuplicates(a)
  {
    assert forall i :: 0 <= i < |a| ==> a[i] == b[i];
  }

  lemma SearchStart(s: Heap, c: Item)
    requires Sound(s) && c in s
    ensures Going(s, c, [], s[c].items + Children<Item>(Kids(s), []))
  {
    GoingStart(s, c);
    assert s[c].items + [] == s[c].items;
  }

  lemma SearchEnd(s: Heap, c: Item, seen: seq<Item>, m: seq<Entry>)
    requires Sound(s) && c in s && Going(s, c, seen, Children<Item>(Kids(s), [])) && Gathered(s, m, seen)
    ensures seen == Inside(s, c) && EntrySum(m) == WorthIn(s, c)
  {
    GoingEnd(s, c, seen);
    InsideSum(s, c, Worth);
  }

  lemma ChildrenCons(s: Heap, l: seq<Item>)
    requires l != [] && forall x <- l :: x in s
    ensures Children<Item>(Kids(s), l) == s[l[0]].items + Children<Item>(Kids(s), l[1..])
  {
    assert l[0] in l;
  }

  // How many items are still to be seen bounds the search.
  lemma SearchOrder(s: Heap, c: Item, seen: seq<Item>, front: Item, rest: seq<Item>)
    requires Sound(s) && c in s && front in s && (forall x <- rest :: x in s)
    requires Going(s, c, seen, s[front].items + Children<Item>(Kids(s), rest))
    ensures |seen + s[front].items| <= |Inside(s, c)|
    ensures ContainersIn(s, []) == []
  {
    hide Going, Inside, Weighted, ParentsAgree, Forested;
    GoingOverList(s, c, seen, s[front].items, Children<Item>(Kids(s), rest));
  }

  /** The search of `Game::removeMoney`: every coin inside c is found, once. */
  method CollectCoins(ghost k: Coins, c: Item, ghost w: set<Item>) returns (moneyMap: seq<Entry>, moneyCount: nat)
    requires c in w && Purse(Snap(w), k, c)
    ensures Gathered(Snap(w), moneyMap, Inside(Snap(w), c))
    ensures moneyCount == EntrySum(moneyMap) == WorthIn(Snap(w), c)
  {
    hide Forested, ParentsAgree, Weighted, Tidy, Catalogued, Gathered, Going, Children, ContainersIn, WorthIn, Inside, EntrySum;
    ghost var s := Snap(w);
    SearchStart(s, c);
    SearchStep(s, c, [], c, []);
    SearchOrder(s, c, [], c, []);
    NothingGathered(s);
    assert [] + c.itemlist == c.itemlist;
    var containers;
    containers, moneyMap, moneyCount := Sift(c.itemlist, [], [], 0, k, [], w);
    ghost var seen := c.itemlist;
    var i := 0;
    while i < |containers|
      invariant i <= |containers| && (forall x <- containers :: x in w)
      invariant Going(s, c, seen, Children<Item>(Kids(s), containers[i..]))
      invariant Gathered(s, moneyMap, seen) && moneyCount == EntrySum(moneyMap)
      invariant |seen| <= |Inside(s, c)|
      decreases |Inside(s, c)| - |seen|, |containers| - i
    {
      var container := containers[i];
      ghost var rest := containers[i + 1..];
      assert container in containers && containers[i..][0] == container && containers[i..][1..] == rest;
      ChildrenCons(s, containers[i..]);
      SearchStep(s, c, seen, container, rest);
      SearchOrder(s, c, seen, container, rest);
      ghost var sub := ContainersIn(s, container.itemlist);
      i := i + 1;
      containers, moneyMap, moneyCount := Sift(container.itemlist, containers, moneyMap, moneyCount, k, seen, w);
      seen := seen + container.itemlist;
      assert containers[i..] == rest + sub;
      assert forall x <- containers :: x in containers[..i] || x in containers[i..];
    }
    assert containers[i..] == [];
    SearchEnd(s, c, seen, moneyMap);
  }

  lemma NothingGathered(s: Heap)
    ensures Gathered(s, [], []) && EntrySum([]) == 0
  {
  }

  // ---------------------------------------------------------------- paying

  /** x lies in a list somewhere inside c. */
  ghost predicate Lies(s: Heap, c: Item, x: Item)
    requires Forested(s) && c in s
  {
    x in s && s[x].parent != null && s[x].parent in s && x in s[s[x].parent].items && Holds(s, c, s[x].parent)
  }

  lemma InsideLies(s: Heap, c: Item, x: Item)
    requires Sound(s) && c in s && x in s && x in Inside(s, c)
    ensures Lies(s, c, x)
  {
    hide Forested, ParentsAgree, Weighted, Inside, Holds;
    InsideExactly(s, c);
    if s[x].parent == null {
      HoldsOrphan(s, c, x);
    } else {
      ParentLists(s, x);
      HoldsUp(s, c, s[x].parent, x);
    }
  }

  /** The coins still to pay with: distinct, and each where it can be taken from. */
  ghost predicate Payable(s: Heap, c: Item, m: seq<Entry>)
    requires Forested(s) && c in s
  {
    Separate(m) && forall e <- m :: Pays(s, e) && Lies(s, c, e.item)
  }

  /** Taking m coins of a stack lowers the worth of everything around it by just these coins. */
  lemma TakenWorth(s: Heap, k: Coins, c: Item, from: Item, x: Item, m: nat)
    requires Purse(s, k, c) && MayTake(s, from, x, m) && Holds(s, c, from) && s[x].face.kind.stackable
    ensures Purse(Taken(s, from, x, m), k, c)
    ensures WorthIn(Taken(s, from, x, m), c) == WorthIn(s, c) - m * Denomination(s[x].face.kind.id)
  {
    hide Forested, ParentsAgree, Weighted, Tidy, Total, Holds, Taken, TakesPart;
    var t := Taken(s, from, x, m);
    TakenSound(s, from, x, m);
    TakenTidy(s, from, x, m);
    TakenCell(s, from, x, m, c);
    TakenCell(s, from, x, m, x);
    forall y <- t
      ensures k.Row(t[y].face.kind)
    {
      TakenCell(s, from, x, m, y);
      assert k.Row(s[y].face.kind);
    }
    assert k.Row(s[x].face.kind);
    WorthIsUnits(s, k, c);
    WorthIsUnits(t, k, c);
    TakenUnits(s, from, x, m, ITEM_GOLD_COIN, c);
    TakenUnits(s, from, x, m, ITEM_PLATINUM_COIN, c);
    TakenUnits(s, from, x, m, ITEM_CRYSTAL_COIN, c);
  }

  /** Taking a whole stack leaves every other coin where it was. */
  lemma TakenOthers(s: Heap, c: Item, from: Item, x: Item, m: nat, y: Item)
    requires MayTake(s, from, x, m) && !TakesPart(s[x].face, m) && !s[x].container && c in s && y != x && Lies(s, c, y)
    ensures var t := Taken(s, from, x, m);
      Forested(t) && c in t && Lies(t, c, y) && t[y].face == s[y].face && t[y].container == s[y].container
  {
    hide Forested, Weighted, Tidy, Holds, Taken, TakesPart, ParentsAgree;
    var t, p := Taken(s, from, x, m), s[y].parent;
    TakenSound(s, from, x, m);
    TakenCell(s, from, x, m, y);
    TakenCell(s, from, x, m, p);
    TakenCell(s, from, x, m, c);
    TakenParent(s, from, x, m, y);
    NothingInside(s, x);
    forall z, e | z in s && e in s[z].items && e != x
      ensures z in t && e in t[z].items
    {
      TakenCell(s, from, x, m, z);
    }
    LeafAside(s, t, x, c, p);
  }

  lemma NothingInside(s: Heap, x: Item)
    requires ParentsAgree(s) && x in s && !s[x].container
    ensures s[x].items == []
  {
    assert LinkedDown(s, x);
  }

  lemma TakenParent(s: Heap, from: Item, x: Item, m: nat, y: Item)
    requires MayTake(s, from, x, m) && !TakesPart(s[x].face, m) && y in s && y != x
    ensures y in Taken(s, from, x, m) && Taken(s, from, x, m)[y].parent == s[y].parent
  {
    hide Forested, Weighted, Tidy, ParentsAgree, RemovedItem;
    RemovedCell(s, from, x, y);
  }

  /** Paying with all of the first stack: the rest can still be paid with. */
  lemma PayWhole(s: Heap, k: Coins, c: Item, m: seq<Entry>)
    requires Purse(s, k, c) && m != [] && Payable(s, c, m)
    ensures var x := m[0].item; var n := s[x].face.count;
      && s[x].parent != null && MayTake(s, s[x].parent, x, n) && RemoveAnswer(s, s[x].parent, x, n, true) == NoError
      && var t := Taken(s, s[x].parent, x, n);
      Purse(t, k, c) && Payable(t, c, m[1..]) && WorthIn(t, c) == WorthIn(s, c) - m[0].worth
  {
    hide Forested, ParentsAgree, Weighted, Tidy, Holds, Taken, WorthIn, Lies, Denomination, RemoveAnswer, Catalogued, TakesPart;
    var x := m[0].item;
    CanPay(s, k, c, m[0]);
    var n, p := s[x].face.count, s[x].parent;
    TakenWorth(s, k, c, p, x, n);
    var t := Taken(s, p, x, n);
    hide MayTake, Pays;
    forall d <- m[1..]
      ensures Pays(t, d) && Lies(t, c, d.item)
    {
      assert d in m && d.item != x;
      OtherPays(s, c, p, x, n, d);
    }
  }

  lemma OtherPays(s: Heap, c: Item, from: Item, x: Item, n: nat, d: Entry)
    requires MayTake(s, from, x, n) && !TakesPart(s[x].face, n) && !s[x].container && c in s
    requires Pays(s, d) && Lies(s, c, d.item) && d.item != x
    ensures var t := Taken(s, from, x, n);
      Forested(t) && c in t && Pays(t, d) && Lies(t, c, d.item)
  {
    hide Forested, ParentsAgree, Weighted, Tidy, Holds, Taken, TakesPart;
    TakenOthers(s, c, from, x, n, d.item);
    InTaken(s, from, x, n, d.item);
  }

  lemma InTaken(s: Heap, from: Item, x: Item, m: nat, y: Item)
    requires MayTake(s, from, x, m) && y in s
    ensures y in Taken(s, from, x, m)
  {
    TakenCell(s, from, x, m, y);
  }

  lemma CanPay(s: Heap, k: Coins, c: Item, e: Entry)
    requires Purse(s, k, c) && Pays(s, e) && Lies(s, c, e.item)
    ensures var x := e.item; var n := s[x].face.count;
      && s[x].parent != null && MayTake(s, s[x].parent, x, n) && RemoveAnswer(s, s[x].parent, x, n, true) == NoError
      && Holds(s, c, s[x].parent) && s[x].face.kind.stackable && !TakesPart(s[x].face, n) && !s[x].container
      && e.worth == n * Denomination(s[x].face.kind.id)
  {
    hide Forested, ParentsAgree, Weighted, Tidy, Holds;
    UnitOf(s, k, e);
  }

  // Change goes into c or onto the ground, and leaves the stack to be broken as it was.
  lemma StaysPayable(s: Heap, t: Heap, c: Item, x: Item, limit: nat)
    requires Sound(s) && Sound(t) && c in s && Stays(s, t, c, limit) && Lies(s, c, x) && Denomination(s[x].face.kind.id) > limit
    ensures c in t && Lies(t, c, x) && t[x].face == s[x].face && t[x].parent == s[x].parent
  {
    hide Forested, ParentsAgree, Weighted, Holds, Denomination;
    var p := s[x].parent;
    assert StaysAt(s, t, c, limit, x) && StaysAt(s, t, c, limit, p) && StaysAt(s, t, c, limit, c);
    forall y, e | y in s && e in s[y].items
      ensures y in t && e in t[y].items
    {
      assert StaysAt(s, t, c, limit, y);
    }
    HoldsFewer(t, s, c, p);
  }

  /** How many coins of one denomination cover the price, and what they leave over. */
  lemma Covers(price: nat, unit: nat, count: nat)
    requires 0 < unit && 0 < price < unit * count
    ensures var n := (price + unit - 1) / unit;
      0 < n <= count && 0 <= n * unit - price < unit && Fewest(n, unit, price)
  {
    var n := (price + unit - 1) / unit;
    assert n * unit <= price + unit - 1 < n * unit + unit;
    PositiveFactor(count + 1 - n, unit);
  }

  lemma WorthNonNegative(s: Heap, c: Item)
    requires Forested(s) && c in s
    ensures WorthIn(s, c) >= 0
  {
    hide Deep, IsForest;
    DeepNonNegative<Item>(Kids(s), Ranks(s), Values(s, Worth), c);
  }

  /** The rest of the coins are worth at least the rest of the price. */
  ghost predicate Owing(s: Heap, k: Coins, c: Item, m: seq<Entry>, money: nat, target: int) {
    Purse(s, k, c) && Payable(s, c, m) && 0 < money <= EntrySum(m) && WorthIn(s, c) == target + money
  }

  lemma PayStep(s: Heap, k: Coins, c: Item, m: seq<Entry>, money: nat, target: int)
    requires Owing(s, k, c, m, money, target)
    ensures m != []
    ensures var x := m[0].item; var n := s[x].face.count;
      && s[x].parent != null && MayTake(s, s[x].parent, x, n) && RemoveAnswer(s, s[x].parent, x, n, true) == NoError
      && Pays(s, m[0]) && Lies(s, c, x) && Purse(s, k, c) && 0 < money && WorthIn(s, c) == target + money
      && var t := Taken(s, s[x].parent, x, n);
      && (m[0].worth < money ==> Owing(t, k, c, m[1..], money - m[0].worth, target))
      && (m[0].worth == money ==> Purse(t, k, c) && WorthIn(t, c) == target)
  {
    hide Taken, WorthIn, Sound, Tidy, Catalogued;
    PayWhole(s, k, c, m);
  }

  lemma StartOwing(s: Heap, k: Coins, c: Item, m: seq<Entry>, price: nat)
    requires Purse(s, k, c) && Gathered(s, m, Inside(s, c)) && EntrySum(m) == WorthIn(s, c) && 0 < price <= EntrySum(m)
    ensures Owing(s, k, c, m, price, WorthIn(s, c) - price)
  {
    hide Forested, ParentsAgree, Weighted, Tidy, Catalogued, WorthIn, Inside, EntrySum;
    forall e <- m
      ensures Pays(s, e) && Lies(s, c, e.item)
    {
      InsideLies(s, c, e.item);
    }
  }

  lemma StillOwing(s: Heap, k: Coins, c: Item, m: seq<Entry>, money: nat, target: int)
    requires Owing(s, k, c, m, money, target)
    ensures m != []
  {
  }

  lemma UnitOf(s: Heap, k: Coins, e: Entry)
    requires Tidy(s) && Catalogued(s, k) && Pays(s, e)
    ensures var x := s[e.item].face;
      x.count > 0 && x.kind.stackable && Denomination(x.kind.id) > 0
      && e.worth == x.count * Denomination(x.kind.id) && e.worth / x.count == Denomination(x.kind.id)
  {
    IsCoin(s, k, e.item);
    var x := s[e.item].face;
    hide Tidy, Catalogued;
    assert e.worth == x.count * Denomination(x.kind.id);
    Exactly(x.count, Denomination(x.kind.id));
  }

  lemma Exactly(n: nat, u: nat)
    requires n > 0
    ensures n * u / n == u
  {
    var q, r := n * u / n, n * u % n;
    assert n * u == q * n + r;
    assert (1 - u + q) * n == n - r && (1 + u - q) * n == n + r;
    PositiveFactor(1 - u + q, n);
    PositiveFactor(1 + u - q, n);
  }

  lemma BreakTake(s: Heap, t: Heap, k: Coins, c: Item, x: Item, n: nat, limit: nat)
    requires Purse(s, k, c) && Purse(t, k, c) && Stays(s, t, c, limit) && Lies(s, c, x) && Denomination(s[x].face.kind.id) > limit
    requires s[x].face.kind.stackable && 0 < n <= s[x].face.count
    ensures Lies(t, c, x) && t[x].face == s[x].face
    ensures c in t && x in t && t[x].parent != null && t[x].parent in t && RemoveAnswer(t, t[x].parent, x, n, true) == NoError
    ensures MayTake(t, t[x].parent, x, n)
    ensures Purse(Taken(t, t[x].parent, x, n), k, c)
    ensures WorthIn(Taken(t, t[x].parent, x, n), c) == WorthIn(t, c) - n * Denomination(s[x].face.kind.id)
  {
    hide Forested, ParentsAgree, Weighted, Tidy, Catalogued, WorthIn, Stays, Taken, Holds, Denomination;
    StaysPayable(s, t, c, x, limit);
    TakenWorth(t, k, c, t[x].parent, x, n);
  }

  /** n coins of a stack are the fewest that cover what is owed. */
  predicate Fewest(n: nat, unit: nat, owed: nat) {
    n > 0 && (n - 1) * unit < owed <= n * unit
  }

  /** n coins of one type are gone, and the change has come, in so many stacks at most if there is room. */
  ghost predicate Changes(s: Heap, t: Heap, c: Item, id: nat, n: nat, change: nat, dropped: seq<Face>)
    requires Forested(s) && Forested(t) && c in s && c in t
  {
    && (forall i: nat :: UnitsIn(t, i, c) + UnitsDropped(i, dropped)
                         == UnitsIn(s, i, c) - (if i == id then n else 0) + CoinsOf(i, change % 100, change % 10000 / 100, change / 10000))
    && (|s[c].items| + Slots(change) <= s[c].maxSize ==> dropped == [])
  }

  lemma TakenChanges(s: Heap, t: Heap, k: Coins, c: Item, x: Item, n: nat, change: nat, dropped: seq<Face>)
    requires Purse(s, k, c) && Purse(t, k, c) && Received(s, t, c, dropped, change % 100, change % 10000 / 100, change / 10000)
    requires Lies(t, c, x) && MayTake(t, t[x].parent, x, n) && t[x].face.kind.stackable
    requires |s[c].items| + Slots(change) <= s[c].maxSize ==> dropped == []
    ensures Forested(Taken(t, t[x].parent, x, n)) && c in Taken(t, t[x].parent, x, n)
    ensures Changes(s, Taken(t, t[x].parent, x, n), c, t[x].face.kind.id, n, change, dropped)
  {
    hide Forested, ParentsAgree, Weighted, Tidy, Catalogued, UnitsIn, Taken, Holds, Slots, CoinsOf;
    var u := Taken(t, t[x].parent, x, n);
    InTaken(t, t[x].parent, x, n, c);
    TakenSound(t, t[x].parent, x, n);
    forall i: nat
      ensures UnitsIn(u, i, c) == UnitsIn(t, i, c) - (if i == t[x].face.kind.id then n else 0)
    {
      TakenUnits(t, t[x].parent, x, n, i, c);
    }
  }

  /** Breaking a stack worth more than what is still owed, against change: of the stack go the fewest coins that will do. */
  method Break(k: Coins, c: Item, e: Entry, money: nat, ghost target: int, ghost w: set<Item>)
    returns (dropped: seq<Face>, ghost n: nat, ghost w': set<Item>)
    requires c in w && Purse(Snap(w), k, c) && Pays(Snap(w), e) && Lies(Snap(w), c, e.item)
    requires 0 < money < e.worth && WorthIn(Snap(w), c) == target + money
    modifies w`itemlist, w`parent, w`face, w`totalWeight
    ensures w <= w' && fresh(w' - w) && Purse(Snap(w'), k, c)
    ensures WorthIn(Snap(w'), c) + WorthOf(dropped) == target
    ensures var id := old(e.item.face.kind.id);
      && Fewest(n, Denomination(id), money)
      && Changes(old(Snap(w)), Snap(w'), c, id, n, n * Denomination(id) - money, dropped)
  {
    hide Forested, ParentsAgree, Weighted, Tidy, Catalogued, WorthIn, WorthOf, Lies, Stays, Taken, Denomination, RemoveAnswer, Changes, Received, Slots;
    ghost var s := Snap(w);
    var item := e.item;
    UnitOf(s, k, e);
    var worth := e.worth / item.face.count;
    var removeCount := (money + worth - 1) / worth;
    n := removeCount;
    Covers(money, worth, item.face.count);
    // change is worth less than one of the coins
    DenominationBound(item.face.kind.id);
    dropped, w' := AddMoney(k, c, worth * removeCount - money, w);
    BreakTake(s, Snap(w'), k, c, item, removeCount, worth * removeCount - money);
    TakenChanges(s, Snap(w'), k, c, item, removeCount, worth * removeCount - money, dropped);
    var ret := InternalRemoveItem(item, Some(removeCount), true, false, w');
  }

  ghost function EntryUnits(s: Heap, id: nat, m: seq<Entry>): int {
    if m == [] then 0 else EntryUnits(s, id, m[..|m| - 1]) + (if m[|m| - 1].item in s then UnitsOf(id, s[m[|m| - 1].item].face) else 0)
  }

  /** The first j stacks have been paid whole, and the others are as they were. */
  ghost predicate Spent(s: Heap, t: Heap, c: Item, m: seq<Entry>, j: nat) {
    && Forested(s) && Forested(t) && c in s && c in t && j <= |m|
    && |t[c].items| <= |s[c].items| && t[c].maxSize == s[c].maxSize
    && (forall id: nat :: UnitsIn(t, id, c) == UnitsIn(s, id, c) - EntryUnits(s, id, m[..j]))
    && forall e <- m[j..] :: e.item in s && e.item in t && t[e.item].face == s[e.item].face
  }

  lemma SpentNone(s: Heap, c: Item, m: seq<Entry>)
    requires Sound(s) && c in s && Gathered(s, m, Inside(s, c))
    ensures Spent(s, s, c, m, 0) && m[..0] == [] && EntrySum([]) == 0
  {
    hide UnitsIn, Inside, Cheapest, Separate;
    assert m[0..] == m;
  }

  lemma SpendOne(s: Heap, t: Heap, k: Coins, c: Item, m: seq<Entry>, j: nat, money: nat, target: int)
    requires Sound(s) && c in s && j < |m| && Owing(t, k, c, m[j..], money, target) && Spent(s, t, c, m, j)
    ensures var x := m[j].item; var n := t[x].face.count;
      && t[x].parent != null && MayTake(t, t[x].parent, x, n) && Spent(s, Taken(t, t[x].parent, x, n), c, m, j + 1)
  {
    hide Forested, ParentsAgree, Weighted, Tidy, Catalogued, UnitsIn, UnitsOf, Taken, Holds, TakesPart, WorthIn, EntrySum, RemoveAnswer;
    assert m[j..][0] == m[j] && m[j] in m[j..];
    CanPay(t, k, c, m[j]);
    var x := m[j].item;
    var n, p := t[x].face.count, t[x].parent;
    var u := Taken(t, p, x, n);
    TakenSound(t, p, x, n);
    TakenCell(t, p, x, n, c);
    assert m[..j + 1][..j] == m[..j];
    forall id: nat
      ensures UnitsIn(u, id, c) == UnitsIn(s, id, c) - EntryUnits(s, id, m[..j + 1])
    {
      TakenUnits(t, p, x, n, id, c);
      StackUnits(id, t[x].face);
    }
    forall e <- m[j + 1..]
      ensures e.item in s && e.item in u && u[e.item].face == s[e.item].face
    {
      assert e in m[j..];
      var i :| 0 < i < |m[j..]| && m[j..][i] == e;
      TakenCell(t, p, x, n, e.item);
    }
  }

  lemma StackUnits(id: nat, x: Face)
    requires x.kind.stackable
    ensures UnitsOf(id, x) == if id == x.kind.id then x.count else 0
  {
  }

  /**
   How a price has been paid: with the coins there are, cheapest stacks first; with j of them whole, which come
   to no more than the price; and if they come to less, with the fewest coins of the next that will do,
   against change.
   */
  ghost predicate PaidWith(s: Heap, t: Heap, c: Item, price: nat, m: seq<Entry>, j: nat, n: nat, dropped: seq<Face>)
    requires Forested(s) && Forested(t) && c in s && c in t
  {
    && Gathered(s, m, Inside(s, c)) && j <= |m| && EntrySum(m[..j]) <= price
    && var owed: nat := price - EntrySum(m[..j]);
       if owed == 0 then dropped == [] && forall id: nat :: UnitsIn(t, id, c) == UnitsIn(s, id, c) - EntryUnits(s, id, m[..j])
       else
         && j < |m| && m[j].worth > owed && m[j].item in s
         && var kind := s[m[j].item].face.kind.id;
         && Fewest(n, Denomination(kind), owed)
         && var change: nat := n * Denomination(kind) - owed;
         && (forall id: nat :: UnitsIn(t, id, c) + UnitsDropped(id, dropped)
               == UnitsIn(s, id, c) - EntryUnits(s, id, m[..j]) - (if id == kind then n else 0)
                    + CoinsOf(id, change % 100, change % 10000 / 100, change / 10000))
         && (|s[c].items| + Slots(change) <= s[c].maxSize ==> dropped == [])
  }

  lemma BrokenPays(s: Heap, u: Heap, t: Heap, c: Item, price: nat, m: seq<Entry>, j: nat, owed: nat, n: nat, dropped: seq<Face>)
    requires Forested(s) && Forested(u) && Forested(t) && c in s && c in u && c in t && j < |m| && m[j].item in u
    requires Gathered(s, m, Inside(s, c)) && EntrySum(m[..j]) == price - owed && 0 < owed < m[j].worth && Spent(s, u, c, m, j)
    requires var id := u[m[j].item].face.kind.id;
      Fewest(n, Denomination(id), owed) && Changes(u, t, c, id, n, n * Denomination(id) - owed, dropped)
    ensures PaidWith(s, t, c, price, m, j, n, dropped)
  {
    hide Forested, UnitsIn, UnitsDropped, EntryUnits, EntrySum, Gathered, Inside, Denomination, Fewest, CoinsOf, Slots;
    assert m[j] in m[j..];
  }

  lemma WholePays(s: Heap, t: Heap, c: Item, price: nat, m: seq<Entry>, j: nat)
    requires Forested(s) && Forested(t) && c in s && c in t && j <= |m|
    requires Gathered(s, m, Inside(s, c)) && EntrySum(m[..j]) == price && Spent(s, t, c, m, j)
    ensures PaidWith(s, t, c, price, m, j, 0, [])
  {
    hide Forested, UnitsIn, EntryUnits, EntrySum, Gathered, Inside;
  }

  lemma {:induction false} EntrySumNext(m: seq<Entry>, j: nat)
    requires j < |m|
    ensures EntrySum(m[..j + 1]) == EntrySum(m[..j]) + m[j].worth
  {
    if j > 0 {
      EntrySumNext(m[1..], j - 1);
      assert m[..j + 1][1..] == m[1..][..j] && m[..j][1..] == m[1..][..j - 1];
    }
  }

  /** Where paying stands: the first j stacks are spent, and money of the price is still owed. */
  ghost predicate Paying(s: Heap, t: Heap, k: Coins, c: Item, m: seq<Entry>, j: nat, money: nat, price: nat) {
    && Sound(s) && Forested(t) && c in s && c in t && j <= |m|
    && Spent(s, t, c, m, j) && Gathered(s, m, Inside(s, c)) && EntrySum(m[..j]) + money == price
    && Owing(t, k, c, m[j..], money, WorthIn(s, c) - price)
  }

  lemma StartPaying(s: Heap, k: Coins, c: Item, m: seq<Entry>, price: nat)
    requires Purse(s, k, c) && Gathered(s, m, Inside(s, c)) && EntrySum(m) == WorthIn(s, c) && 0 < price <= EntrySum(m)
    ensures Paying(s, s, k, c, m, 0, price, price)
  {
    hide Forested, ParentsAgree, Weighted, Tidy, Catalogued, WorthIn, EntrySum, Gathered, Spent, Owing, Inside;
    StartOwing(s, k, c, m, price);
    SpentNone(s, c, m);
    assert m[0..] == m;
  }

  // The coins cannot run out before the price is paid.
  lemma StillPaying(s: Heap, t: Heap, k: Coins, c: Item, m: seq<Entry>, j: nat, money: nat, price: nat)
    requires Paying(s, t, k, c, m, j, money, price)
    ensures j < |m|
  {
    hide Forested, ParentsAgree, Weighted, Spent, Gathered, WorthIn, Owing;
    StillOwing(t, k, c, m[j..], money, WorthIn(s, c) - price);
  }

  /** The next stack is worth less than what is owed, or as much, or more. */
  lemma PayOne(s: Heap, t: Heap, k: Coins, c: Item, m: seq<Entry>, j: nat, money: nat, price: nat)
    requires Paying(s, t, k, c, m, j, money, price) && j < |m|
    ensures var x := m[j].item; var n := t[x].face.count;
      && t[x].parent != null && MayTake(t, t[x].parent, x, n) && RemoveAnswer(t, t[x].parent, x, n, true) == NoError
      && Pays(t, m[j]) && Lies(t, c, x) && Purse(t, k, c) && 0 < money && Forested(s) && c in s && WorthIn(t, c) == WorthIn(s, c) - price + money
      && var u := Taken(t, t[x].parent, x, n);
      && (m[j].worth < money ==> Paying(s, u, k, c, m, j + 1, money - m[j].worth, price))
      && (m[j].worth == money ==> Purse(u, k, c) && WorthIn(u, c) == WorthIn(s, c) - price && PaidWith(s, u, c, price, m, j + 1, 0, []))
  {
    hide Forested, ParentsAgree, Weighted, Tidy, Catalogued, WorthIn, EntrySum, Gathered, Spent, Owing, Inside, Taken, RemoveAnswer, PaidWith, Pays, Lies;
    SpendOne(s, t, k, c, m, j, money, WorthIn(s, c) - price);
    EntrySumNext(m, j);
    PayStep(t, k, c, m[j..], money, WorthIn(s, c) - price);
    assert m[j..][0] == m[j] && m[j..][1..] == m[j + 1..];
    var x := m[j].item;
    var u := Taken(t, t[x].parent, x, t[x].face.count);
    InHeaps(s, u, c, m, j + 1);
    if m[j].worth == money {
      WholePays(s, u, c, price, m, j + 1);
    }
  }

  lemma BreakPays(s: Heap, u: Heap, t: Heap, k: Coins, c: Item, price: nat, m: seq<Entry>, j: nat, owed: nat, n: nat, dropped: seq<Face>)
    requires Paying(s, u, k, c, m, j, owed, price) && j < |m| && m[j].item in u && 0 < owed < m[j].worth && Forested(t) && c in t
    requires var id := u[m[j].item].face.kind.id;
      Fewest(n, Denomination(id), owed) && Changes(u, t, c, id, n, n * Denomination(id) - owed, dropped)
    ensures Forested(s) && c in s && PaidWith(s, t, c, price, m, j, n, dropped)
  {
    hide Forested, ParentsAgree, Weighted, Spent, Gathered, WorthIn, Owing, Fewest, Changes, Denomination, PaidWith, EntrySum, Inside;
    BrokenPays(s, u, t, c, price, m, j, owed, n, dropped);
  }

  lemma InHeaps(s: Heap, t: Heap, c: Item, m: seq<Entry>, j: nat)
    requires Spent(s, t, c, m, j)
    ensures Forested(s) && Forested(t) && c in s && c in t && j <= |m|
  {
  }

  /**
   `Game::removeMoney`: paid exactly when c holds enough, and then c and the change dropped on the
   ground have lost exactly the price. The cheapest stacks go first, and of the last no coin more than needed.
   */
  method RemoveMoney(k: Coins, c: Item, price: nat, ghost w: set<Item>)
    returns (paid: bool, dropped: seq<Face>, ghost m: seq<Entry>, ghost whole: nat, ghost n: nat, ghost w': set<Item>)
    requires c in w && Purse(Snap(w), k, c)
    modifies w`itemlist, w`parent, w`face, w`totalWeight
    ensures w <= w' && fresh(w' - w) && Purse(Snap(w'), k, c)
    ensures paid <==> WorthIn(old(Snap(w)), c) >= price
    ensures !paid ==> w' == w && Snap(w) == old(Snap(w))
    ensures paid ==> WorthIn(Snap(w'), c) + WorthOf(dropped) == WorthIn(old(Snap(w)), c) - price
    ensures paid && price == 0 ==> w' == w && Snap(w) == old(Snap(w)) && dropped == []
    ensures paid && price > 0 ==> PaidWith(old(Snap(w)), Snap(w'), c, price, m, whole, n, dropped)
  {
    hide Forested, ParentsAgree, Weighted, Tidy, Catalogued, WorthIn, WorthOf, Paying, EntrySum, Gathered, Taken, Lies, PaidWith, Changes, Fewest, Denomination, Inside, RemoveAnswer, Pays;
    paid, dropped, m, whole, n, w' := true, [], [], 0, 0, w;
    NothingDropped();
    ghost var s := Snap(w);
    WorthNonNegative(s, c);
    if price == 0 {
      return;
    }
    var moneyMap, moneyCount := CollectCoins(k, c, w);
    m := moneyMap;
    if moneyCount < price {
      paid := false;
      return;
    }
    StartPaying(s, k, c, moneyMap, price);
    var money: nat, j: nat := price, 0;
    while j < |moneyMap|
      invariant Paying(s, Snap(w), k, c, moneyMap, j, money, price)
    {
      var item := moneyMap[j].item;
      ghost var t := Snap(w);
      PayOne(s, t, k, c, moneyMap, j, money, price);
      if moneyMap[j].worth < money {
        var ret := InternalRemoveItem(item, None, true, false, w);
        money := money - moneyMap[j].worth;
      } else if moneyMap[j].worth > money {
        dropped, n, w' := Break(k, c, moneyMap[j], money, WorthIn(s, c) - price, w);
        whole := j;
        BreakPays(s, t, Snap(w'), k, c, price, m, j, money, n, dropped);
        return;
      } else {
        var ret := InternalRemoveItem(item, None, true, false, w);
        whole := j + 1;
        return;
      }
      j := j + 1;
    }
    StillPaying(s, Snap(w), k, c, moneyMap, j, money, price);
    assert false;
  }
}
