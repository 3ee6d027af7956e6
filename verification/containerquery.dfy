/**
 The questions a container answers before anything moves (src/container.cpp): may this item be added,
 how much of it, may it be taken out, and where would it really go.
 */
module ContainerQueries {
  import opened Bytes
  import opened Containers

  const INDEX_WHEREEVER := -1
  const MOVE_UP := 254
  const ADD_WHEREVER := 255
  const STACK_SIZE := 100

  datatype Answer =
    | NoError | NotPossible | CannotPickup | ThisIsImpossible | NotEnoughRoom | NotMoveable | CarrierRefuses

  /** `Item::equals`: same id, same attributes; the count does not matter. */
  predicate Equals(x: Face, y: Face) {
    x.kind == y.kind && x.attrs == y.attrs
  }

  ghost predicate InHeap(s: Heap, x: Item?) {
    x != null ==> x in s
  }

  // ---------------------------------------------------------------- may it be added?

  /** Whether a container's parents, and whoever carries it, take x: c must not be x or lie inside it. */
  ghost predicate Takes(s: Heap, c: Item, x: Item, count: nat, carrier: nat -> bool)
    requires Forested(s) && c in s && x in s
  {
    s[x].face.kind.pickupable && !Holds(s, x, c) && carrier(count)
  }

  ghost function AddAnswer(s: Heap, c: Item, index: int, x: Item, count: nat, noLimit: bool, carrier: nat -> bool): Answer
    requires Forested(s) && c in s && x in s
  {
    if !s[x].face.kind.pickupable then CannotPickup
    else if Holds(s, x, c) then ThisIsImpossible
    else if !noLimit && index == INDEX_WHEREEVER && |s[c].items| >= s[c].maxSize then NotEnoughRoom
    else if !carrier(count) then CarrierRefuses
    else NoError
  }

  /** Whether t is among the parents of c, or is c. */
  method IsAround(c: Item, t: Item, ghost w: set<Item>) returns (around: bool)
    requires c in w && t in w && Sound(Snap(w))
    ensures around <==> Holds(Snap(w), t, c)
  {
    ghost var s := Snap(w);
    hide Holds, Forested, Kids, Weighted, Holders;
    AgreeingClimbs(s, c);
    HoldsSelf(s, t);
    if c == t {
      return true;
    }
    var cylinder := c.parent;
    if cylinder == null {
      HoldsOrphan(s, t, c);
    } else {
      ParentLists(s, c);
      HoldsUp(s, t, cylinder, c);
    }
    while cylinder != null
      invariant InHeap(s, cylinder)
      invariant Holds(s, t, c) <==> cylinder != null && Holds(s, t, cylinder)
      decreases if cylinder == null then {} else Holders(s, cylinder), cylinder != null
    {
      if cylinder == t {
        return true;
      }
      ghost var below: Item := cylinder;
      AgreeingClimbs(s, below);
      if s[below].parent == null {
        HoldsOrphan(s, t, below);
        HoldersInhabited(s, below);
      } else {
        ParentLists(s, below);
        HoldsUp(s, t, s[below].parent, below);
        ClimbUp(s, below);
      }
      cylinder := cylinder.parent;
    }
    return false;
  }

  lemma HoldersInhabited(s: Heap, x: Item)
    requires Forested(s) && x in s
    ensures x in Holders(s, x)
  {
    HoldsSelf(s, x);
  }

  /** `Container::queryAdd`; carrier answers for the player or tile at the top, for so many. */
  method QueryAdd(c: Item, index: int, x: Item, count: nat, noLimit: bool, carrier: nat -> bool, ghost w: set<Item>)
    returns (ret: Answer)
    requires c in w && x in w && Sound(Snap(w))
    ensures ret == AddAnswer(Snap(w), c, index, x, count, noLimit, carrier)
  {
    hide Holds, Forested, Kids, Weighted, ParentsAgree;
    if !x.face.kind.pickupable {
      return CannotPickup;
    }
    var around := IsAround(c, x, w);
    if around {
      return ThisIsImpossible;
    }
    if !noLimit && index == INDEX_WHEREEVER && |c.itemlist| >= c.maxSize {
      return NotEnoughRoom;
    }
    if !carrier(count) {
      return CarrierRefuses;
    }
    return NoError;
  }

  // ---------------------------------------------------------------- how much of it?

  /** What y's stack has room for, if x can be put onto it at all. */
  ghost function SpareOn(s: Heap, c: Item, y: Item, x: Item, carrier: nat -> bool): nat
    requires Forested(s) && c in s && x in s && y in s
  {
    var n := s[y].face.count;
    if y != x && Equals(s[y].face, s[x].face) && n < STACK_SIZE && Takes(s, c, x, STACK_SIZE - n, carrier)
    then STACK_SIZE - n else 0
  }

  ghost function SpareOnAll(s: Heap, c: Item, l: seq<Item>, x: Item, carrier: nat -> bool): nat
    requires Forested(s) && c in s && x in s && forall y <- l :: y in s
  {
    if l == [] then 0 else SpareOn(s, c, l[0], x, carrier) + SpareOnAll(s, c, l[1..], x, carrier)
  }

  ghost function FreeSlots(s: Heap, c: Item): nat
    requires c in s
  {
    if s[c].maxSize > |s[c].items| then s[c].maxSize - |s[c].items| else 0
  }

  ghost function RoomFor(s: Heap, c: Item, index: int, x: Item, noLimit: bool, count: nat, carrier: nat -> bool): nat
    requires Forested(s) && ParentsAgree(s) && c in s && x in s
  {
    if noLimit then (if count > 1 then count else 1)
    else if !s[x].face.kind.stackable then FreeSlots(s, c)
    else FreeSlots(s, c) * STACK_SIZE + SpareAt(s, c, index, x, carrier)
  }

  ghost function SpareAt(s: Heap, c: Item, index: int, x: Item, carrier: nat -> bool): nat
    requires Forested(s) && ParentsAgree(s) && c in s && x in s
  {
    ItemsInHeap(s, c);
    if index == INDEX_WHEREEVER then SpareOnAll(s, c, s[c].items, x, carrier)
    else if 0 <= index < |s[c].items| then
      var y := s[c].items[index];
      var n := s[y].face.count;
      if Equals(s[x].face, s[y].face) && n < STACK_SIZE && Takes(s, c, x, STACK_SIZE - n, carrier) then STACK_SIZE - n else 0
    else 0
  }

  lemma ItemsInHeap(s: Heap, c: Item)
    requires ParentsAgree(s) && c in s
    ensures forall y <- s[c].items :: y in s && s[y].parent == c
  {
    assert LinkedDown(s, c);
  }

  // ---------------------------------------------------------------- what the answers come to

  /** A container takes an item unless it or a parent of it is that item; and any place in it is one that is free. */
  lemma AddAnswerIff(s: Heap, c: Item, index: int, x: Item, count: nat, noLimit: bool, carrier: nat -> bool)
    requires Forested(s) && c in s && x in s
    ensures AddAnswer(s, c, index, x, count, noLimit, carrier) == NoError <==>
      && s[x].face.kind.pickupable && !Holds(s, x, c) && carrier(count)
      && (!noLimit && index == INDEX_WHEREEVER ==> |s[c].items| < s[c].maxSize)
  {
    hide Holds, Forested;
  }

  /** What is there and may be moved can be taken out, of a stack as much as there is. */
  lemma RemoveAnswerIff(s: Heap, c: Item, x: Item, count: nat, ignoreNotMoveable: bool)
    requires c in s && x in s
    ensures RemoveAnswer(s, c, x, count, ignoreNotMoveable) == NoError <==>
      && x in s[c].items && count > 0 && (s[x].face.kind.stackable ==> count <= s[x].face.count)
      && (s[x].face.kind.moveable || ignoreNotMoveable)
  {
  }

  /** The stacks among l that take more of x. */
  ghost function Takers(s: Heap, l: seq<Item>, x: Item, carrier: nat -> bool): seq<Item>
    requires x in s && forall y <- l :: y in s
  {
    if l == [] then []
    else (if StacksIn(s, l[0], x) && carrier(STACK_SIZE - s[l[0]].face.count) then [l[0]] else []) + Takers(s, l[1..], x, carrier)
  }

  ghost function CountIn(s: Heap, l: seq<Item>): nat {
    if l == [] then 0 else (if l[0] in s then s[l[0]].face.count else 0) + CountIn(s, l[1..])
  }

  lemma {:induction false} SpareIs(s: Heap, c: Item, l: seq<Item>, x: Item, carrier: nat -> bool)
    requires Forested(s) && c in s && x in s && (forall y <- l :: y in s)
    requires s[x].face.kind.pickupable && !Holds(s, x, c)
    ensures var yes := Takers(s, l, x, carrier);
      SpareOnAll(s, c, l, x, carrier) + CountIn(s, yes) == STACK_SIZE * |yes|
  {
    hide Holds, Forested;
    if l != [] {
      SpareIs(s, c, l[1..], x, carrier);
      var rest := Takers(s, l[1..], x, carrier);
      assert ([l[0]] + rest)[0] == l[0] && ([l[0]] + rest)[1..] == rest && [] + rest == rest;
    }
  }

  /**
   How much of x there is room for, where x may be added: a stack in every free slot, and what the like
   stacks have room for, or only the one at the place asked for; of what does not stack, one in every free slot.
   */
  lemma RoomIs(s: Heap, c: Item, index: int, x: Item, count: nat, carrier: nat -> bool)
    requires Forested(s) && ParentsAgree(s) && c in s && x in s && |s[c].items| <= s[c].maxSize
    requires s[x].face.kind.pickupable && !Holds(s, x, c)
    ensures RoomFor(s, c, index, x, true, count, carrier) == if count == 0 then 1 else count
    ensures forall y <- s[c].items :: y in s
    ensures var room := RoomFor(s, c, index, x, false, count, carrier);
      var free := s[c].maxSize - |s[c].items|;
      var there := ItemAt(s[c].items, index);
      var yes := Takers(s, s[c].items, x, carrier);
      if !s[x].face.kind.stackable then room == free
      else if index == INDEX_WHEREEVER then room + CountIn(s, yes) == STACK_SIZE * (free + |yes|) && room >= STACK_SIZE * free
      else if there != null && Equals(s[there].face, s[x].face) && s[there].face.count < STACK_SIZE && carrier(STACK_SIZE - s[there].face.count)
      then room + s[there].face.count == STACK_SIZE * (free + 1)
      else room == STACK_SIZE * free
  {
    hide Holds, Forested, ParentsAgree, SpareOnAll, Takers, CountIn;
    ItemsInHeap(s, c);
    SpareIs(s, c, s[c].items, x, carrier);
  }

  method FreeStackRoom(c: Item, x: Item, carrier: nat -> bool, ghost w: set<Item>) returns (n: nat)
    requires c in w && x in w && Sound(Snap(w))
    ensures (forall y <- c.itemlist :: y in w) && n == SpareOnAll(Snap(w), c, c.itemlist, x, carrier)
  {
    hide Holds, Forested, Kids, Weighted, ParentsAgree;
    ghost var s := Snap(w);
    ItemsInHeap(s, c);
    n := 0;
    var i := 0;
    while i < |c.itemlist|
      invariant i <= |c.itemlist|
      invariant n + SpareOnAll(s, c, c.itemlist[i..], x, carrier) == SpareOnAll(s, c, c.itemlist, x, carrier)
    {
      var y := c.itemlist[i];
      assert y in c.itemlist && c.itemlist[i..][0] == y && c.itemlist[i..][1..] == c.itemlist[i + 1..];
      if y != x && Equals(y.face, x.face) && y.face.count < STACK_SIZE {
        var remainder := STACK_SIZE - y.face.count;
        var ret := QueryAdd(c, i, x, remainder, false, carrier, w);
        if ret == NoError {
          n := n + remainder;
        }
      }
      i := i + 1;
    }
  }

  /** `Container::queryMaxCount`. */
  method QueryMaxCount(c: Item, index: int, x: Item, count: nat, noLimit: bool, carrier: nat -> bool, ghost w: set<Item>)
    returns (ret: Answer, maxQueryCount: nat)
    requires c in w && x in w && Sound(Snap(w))
    ensures maxQueryCount == RoomFor(Snap(w), c, index, x, noLimit, count, carrier)
    ensures ret == if !noLimit && (if x.face.kind.stackable then maxQueryCount < count else maxQueryCount == 0) then NotEnoughRoom else NoError
  {
    hide Holds, Forested, Kids, Weighted, ParentsAgree, SpareOnAll;
    if noLimit {
      return NoError, if count > 1 then count else 1;
    }
    ghost var s := Snap(w);
    ItemsInHeap(s, c);
    var freeSlots := if c.maxSize > |c.itemlist| then c.maxSize - |c.itemlist| else 0;
    if x.face.kind.stackable {
      var n := 0;
      if index == INDEX_WHEREEVER {
        n := FreeStackRoom(c, x, carrier, w);
      } else if 0 <= index < |c.itemlist| {
        var destItem := c.itemlist[index];
        assert destItem in c.itemlist;
        if Equals(x.face, destItem.face) && destItem.face.count < STACK_SIZE {
          var remainder := STACK_SIZE - destItem.face.count;
          ret := QueryAdd(c, index, x, remainder, false, carrier, w);
          if ret == NoError {
            n := remainder;
          }
        }
      }
      maxQueryCount := freeSlots * STACK_SIZE + n;
      ret := if maxQueryCount < count then NotEnoughRoom else NoError;
    } else {
      maxQueryCount := freeSlots;
      ret := if maxQueryCount == 0 then NotEnoughRoom else NoError;
    }
  }

  // ---------------------------------------------------------------- may it be taken out?

  ghost function RemoveAnswer(s: Heap, c: Item, x: Item, count: nat, ignoreNotMoveable: bool): Answer
    requires c in s && x in s
  {
    if x !in s[c].items || count == 0 || (s[x].face.kind.stackable && count > s[x].face.count) then NotPossible
    else if !s[x].face.kind.moveable && !ignoreNotMoveable then NotMoveable
    else NoError
  }

  /** `Container::queryRemove`. */
  method QueryRemove(c: Item, x: Item, count: nat, ignoreNotMoveable: bool, ghost w: set<Item>) returns (ret: Answer)
    requires c in w && x in w
    ensures ret == RemoveAnswer(Snap(w), c, x, count, ignoreNotMoveable)
  {
    var index := GetThingIndex(c, x);
    if index == -1 {
      return NotPossible;
    }
    if count == 0 || (x.face.kind.stackable && count > x.face.count) {
      return NotPossible;
    }
    if !x.face.kind.moveable && !ignoreNotMoveable {
      return NotMoveable;
    }
    return NoError;
  }

  // ---------------------------------------------------------------- where would it go?

  /** Where an item goes: the container, the place in it, and the item already there to put it onto. */
  datatype Destination = Destination(c: Item, index: int, onto: Item?)

  predicate Stacks(y: Item, x: Item)
    reads x, y
  {
    y != x && Equals(y.face, x.face) && y.face.count < STACK_SIZE
  }

  ghost predicate StacksIn(s: Heap, y: Item, x: Item)
    requires x in s && y in s
  {
    y != x && Equals(s[y].face, s[x].face) && s[y].face.count < STACK_SIZE
  }

  /** The first item in the list that x can be put onto, or the end of the list. */
  ghost function FirstStack(s: Heap, l: seq<Item>, x: Item): (n: nat)
    requires x in s && forall y <- l :: y in s
    ensures n <= |l| && (n < |l| ==> StacksIn(s, l[n], x))
  {
    if l == [] || StacksIn(s, l[0], x) then 0 else 1 + FirstStack(s, l[1..], x)
  }

  function ItemAt(l: seq<Item>, index: int): (y: Item?)
    ensures y != null ==> y in l
  {
    if 0 <= index < |l| then l[index] else null
  }

  ghost function DestinationOf(s: Heap, c: Item, index: int, x: Item, ignoreAutoStack: bool): Destination
    requires ParentsAgree(s) && c in s && x in s
  {
    ItemsInHeap(s, c);
    if index == MOVE_UP then
      Destination(if s[c].parent != null then s[c].parent else c, INDEX_WHEREEVER, null)
    else
      var i := if index == ADD_WHEREVER || index >= s[c].maxSize then INDEX_WHEREEVER else index;
      var there := if i == INDEX_WHEREEVER then null else ItemAt(s[c].items, i);
      var n := FirstStack(s, s[c].items, x);
      if there != null && s[there].container then Destination(there, INDEX_WHEREEVER, null)
      else if !ignoreAutoStack && s[x].face.kind.stackable && s[x].parent != c && n < |s[c].items| then
        Destination(c, n, s[c].items[n])
      else Destination(c, i, there)
  }

  method FindStack(c: Item, x: Item, ghost w: set<Item>) returns (n: nat)
    requires c in w && x in w && (forall y <- c.itemlist :: y in w)
    ensures n == FirstStack(Snap(w), c.itemlist, x)
  {
    ghost var s := Snap(w);
    n := 0;
    while n < |c.itemlist|
      invariant n <= |c.itemlist|
      invariant FirstStack(s, c.itemlist, x) == n + FirstStack(s, c.itemlist[n..], x)
    {
      var y := c.itemlist[n];
      assert y in c.itemlist && c.itemlist[n..][0] == y && c.itemlist[n..][1..] == c.itemlist[n + 1..];
      if Stacks(y, x) {
        return;
      }
      n := n + 1;
    }
  }

  /** `Container::queryDestination`. */
  method QueryDestination(c: Item, index: int, x: Item, ignoreAutoStack: bool, ghost w: set<Item>) returns (d: Destination)
    requires c in w && x in w && ParentsAgree(Snap(w))
    ensures d == DestinationOf(Snap(w), c, index, x, ignoreAutoStack)
  {
    hide ParentsAgree, LinkedDown, LinkedUp, FirstStack;
    ghost var s := Snap(w);
    ItemsInHeap(s, c);
    if index == MOVE_UP {
      return Destination(if c.parent != null then c.parent else c, INDEX_WHEREEVER, null);
    }
    var i, destItem: Item? := index, null;
    if index == ADD_WHEREVER {
      i := INDEX_WHEREEVER;
    } else if index >= c.maxSize {
      i := INDEX_WHEREEVER;
    }
    if i != INDEX_WHEREEVER {
      destItem := ItemAt(c.itemlist, i);
      if destItem != null && destItem.container {
        return Destination(destItem, INDEX_WHEREEVER, null);
      }
    }
    if !ignoreAutoStack && x.face.kind.stackable && x.parent != c {
      var n := FindStack(c, x, w);
      if n < |c.itemlist| {
        return Destination(c, n, c.itemlist[n]);
      }
    }
    return Destination(c, i, destItem);
  }
}
