/**
 Moving items between containers (src/game.cpp, `Game::internalMoveItem`): the item is taken out of its
 container, part of it may go onto a stack already at the destination, and a copy or the item itself is
 put into the destination. No unit of any kind of item appears or vanishes.
 */
module MoveItem {
  import opened Bytes
  import opened Containers
  import opened ContainerQueries
  import Items

  /** A type that stacks: no fluid, and not one of those that `Item::CreateItem` replaces by another type. */
  predicate PlainStack(kind: ItemType) {
    kind.stackable && !kind.fluid && Items.CreatedId(kind.id) == kind.id
  }

  /** What a stack holds is at most a stack; stacks are no containers; no container is overfull. */
  predicate Neat(cell: Cell) {
    && (cell.face.kind.stackable ==> cell.face.count <= STACK_SIZE && !cell.container && PlainStack(cell.face.kind))
    && (cell.container ==> |cell.items| <= cell.maxSize)
  }

  ghost predicate Tidy(s: Heap) {
    forall x <- s :: Neat(s[x])
  }

  /** How many units of one kind of item an item is. */
  function UnitsOf(id: nat, x: Face): int {
    if x.kind.id != id then 0 else if x.kind.stackable then x.count else 1
  }

  /** How many units of one kind of item are inside c, at any depth. */
  ghost function UnitsIn(s: Heap, id: nat, c: Item): int
    requires Forested(s) && c in s
  {
    Total(s, (x: Face) => UnitsOf(id, x), c)
  }

  // ---------------------------------------------------------------- single cells after each edit

  ghost predicate SameOutside(a: Cell, b: Cell) {
    a.container == b.container && a.maxSize == b.maxSize
  }

  lemma ChangedCell(s: Heap, x: Item, face: Face, y: Item)
    requires Forested(s) && ParentsAgree(s) && x in s && y in s
    ensures var t := Changed(s, x, face);
      && t.Keys == s.Keys && SameOutside(t[y], s[y]) && t[y].items == s[y].items && t[y].parent == s[y].parent
      && t[y].face == if y == x then face else s[y].face
  {
    hide Forested, ParentsAgree, Holds, Total, Kids, Credited;
    RefaceTotal(s, x, face, OwnWeight, x);
    var r, p := Refaced(s, x, face), s[x].parent;
    if p != null {
      CreditedCell(r, p, OwnWeight(face) - OwnWeight(s[x].face), y);
      CreditFacts(r, p, OwnWeight(face) - OwnWeight(s[x].face));
    }
  }

  lemma RemovedCell(s: Heap, c: Item, x: Item, y: Item)
    requires Forested(s) && ParentsAgree(s) && c in s && x in s[c].items && y in s
    ensures var t, i := RemovedItem(s, c, x), IndexIn(s[c].items, x);
      && x != c && t.Keys == s.Keys && SameOutside(t[y], s[y]) && t[y].face == s[y].face
      && t[y].items == (if y == c then s[c].items[..i] + s[c].items[i + 1..] else s[y].items)
      && t[y].parent == (if y == x then null else s[y].parent)
  {
    hide Forested, ParentsAgree, Holds, Total, Kids, IndexIn, Credited, Detached;
    ListedParent(s, c, x);
    var i := IndexIn(s[c].items, x);
    DetachRanked(s, c, i);
    DetachFacts(s, c, i);
    DetachedCell(s, c, i, y);
    CreditFacts(Detached(s, c, i), c, -WeightOf(s, x));
    CreditedCell(Detached(s, c, i), c, -WeightOf(s, x), y);
  }

  lemma AddedCell(s: Heap, c: Item, x: Item, y: Item)
    requires MayAttach(s, c, x) && y in s
    ensures var t := Added(s, c, x, 0);
      && x != c && t.Keys == s.Keys && SameOutside(t[y], s[y]) && t[y].face == s[y].face
      && t[y].items == (if y == c then [x] + s[c].items else s[y].items)
      && t[y].parent == (if y == x then c else s[y].parent)
  {
    hide Forested, ParentsAgree, Holds, Total, Kids, Credited, Attached;
    HoldsSelf(s, x);
    AttachRanked(s, c, x, 0);
    AttachFacts(s, c, x, 0);
    AttachedFront(s, c, x, y);
    CreditFacts(Attached(s, c, x, 0), c, WeightOf(s, x));
    CreditedCell(Attached(s, c, x, 0), c, WeightOf(s, x), y);
  }

  lemma AttachedFront(s: Heap, c: Item, x: Item, y: Item)
    requires c in s && x in s && x != c && y in s
    ensures var t := Attached(s, c, x, 0);
      && y in t && SameOutside(t[y], s[y]) && t[y].face == s[y].face
      && t[y].items == (if y == c then [x] + s[c].items else s[y].items)
      && t[y].parent == (if y == x then c else s[y].parent)
  {
    assert s[c].items[..0] + [x] + s[c].items[0..] == [x] + s[c].items;
  }

  // ---------------------------------------------------------------- taking out

  function Less(x: Face, m: nat): Face {
    x.(count := if x.count >= m then x.count - m else 0)
  }

  /** The heap once m of x are taken out of its container. */
  ghost function Taken(s: Heap, from: Item, x: Item, m: nat): Heap
    requires Forested(s) && ParentsAgree(s) && from in s && x in s[from].items && x in s
  {
    if TakesPart(s[x].face, m) then Changed(s, x, Less(s[x].face, m)) else RemovedItem(s, from, x)
  }

  ghost predicate MayTake(s: Heap, from: Item, x: Item, m: nat) {
    && Sound(s) && Tidy(s) && from in s && x in s && x in s[from].items
    && (s[x].face.kind.stackable ==> m <= s[x].face.count)
  }

  lemma TakenSound(s: Heap, from: Item, x: Item, m: nat)
    requires MayTake(s, from, x, m)
    ensures Sound(Taken(s, from, x, m))
  {
    hide Forested, ParentsAgree, Weighted, Changed, Removed, IndexIn;
    if TakesPart(s[x].face, m) {
      ChangedSound(s, x, Less(s[x].face, m));
    } else {
      ListedParent(s, from, x);
      RemovedSound(s, from, IndexIn(s[from].items, x));
    }
  }

  /** Taking out leaves every other item as it was, and lists no longer. */
  lemma TakenCell(s: Heap, from: Item, x: Item, m: nat, y: Item)
    requires MayTake(s, from, x, m) && y in s
    ensures var t := Taken(s, from, x, m);
      && t.Keys == s.Keys && SameOutside(t[y], s[y]) && (y != x ==> t[y].face == s[y].face)
      && |t[y].items| <= |s[y].items| && (forall z <- s[y].items :: z != x ==> z in t[y].items)
      && (y == x ==> t[x].face.kind == s[x].face.kind && t[x].face.count <= s[x].face.count)
      && (!TakesPart(s[x].face, m) ==> t[x].parent == null && t[x].face == s[x].face)
  {
    hide Forested, ParentsAgree, Weighted, Changed, RemovedItem, Tidy;
    if TakesPart(s[x].face, m) {
      ChangedCell(s, x, Less(s[x].face, m), y);
    } else {
      RemovedCell(s, from, x, y);
      RemovedCell(s, from, x, x);
      assert forall z <- s[y].items :: z != x ==> z in Taken(s, from, x, m)[y].items by {
        if y == from {
          AllButOne(s[from].items, x);
        }
      }
    }
  }

  lemma AllButOne(l: seq<Item>, x: Item)
    requires x in l
    ensures var i := IndexIn(l, x); forall z <- l :: z != x ==> z in l[..i] + l[i + 1..]
  {
    var i := IndexIn(l, x);
    assert l == l[..i] + [x] + l[i + 1..];
  }

  lemma TakenTidy(s: Heap, from: Item, x: Item, m: nat)
    requires MayTake(s, from, x, m)
    ensures Tidy(Taken(s, from, x, m))
  {
    hide Taken, Forested, ParentsAgree, Weighted;
    var t := Taken(s, from, x, m);
    TakenCell(s, from, x, m, x);
    forall y <- t
      ensures Neat(t[y])
    {
      TakenCell(s, from, x, m, y);
      assert Neat(s[y]);
    }
  }

  /** What leaves from's holders: m units of a stack, or the item with everything inside it. */
  ghost function Leaving(s: Heap, id: nat, x: Item, m: nat): int
    requires Forested(s) && x in s
  {
    if s[x].face.kind.stackable then (if s[x].face.kind.id == id then m else 0)
    else UnitsOf(id, s[x].face) + UnitsIn(s, id, x)
  }

  lemma StackIsEmpty(s: Heap, x: Item, f: Face -> int)
    requires Forested(s) && ParentsAgree(s) && x in s && !s[x].container
    ensures Total(s, f, x) == 0
  {
    assert LinkedDown(s, x);
    LeafTotal(s, x, f);
  }

  lemma PartUnits(s: Heap, from: Item, x: Item, m: nat, id: nat, y: Item)
    requires Forested(s) && ParentsAgree(s) && from in s && x in s && x in s[from].items && y in s
    requires s[x].face.kind.stackable && s[x].face.count >= m
    ensures var t := Changed(s, x, Less(s[x].face, m));
      Forested(t) && UnitsIn(t, id, y) == UnitsIn(s, id, y) - (if Holds(s, y, from) then Leaving(s, id, x, m) else 0)
  {
    hide Forested, ParentsAgree, Changed, Holds, Total;
    ChangedTotal(s, x, Less(s[x].face, m), (z: Face) => UnitsOf(id, z), y);
    HoldsUp(s, y, from, x);
  }

  lemma WholeUnits(s: Heap, from: Item, x: Item, id: nat, y: Item)
    requires Forested(s) && ParentsAgree(s) && from in s && x in s && x in s[from].items && y in s
    ensures var t := RemovedItem(s, from, x);
      Forested(t) && UnitsIn(t, id, y) == UnitsIn(s, id, y) - (if Holds(s, y, from) then UnitsOf(id, s[x].face) + UnitsIn(s, id, x) else 0)
  {
    hide Forested, ParentsAgree, Removed, Holds, Total, IndexIn;
    ListedParent(s, from, x);
    RemovedTotal(s, from, IndexIn(s[from].items, x), (z: Face) => UnitsOf(id, z), y);
  }

  /** Taking out lowers the units in from and its holders by what leaves. */
  lemma TakenUnits(s: Heap, from: Item, x: Item, m: nat, id: nat, y: Item)
    requires MayTake(s, from, x, m) && y in s
    ensures var t := Taken(s, from, x, m);
      Forested(t) && UnitsIn(t, id, y) == UnitsIn(s, id, y) - (if Holds(s, y, from) then Leaving(s, id, x, m) else 0)
  {
    hide Forested, ParentsAgree, Weighted, Changed, RemovedItem, Holds, Total;
    if TakesPart(s[x].face, m) {
      PartUnits(s, from, x, m, id, y);
    } else {
      WholeUnits(s, from, x, id, y);
      if s[x].face.kind.stackable {
        assert Neat(s[x]);
        StackIsEmpty(s, x, (z: Face) => UnitsOf(id, z));
      }
    }
  }

  // ---------------------------------------------------------------- putting some onto a stack

  /** How many of the m units go onto the stack at the destination. */
  function Merging(x: Face, onto: Option<Face>, m: nat): (n: nat)
    ensures n <= m
  {
    if onto.Some? && x.kind.stackable && Equals(x, onto.value) && onto.value.count <= STACK_SIZE then
      (if STACK_SIZE - onto.value.count < m then STACK_SIZE - onto.value.count else m)
    else 0
  }

  ghost function FaceAt(s: Heap, x: Item?): Option<Face> {
    if x != null && x in s then Some(s[x].face) else None
  }

  ghost function Merged(s: Heap, x: Item, onto: Item?, m: nat): Heap
    requires Forested(s) && ParentsAgree(s) && x in s && InHeap(s, onto)
  {
    if onto != null && s[x].face.kind.stackable && Equals(s[x].face, s[onto].face) then
      var y := s[onto].face;
      Changed(s, onto, WithSubType(WithId(y, y.kind), y.count + Merging(s[x].face, Some(y), m)))
    else s
  }

  ghost predicate MayMerge(s: Heap, to: Item, x: Item, onto: Item?) {
    Sound(s) && Tidy(s) && to in s && x in s && (onto != null ==> onto in s && onto in s[to].items && onto != x)
  }

  lemma MergedSound(s: Heap, to: Item, x: Item, onto: Item?, m: nat)
    requires MayMerge(s, to, x, onto)
    ensures Sound(Merged(s, x, onto, m))
  {
    hide Sound, Changed, Tidy;
    if onto != null {
      ChangedSound(s, onto, WithSubType(WithId(s[onto].face, s[onto].face.kind), s[onto].face.count + Merging(s[x].face, Some(s[onto].face), m)));
    }
  }

  lemma MergedCell(s: Heap, to: Item, x: Item, onto: Item?, m: nat, y: Item)
    requires MayMerge(s, to, x, onto) && y in s
    ensures var t := Merged(s, x, onto, m);
      && t.Keys == s.Keys && SameOutside(t[y], s[y]) && t[y].items == s[y].items && t[y].parent == s[y].parent
      && (y != onto ==> t[y].face == s[y].face)
      && t[y].face.kind == s[y].face.kind
      && (y == onto && s[y].face.kind.stackable ==> t[y].face.count == s[y].face.count + Merging(s[x].face, Some(s[y].face), m))
  {
    hide Forested, ParentsAgree, Weighted, Changed;
    if onto != null {
      assert Neat(s[onto]);
      ChangedCell(s, onto, WithSubType(WithId(s[onto].face, s[onto].face.kind), s[onto].face.count + Merging(s[x].face, Some(s[onto].face), m)), y);
    }
  }

  lemma MergedTidy(s: Heap, to: Item, x: Item, onto: Item?, m: nat)
    requires MayMerge(s, to, x, onto)
    ensures Tidy(Merged(s, x, onto, m))
  {
    hide Merged, Forested, ParentsAgree, Weighted;
    var t := Merged(s, x, onto, m);
    MergedCell(s, to, x, onto, m, x);
    forall y <- t
      ensures Neat(t[y])
    {
      MergedCell(s, to, x, onto, m, y);
      assert Neat(s[y]);
    }
  }

  /** The destination and its holders gain what goes onto the stack. */
  lemma MergedUnits(s: Heap, to: Item, x: Item, onto: Item?, m: nat, id: nat, y: Item)
    requires MayMerge(s, to, x, onto) && y in s
    ensures var t := Merged(s, x, onto, m);
      && Forested(t) && (Holds(t, y, to) <==> Holds(s, y, to))
      && UnitsIn(t, id, y) == UnitsIn(s, id, y)
           + (if Holds(s, y, to) && s[x].face.kind.id == id then Merging(s[x].face, FaceAt(s, onto), m) else 0)
  {
    hide Forested, ParentsAgree, Weighted, Changed, Holds, Total;
    if onto != null {
      var q: Item := onto;
      assert Neat(s[q]);
      var face := WithSubType(WithId(s[q].face, s[q].face.kind), s[q].face.count + Merging(s[x].face, Some(s[q].face), m));
      ChangedTotal(s, q, face, (z: Face) => UnitsOf(id, z), y);
      HoldsUp(s, y, to, q);
      SameHolds(s, Changed(s, q, face), y, to);
    }
  }

  // ---------------------------------------------------------------- putting the rest into the destination

  /** The attributes `Item::CreateItem` gives a new item. */
  function NewAttributes(kind: ItemType, count: nat): Attributes {
    var fluidType := if kind.fluid then Some(count) else None;
    var charges := if !kind.fluid && !kind.stackable && kind.charges != 0 then Some(if count != 0 then count else kind.charges) else None;
    var duration := if kind.decayTime != 0 then Some(kind.decayTime * 1000) else None;
    Attributes(fluidType.Some? || charges.Some? || duration.Some?, None, duration, None, None, charges, fluidType, 0)
  }

  /** `Item::getDuration`, an unsigned number of 32 bits; nothing without attributes. */
  function TimeLeft(a: Attributes): nat {
    if a.present && a.duration.Some? then a.duration.value % 0x1_0000_0000 else 0
  }

  /** The attributes once an item is registered for decay, which it is if it has any time left. */
  function Registered(a: Attributes): Attributes {
    if TimeLeft(a) > 0 then a.(decaying := Some(Items.DECAYING_TRUE)) else a
  }

  /** What `Item::clone` makes of the attributes: a new item's if there are none, else the same, registered for decay. */
  function CloneAttributes(a: Attributes, created: Attributes): Attributes {
    if a.present then Registered(a) else created
  }

  /** `Item::clone` of a stack, and the copy's count. */
  function CloneFace(x: Face, count: nat): Face {
    Face(x.kind, count, CloneAttributes(x.attrs, NewAttributes(x.kind, x.count)))
  }

  /** The new item, if one is made. */
  ghost predicate IsCopy(s: Heap, x: Item, k: nat, copy: Item?)
    requires x in s
  {
    s[x].face.kind.stackable && k > 0 ==> copy != null && copy !in s
  }

  ghost predicate MayArrive(s: Heap, to: Item, x: Item, k: nat, copy: Item?) {
    RoomToArrive(s, to, x, k) && IsCopy(s, x, k, copy)
  }

  ghost predicate RoomToArrive(s: Heap, to: Item, x: Item, k: nat) {
    && Sound(s) && Tidy(s) && to in s && s[to].container && x in s
    && (if s[x].face.kind.stackable then k <= STACK_SIZE && PlainStack(s[x].face.kind) else MayAttach(s, to, x))
    && (!s[x].face.kind.stackable || k > 0 ==> |s[to].items| < s[to].maxSize)
  }

  ghost function Arrived(s: Heap, to: Item, x: Item, k: nat, copy: Item?): Heap
    requires MayArrive(s, to, x, k, copy)
  {
    if !s[x].face.kind.stackable then Added(s, to, x, 0)
    else if k == 0 then s
    else
      CopyMayAttach(s, to, CloneFace(s[x].face, k), copy);
      Added(Enlarged(s, copy, CloneFace(s[x].face, k)), to, copy, 0)
  }

  lemma CopyMayAttach(s: Heap, to: Item, face: Face, copy: Item)
    requires Sound(s) && to in s && s[to].container && copy !in s
    ensures MayAttach(Enlarged(s, copy, face), to, copy) && Sound(Enlarged(s, copy, face))
  {
    hide Weighted, ParentsAgree, Forested, Holds;
    EnlargedRanked(s, copy, face);
    EnlargedAgrees(s, copy, face);
    EnlargedAlone(s, copy, face, OwnWeight, to);
    EnlargedSound(s, copy, face);
  }

  lemma ArrivedSound(s: Heap, to: Item, x: Item, k: nat, copy: Item?)
    requires MayArrive(s, to, x, k, copy)
    ensures Sound(Arrived(s, to, x, k, copy))
  {
    hide Sound, MayAttach, Added, Enlarged, Tidy;
    if !s[x].face.kind.stackable {
      AddedSound(s, to, x, 0);
    } else if k > 0 {
      CopyMayAttach(s, to, CloneFace(s[x].face, k), copy);
      AddedSound(Enlarged(s, copy, CloneFace(s[x].face, k)), to, copy, 0);
    }
  }

  lemma ArrivedCell(s: Heap, to: Item, x: Item, k: nat, copy: Item?, y: Item)
    requires MayArrive(s, to, x, k, copy) && y in s
    ensures var t, whole := Arrived(s, to, x, k, copy), !s[x].face.kind.stackable;
      && y in t && SameOutside(t[y], s[y]) && t[y].face == s[y].face
      && t[y].items == (if y != to || (!whole && k == 0) then s[y].items else if whole then [x] + s[to].items else [copy] + s[to].items)
      && t[y].parent == (if whole && y == x then to else s[y].parent)
  {
    hide Sound, MayAttach, Added, Tidy;
    if !s[x].face.kind.stackable {
      AddedCell(s, to, x, y);
    } else if k > 0 {
      CopyMayAttach(s, to, CloneFace(s[x].face, k), copy);
      AddedCell(Enlarged(s, copy, CloneFace(s[x].face, k)), to, copy, y);
    }
  }

  lemma ArrivedCopy(s: Heap, to: Item, x: Item, k: nat, copy: Item?)
    requires MayArrive(s, to, x, k, copy)
    ensures var t, made := Arrived(s, to, x, k, copy), s[x].face.kind.stackable && k > 0;
      && t.Keys == (if made then s.Keys + {copy} else s.Keys)
      && (made ==> Neat(t[copy]) && t[copy].face == CloneFace(s[x].face, k) && t[copy].parent == to)
  {
    hide Sound, MayAttach, Added, Tidy;
    if !s[x].face.kind.stackable {
      AddedCell(s, to, x, to);
    } else if k > 0 {
      var face := CloneFace(s[x].face, k);
      CopyMayAttach(s, to, face, copy);
      AddedCell(Enlarged(s, copy, face), to, copy, copy);
    }
  }

  lemma ArrivedTidy(s: Heap, to: Item, x: Item, k: nat, copy: Item?)
    requires MayArrive(s, to, x, k, copy)
    ensures Tidy(Arrived(s, to, x, k, copy))
  {
    hide Arrived, Sound, MayAttach, CloneFace;
    var t := Arrived(s, to, x, k, copy);
    ArrivedCopy(s, to, x, k, copy);
    forall y <- t
      ensures Neat(t[y])
    {
      if y in s {
        ArrivedCell(s, to, x, k, copy, y);
        assert Neat(s[y]);
      }
    }
  }

  /** The destination and its holders gain what arrives. */
  lemma ArrivedUnits(s: Heap, to: Item, x: Item, k: nat, copy: Item?, id: nat, y: Item)
    requires MayArrive(s, to, x, k, copy) && y in s
    ensures var t := Arrived(s, to, x, k, copy);
      && Forested(t) && y in t && (Holds(t, y, to) <==> Holds(s, y, to))
      && UnitsIn(t, id, y) == UnitsIn(s, id, y) + (if Holds(s, y, to) then Leaving(s, id, x, k) else 0)
  {
    hide Weighted, ParentsAgree, Forested, Holds, Total, Added, Tidy;
    var f := (z: Face) => UnitsOf(id, z);
    ArrivedCell(s, to, x, k, copy, y);
    if !s[x].face.kind.stackable {
      AddedTotal(s, to, x, 0, f, y);
    } else if k > 0 {
      var face := CloneFace(s[x].face, k);
      var e := Enlarged(s, copy, face);
      CopyMayAttach(s, to, face, copy);
      EnlargedTotal(s, copy, face, f, y);
      EnlargedAlone(s, copy, face, f, copy);
      AddedTotal(e, to, copy, 0, f, y);
    }
  }

  // ---------------------------------------------------------------- the whole move

  ghost predicate MayMove(s: Heap, from: Item, to: Item, x: Item, onto: Item?, m: nat, copy: Item?) {
    CanMove(s, from, to, x, onto, m) && IsCopy(s, x, m - Merging(s[x].face, FaceAt(s, onto), m), copy)
  }

  ghost predicate CanMove(s: Heap, from: Item, to: Item, x: Item, onto: Item?, m: nat) {
    && MayTake(s, from, x, m) && MayMerge(s, to, x, onto) && s[to].container && !Holds(s, x, to)
    && (!s[x].face.kind.stackable || m > Merging(s[x].face, FaceAt(s, onto), m) ==> |s[to].items| < s[to].maxSize)
  }

  lemma MayMoveSteps(s: Heap, from: Item, to: Item, x: Item, onto: Item?, m: nat)
    requires CanMove(s, from, to, x, onto, m)
    ensures var n := Merging(s[x].face, FaceAt(s, onto), m);
      var s1 := Taken(s, from, x, m);
      && MayMerge(s1, to, x, onto)
      && RoomToArrive(Merged(s1, x, onto, m), to, x, m - n)
      && Merged(s1, x, onto, m).Keys == s.Keys
      && Merging(s1[x].face, FaceAt(s1, onto), m) == n && s1[x].face.kind == s[x].face.kind
      && Merged(s1, x, onto, m)[x].face.kind == s[x].face.kind
  {
    hide Taken, Merged, Tidy, Forested, ParentsAgree, Weighted, Holds;
    var s1, n := Taken(s, from, x, m), Merging(s[x].face, FaceAt(s, onto), m);
    assert Neat(s[x]) by {
      TidyAt(s, x);
    }
    TakenSound(s, from, x, m);
    TakenTidy(s, from, x, m);
    TakenCell(s, from, x, m, x);
    TakenCell(s, from, x, m, to);
    TakenAttrs(s, from, x, m);
    if onto != null {
      TakenCell(s, from, x, m, onto);
    }
    var s2 := Merged(s1, x, onto, m);
    MergedSound(s1, to, x, onto, m);
    MergedTidy(s1, to, x, onto, m);
    MergedCell(s1, to, x, onto, m, x);
    MergedCell(s1, to, x, onto, m, to);
    if !s[x].face.kind.stackable {
      TakenFree(s, from, to, x, m);
      MergedHolds(s1, to, x, onto, m);
    }
  }

  lemma TidyAt(s: Heap, x: Item)
    requires Tidy(s) && x in s
    ensures Neat(s[x])
  {
  }

  lemma TakenAttrs(s: Heap, from: Item, x: Item, m: nat)
    requires MayTake(s, from, x, m)
    ensures var t := Taken(s, from, x, m);
      x in t && t[x].face.attrs == s[x].face.attrs && t[x].face.kind == s[x].face.kind
  {
    hide Forested, ParentsAgree, Weighted, Changed, RemovedItem, Tidy;
    if TakesPart(s[x].face, m) {
      ChangedCell(s, x, Less(s[x].face, m), x);
    } else {
      RemovedCell(s, from, x, x);
    }
  }

  lemma TakenFree(s: Heap, from: Item, to: Item, x: Item, m: nat)
    requires MayTake(s, from, x, m) && !s[x].face.kind.stackable && to in s && !Holds(s, x, to)
    ensures Forested(Taken(s, from, x, m)) && x in Taken(s, from, x, m) && !Holds(Taken(s, from, x, m), x, to)
  {
    hide ParentsAgree, Weighted, Forested, Removed, IndexIn, Holds;
    ListedParent(s, from, x);
    RemovedHolds(s, from, IndexIn(s[from].items, x), x, to);
    RemovedCell(s, from, x, x);
  }

  lemma MergedHolds(s: Heap, to: Item, x: Item, onto: Item?, m: nat)
    requires MayMerge(s, to, x, onto) && !s[x].face.kind.stackable
    ensures Merged(s, x, onto, m) == s
  {
  }

  /** The heap after the move. */
  ghost function Moved(s: Heap, from: Item, to: Item, x: Item, onto: Item?, m: nat, copy: Item?): Heap
    requires MayMove(s, from, to, x, onto, m, copy)
  {
    MayMoveSteps(s, from, to, x, onto, m);
    Arrived(Merged(Taken(s, from, x, m), x, onto, m), to, x, m - Merging(s[x].face, FaceAt(s, onto), m), copy)
  }

  /** A move keeps the heap sound, stacks at most stacks, and every container within its capacity. */
  lemma MovedSound(s: Heap, from: Item, to: Item, x: Item, onto: Item?, m: nat, copy: Item?)
    requires MayMove(s, from, to, x, onto, m, copy)
    ensures Sound(Moved(s, from, to, x, onto, m, copy)) && Tidy(Moved(s, from, to, x, onto, m, copy))
  {
    hide Forested, ParentsAgree, Weighted, Holds, Tidy, Taken, Merged, Arrived, RoomToArrive;
    MayMoveSteps(s, from, to, x, onto, m);
    var s2, k := Merged(Taken(s, from, x, m), x, onto, m), m - Merging(s[x].face, FaceAt(s, onto), m);
    ArrivedSound(s2, to, x, k, copy);
    ArrivedTidy(s2, to, x, k, copy);
  }

  /**
   Conservation: whatever held the source loses exactly the units that leave it, whatever holds the
   destination gains exactly as many, and nothing else changes.
   */
  lemma MovedUnits(s: Heap, from: Item, to: Item, x: Item, onto: Item?, m: nat, copy: Item?, id: nat, y: Item)
    requires MayMove(s, from, to, x, onto, m, copy) && y in s
    ensures var t, d := Moved(s, from, to, x, onto, m, copy), Leaving(s, id, x, m);
      && Forested(t) && y in t
      && UnitsIn(t, id, y) == UnitsIn(s, id, y) - (if Holds(s, y, from) then d else 0) + (if Holds(t, y, to) then d else 0)
  {
    hide Forested, ParentsAgree, Weighted, Tidy, Holds, Total, Taken, Merged, Arrived;
    MayMoveSteps(s, from, to, x, onto, m);
    var s1 := Taken(s, from, x, m);
    var s2, n := Merged(s1, x, onto, m), Merging(s[x].face, FaceAt(s, onto), m);
    TakenCell(s, from, x, m, y);
    TakenUnits(s, from, x, m, id, y);
    TakenUnits(s, from, x, m, id, x);
    HoldsUp(s, x, from, x);
    MergedCell(s1, to, x, onto, m, y);
    MergedUnits(s1, to, x, onto, m, id, y);
    MergedUnits(s1, to, x, onto, m, id, x);
    ArrivedUnits(s2, to, x, m - n, copy, id, y);
  }

  /** What is inside a container around both the source and the destination stays the same in number. */
  lemma MoveConserves(s: Heap, from: Item, to: Item, x: Item, onto: Item?, m: nat, copy: Item?, id: nat, y: Item)
    requires MayMove(s, from, to, x, onto, m, copy) && y in s && Holds(s, y, from)
    ensures var t := Moved(s, from, to, x, onto, m, copy);
      && Forested(t) && y in t
      && UnitsIn(t, id, y) == UnitsIn(s, id, y) - (if Holds(t, y, to) then 0 else Leaving(s, id, x, m))
  {
    hide Forested, Holds, Total, Moved, MayMove;
    MovedUnits(s, from, to, x, onto, m, copy, id, y);
  }

  // ---------------------------------------------------------------- what a move weighs

  /** What m of a stack weigh, or the item with all inside it. */
  ghost function LeavingWeight(s: Heap, x: Item, m: nat): int
    requires Forested(s) && x in s
  {
    if s[x].face.kind.stackable then BaseWeight(s[x].face) * m else OwnWeight(s[x].face) + Total(s, OwnWeight, x)
  }

  lemma TakenWeight(s: Heap, from: Item, x: Item, m: nat, y: Item)
    requires MayTake(s, from, x, m) && y in s && m > 0
    ensures var t := Taken(s, from, x, m);
      && Forested(t) && Total(t, OwnWeight, y) == Total(s, OwnWeight, y) - (if Holds(s, y, from) then LeavingWeight(s, x, m) else 0)
  {
    hide Forested, ParentsAgree, Weighted, Changed, Removed, Holds, Total, IndexIn, OwnWeight;
    var face := s[x].face;
    if TakesPart(face, m) {
      ChangedTotal(s, x, Less(face, m), OwnWeight, y);
      HoldsUp(s, y, from, x);
      WeighsByParts(face, face.count - m, m);
      WeighsAll(face, m);
      assert face.(count := face.count) == face;
    } else {
      ListedParent(s, from, x);
      RemovedTotal(s, from, IndexIn(s[from].items, x), OwnWeight, y);
      if face.kind.stackable {
        TidyAt(s, x);
        StackIsEmpty(s, x, OwnWeight);
        WeighsAll(face, m);
        assert face.(count := m) == face;
      }
    }
  }

  lemma WeighsAll(x: Face, m: nat)
    requires x.kind.stackable && m > 0
    ensures OwnWeight(x.(count := m)) == BaseWeight(x) * m
  {
  }

  /** What goes onto an empty stack weighs one less there, as an empty stack weighs as much as one. */
  function Unweighed(x: Face, onto: Option<Face>, m: nat): nat {
    if onto.Some? && onto.value.count == 0 && Merging(x, onto, m) > 0 then BaseWeight(x) else 0
  }

  /** An item without attributes has no weight of its own. */
  predicate Wellformed(a: Attributes) {
    !a.present ==> a.weight == None
  }

  lemma MergedWeight(s: Heap, to: Item, x: Item, onto: Item?, m: nat, y: Item)
    requires MayMerge(s, to, x, onto) && y in s && Wellformed(s[x].face.attrs)
    ensures var t := Merged(s, x, onto, m);
      && Forested(t)
      && Total(t, OwnWeight, y) == Total(s, OwnWeight, y)
           + (if Holds(s, y, to) then BaseWeight(s[x].face) * Merging(s[x].face, FaceAt(s, onto), m) - Unweighed(s[x].face, FaceAt(s, onto), m) else 0)
  {
    hide Forested, ParentsAgree, Weighted, Changed, Holds, Total, OwnWeight;
    if onto != null && s[x].face.kind.stackable && Equals(s[x].face, s[onto].face) {
      var q: Item := onto;
      assert Neat(s[q]);
      var n := Merging(s[x].face, Some(s[q].face), m);
      var face := WithSubType(WithId(s[q].face, s[q].face.kind), s[q].face.count + n);
      assert OwnWeight(face) == OwnWeight(s[q].face.(count := s[q].face.count + n)) by {
        RefilledWeight(s[q].face, s[q].face.count + n);
      }
      ChangedTotal(s, q, face, OwnWeight, y);
      HoldsUp(s, y, to, q);
      MergedFace(s[q].face, n);
    }
  }

  lemma RefilledWeight(x: Face, n: nat)
    requires PlainStack(x.kind) && Wellformed(x.attrs)
    ensures OwnWeight(WithSubType(WithId(x, x.kind), n)) == OwnWeight(x.(count := n))
  {
  }

  lemma MergedFace(x: Face, n: nat)
    requires x.kind.stackable
    ensures OwnWeight(x.(count := x.count + n)) == OwnWeight(x) + BaseWeight(x) * n - (if x.count == 0 && n > 0 then BaseWeight(x) else 0)
  {
    hide OwnWeight;
    assert x.(count := x.count) == x;
    if n > 0 {
      WeighsAll(x, n);
      WeighsByParts(x, x.count, n);
    }
  }

  lemma ArrivedWeight(s: Heap, to: Item, x: Item, k: nat, copy: Item?, y: Item)
    requires MayArrive(s, to, x, k, copy) && y in s
    ensures var t := Arrived(s, to, x, k, copy);
      Forested(t) && y in t && Total(t, OwnWeight, y) == Total(s, OwnWeight, y) + (if Holds(s, y, to) then LeavingWeight(s, x, k) else 0)
  {
    hide Weighted, ParentsAgree, Forested, Holds, Total, Added, Tidy, OwnWeight, CloneFace;
    ArrivedCell(s, to, x, k, copy, y);
    if !s[x].face.kind.stackable {
      AddedTotal(s, to, x, 0, OwnWeight, y);
    } else if k > 0 {
      var face := CloneFace(s[x].face, k);
      var e := Enlarged(s, copy, face);
      CopyMayAttach(s, to, face, copy);
      EnlargedTotal(s, copy, face, OwnWeight, y);
      EnlargedAlone(s, copy, face, OwnWeight, copy);
      AddedTotal(e, to, copy, 0, OwnWeight, y);
      ClonedWeight(s[x].face, k);
    }
  }

  lemma ClonedWeight(x: Face, k: nat)
    requires x.kind.stackable && k > 0
    ensures OwnWeight(CloneFace(x, k)) == BaseWeight(x) * k
  {
  }

  /**
   A move conserves weight: what held the source is lighter by exactly what leaves, what holds the destination
   is heavier by as much; but for one unit where a stack of none is filled.
   */
  lemma MovedWeight(s: Heap, from: Item, to: Item, x: Item, onto: Item?, m: nat, copy: Item?, y: Item)
    requires MayMove(s, from, to, x, onto, m, copy) && y in s && m > 0 && Wellformed(s[x].face.attrs)
    ensures var t, d := Moved(s, from, to, x, onto, m, copy), LeavingWeight(s, x, m);
      && Forested(t) && y in t
      && Total(t, OwnWeight, y) == Total(s, OwnWeight, y) - (if Holds(s, y, from) then d else 0)
           + (if Holds(t, y, to) then d - Unweighed(s[x].face, FaceAt(s, onto), m) else 0)
  {
    hide Forested, ParentsAgree, Weighted, Tidy, Holds, Total, Taken, Merged, Arrived, OwnWeight, Merging;
    MayMoveSteps(s, from, to, x, onto, m);
    var s1 := Taken(s, from, x, m);
    var s2, n := Merged(s1, x, onto, m), Merging(s[x].face, FaceAt(s, onto), m);
    MovedUnits(s, from, to, x, onto, m, copy, 0, y);
    TakenCell(s, from, x, m, y);
    TakenAttrs(s, from, x, m);
    TakenWeight(s, from, x, m, y);
    TakenWeight(s, from, x, m, x);
    HoldsUp(s, x, from, x);
    MergedCell(s1, to, x, onto, m, y);
    MergedCell(s1, to, x, onto, m, x);
    MergedWeight(s1, to, x, onto, m, y);
    MergedWeight(s1, to, x, onto, m, x);
    MergedUnits(s1, to, x, onto, m, 0, y);
    ArrivedWeight(s2, to, x, m - n, copy, y);
    ArrivedUnits(s2, to, x, m - n, copy, 0, y);
    if onto != null {
      TakenCell(s, from, x, m, onto);
    }
    Distributes(BaseWeight(s[x].face), n, m);
    assert Unweighed(s1[x].face, FaceAt(s1, onto), m) == Unweighed(s[x].face, FaceAt(s, onto), m);
    assert !s[x].face.kind.stackable ==> n == 0 by {
      OnlyStacksMerge(s[x].face, FaceAt(s, onto), m);
    }
    assert LeavingWeight(s2, x, m - n) + (if s[x].face.kind.stackable then BaseWeight(s[x].face) * n else 0) == LeavingWeight(s, x, m);
  }

  lemma OnlyStacksMerge(x: Face, onto: Option<Face>, m: nat)
    ensures !x.kind.stackable ==> Merging(x, onto, m) == 0
  {
  }

  lemma Distributes(a: nat, n: nat, m: nat)
    requires n <= m
    ensures a * n + a * (m - n) == a * m
  {
    assert a * n + a * (m - n) == a * (n + (m - n));
  }

  // ---------------------------------------------------------------- registering for decay

  /** x is registered for decay, if it has time left. */
  ghost function Marked(s: Heap, x: Item?): Heap {
    if x != null && x in s then Refaced(s, x, s[x].face.(attrs := Registered(s[x].face.attrs))) else s
  }

  lemma MarkedCell(s: Heap, x: Item?, y: Item)
    requires y in s
    ensures var t := Marked(s, x);
      && t.Keys == s.Keys && SameOutside(t[y], s[y]) && t[y].items == s[y].items && t[y].parent == s[y].parent
      && t[y].face == if y == x then s[y].face.(attrs := Registered(s[y].face.attrs)) else s[y].face
  {
  }

  /** Being registered for decay changes neither weight, nor number, nor place. */
  lemma MarkedTotal(s: Heap, x: Item?, f: Face -> int, y: Item)
    requires Forested(s) && ParentsAgree(s) && y in s
    requires forall p: Face :: f(p.(attrs := Registered(p.attrs))) == f(p)
    ensures var t := Marked(s, x);
      Forested(t) && Total(t, f, y) == Total(s, f, y) && forall b :: Holds(t, y, b) <==> Holds(s, y, b)
  {
    hide Forested, ParentsAgree, Holds, Total, Kids, Registered;
    if x != null && x in s {
      var face := s[x].face.(attrs := Registered(s[x].face.attrs));
      RefaceTotal(s, x, face, f, y);
      RefaceAgrees(s, x, face);
      forall b
        ensures Holds(Refaced(s, x, face), y, b) <==> Holds(s, y, b)
      {
        SameHolds(s, Refaced(s, x, face), y, b);
      }
    }
  }

  lemma MarkedUnits(s: Heap, x: Item?, id: nat, y: Item)
    requires Forested(s) && ParentsAgree(s) && y in s
    ensures var t := Marked(s, x);
      Forested(t) && UnitsIn(t, id, y) == UnitsIn(s, id, y) && forall b :: Holds(t, y, b) <==> Holds(s, y, b)
  {
    hide Forested, ParentsAgree, Holds, Total, Marked, Registered;
    MarkedTotal(s, x, (p: Face) => UnitsOf(id, p), y);
  }

  lemma MarkedSound(s: Heap, x: Item?)
    requires Sound(s)
    ensures Sound(Marked(s, x)) && (Tidy(s) ==> Tidy(Marked(s, x)))
  {
    hide Forested, ParentsAgree, Holds, Total, Kids;
    if x != null && x in s {
      var t, face := Marked(s, x), s[x].face.(attrs := Registered(s[x].face.attrs));
      RefaceAgrees(s, x, face);
      RefaceFacts(s, x, face);
      RefaceTotal(s, x, face, OwnWeight, x);
      assert t == Refaced(s, x, face);
      forall y <- s
        ensures Total(t, OwnWeight, y) == Total(s, OwnWeight, y)
      {
        MarkedTotal(s, x, OwnWeight, y);
      }
      UncreditedSound(s, t);
      if Tidy(s) {
        MarkedTidy(s, x);
      }
    }
  }

  lemma MarkedTidy(s: Heap, x: Item)
    requires Tidy(s) && x in s
    ensures Tidy(Marked(s, x))
  {
    forall y <- Marked(s, x)
      ensures Neat(Marked(s, x)[y])
    {
      MarkedCell(s, x, y);
      assert Neat(s[y]);
    }
  }

  /** The item that was put somewhere, registered for decay in the heap. */
  method Register(x: Item, ghost w: set<Item>)
    requires x in w
    modifies x`face
    ensures Snap(w) == Marked(old(Snap(w)), x)
  {
    x.face := x.face.(attrs := Registered(x.face.attrs));
  }

  // ---------------------------------------------------------------- which move it is

  const MAP_MAX_LAYERS := 16

  /** Where the item really goes: asked again for as long as the answer is another container. */
  ghost function Settled(s: Heap, to: Item, index: int, x: Item, ignoreAutoStack: bool): Destination
    requires ParentsAgree(s) && to in s && x in s
  {
    var d := DestinationOf(s, to, index, x, ignoreAutoStack);
    if d.c == to then d else
      DestinationIn(s, to, index, x, ignoreAutoStack);
      DestinationOf(s, d.c, d.index, x, false)
  }

  // The answer is a container of the heap; an answer elsewhere names no place in it.
  lemma DestinationIn(s: Heap, c: Item, index: int, x: Item, ignoreAutoStack: bool)
    requires ParentsAgree(s) && c in s && x in s
    ensures var d := DestinationOf(s, c, index, x, ignoreAutoStack);
      && d.c in s && (s[c].container ==> s[d.c].container)
      && (d.c != c ==> d.index == INDEX_WHEREEVER && d.onto == null)
      && (d.onto != null ==> d.c == c && d.onto in s && d.onto in s[c].items)
  {
    ItemsInHeap(s, c);
    if s[c].parent != null {
      ParentLists(s, c);
      assert LinkedDown(s, s[c].parent);
    }
  }

  // Asking a container for any place in it settles the matter.
  lemma WhereverStays(s: Heap, c: Item, x: Item, ignoreAutoStack: bool)
    requires ParentsAgree(s) && c in s && x in s
    ensures DestinationOf(s, c, INDEX_WHEREEVER, x, ignoreAutoStack).c == c
  {
  }

  /** The settled place is within capacity, and an item named there is the one at that place. */
  lemma SettledPlace(s: Heap, to: Item, index: int, x: Item, ignoreAutoStack: bool)
    requires ParentsAgree(s) && Tidy(s) && to in s && s[to].container && x in s
    ensures var d := Settled(s, to, index, x, ignoreAutoStack);
      && d.c in s && s[d.c].container && (d.index < s[d.c].maxSize || d.index == INDEX_WHEREEVER)
      && (d.onto != null ==> d.onto in s && d.onto in s[d.c].items && !s[d.onto].container)
      && (d.onto == ItemAt(s[d.c].items, d.index))
  {
    var d := DestinationOf(s, to, index, x, ignoreAutoStack);
    DestinationIn(s, to, index, x, ignoreAutoStack);
    PlaceOf(s, to, index, x, ignoreAutoStack);
    if d.c != to {
      WhereverStays(s, d.c, x, false);
      PlaceOf(s, d.c, d.index, x, false);
    }
  }

  lemma PlaceOf(s: Heap, c: Item, index: int, x: Item, ignoreAutoStack: bool)
    requires ParentsAgree(s) && Tidy(s) && c in s && s[c].container && x in s
    ensures var d := DestinationOf(s, c, index, x, ignoreAutoStack);
      d.c == c ==>
        && (d.index < s[c].maxSize || d.index == INDEX_WHEREEVER)
        && (d.onto != null ==> d.onto in s && d.onto in s[c].items && !s[d.onto].container)
        && d.onto == ItemAt(s[c].items, d.index)
  {
    ItemsInHeap(s, c);
    assert Neat(s[c]);
    var n := FirstStack(s, s[c].items, x);
    if n < |s[c].items| && s[x].face.kind.stackable {
      assert Neat(s[s[c].items[n]]);
    }
    if s[c].parent == c {
      ParentLists(s, c);
    }
  }

  /** The container a place in `to` stands for: the parent, the container that is at the place, or `to` itself. */
  ghost function SettlesIn(s: Heap, to: Item, index: int): Item
    requires to in s
  {
    if index == MOVE_UP then (if s[to].parent != null then s[to].parent else to)
    else
      var there := ItemAt(s[to].items, if 0 <= index < s[to].maxSize && index != ADD_WHEREVER then index else INDEX_WHEREEVER);
      if there != null && there in s && s[there].container then there else to
  }

  /**
   Where an item settles: asked to move up, in the parent if there is one; at a container, inside it. A stack
   is put onto the first like stack with room, unless it is in that container already, or to is to be kept
   apart; only then does the place asked for count.
   */
  lemma SettledIs(s: Heap, to: Item, index: int, x: Item, ignoreAutoStack: bool)
    requires Forested(s) && ParentsAgree(s) && Tidy(s) && to in s && s[to].container && x in s
    ensures SettlesIn(s, to, index) in s && forall y <- s[SettlesIn(s, to, index)].items :: y in s
    ensures var d, c := Settled(s, to, index, x, ignoreAutoStack), SettlesIn(s, to, index);
      var up := index == MOVE_UP && c == to;
      && d.c == c
      && (if !up && (c == to ==> !ignoreAutoStack) && s[x].face.kind.stackable && s[x].parent != c && (exists y <- s[c].items :: StacksIn(s, y, x)) then
            && 0 <= d.index < |s[c].items| && d.onto == s[c].items[d.index]
            && StacksIn(s, d.onto, x) && forall k | 0 <= k < d.index :: !StacksIn(s, s[c].items[k], x)
          else if c != to || index == MOVE_UP || index == ADD_WHEREVER || index >= s[to].maxSize then
            d.index == INDEX_WHEREEVER && d.onto == null
          else d.index == index && d.onto == ItemAt(s[to].items, index))
  {
    hide Forested, Holds, FirstStack, ParentsAgree, DestinationOf, Tidy;
    var d := DestinationOf(s, to, index, x, ignoreAutoStack);
    DestinationIn(s, to, index, x, ignoreAutoStack);
    AskedIs(s, to, index, x, ignoreAutoStack);
    if d.c != to {
      AskedIs(s, d.c, INDEX_WHEREEVER, x, false);
    }
  }

  // What a container answers that is asked once.
  lemma AskedIs(s: Heap, to: Item, index: int, x: Item, ignoreAutoStack: bool)
    requires Forested(s) && ParentsAgree(s) && to in s && x in s
    ensures SettlesIn(s, to, index) in s && forall y <- s[to].items :: y in s
    ensures var d, c := DestinationOf(s, to, index, x, ignoreAutoStack), SettlesIn(s, to, index);
      var there := ItemAt(s[to].items, if 0 <= index < s[to].maxSize && index != ADD_WHEREVER && index != MOVE_UP then index else INDEX_WHEREEVER);
      && d.c == c
      && (if c == to && index != MOVE_UP && !ignoreAutoStack && s[x].face.kind.stackable && s[x].parent != to && (exists y <- s[to].items :: StacksIn(s, y, x)) then
            && 0 <= d.index < |s[to].items| && d.onto == s[to].items[d.index]
            && StacksIn(s, d.onto, x) && forall k | 0 <= k < d.index :: !StacksIn(s, s[to].items[k], x)
          else if c != to || index == MOVE_UP || index == ADD_WHEREVER || index >= s[to].maxSize then
            d.index == INDEX_WHEREEVER && d.onto == null
          else d.index == index && d.onto == there)
  {
    hide Forested, Holds, FirstStack, ParentsAgree;
    ItemsInHeap(s, to);
    FirstStackFirst(s, s[to].items, x);
    if s[to].parent != null {
      ParentLists(s, to);
    }
    forall y <- s[to].items
      ensures y != to
    {
      ListedParent(s, to, y);
    }
  }

  lemma {:induction false} FirstStackFirst(s: Heap, l: seq<Item>, x: Item)
    requires x in s && forall y <- l :: y in s
    ensures var n := FirstStack(s, l, x);
      && (n == |l| <==> forall y <- l :: !StacksIn(s, y, x))
      && forall k | 0 <= k < n :: !StacksIn(s, l[k], x)
  {
    if l != [] && !StacksIn(s, l[0], x) {
      FirstStackFirst(s, l[1..], x);
      assert forall y <- l :: y == l[0] || y in l[1..];
      assert forall k | 0 < k < |l| :: l[k] == l[1..][k - 1];
    }
  }

  datatype Plan = Plan(ret: Answer, m: nat, d: Destination)

  /** What the checks decide: the answer, how much moves, and where to. */
  ghost function PlanOf(s: Heap, from: Item, to: Item, index: int, x: Item, count: nat, carrier: nat -> bool, tradeItem: Item?, ignoreAutoStack: bool): Plan
    requires Sound(s) && from in s && to in s && x in s && InHeap(s, tradeItem)
  {
    var d := Settled(s, to, index, x, ignoreAutoStack);
    SettledIn(s, to, index, x, ignoreAutoStack);
    if d.onto == x then Plan(NoError, 0, d) else
    var mayAdd := AddAnswer(s, d.c, d.index, x, count, false, carrier);
    if mayAdd != NoError then Plan(mayAdd, 0, d) else
    var room := RoomFor(s, d.c, d.index, x, false, count, carrier);
    if room == 0 && (!s[x].face.kind.stackable || count > 0) then Plan(NotEnoughRoom, 0, d) else
    var m := if s[x].face.kind.stackable && count < room then count else room;
    var mayRemove := RemoveAnswer(s, from, x, m, false);
    if mayRemove != NoError then Plan(mayRemove, 0, d) else
    if tradeItem != null && Holds(s, tradeItem, d.c) then Plan(NotEnoughRoom, 0, d) else
    Plan(if s[x].face.kind.stackable && room < count then NotEnoughRoom else NoError, m, d)
  }

  lemma SettledIn(s: Heap, to: Item, index: int, x: Item, ignoreAutoStack: bool)
    requires ParentsAgree(s) && to in s && x in s
    ensures Settled(s, to, index, x, ignoreAutoStack).c in s
  {
    var d := DestinationOf(s, to, index, x, ignoreAutoStack);
    DestinationIn(s, to, index, x, ignoreAutoStack);
    if d.c != to {
      DestinationIn(s, d.c, d.index, x, false);
    }
  }

  // There is a free slot whenever a slot is needed.
  lemma SlotForRest(s: Heap, c: Item, index: int, x: Item, count: nat, carrier: nat -> bool, m: nat)
    requires Forested(s) && ParentsAgree(s) && Tidy(s) && c in s && x in s && s[x].face.kind.stackable
    requires AddAnswer(s, c, index, x, count, false, carrier) == NoError
    requires m <= RoomFor(s, c, index, x, false, count, carrier)
    requires ItemAt(s[c].items, index) != x && m > Merging(s[x].face, FaceAt(s, ItemAt(s[c].items, index)), m)
    ensures |s[c].items| < s[c].maxSize
  {
    hide Forested, Holds;
    ItemsInHeap(s, c);
    if index != INDEX_WHEREEVER && 0 <= index < |s[c].items| {
      var y := s[c].items[index];
      assert y in s[c].items && Neat(s[y]);
    }
  }

  /** Whenever the checks let something move, the move can be made: nothing overflows and nothing is dropped. */
  lemma PlanMoves(s: Heap, from: Item, to: Item, index: int, x: Item, count: nat, carrier: nat -> bool, tradeItem: Item?, ignoreAutoStack: bool)
    requires Sound(s) && Tidy(s) && from in s && to in s && s[to].container && x in s && InHeap(s, tradeItem)
    ensures var p := PlanOf(s, from, to, index, x, count, carrier, tradeItem, ignoreAutoStack);
      p.m > 0 ==> CanMove(s, from, p.d.c, x, p.d.onto, p.m) && p.d.index < s[p.d.c].maxSize
  {
    var p := PlanOf(s, from, to, index, x, count, carrier, tradeItem, ignoreAutoStack);
    var d := p.d;
    if p.m > 0 {
      PlanChecks(s, from, to, index, x, count, carrier, tradeItem, ignoreAutoStack);
      SettledPlace(s, to, index, x, ignoreAutoStack);
      hide PlanOf, Forested, Holds, Settled, ParentsAgree, Weighted, Tidy, RoomFor, AddAnswer, Merging;
      if s[x].face.kind.stackable && p.m > Merging(s[x].face, FaceAt(s, d.onto), p.m) {
        SlotForRest(s, d.c, d.index, x, count, carrier, p.m);
      }
      assert MayTake(s, from, x, p.m);
      assert MayMerge(s, d.c, x, d.onto);
    }
  }

  function Least(a: nat, b: nat): (n: nat)
    ensures n <= a && n <= b && (n == a || n == b)
  {
    if a < b then a else b
  }

  /** What moves has passed every check, and of a stack it is the lesser of what was asked for and what there is room for. */
  lemma PlanChecks(s: Heap, from: Item, to: Item, index: int, x: Item, count: nat, carrier: nat -> bool, tradeItem: Item?, ignoreAutoStack: bool)
    requires Sound(s) && from in s && to in s && x in s && InHeap(s, tradeItem)
    ensures var p := PlanOf(s, from, to, index, x, count, carrier, tradeItem, ignoreAutoStack);
      var d := p.d;
      p.m > 0 ==>
        && d == Settled(s, to, index, x, ignoreAutoStack) && d.c in s && d.onto != x
        && AddAnswer(s, d.c, d.index, x, count, false, carrier) == NoError
        && !Holds(s, x, d.c) && (d.index == INDEX_WHEREEVER ==> |s[d.c].items| < s[d.c].maxSize)
        && x in s[from].items && (s[x].face.kind.stackable ==> p.m <= s[x].face.count)
        && (tradeItem != null ==> !Holds(s, tradeItem, d.c))
        && p.m <= RoomFor(s, d.c, d.index, x, false, count, carrier)
        && (if s[x].face.kind.stackable then
              p.m == Least(count, RoomFor(s, d.c, d.index, x, false, count, carrier)) && (p.m == count <==> p.ret == NoError)
            else |s[d.c].items| < s[d.c].maxSize)
  {
    hide Forested, Holds, Settled, ParentsAgree, Weighted, SpareAt;
    SettledIn(s, to, index, x, ignoreAutoStack);
  }

  /**
   When a move moves something. The place takes the item and has room for at least one; the item is in the
   source and may be taken out, of a stack as much as there is room for; what is being traded is not around the place.
   */
  ghost predicate Movable(s: Heap, from: Item, to: Item, index: int, x: Item, count: nat, carrier: nat -> bool, tradeItem: Item?, ignoreAutoStack: bool)
    requires Sound(s) && from in s && to in s && x in s && InHeap(s, tradeItem)
  {
    SettledIn(s, to, index, x, ignoreAutoStack);
    var d, face := Settled(s, to, index, x, ignoreAutoStack), s[x].face;
    var free := |s[d.c].items| < s[d.c].maxSize;
    && d.onto != x && face.kind.pickupable && !Holds(s, x, d.c) && carrier(count)
    && (d.index == INDEX_WHEREEVER || !face.kind.stackable ==> free)
    && x in s[from].items && face.kind.moveable
    && (tradeItem != null ==> !Holds(s, tradeItem, d.c))
    && (face.kind.stackable ==>
          && count > 0 && Least(count, RoomFor(s, d.c, d.index, x, false, count, carrier)) <= face.count
          && (free || (d.onto != null && d.onto in s && StacksIn(s, d.onto, x) && carrier(STACK_SIZE - s[d.onto].face.count))))
  }

  /** The plan moves something exactly if it can be; of a stack, all there is room for; and says so if that is not all. */
  lemma PlanIff(s: Heap, from: Item, to: Item, index: int, x: Item, count: nat, carrier: nat -> bool, tradeItem: Item?, ignoreAutoStack: bool)
    requires Sound(s) && Tidy(s) && from in s && to in s && s[to].container && x in s && InHeap(s, tradeItem)
    ensures var p, d := PlanOf(s, from, to, index, x, count, carrier, tradeItem, ignoreAutoStack), Settled(s, to, index, x, ignoreAutoStack);
      && d.c in s && p.d == d
      && var room := RoomFor(s, d.c, d.index, x, false, count, carrier);
      var goes := Movable(s, from, to, index, x, count, carrier, tradeItem, ignoreAutoStack);
      && (p.m > 0 <==> goes)
      && (goes && s[x].face.kind.stackable ==> p.m == Least(count, room))
      && (p.ret == NoError <==> d.onto == x || (goes && (s[x].face.kind.stackable ==> count <= room)))
  {
    hide Forested, Holds, Settled, ParentsAgree, Weighted, SpareAt, AddAnswer, RemoveAnswer, RoomFor;
    var d := Settled(s, to, index, x, ignoreAutoStack);
    SettledPlace(s, to, index, x, ignoreAutoStack);
    AddAnswerIff(s, d.c, d.index, x, count, false, carrier);
    var room := RoomFor(s, d.c, d.index, x, false, count, carrier);
    RemoveAnswerIff(s, from, x, if s[x].face.kind.stackable && count < room then count else room, false);
    assert Neat(s[d.c]);
    if s[x].face.kind.pickupable && !Holds(s, x, d.c) {
      RoomIs(s, d.c, d.index, x, count, carrier);
    }
  }

  /** Exactly m units, of a stack, or the item with all inside it, have left from and are in to. */
  ghost predicate Carried(s: Heap, t: Heap, from: Item, to: Item, x: Item, m: nat)
    requires Forested(s) && Forested(t) && x in s
  {
    forall id: nat, y: Item | y in s && y in t ::
      UnitsIn(t, id, y) == UnitsIn(s, id, y) - (if Holds(s, y, from) then Leaving(s, id, x, m) else 0)
                             + (if Holds(t, y, to) then Leaving(s, id, x, m) else 0)
  }

  lemma MovedCarried(s: Heap, from: Item, to: Item, x: Item, onto: Item?, m: nat, copy: Item?, t: Heap)
    requires MayMove(s, from, to, x, onto, m, copy)
    requires var u := Moved(s, from, to, x, onto, m, copy); t == u || t == Marked(u, copy)
    ensures Forested(t) && Carried(s, t, from, to, x, m)
  {
    hide Forested, ParentsAgree, Holds, Total, Weighted, Moved, Leaving, Marked, Tidy, Merging;
    var u := Moved(s, from, to, x, onto, m, copy);
    MovedSound(s, from, to, x, onto, m, copy);
    MarkedSound(u, copy);
    forall id: nat, y: Item | y in s && y in t
      ensures UnitsIn(t, id, y) == UnitsIn(s, id, y) - (if Holds(s, y, from) then Leaving(s, id, x, m) else 0)
                                     + (if Holds(t, y, to) then Leaving(s, id, x, m) else 0)
    {
      MovedUnits(s, from, to, x, onto, m, copy, id, y);
      MarkedUnits(u, copy, id, y);
    }
  }

  // ---------------------------------------------------------------- the method

  /** The loop at the start of `Game::internalMoveItem`; it ends long before its bound. */
  method Settle(to: Item, index: int, x: Item, ignoreAutoStack: bool, ghost w: set<Item>) returns (d: Destination)
    requires to in w && x in w && Sound(Snap(w))
    ensures d == Settled(Snap(w), to, index, x, ignoreAutoStack) && d.c in w
  {
    hide Forested, Weighted, DestinationOf, ParentsAgree;
    ghost var s := Snap(w);
    var floorN := 0;
    DestinationIn(s, to, index, x, ignoreAutoStack);
    d := QueryDestination(to, index, x, ignoreAutoStack, w);
    var c := to;
    while d.c != c
      invariant floorN <= 1 && c in w && d.c in w
      invariant floorN == 0 ==> c == to && d == DestinationOf(s, to, index, x, ignoreAutoStack)
      invariant floorN == 1 ==> d.c == c && d == Settled(s, to, index, x, ignoreAutoStack)
      decreases MAP_MAX_LAYERS - floorN
    {
      c := d.c;
      floorN := floorN + 1;
      if floorN >= MAP_MAX_LAYERS {
        break;
      }
      WhereverStays(s, c, x, false);
      d := QueryDestination(c, d.index, x, false, w);
    }
  }

  method TakeOutOf(from: Item, x: Item, m: nat, ghost w: set<Item>)
    requires from in w && x in w && MayTake(Snap(w), from, x, m)
    modifies from`itemlist, x`parent, x`face, w`totalWeight
    ensures Snap(w) == Taken(old(Snap(w)), from, x, m)
  {
    hide Forested, ParentsAgree, Weighted, Tidy, Changed, RemovedItem;
    RemoveThing(from, x, m, w);
  }

  method PutOnto(to: Item, x: Item, onto: Item?, m: nat, ghost w: set<Item>) returns (n: nat)
    requires to in w && x in w && (onto != null ==> onto in w) && MayMerge(Snap(w), to, x, onto)
    modifies w`face, w`totalWeight
    ensures Snap(w) == Merged(old(Snap(w)), x, onto, m)
    ensures n == Merging(old(x.face), FaceAt(old(Snap(w)), onto), m)
  {
    hide Forested, ParentsAgree, Weighted, Changed;
    n := 0;
    if onto != null && x.face.kind.stackable && Equals(x.face, onto.face) {
      assert Neat(Snap(w)[onto]);
      n := if STACK_SIZE - onto.face.count < m then STACK_SIZE - onto.face.count else m;
      UpdateThing(to, onto, onto.face.kind, onto.face.count + n, w);
    }
  }

  /** What `Item::clone` queues for decay: a copy with time left. */
  function CloneQueue(x: Face, moveItem: Item?): seq<Item> {
    if x.kind.stackable && moveItem != null && TimeLeft(x.attrs) > 0 then [moveItem] else []
  }

  /** The attributes of what arrives: the item's own, or of a stack the copy's. */
  function ArrivingAttributes(x: Face): Attributes {
    if x.kind.stackable then CloneAttributes(x.attrs, NewAttributes(x.kind, x.count)) else x.attrs
  }

  /** What a move queues for decay, the latest first: what arrives, if it is not registered; and the copy, as it is made. */
  function MoveQueue(x: Face, moveItem: Item?, ret: Answer): seq<Item> {
    var a := ArrivingAttributes(x);
    (if ret == NoError && moveItem != null && TimeLeft(a) > 0 && a.decaying != Some(Items.DECAYING_TRUE) then [moveItem] else [])
      + CloneQueue(x, moveItem)
  }

  /**
   What a copy of a stack is: as many as asked for, of the same type, with the same attributes but that it is marked as
   decaying if it has time left; and of a stack without attributes, as one newly made.
   */
  lemma CopyIs(x: Face, n: nat)
    requires PlainStack(x.kind)
    ensures var c := CloneFace(x, n);
      var lasts := x.attrs.duration.Some? && x.attrs.duration.value % 0x1_0000_0000 > 0;
      && c.kind == x.kind && c.count == n
      && (x.attrs.present ==> c.attrs == x.attrs.(decaying := if lasts then Some(1) else x.attrs.decaying))
      && (!x.attrs.present && x.kind.decayTime == 0 ==> c.attrs == Attributes(false, None, None, None, None, None, None, 0))
      && (!x.attrs.present && x.kind.decayTime > 0 ==>
            c.attrs == Attributes(true, None, Some(1000 * x.kind.decayTime), None, None, None, None, 0))
  {
  }

  /**
   What is queued: an item moved whole if it has time left and is not marked as decaying, unless not all asked for
   could be moved; the copy of a stack with time left, in any case.
   */
  lemma MoveQueueIs(x: Face, moveItem: Item, ret: Answer)
    ensures var lasts := x.attrs.present && x.attrs.duration.Some? && x.attrs.duration.value % 0x1_0000_0000 > 0;
      && (!x.kind.stackable ==> MoveQueue(x, moveItem, ret) == if ret == NoError && lasts && x.attrs.decaying != Some(1) then [moveItem] else [])
      && (x.kind.stackable && x.attrs.present ==> MoveQueue(x, moveItem, ret) == if lasts then [moveItem] else [])
      && (PlainStack(x.kind) && !x.attrs.present ==>
            MoveQueue(x, moveItem, ret) == if ret == NoError && 1000 * x.kind.decayTime % 0x1_0000_0000 > 0 then [moveItem] else [])
  {
  }

  /** A move queues at most one item, once, and none that is registered already. */
  lemma MoveQueuesOnce(x: Face, moveItem: Item?, ret: Answer)
    ensures |MoveQueue(x, moveItem, ret)| <= 1
    ensures !x.kind.stackable && x.attrs.decaying == Some(Items.DECAYING_TRUE) ==> MoveQueue(x, moveItem, ret) == []
  {
  }

  method PutInto(to: Item, index: int, x: Item, k: nat, ghost w: set<Item>)
    returns (moveItem: Item?, queued: seq<Item>, ghost w': set<Item>)
    requires to in w && x in w && index < to.maxSize
    requires RoomToArrive(Snap(w), to, x, k)
    modifies w`itemlist, w`parent, w`totalWeight
    ensures w' == if moveItem == null then w else w + {moveItem}
    ensures moveItem != null && moveItem !in w ==> fresh(moveItem)
    ensures if x.face.kind.stackable then (moveItem == null <==> k == 0) else moveItem == x
    ensures queued == CloneQueue(x.face, moveItem)
    ensures MayArrive(old(Snap(w)), to, x, k, moveItem) && x.face == old(x.face)
    ensures Snap(w') == Arrived(old(Snap(w)), to, x, k, moveItem)
  {
    hide Sound, MayAttach, Added, Tidy;
    ghost var s := Snap(w);
    w', queued := w, [];
    if x.face.kind.stackable {
      moveItem := null;
      if k > 0 {
        moveItem := new Item(CloneFace(x.face, k), false, 0);
        if TimeLeft(x.face.attrs) > 0 {
          queued := [moveItem];
        }
        assert Snap(w) == s;
        assert MayArrive(s, to, x, k, moveItem);
        w' := w + {moveItem};
        assert Snap(w') == Enlarged(s, moveItem, CloneFace(x.face, k));
        CopyMayAttach(s, to, CloneFace(x.face, k), moveItem);
        AddThing(to, index, moveItem, w');
      }
    } else {
      moveItem := x;
      assert w + {moveItem} == w;
      AddThing(to, index, x, w);
    }
  }

  /** The checks of `Game::internalMoveItem`: the answer, how much moves, and where to. */
  method Checks(from: Item, to: Item, index: int, x: Item, count: nat, carrier: nat -> bool, tradeItem: Item?,
      ignoreAutoStack: bool, ghost w: set<Item>) returns (ret: Answer, m: nat, d: Destination)
    requires from in w && to in w && to.container && x in w && (tradeItem != null ==> tradeItem in w)
    requires Sound(Snap(w)) && Tidy(Snap(w))
    ensures Plan(ret, m, d) == PlanOf(Snap(w), from, to, index, x, count, carrier, tradeItem, ignoreAutoStack) && d.c in w
  {
    hide Forested, ParentsAgree, Weighted, Tidy, Holds, Settled, RoomFor, AddAnswer;
    ghost var s := Snap(w);
    SettledIn(s, to, index, x, ignoreAutoStack);
    m := 0;
    d := Settle(to, index, x, ignoreAutoStack, w);
    if x == d.onto {
      ret := NoError;
      return;
    }
    ret := QueryAdd(d.c, d.index, x, count, false, carrier, w);
    if ret != NoError {
      return;
    }
    var retMaxCount, maxQueryCount := QueryMaxCount(d.c, d.index, x, count, false, carrier, w);
    if retMaxCount != NoError && maxQueryCount == 0 {
      ret := retMaxCount;
      return;
    }
    var n := if x.face.kind.stackable && count < maxQueryCount then count else maxQueryCount;
    ret := QueryRemove(from, x, n, false, w);
    if ret != NoError {
      return;
    }
    if tradeItem != null {
      var inTrade := IsAround(d.c, tradeItem, w);
      if inTrade {
        ret := NotEnoughRoom;
        return;
      }
    }
    m := n;
    if x.face.kind.stackable && maxQueryCount < count {
      ret := retMaxCount;
    }
  }

  /**
   `Game::internalMoveItem` between containers. The checks decide what moves; the heap then is what the
   move makes of it, or is left alone. What has arrived, the item or a copy, is registered for decay, unless
   not all that was asked for could be moved.
   */
  method InternalMoveItem(from: Item, to: Item, index: int, x: Item, count: nat, carrier: nat -> bool, tradeItem: Item?,
      ignoreAutoStack: bool, ghost w: set<Item>)
    returns (ret: Answer, moved: nat, moveItem: Item?, queued: seq<Item>, ghost w': set<Item>)
    requires from in w && to in w && to.container && x in w && (tradeItem != null ==> tradeItem in w)
    requires Sound(Snap(w)) && Tidy(Snap(w))
    modifies w`itemlist, w`parent, w`face, w`totalWeight
    ensures w <= w' && fresh(w' - w)
    ensures var p := PlanOf(old(Snap(w)), from, to, index, x, count, carrier, tradeItem, ignoreAutoStack);
      && ret == p.ret && moved == p.m
      && (p.m == 0 ==> w' == w && Snap(w) == old(Snap(w)) && queued == [])
      && (p.m > 0 ==> && queued == MoveQueue(old(x.face), moveItem, ret) && MayMove(old(Snap(w)), from, p.d.c, x, p.d.onto, p.m, moveItem)
                      && Arriving(old(Snap(w)), x, p.d.onto, p.m, moveItem)
                      && var t := Moved(old(Snap(w)), from, p.d.c, x, p.d.onto, p.m, moveItem);
                         Snap(w') == if ret == NoError then Marked(t, moveItem) else t)
    ensures Sound(Snap(w')) && Tidy(Snap(w'))
    ensures var s := old(Snap(w));
      var d := Settled(s, to, index, x, ignoreAutoStack);
      && d.c in s
      && var room := RoomFor(s, d.c, d.index, x, false, count, carrier);
      && (moved > 0 <==> Movable(s, from, to, index, x, count, carrier, tradeItem, ignoreAutoStack))
      && (moved > 0 ==> (s[x].face.kind.stackable ==> moved == Least(count, room)) && Carried(s, Snap(w'), from, d.c, x, moved))
      && (ret == NoError <==> d.onto == x || (moved > 0 && (s[x].face.kind.stackable ==> count <= room)))
  {
    hide Forested, ParentsAgree, Weighted, Tidy, Holds, PlanOf, CanMove, Moved, MayMove, Movable, Settled, RoomFor, Carried;
    ghost var s := Snap(w);
    PlanMoves(s, from, to, index, x, count, carrier, tradeItem, ignoreAutoStack);
    PlanIff(s, from, to, index, x, count, carrier, tradeItem, ignoreAutoStack);
    w', moveItem, queued := w, null, [];
    var d;
    ret, moved, d := Checks(from, to, index, x, count, carrier, tradeItem, ignoreAutoStack, w);
    if moved > 0 {
      moveItem, queued, w' := CarryOut(from, d, x, moved, w);
      if ret == NoError {
        MarkedSound(Snap(w'), moveItem);
        if moveItem != null {
          if TimeLeft(moveItem.face.attrs) > 0 && moveItem.face.attrs.decaying != Some(Items.DECAYING_TRUE) {
            queued := [moveItem] + queued;
          }
          Register(moveItem, w');
        }
      }
      MovedCarried(s, from, d.c, x, d.onto, moved, moveItem, Snap(w'));
    }
  }

  /** What is put into the destination: x itself, or of a stack a copy, if anything is left of it. */
  ghost predicate Arriving(s: Heap, x: Item, onto: Item?, m: nat, moveItem: Item?)
    requires x in s
  {
    if !s[x].face.kind.stackable then moveItem == x
    else moveItem == null <==> m == Merging(s[x].face, FaceAt(s, onto), m)
  }

  // Taking out and merging leave an item's type and attributes.
  lemma TakenFaces(s: Heap, from: Item, to: Item, x: Item, onto: Item?, m: nat)
    requires CanMove(s, from, to, x, onto, m)
    ensures var s1 := Taken(s, from, x, m);
      MayMerge(s1, to, x, onto) && x in Merged(s1, x, onto, m)
      && Merged(s1, x, onto, m)[x].face.kind == s[x].face.kind && Merged(s1, x, onto, m)[x].face.attrs == s[x].face.attrs
    ensures s[x].face.kind.stackable ==> PlainStack(s[x].face.kind)
  {
    hide Taken, Merged, Tidy, Forested, ParentsAgree, Weighted, Holds;
    MayMoveSteps(s, from, to, x, onto, m);
    TidyAt(s, x);
    TakenAttrs(s, from, x, m);
    MergedCell(Taken(s, from, x, m), to, x, onto, m, x);
  }

  lemma ArrivedFace(s: Heap, to: Item, x: Item, k: nat, moveItem: Item?)
    requires MayArrive(s, to, x, k, moveItem)
    requires if s[x].face.kind.stackable then (moveItem == null <==> k == 0) else moveItem == x
    ensures var t := Arrived(s, to, x, k, moveItem);
      moveItem != null ==> moveItem in t && t[moveItem].face.attrs == ArrivingAttributes(s[x].face)
  {
    hide Sound, Tidy, Arrived, MayAttach;
    ArrivedCopy(s, to, x, k, moveItem);
    ArrivedCell(s, to, x, k, moveItem, x);
  }

  // Of a stack's type the count does not matter for the attributes it is created with.
  lemma SameArriving(x: Face, y: Face)
    requires y.kind == x.kind && y.attrs == x.attrs && (x.kind.stackable ==> PlainStack(x.kind))
    ensures ArrivingAttributes(y) == ArrivingAttributes(x)
    ensures forall m: Item? :: CloneQueue(y, m) == CloneQueue(x, m)
  {
  }

  method CarryOut(from: Item, d: Destination, x: Item, m: nat, ghost w: set<Item>)
    returns (moveItem: Item?, queued: seq<Item>, ghost w': set<Item>)
    requires from in w && d.c in w && x in w && CanMove(Snap(w), from, d.c, x, d.onto, m) && d.index < d.c.maxSize
    modifies w`itemlist, w`parent, w`face, w`totalWeight
    ensures w <= w' && fresh(w' - w) && (moveItem != null ==> moveItem in w') && x.face.kind == old(x.face.kind)
    ensures MayMove(old(Snap(w)), from, d.c, x, d.onto, m, moveItem) && Arriving(old(Snap(w)), x, d.onto, m, moveItem)
    ensures Snap(w') == Moved(old(Snap(w)), from, d.c, x, d.onto, m, moveItem)
    ensures Sound(Snap(w')) && Tidy(Snap(w'))
    ensures queued == CloneQueue(old(x.face), moveItem)
    ensures moveItem != null ==> moveItem.face.attrs == ArrivingAttributes(old(x.face))
  {
    hide Forested, ParentsAgree, Weighted, Tidy, Holds, Taken, Merged, Arrived, Merging, TimeLeft, CloneFace;
    ghost var s := Snap(w);
    TakenFaces(s, from, d.c, x, d.onto, m);
    MayMoveSteps(s, from, d.c, x, d.onto, m);
    TakeOutOf(from, x, m, w);
    var n := PutOnto(d.c, x, d.onto, m, w);
    ghost var s2 := Snap(w);
    moveItem, queued, w' := PutInto(d.c, d.index, x, m - n, w);
    ArrivedFace(s2, d.c, x, m - n, moveItem);
    SameArriving(s[x].face, s2[x].face);
    assert MayMove(s, from, d.c, x, d.onto, m, moveItem);
    MovedSound(s, from, d.c, x, d.onto, m, moveItem);
  }

  // ---------------------------------------------------------------- removing

  /**
   `Game::internalRemoveItem`; without a count, all of the item. canRemove is the answer of the item's own
   class, which is no for a bed in a house and for what holds a depot.
   */
  method InternalRemoveItem(x: Item, count: Option<nat>, canRemove: bool, test: bool, ghost w: set<Item>) returns (ret: Answer)
    requires x in w && Sound(Snap(w)) && Tidy(Snap(w))
    modifies w`itemlist, x`parent, x`face, w`totalWeight
    ensures var s := old(Snap(w));
      var m := if count.Some? then count.value else s[x].face.count;
      if s[x].parent == null then ret == NotPossible && Snap(w) == s
      else
        && s[x].parent in s
        && ret == (if RemoveAnswer(s, s[x].parent, x, m, true) == NoError && !canRemove then NotPossible else RemoveAnswer(s, s[x].parent, x, m, true))
        && (ret != NoError || test ==> Snap(w) == s)
        && (ret == NoError ==> MayTake(s, s[x].parent, x, m) && (!test ==> Snap(w) == Taken(s, s[x].parent, x, m)))
  {
    hide Forested, Weighted, Taken, ParentsAgree, Tidy;
    var cylinder := x.parent;
    if cylinder == null {
      return NotPossible;
    }
    ParentLists(Snap(w), x);
    var m := if count.Some? then count.value else x.face.count;
    ret := QueryRemove(cylinder, x, m, true, w);
    if ret != NoError {
      return;
    }
    if !canRemove {
      return NotPossible;
    }
    if !test {
      TakeOutOf(cylinder, x, m, w);
    }
  }
}
