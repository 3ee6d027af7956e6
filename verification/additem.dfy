/**
 Putting a new item into a container at any place (src/game.cpp, `Game::internalAddItem` with its default
 index), below a carrier that refuses nothing: onto stacks with room first, the rest into a free slot.
 All of it is added, or none, for exactly those items whose copies are like them. A stack with time left that
 is not yet registered for decay is not: what is left of it after the first stack is a copy that is registered,
 which no longer stacks where the item itself did, and may be lost.
 */
module AddItem {
  import opened Bytes
  import opened Containers
  import opened ContainerQueries
  import opened MoveItem
  import opened Forests
  import Items

  const UNLIMITED: nat -> bool := (count: nat) => true

  /** An item without a place. */
  ghost predicate Addable(s: Heap, to: Item, x: Item) {
    Sound(s) && Tidy(s) && to in s && x in s && s[to].container && s[x].parent == null
  }

  /**
   Whether copies of a stack have its attributes: it has no time left, or is registered for decay already; and
   one without attributes is as it was created.
   */
  predicate CopiesAlike(x: Face) {
    if x.attrs.present then TimeLeft(x.attrs) == 0 || x.attrs.decaying == Some(Items.DECAYING_TRUE)
    else x.attrs == NewAttributes(x.kind, x.count)
  }

  lemma CopiesAlikeIff(x: Face, n: nat)
    ensures CopiesAlike(x) <==> CloneFace(x, n).attrs == x.attrs
  {
  }

  ghost function Place(s: Heap, to: Item, x: Item): Destination
    requires ParentsAgree(s) && to in s && x in s
  {
    DestinationOf(s, to, INDEX_WHEREEVER, x, false)
  }

  /** When the item is accepted: it can be picked up, it is not around the container, and there is room for all of it. */
  ghost predicate Accepts(s: Heap, to: Item, x: Item)
    requires Forested(s) && ParentsAgree(s) && to in s && x in s
  {
    && AddAnswer(s, to, Place(s, to, x).index, x, s[x].face.count, false, UNLIMITED) == NoError
    && (if s[x].face.kind.stackable then RoomFor(s, to, INDEX_WHEREEVER, x, false, s[x].face.count, UNLIMITED) >= s[x].face.count
        else FreeSlots(s, to) > 0)
  }

  /**
   Everything is as it was but the container, which lists more, items of x's kind in it, which may have
   grown, and x, which may have been registered for decay.
   */
  ghost predicate Framed(s: Heap, t: Heap, to: Item, x: Item) {
    forall y <- s :: y in t && FramedAt(s, t, to, x, y)
  }

  ghost predicate FramedAt(s: Heap, t: Heap, to: Item, x: Item, y: Item)
    requires y in s && y in t
  {
    && (y != to ==> t[y].items == s[y].items)
    && (y != x ==> t[y].parent == s[y].parent)
    && t[y].face.kind == s[y].face.kind && SameOutside(t[y], s[y])
    && (y == x ==> t[x].face == s[x].face || t[x].face == s[x].face.(attrs := Registered(s[x].face.attrs)))
    && (y != x && ((to in s && y !in s[to].items) || (x in s && s[y].face.kind != s[x].face.kind)) ==> t[y].face == s[y].face)
    && (forall z <- s[y].items :: z in t[y].items)
  }

  /** What the container gains: x with what is inside it, but for the units lost. */
  ghost function Brought(s: Heap, id: nat, x: Item, lost: nat): int
    requires Forested(s) && x in s
  {
    UnitsOf(id, s[x].face) + UnitsIn(s, id, x) - (if s[x].face.kind.id == id then lost else 0)
  }

  ghost predicate Gained(s: Heap, t: Heap, to: Item, x: Item, lost: nat)
    requires Forested(s) && Forested(t) && x in s
  {
    forall y, id | y in s && y in t :: GainedAt(s, t, to, x, lost, y, id)
  }

  ghost predicate GainedAt(s: Heap, t: Heap, to: Item, x: Item, lost: nat, y: Item, id: nat)
    requires Forested(s) && Forested(t) && x in s && y in s && y in t
  {
    UnitsIn(t, id, y) == UnitsIn(s, id, y) + (if Holds(s, y, to) then Brought(s, id, x, lost) else 0)
  }

  /** Everything of x but the units lost is now in the container, and nothing else is. */
  ghost predicate AddedBut(s: Heap, t: Heap, to: Item, x: Item, lost: nat)
    requires Forested(s) && x in s
  {
    Sound(t) && Tidy(t) && Framed(s, t, to, x) && Gained(s, t, to, x, lost) && CopiesOnly(s, t, x)
  }

  ghost predicate AllAdded(s: Heap, t: Heap, to: Item, x: Item)
    requires Forested(s) && x in s
  {
    AddedBut(s, t, to, x, 0)
  }

  /** Whatever is new is of x's kind. */
  ghost predicate CopiesOnly(s: Heap, t: Heap, x: Item)
    requires x in s
  {
    forall y <- t :: y !in s ==> t[y].face.kind == s[x].face.kind
  }

  // ---------------------------------------------------------------- where it goes

  lemma PlaceIs(s: Heap, to: Item, x: Item)
    requires ParentsAgree(s) && to in s && x in s && s[x].parent == null
    ensures forall y <- s[to].items :: y in s
    ensures var d, n := Place(s, to, x), FirstStack(s, s[to].items, x);
      && d.c == to
      && (if s[x].face.kind.stackable && n < |s[to].items| then d.index == n && d.onto == s[to].items[n]
          else d.index == INDEX_WHEREEVER && d.onto == null)
  {
    ItemsInHeap(s, to);
  }

  // Room on some stack means there is a first stack with room.
  lemma {:induction false} SpareMeansStack(s: Heap, c: Item, l: seq<Item>, x: Item)
    requires Forested(s) && c in s && x in s && forall y <- l :: y in s
    ensures SpareOnAll(s, c, l, x, UNLIMITED) > 0 ==> FirstStack(s, l, x) < |l|
  {
    hide Forested, Holds;
    if l != [] {
      SpareMeansStack(s, c, l[1..], x);
    }
  }

  // ---------------------------------------------------------------- into a free slot

  lemma SlotMay(s: Heap, to: Item, x: Item)
    requires Addable(s, to, x) && Accepts(s, to, x) && Place(s, to, x).index == INDEX_WHEREEVER
    ensures MayAttach(s, to, x) && s[to].maxSize > 0
  {
    hide Forested, Weighted, ParentsAgree, Holds, RoomFor;
  }

  lemma SlotAdds(s: Heap, to: Item, x: Item)
    requires Addable(s, to, x) && MayAttach(s, to, x) && |s[to].items| < s[to].maxSize
    ensures AllAdded(s, Added(s, to, x, 0), to, x)
  {
    hide Forested, Weighted, ParentsAgree, Holds, Total, Added;
    var t := Added(s, to, x, 0);
    AddedSound(s, to, x, 0);
    AddedCell(s, to, x, to);
    forall y <- t
      ensures Neat(t[y])
    {
      AddedCell(s, to, x, y);
      assert Neat(s[y]);
    }
    forall y <- s
      ensures y in t && FramedAt(s, t, to, x, y)
    {
      AddedCell(s, to, x, y);
    }
    forall y, id | y in s && y in t
      ensures GainedAt(s, t, to, x, 0, y, id)
    {
      AddedTotal(s, to, x, 0, (z: Face) => UnitsOf(id, z), y);
    }
  }

  // Being registered for decay changes nothing of this.
  lemma MarkedAdds(s: Heap, t: Heap, to: Item, x: Item, lost: nat)
    requires Addable(s, to, x) && AddedBut(s, t, to, x, lost)
    ensures AddedBut(s, Marked(t, x), to, x, lost)
  {
    hide Forested, Weighted, ParentsAgree, Holds, Total, Tidy, Marked;
    var u := Marked(t, x);
    assert FramedAt(s, t, to, x, x);
    MarkedSound(t, x);
    MarkedCell(t, x, x);
    forall y <- s
      ensures y in u && FramedAt(s, u, to, x, y)
    {
      assert FramedAt(s, t, to, x, y);
      MarkedCell(t, x, y);
    }
    forall y <- u | y !in s
      ensures u[y].face.kind == s[x].face.kind
    {
      MarkedCell(t, x, y);
    }
    forall y, id | y in s && y in u
      ensures GainedAt(s, u, to, x, lost, y, id)
    {
      MarkedUnits(t, x, id, y);
      assert GainedAt(s, t, to, x, lost, y, id);
    }
  }

  // ---------------------------------------------------------------- onto a stack

  ghost predicate OntoStack(s: Heap, to: Item, x: Item, y: Item) {
    Addable(s, to, x) && s[x].face.kind.stackable && y in s && y in s[to].items && StacksIn(s, y, x)
  }

  lemma OntoMerges(s: Heap, to: Item, x: Item, y: Item)
    requires OntoStack(s, to, x, y)
    ensures MayMerge(s, to, x, y) && x !in s[to].items && x != to && !s[x].container
    ensures var n, c := Merging(s[x].face, Some(s[y].face), s[x].face.count), s[x].face.count;
      n <= c && (n < c ==> s[y].face.count + n == STACK_SIZE)
  {
    hide Forested, Weighted;
    ItemsInHeap(s, to);
    assert Neat(s[x]) && LinkedDown(s, to);
  }

  /** All of x goes onto y. */
  lemma MergeAdds(s: Heap, to: Item, x: Item, y: Item)
    requires OntoStack(s, to, x, y) && Merging(s[x].face, Some(s[y].face), s[x].face.count) == s[x].face.count
    ensures MayMerge(s, to, x, y) && AllAdded(s, Merged(s, x, y, s[x].face.count), to, x)
  {
    hide Forested, Weighted, ParentsAgree, Holds, Total, Merged;
    OntoMerges(s, to, x, y);
    var m := s[x].face.count;
    var t := Merged(s, x, y, m);
    MergedSound(s, to, x, y, m);
    MergedTidy(s, to, x, y, m);
    MergedCell(s, to, x, y, m, to);
    forall p <- s
      ensures p in t && FramedAt(s, t, to, x, p)
    {
      MergedCell(s, to, x, y, m, p);
    }
    forall p, id | p in s && p in t
      ensures GainedAt(s, t, to, x, 0, p, id)
    {
      MergedUnits(s, to, x, y, m, id, p);
      StackIsEmpty(s, x, (z: Face) => UnitsOf(id, z));
    }
  }

  /** The heap once y is full and a copy z has what is left of x. */
  ghost function Split(s: Heap, to: Item, x: Item, y: Item, z: Item): Heap
    requires OntoStack(s, to, x, y)
  {
    var n := Merging(s[x].face, Some(s[y].face), s[x].face.count);
    OntoMerges(s, to, x, y);
    Enlarged(Merged(s, x, y, s[x].face.count), z, CloneFace(s[x].face, s[x].face.count - n))
  }

  ghost predicate MaySplit(s: Heap, to: Item, x: Item, y: Item, z: Item) {
    OntoStack(s, to, x, y) && z !in s && Merging(s[x].face, Some(s[y].face), s[x].face.count) < s[x].face.count
  }

  lemma SplitCell(s: Heap, to: Item, x: Item, y: Item, z: Item, p: Item)
    requires OntoStack(s, to, x, y) && z !in s && p in s
    ensures var t := Split(s, to, x, y, z);
      && t.Keys == s.Keys + {z} && SameOutside(t[p], s[p]) && t[p].items == s[p].items && t[p].parent == s[p].parent
      && (p != y ==> t[p].face == s[p].face) && t[p].face.kind == s[p].face.kind
      && t[y].face.count == s[y].face.count + Merging(s[x].face, Some(s[y].face), s[x].face.count)
  {
    hide Sound, Merged, Tidy;
    OntoMerges(s, to, x, y);
    MergedCell(s, to, x, y, s[x].face.count, p);
    MergedCell(s, to, x, y, s[x].face.count, y);
  }

  lemma SplitBase(s: Heap, to: Item, x: Item, y: Item, z: Item)
    requires MaySplit(s, to, x, y, z)
    ensures MayMerge(s, to, x, y)
    ensures var s1 := Merged(s, x, y, s[x].face.count);
      Sound(s1) && Tidy(s1) && to in s1 && s1[to].container && z !in s1
    ensures Split(s, to, x, y, z) == Enlarged(Merged(s, x, y, s[x].face.count), z,
      CloneFace(s[x].face, s[x].face.count - Merging(s[x].face, Some(s[y].face), s[x].face.count)))
  {
    hide Forested, Weighted, ParentsAgree, Merged, Enlarged, Tidy;
    OntoMerges(s, to, x, y);
    MergedSound(s, to, x, y, s[x].face.count);
    MergedTidy(s, to, x, y, s[x].face.count);
    MergedCell(s, to, x, y, s[x].face.count, to);
  }

  lemma SplitAddable(s: Heap, to: Item, x: Item, y: Item, z: Item)
    requires MaySplit(s, to, x, y, z)
    ensures Addable(Split(s, to, x, y, z), to, z) && !Holds(Split(s, to, x, y, z), z, to)
  {
    hide Forested, Weighted, ParentsAgree, Holds, Merged, Tidy, Split, MayMerge;
    SplitBase(s, to, x, y, z);
    TidyAt(s, x);
    var m, n := s[x].face.count, Merging(s[x].face, Some(s[y].face), s[x].face.count);
    var s1, face := Merged(s, x, y, m), CloneFace(s[x].face, m - n);
    hide Merging;
    EnlargedSound(s1, z, face);
    EnlargedAlone(s1, z, face, OwnWeight, to);
    EnlargedTidy(s1, z, face);
  }

  lemma EnlargedTidy(s: Heap, z: Item, face: Face)
    requires Tidy(s) && (face.kind.stackable ==> face.count <= STACK_SIZE && PlainStack(face.kind))
    ensures Tidy(Enlarged(s, z, face))
  {
    var t := Enlarged(s, z, face);
    forall p <- t
      ensures Neat(t[p])
    {
      if p != z {
        assert Neat(s[p]);
      }
    }
  }

  // Filling y costs no more room than y had.
  lemma {:induction false} SpareDrops(s: Heap, to: Item, x: Item, y: Item, z: Item, l: seq<Item>)
    requires MaySplit(s, to, x, y, z) && CopiesAlike(s[x].face) && (forall p <- l :: p in s) && NoDuplicates(l)
    ensures var t := Split(s, to, x, y, z);
      && Forested(t) && to in t && z in t && (forall p <- l :: p in t)
      && SpareOnAll(t, to, l, z, UNLIMITED) + (if y in l then STACK_SIZE - s[y].face.count else 0) >= SpareOnAll(s, to, l, x, UNLIMITED)
  {
    hide Forested, Weighted, ParentsAgree, Holds, Split, Tidy;
    var t := Split(s, to, x, y, z);
    SplitAddable(s, to, x, y, z);
    SplitCell(s, to, x, y, z, to);
    if l != [] {
      var p := l[0];
      SpareDrops(s, to, x, y, z, l[1..]);
      SplitCell(s, to, x, y, z, p);
      SplitKind(s, to, x, y, z);
      OntoMerges(s, to, x, y);
      if p != y {
        assert SpareOn(t, to, p, z, UNLIMITED) >= SpareOn(s, to, p, x, UNLIMITED);
      }
    }
  }

  lemma ListsOnce(s: Heap, c: Item)
    requires Forested(s) && c in s
    ensures NoDuplicates(s[c].items)
  {
    assert Kids(s)[c] == s[c].items;
  }

  lemma SplitKind(s: Heap, to: Item, x: Item, y: Item, z: Item)
    requires MaySplit(s, to, x, y, z)
    ensures var t := Split(s, to, x, y, z);
      z in t && t[z].parent == null && t[z].items == []
      && t[z].face == CloneFace(s[x].face, s[x].face.count - Merging(s[x].face, Some(s[y].face), s[x].face.count))
      && (CopiesAlike(s[x].face) ==> t[z].face.attrs == s[x].face.attrs)
  {
    hide Sound, Merged, Tidy;
  }

  // Copies of copies are alike too.
  lemma SplitAlike(s: Heap, to: Item, x: Item, y: Item, z: Item)
    requires MaySplit(s, to, x, y, z) && CopiesAlike(s[x].face)
    ensures z in Split(s, to, x, y, z) && CopiesAlike(Split(s, to, x, y, z)[z].face)
  {
    TidyAt(s, x);
    hide Sound, Merged, Tidy, Split;
    SplitKind(s, to, x, y, z);
  }

  /** What is left of x is accepted in its turn, if the copy is like it. */
  lemma SplitAccepts(s: Heap, to: Item, x: Item, y: Item, z: Item)
    requires MaySplit(s, to, x, y, z) && Accepts(s, to, x) && CopiesAlike(s[x].face)
    ensures Addable(Split(s, to, x, y, z), to, z) && Accepts(Split(s, to, x, y, z), to, z)
  {
    hide Forested, Weighted, ParentsAgree, Holds, Split, Tidy, SpareOnAll, FirstStack, CopiesAlike;
    var t := Split(s, to, x, y, z);
    SplitAddable(s, to, x, y, z);
    SplitCell(s, to, x, y, z, to);
    SplitKind(s, to, x, y, z);
    OntoMerges(s, to, x, y);
    ItemsInHeap(s, to);
    ListsOnce(s, to);
    SpareDrops(s, to, x, y, z, s[to].items);
    PlaceIs(t, to, z);
    SpareMeansStack(t, to, t[to].items, z);
  }

  lemma SplitUnits(s: Heap, to: Item, x: Item, y: Item, z: Item, p: Item, id: nat)
    requires MaySplit(s, to, x, y, z) && p in s
    ensures var t := Split(s, to, x, y, z);
      && Forested(t) && p in t && z in t && (Holds(t, p, to) <==> Holds(s, p, to))
      && UnitsIn(t, id, z) == 0
      && UnitsIn(t, id, p) == UnitsIn(s, id, p)
           + (if Holds(s, p, to) && s[x].face.kind.id == id then Merging(s[x].face, Some(s[y].face), s[x].face.count) else 0)
  {
    hide Forested, Weighted, ParentsAgree, Holds, Total, Merged, Tidy;
    OntoMerges(s, to, x, y);
    var m, n := s[x].face.count, Merging(s[x].face, Some(s[y].face), s[x].face.count);
    var s1, face, f := Merged(s, x, y, m), CloneFace(s[x].face, m - n), (q: Face) => UnitsOf(id, q);
    MergedCell(s, to, x, y, m, p);
    MergedUnits(s, to, x, y, m, id, p);
    EnlargedTotal(s1, z, face, f, p);
    EnlargedAlone(s1, z, face, f, z);
  }

  lemma SplitFramed(s: Heap, to: Item, x: Item, y: Item, z: Item, t: Heap)
    requires MaySplit(s, to, x, y, z)
    requires z in Split(s, to, x, y, z) && Framed(Split(s, to, x, y, z), t, to, z) && CopiesOnly(Split(s, to, x, y, z), t, z)
    ensures Framed(s, t, to, x) && CopiesOnly(s, t, x)
  {
    hide Forested, Weighted, ParentsAgree, Holds, Total, Split, Tidy;
    var s2 := Split(s, to, x, y, z);
    OntoMerges(s, to, x, y);
    SplitKind(s, to, x, y, z);
    SplitCell(s, to, x, y, z, to);
    forall p <- s
      ensures p in t && FramedAt(s, t, to, x, p)
    {
      SplitCell(s, to, x, y, z, p);
      assert p in s2 && FramedAt(s2, t, to, z, p);
    }
    forall p <- t | p !in s
      ensures t[p].face.kind == s[x].face.kind
    {
      if p in s2 {
        assert FramedAt(s2, t, to, z, p);
      }
    }
  }

  /** Adding the rest completes what filling y began. */
  lemma SplitAdds(s: Heap, to: Item, x: Item, y: Item, z: Item, t: Heap, lost: nat)
    requires MaySplit(s, to, x, y, z)
    requires Forested(Split(s, to, x, y, z)) && z in Split(s, to, x, y, z) && AddedBut(Split(s, to, x, y, z), t, to, z, lost)
    ensures AddedBut(s, t, to, x, lost)
  {
    hide Forested, Weighted, ParentsAgree, Holds, Total, Split, Tidy, Framed, CopiesOnly;
    var s2 := Split(s, to, x, y, z);
    SplitFramed(s, to, x, y, z, t);
    OntoMerges(s, to, x, y);
    SplitKind(s, to, x, y, z);
    forall p, id | p in s && p in t
      ensures GainedAt(s, t, to, x, lost, p, id)
    {
      SplitUnits(s, to, x, y, z, p, id);
      StackIsEmpty(s, x, (q: Face) => UnitsOf(id, q));
      assert GainedAt(s2, t, to, z, lost, p, id);
    }
  }

  /** Without the rest, exactly the rest is lost. */
  lemma SplitLoses(s: Heap, to: Item, x: Item, y: Item, z: Item)
    requires MaySplit(s, to, x, y, z)
    ensures AddedBut(s, Split(s, to, x, y, z), to, x, s[x].face.count - Merging(s[x].face, Some(s[y].face), s[x].face.count))
  {
    hide Forested, Weighted, ParentsAgree, Holds, Total, Split, Tidy;
    var s2 := Split(s, to, x, y, z);
    SplitAddable(s, to, x, y, z);
    OntoMerges(s, to, x, y);
    SplitKind(s, to, x, y, z);
    SplitCell(s, to, x, y, z, to);
    forall p <- s
      ensures p in s2 && FramedAt(s, s2, to, x, p)
    {
      SplitCell(s, to, x, y, z, p);
    }
    var lost := s[x].face.count - Merging(s[x].face, Some(s[y].face), s[x].face.count);
    forall p, id | p in s && p in s2
      ensures GainedAt(s, s2, to, x, lost, p, id)
    {
      SplitUnits(s, to, x, y, z, p, id);
      StackIsEmpty(s, x, (q: Face) => UnitsOf(id, q));
    }
  }

  // ---------------------------------------------------------------- what becomes of an accepted item

  lemma StackPlace(s: Heap, to: Item, x: Item)
    requires Addable(s, to, x)
    ensures var d := Place(s, to, x);
      && d.c == to
      && (d.onto == null ==> d.index == INDEX_WHEREEVER)
      && (d.onto != null ==> d.index < s[to].maxSize && OntoStack(s, to, x, d.onto))
  {
    PlaceIs(s, to, x);
    assert Neat(s[to]);
  }

  /** How the heap is in the end, and how many units have been lost on the way. */
  datatype Filing = Filing(heap: Heap, lost: nat)

  /** The stack x is put onto when it is too small for all of x. */
  ghost predicate Splits(s: Heap, to: Item, x: Item)
    requires Addable(s, to, x)
  {
    StackPlace(s, to, x);
    var y := Place(s, to, x).onto;
    y != null && Merging(s[x].face, Some(s[y].face), s[x].face.count) < s[x].face.count
  }

  /** What is left of x after the first stack, as the copy z, and the heap then. */
  ghost function Rest(s: Heap, to: Item, x: Item, z: Item): (t: Heap)
    requires Addable(s, to, x) && Splits(s, to, x) && z !in s
    ensures Addable(t, to, z)
  {
    StackPlace(s, to, x);
    var y := Place(s, to, x).onto;
    SplitAddable(s, to, x, y, z);
    Split(s, to, x, y, z)
  }

  /** Copies are made of these new objects: just as many as it takes. */
  ghost predicate Supplied(s: Heap, to: Item, x: Item, copies: seq<Item>)
    requires Addable(s, to, x)
    decreases |copies|
  {
    if !Splits(s, to, x) then copies == []
    else
      && copies != [] && copies[0] !in s
      && var t := Rest(s, to, x, copies[0]);
      if Accepts(t, to, copies[0]) then Supplied(t, to, copies[0], copies[1..]) else |copies| == 1
  }

  /**
   What becomes of an item that is accepted: into a free slot; onto a stack; or onto a stack as far as it goes,
   and the rest, a copy, the same way again, or lost if it is not accepted.
   */
  ghost function Filed(s: Heap, to: Item, x: Item, copies: seq<Item>): Filing
    requires Addable(s, to, x) && Accepts(s, to, x) && Supplied(s, to, x, copies)
    decreases |copies|
  {
    StackPlace(s, to, x);
    var y := Place(s, to, x).onto;
    if y == null then
      SlotMay(s, to, x);
      Filing(Marked(Added(s, to, x, 0), x), 0)
    else if !Splits(s, to, x) then
      OntoMerges(s, to, x, y);
      Filing(Marked(Merged(s, x, y, s[x].face.count), x), 0)
    else
      var t := Rest(s, to, x, copies[0]);
      if Accepts(t, to, copies[0]) then
        var f := Filed(t, to, copies[0], copies[1..]);
        Filing(Marked(f.heap, x), f.lost)
      else
        Filing(Marked(t, x), t[copies[0]].face.count)
  }

  /** All of x is in the container but what is lost, and nothing is lost of a stack whose copies are alike. */
  lemma {:induction false} FiledRight(s: Heap, to: Item, x: Item, copies: seq<Item>)
    requires Addable(s, to, x) && Accepts(s, to, x) && Supplied(s, to, x, copies)
    ensures var f := Filed(s, to, x, copies);
      && AddedBut(s, f.heap, to, x, f.lost) && f.lost <= s[x].face.count
      && (!s[x].face.kind.stackable || CopiesAlike(s[x].face) ==> f.lost == 0)
    decreases |copies|
  {
    hide Forested, Weighted, ParentsAgree, Holds, Accepts, Merged, Added, Split, Tidy, AddedBut, Marked, CopiesAlike, Merging;
    StackPlace(s, to, x);
    var y := Place(s, to, x).onto;
    if y == null {
      SlotFree(s, to, x);
      SlotAdds(s, to, x);
      MarkedAdds(s, Added(s, to, x, 0), to, x, 0);
    } else if !Splits(s, to, x) {
      OntoMerges(s, to, x, y);
      MergeAdds(s, to, x, y);
      MarkedAdds(s, Merged(s, x, y, s[x].face.count), to, x, 0);
    } else {
      FiledSplit(s, to, x, y, copies);
    }
  }

  lemma SlotFree(s: Heap, to: Item, x: Item)
    requires Addable(s, to, x) && Accepts(s, to, x) && Place(s, to, x).onto == null
    ensures MayAttach(s, to, x) && |s[to].items| < s[to].maxSize
  {
    hide Forested, Weighted, ParentsAgree, Holds, RoomFor;
    StackPlace(s, to, x);
    SlotMay(s, to, x);
  }

  lemma FiledSplit(s: Heap, to: Item, x: Item, y: Item, copies: seq<Item>)
    requires Addable(s, to, x) && Accepts(s, to, x) && Supplied(s, to, x, copies) && Splits(s, to, x) && y == Place(s, to, x).onto
    ensures var f := Filed(s, to, x, copies);
      && AddedBut(s, f.heap, to, x, f.lost) && f.lost <= s[x].face.count
      && (!s[x].face.kind.stackable || CopiesAlike(s[x].face) ==> f.lost == 0)
    decreases |copies|, 0
  {
    hide Forested, Weighted, ParentsAgree, Holds, Accepts, Tidy, AddedBut, Marked, CopiesAlike, Split, Place;
    StackPlace(s, to, x);
    var z := copies[0];
    assert MaySplit(s, to, x, y, z);
    var t := Rest(s, to, x, z);
    SplitKind(s, to, x, y, z);
    if CopiesAlike(s[x].face) {
      SplitAlike(s, to, x, y, z);
      SplitAccepts(s, to, x, y, z);
    }
    hide Merging, OntoStack;
    if Accepts(t, to, z) {
      var f := Filed(t, to, z, copies[1..]);
      FiledRight(t, to, z, copies[1..]);
      SplitAdds(s, to, x, y, z, f.heap, f.lost);
      MarkedAdds(s, f.heap, to, x, f.lost);
    } else {
      SplitLoses(s, to, x, y, z);
      MarkedAdds(s, t, to, x, t[z].face.count);
    }
  }

  /** What is reported as not added: the rest after the first stack, if it is lost; of a later loss nothing is heard. */
  ghost function Reported(s: Heap, to: Item, x: Item, copies: seq<Item>): nat
    requires Addable(s, to, x) && Supplied(s, to, x, copies)
  {
    if Splits(s, to, x) && !Accepts(Rest(s, to, x, copies[0]), to, copies[0]) then Rest(s, to, x, copies[0])[copies[0]].face.count
    else 0
  }

  /** What is reported is what is lost, if anything is reported at all; and it is if no rest was accepted on the way. */
  lemma ReportedIsLost(s: Heap, to: Item, x: Item, copies: seq<Item>)
    requires Addable(s, to, x) && Accepts(s, to, x) && Supplied(s, to, x, copies)
    ensures var lost := Filed(s, to, x, copies).lost;
      && (Reported(s, to, x, copies) == 0 || Reported(s, to, x, copies) == lost)
      && (!Splits(s, to, x) || !Accepts(Rest(s, to, x, copies[0]), to, copies[0]) ==> Reported(s, to, x, copies) == lost)
  {
    hide Forested, Weighted, ParentsAgree, Tidy, Accepts, Merged, Added, Marked;
  }

  /**
   What is put in front of the items waiting for the decay wheel, the latest first: x itself, if it has time left,
   whether it waits already or not; what adding the rest puts there; and the copy, as it is made.
   */
  ghost function Queueing(s: Heap, to: Item, x: Item, copies: seq<Item>): seq<Item>
    requires Addable(s, to, x) && Accepts(s, to, x) && Supplied(s, to, x, copies)
    decreases |copies|
  {
    var lasts := TimeLeft(s[x].face.attrs) > 0;
    var own := if lasts then [x] else [];
    if !Splits(s, to, x) then own
    else
      var t := Rest(s, to, x, copies[0]);
      own + (if Accepts(t, to, copies[0]) then Queueing(t, to, copies[0], copies[1..]) else [])
          + (if lasts then [copies[0]] else [])
  }

  /** Nothing is queued of what has no time left and whose copies are alike. */
  lemma {:induction false} NothingQueued(s: Heap, to: Item, x: Item, copies: seq<Item>)
    requires Addable(s, to, x) && Accepts(s, to, x) && Supplied(s, to, x, copies)
    requires TimeLeft(s[x].face.attrs) == 0 && (s[x].face.kind.stackable ==> CopiesAlike(s[x].face))
    ensures Queueing(s, to, x, copies) == []
    decreases |copies|
  {
    hide Forested, Weighted, ParentsAgree, Tidy, Accepts, Split, Place, Merging, TimeLeft;
    if Splits(s, to, x) {
      StackPlace(s, to, x);
      var z, y := copies[0], Place(s, to, x).onto;
      var t := Rest(s, to, x, z);
      SplitKind(s, to, x, y, z);
      SplitAlike(s, to, x, y, z);
      if Accepts(t, to, z) {
        NothingQueued(t, to, z, copies[1..]);
      }
    }
  }

  // Only the item and its copies are queued.
  lemma {:induction false} NotQueued(s: Heap, to: Item, x: Item, copies: seq<Item>, y: Item)
    requires Addable(s, to, x) && Accepts(s, to, x) && Supplied(s, to, x, copies) && y in s && y != x
    ensures y !in Queueing(s, to, x, copies) && y !in copies
    decreases |copies|
  {
    hide Forested, Weighted, ParentsAgree, Tidy, Accepts, Place, Splits, Rest;
    if Splits(s, to, x) {
      var z := copies[0];
      var t := Rest(s, to, x, z);
      RestKeeps(s, to, x, z, y);
      if Accepts(t, to, z) {
        NotQueued(t, to, z, copies[1..], y);
      }
      assert copies == [z] + copies[1..];
    }
  }

  lemma RestKeeps(s: Heap, to: Item, x: Item, z: Item, y: Item)
    requires Addable(s, to, x) && Splits(s, to, x) && z !in s && y in s
    ensures var t := Rest(s, to, x, z);
      y in t && z in t && (TimeLeft(s[x].face.attrs) > 0 ==> TimeLeft(t[z].face.attrs) == TimeLeft(s[x].face.attrs))
  {
    hide Forested, Weighted, ParentsAgree, Tidy, Split, Place, Merging;
    StackPlace(s, to, x);
    var q := Place(s, to, x).onto;
    SplitCell(s, to, x, q, z, y);
    SplitKind(s, to, x, q, z);
  }

  /** If nothing is lost of a stack with time left, each copy made on the way is queued exactly twice, and it once. */
  lemma {:induction false} CopiesQueuedTwice(s: Heap, to: Item, x: Item, copies: seq<Item>)
    requires Addable(s, to, x) && Accepts(s, to, x) && Supplied(s, to, x, copies)
    requires TimeLeft(s[x].face.attrs) > 0 && Filed(s, to, x, copies).lost == 0
    ensures multiset(Queueing(s, to, x, copies))[x] == 1
    ensures forall c <- copies :: multiset(Queueing(s, to, x, copies))[c] == 2
    decreases |copies|
  {
    hide Forested, Weighted, ParentsAgree, Tidy, Accepts, Splits, Rest, Place, Marked;
    if Splits(s, to, x) {
      SplitsPlace(s, to, x);
      var z := copies[0];
      var t := Rest(s, to, x, z);
      RestKeeps(s, to, x, z, x);
      RestCount(s, to, x, z);
      var inner := Queueing(t, to, z, copies[1..]);
      CopiesQueuedTwice(t, to, z, copies[1..]);
      NotQueued(t, to, z, copies[1..], x);
      CopiesNew(t, to, z, copies[1..]);
      assert Queueing(s, to, x, copies) == [x] + inner + [z];
      assert multiset([x] + inner + [z]) == multiset{x} + multiset(inner) + multiset{z};
      assert copies == [z] + copies[1..];
    }
  }

  lemma RestCount(s: Heap, to: Item, x: Item, z: Item)
    requires Addable(s, to, x) && Splits(s, to, x) && z !in s
    ensures Rest(s, to, x, z)[z].face.count > 0 && x in s && x != z
  {
    hide Forested, Weighted, ParentsAgree, Tidy, Split, Place, Merging;
    StackPlace(s, to, x);
    SplitKind(s, to, x, Place(s, to, x).onto, z);
  }

  // Copies are new.
  lemma {:induction false} CopiesNew(s: Heap, to: Item, x: Item, copies: seq<Item>)
    requires Addable(s, to, x) && Supplied(s, to, x, copies)
    ensures forall y <- s :: y !in copies
    decreases |copies|
  {
    hide Forested, Weighted, ParentsAgree, Tidy, Accepts, Splits, Rest, Place;
    if Splits(s, to, x) {
      var z := copies[0];
      var t := Rest(s, to, x, z);
      forall y <- s
        ensures y in t
      {
        RestKeeps(s, to, x, z, y);
      }
      if Accepts(t, to, z) {
        CopiesNew(t, to, z, copies[1..]);
      }
      assert copies == [z] + copies[1..];
    }
  }

  /** The container lists one item more at most. */
  lemma {:induction false} FiledGrows(s: Heap, to: Item, x: Item, copies: seq<Item>)
    requires Addable(s, to, x) && Accepts(s, to, x) && Supplied(s, to, x, copies)
    ensures var t := Filed(s, to, x, copies).heap;
      to in t && |t[to].items| <= |s[to].items| + 1
    decreases |copies|
  {
    hide Forested, Weighted, ParentsAgree, Holds, Accepts, Merged, Added, Split, Tidy, Marked, Merging;
    StackPlace(s, to, x);
    var y := Place(s, to, x).onto;
    if y == null {
      SlotFree(s, to, x);
      AddedCell(s, to, x, to);
      MarkedCell(Added(s, to, x, 0), x, to);
    } else if !Splits(s, to, x) {
      OntoMerges(s, to, x, y);
      MergedCell(s, to, x, y, s[x].face.count, to);
      MarkedCell(Merged(s, x, y, s[x].face.count), x, to);
    } else {
      var z := copies[0];
      var t := Rest(s, to, x, z);
      SplitCell(s, to, x, y, z, to);
      hide Splits, Rest, OntoStack;
      if Accepts(t, to, z) {
        FiledGrows(t, to, z, copies[1..]);
        MarkedCell(Filed(t, to, z, copies[1..]).heap, x, to);
      } else {
        MarkedCell(t, x, to);
      }
    }
  }

  /** An item is accepted exactly if the free slots and the like stacks have room for all of it. */
  lemma AcceptsIff(s: Heap, to: Item, x: Item)
    requires Addable(s, to, x)
    ensures forall y <- s[to].items :: y in s
    ensures |s[to].items| <= s[to].maxSize
    ensures var free, yes := s[to].maxSize - |s[to].items|, Takers(s, s[to].items, x, UNLIMITED);
      Accepts(s, to, x) <==>
        && s[x].face.kind.pickupable && !Holds(s, x, to)
        && (if s[x].face.kind.stackable then free + |yes| > 0 && s[x].face.count + CountIn(s, yes) <= STACK_SIZE * (free + |yes|)
            else free > 0)
  {
    hide Forested, Weighted, ParentsAgree, Holds, RoomFor, AddAnswer, Takers, CountIn, Tidy, FirstStack, DestinationOf;
    TidyAt(s, to);
    PlaceIs(s, to, x);
    AddAnswerIff(s, to, Place(s, to, x).index, x, s[x].face.count, false, UNLIMITED);
    TakersNone(s, s[to].items, x);
    if s[x].face.kind.pickupable && !Holds(s, x, to) {
      RoomIs(s, to, INDEX_WHEREEVER, x, s[x].face.count, UNLIMITED);
    }
  }

  lemma {:induction false} TakersNone(s: Heap, l: seq<Item>, x: Item)
    requires x in s && forall y <- l :: y in s
    ensures FirstStack(s, l, x) == |l| <==> Takers(s, l, x, UNLIMITED) == []
  {
    if l != [] {
      TakersNone(s, l[1..], x);
    }
  }

  // ---------------------------------------------------------------- the method

  /**
   `Game::internalAddItem`: an item accepted is filed as above. If its copies are alike, all of it is added; one
   not accepted changes nothing.
   */
  method InternalAddItem(to: Item, x: Item, test: bool, ghost w: set<Item>)
    returns (ret: Answer, remainderCount: nat, queued: seq<Item>, ghost copies: seq<Item>, ghost w': set<Item>)
    requires to in w && x in w && Addable(Snap(w), to, x)
    modifies w`itemlist, w`parent, w`face, w`totalWeight
    ensures w <= w' && fresh(w' - w)
    ensures ret == NoError <==> old(Accepts(Snap(w), to, x))
    ensures ret != NoError || test ==> w' == w && Snap(w) == old(Snap(w)) && remainderCount == 0 && queued == []
    ensures var s := old(Snap(w));
      ret == NoError && !test ==>
        && Supplied(s, to, x, copies) && remainderCount == Reported(s, to, x, copies) && queued == Queueing(s, to, x, copies)
        && var f := Filed(s, to, x, copies);
           && Snap(w') == f.heap && AddedBut(s, Snap(w'), to, x, f.lost) && f.lost <= old(x.face.count)
           && (!old(x.face).kind.stackable || CopiesAlike(old(x.face)) ==> f.lost == 0)
    decreases x.face.count
  {
    hide Forested, ParentsAgree, Weighted, Holds, AddAnswer, RoomFor, DestinationOf, Tidy, CopiesAlike, Merging, AddedBut, Filed, Reported, Supplied, Added, Merged, Queueing;
    ghost var s := Snap(w);
    remainderCount, queued, w', copies := 0, [], w, [];
    StackPlace(s, to, x);
    var d := QueryDestination(to, INDEX_WHEREEVER, x, false, w);
    ret := QueryAdd(d.c, d.index, x, x.face.count, false, UNLIMITED, w);
    if ret != NoError {
      return;
    }
    var maxQueryCount;
    ret, maxQueryCount := QueryMaxCount(to, INDEX_WHEREEVER, x, x.face.count, false, UNLIMITED, w);
    SlotRoom(s, to, x);
    if ret != NoError || test {
      return;
    }
    assert Accepts(s, to, x);
    hide Accepts;
    if d.onto != null && x.face.kind.stackable && Equals(x.face, d.onto.face) {
      remainderCount, queued, copies, w' := AddToStack(to, x, d.onto, maxQueryCount, w);
    } else {
      SlotMay(s, to, x);
      AddThing(to, d.index, x, w);
      FiledInSlot(s, to, x);
    }
    FiledRight(s, to, x, copies);
    TimeKept(s, Snap(w'), to, x, Filed(s, to, x, copies).lost);
    if TimeLeft(x.face.attrs) > 0 {
      queued := [x] + queued;
    }
    Register(x, w');
    QueuedLast(s, to, x, copies);
  }

  // Filing x does not change how much time it has left.
  lemma TimeKept(s: Heap, t: Heap, to: Item, x: Item, lost: nat)
    requires Addable(s, to, x) && x in t && AddedBut(s, Marked(t, x), to, x, lost)
    ensures TimeLeft(t[x].face.attrs) == TimeLeft(s[x].face.attrs)
  {
    hide Forested, Weighted, ParentsAgree, Tidy, Gained, CopiesOnly;
    assert FramedAt(s, Marked(t, x), to, x, x);
    MarkedCell(t, x, x);
  }

  /** What is queued before x itself is. */
  ghost function QueueingRest(s: Heap, to: Item, x: Item, copies: seq<Item>): seq<Item>
    requires Addable(s, to, x) && Accepts(s, to, x) && Supplied(s, to, x, copies)
  {
    if !Splits(s, to, x) then []
    else
      var t := Rest(s, to, x, copies[0]);
      (if Accepts(t, to, copies[0]) then Queueing(t, to, copies[0], copies[1..]) else [])
        + (if TimeLeft(s[x].face.attrs) > 0 then [copies[0]] else [])
  }

  lemma QueuedLast(s: Heap, to: Item, x: Item, copies: seq<Item>)
    requires Addable(s, to, x) && Accepts(s, to, x) && Supplied(s, to, x, copies)
    ensures Queueing(s, to, x, copies) == (if TimeLeft(s[x].face.attrs) > 0 then [x] else []) + QueueingRest(s, to, x, copies)
  {
    hide Forested, Weighted, ParentsAgree, Tidy, Accepts, Splits, Rest, Place;
    var own := if TimeLeft(s[x].face.attrs) > 0 then [x] else [];
    if Splits(s, to, x) {
      var t := Rest(s, to, x, copies[0]);
      var inner := if Accepts(t, to, copies[0]) then Queueing(t, to, copies[0], copies[1..]) else [];
      var last := if TimeLeft(s[x].face.attrs) > 0 then [copies[0]] else [];
      assert own + inner + last == own + (inner + last);
    }
  }

  lemma FiledInSlot(s: Heap, to: Item, x: Item)
    requires Addable(s, to, x) && Accepts(s, to, x) && Place(s, to, x).onto == null
    ensures MayAttach(s, to, x) && Supplied(s, to, x, []) && Filed(s, to, x, []).heap == Marked(Added(s, to, x, 0), x)
    ensures Reported(s, to, x, []) == 0 && QueueingRest(s, to, x, []) == []
  {
    hide Forested, ParentsAgree, Weighted, Holds, Tidy, Added, Marked;
    StackPlace(s, to, x);
    SlotMay(s, to, x);
  }

  lemma FiledOnStack(s: Heap, to: Item, x: Item, y: Item)
    requires Addable(s, to, x) && Accepts(s, to, x) && Place(s, to, x).onto == y && !Splits(s, to, x)
    ensures OntoStack(s, to, x, y) && MayMerge(s, to, x, y)
    ensures Supplied(s, to, x, []) && Filed(s, to, x, []).heap == Marked(Merged(s, x, y, s[x].face.count), x)
    ensures Reported(s, to, x, []) == 0 && QueueingRest(s, to, x, []) == []
  {
    hide Forested, ParentsAgree, Weighted, Holds, Tidy, Merged, Marked, Merging;
    StackPlace(s, to, x);
    OntoMerges(s, to, x, y);
  }

  lemma FiledFurther(s: Heap, to: Item, x: Item, z: Item, copies: seq<Item>)
    requires Addable(s, to, x) && Accepts(s, to, x) && Splits(s, to, x) && z !in s && Accepts(Rest(s, to, x, z), to, z)
    requires Supplied(Rest(s, to, x, z), to, z, copies)
    ensures Supplied(s, to, x, [z] + copies) && Filed(s, to, x, [z] + copies).heap == Marked(Filed(Rest(s, to, x, z), to, z, copies).heap, x)
    ensures Reported(s, to, x, [z] + copies) == 0
    ensures QueueingRest(s, to, x, [z] + copies)
         == Queueing(Rest(s, to, x, z), to, z, copies) + (if TimeLeft(s[x].face.attrs) > 0 then [z] else [])
  {
    hide Addable, Accepts, Splits, Rest, Place, Marked;
    var l := [z] + copies;
    assert l[1..] == copies;
    StackPlace(s, to, x);
    SplitsPlace(s, to, x);
  }

  lemma FiledLost(s: Heap, to: Item, x: Item, z: Item)
    requires Addable(s, to, x) && Accepts(s, to, x) && Splits(s, to, x) && z !in s && !Accepts(Rest(s, to, x, z), to, z)
    ensures Supplied(s, to, x, [z]) && Filed(s, to, x, [z]) == Filing(Marked(Rest(s, to, x, z), x), Rest(s, to, x, z)[z].face.count)
    ensures Reported(s, to, x, [z]) == Rest(s, to, x, z)[z].face.count
    ensures QueueingRest(s, to, x, [z]) == if TimeLeft(s[x].face.attrs) > 0 then [z] else []
  {
    hide Addable, Accepts, Splits, Rest, Place, Marked;
    StackPlace(s, to, x);
    SplitsPlace(s, to, x);
  }

  lemma SplitsPlace(s: Heap, to: Item, x: Item)
    requires Addable(s, to, x) && Splits(s, to, x)
    ensures Place(s, to, x).onto != null
  {
  }

  lemma SlotRoom(s: Heap, to: Item, x: Item)
    requires Addable(s, to, x)
    ensures !s[x].face.kind.stackable ==> RoomFor(s, to, INDEX_WHEREEVER, x, false, s[x].face.count, UNLIMITED) == FreeSlots(s, to)
  {
    hide Forested, Weighted, ParentsAgree;
  }

  method AddToStack(to: Item, x: Item, y: Item, maxQueryCount: nat, ghost w: set<Item>)
    returns (remainderCount: nat, queued: seq<Item>, ghost copies: seq<Item>, ghost w': set<Item>)
    requires to in w && x in w && y in w && OntoStack(Snap(w), to, x, y) && Accepts(Snap(w), to, x)
    requires Place(Snap(w), to, x).onto == y && maxQueryCount >= x.face.count
    modifies w`itemlist, w`parent, w`face, w`totalWeight
    ensures w <= w' && fresh(w' - w)
    ensures var s := old(Snap(w));
      && Supplied(s, to, x, copies) && remainderCount == Reported(s, to, x, copies)
      && Marked(Snap(w'), x) == Filed(s, to, x, copies).heap && queued == QueueingRest(s, to, x, copies)
    decreases x.face.count, 0
  {
    hide Forested, ParentsAgree, Weighted, Tidy, Accepts, Merged, WithId, Place, Marked, AddedBut, CopiesAlike, Supplied, Filed, Reported, Queueing, QueueingRest;
    ghost var s := Snap(w);
    OntoMerges(s, to, x, y);
    MergedCell(s, to, x, y, x.face.count, x);
    remainderCount, queued, w', copies := 0, [], w, [];
    var m := if x.face.count < maxQueryCount then x.face.count else maxQueryCount;
    var n := PutOnto(to, x, y, m, w);
    assert n == Merging(s[x].face, Some(s[y].face), s[x].face.count);
    var count := m - n;
    if count > 0 && x.face.count == count {
      // the stack had room for at least one
      assert false;
    } else if count > 0 {
      assert Splits(s, to, x);
      var remainderItem := new Item(CloneFace(x.face, count), false, 0);
      w' := w + {remainderItem};
      assert MaySplit(s, to, x, y, remainderItem);
      assert Snap(w') == Split(s, to, x, y, remainderItem) == Rest(s, to, x, remainderItem);
      ghost var t := Snap(w');
      if TimeLeft(x.face.attrs) > 0 {
        queued := [remainderItem];
      }
      var ret, unheard, inner;
      ret, unheard, inner, copies, w' := InternalAddItem(to, remainderItem, false, w');
      queued := inner + queued;
      if ret != NoError {
        remainderCount := count;
        FiledLost(s, to, x, remainderItem);
        copies := [remainderItem];
      } else {
        FiledFurther(s, to, x, remainderItem, copies);
        copies := [remainderItem] + copies;
      }
    } else {
      FiledOnStack(s, to, x, y);
    }
  }
}
