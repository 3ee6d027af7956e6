/**
 Runs of container operations: whatever is added, taken out, changed, replaced, created, moved, registered for
 decay and cloned, in any order and number, containment stays a forest that the parent pointers agree with,
 every weight cache is right, and every item is as the catalogue lists it.
 */
module HeapRuns {
  import opened Bytes
  import opened Containers
  import opened ContainerQueries
  import opened MoveItem
  import opened ContainerClones

  datatype Operation =
    | Add(c: Item, x: Item, index: nat)
    | Remove(c: Item, x: Item)
    | Change(x: Item, face: Face)
    | Replace(c: Item, index: nat, x: Item)
    | Create(x: Item, face: Face, container: bool, maxSize: nat)
    | Move(from: Item, to: Item, x: Item, onto: Item?, m: nat, copy: Item?)
    | Mark(x: Item)
    | Clone(x: Item, c: Item, t: Heap)

  /** What every heap here is. */
  ghost predicate Good(k: Catalogue, s: Heap) {
    Sound(s) && Listed(k, s)
  }

  /** What the callers of an operation see to before they use it. */
  ghost predicate May(k: Catalogue, s: Heap, op: Operation)
    requires Sound(s)
  {
    match op
    case Add(c, x, index) => MayAttach(s, c, x) && index <= |s[c].items|
    case Remove(c, x) => c in s && x in s[c].items
    case Change(x, face) => x in s && k.Lists(face, s[x].container)
    case Replace(c, index, x) => MayDetach(s, c, index) && MayAttach(s, c, x)
    case Create(x, face, container, _) => x !in s && k.Lists(face, container)
    case Move(from, to, x, onto, m, copy) => MayMove(s, from, to, x, onto, m, copy)
    case Mark(x) => x in s
    case Clone(x, c, t) => Cloned(k, s, t, x, c)
  }

  ghost function After(k: Catalogue, s: Heap, op: Operation): Heap
    requires Sound(s)
  {
    hide Forested, ParentsAgree, Weighted, MayDetach, MayMove, Cloned;
    if !May(k, s, op) then s else
    match op
    case Add(c, x, index) => Added(s, c, x, index)
    case Remove(c, x) => RemovedItem(s, c, x)
    case Change(x, face) => Changed(s, x, face)
    case Replace(c, index, x) => Replaced(s, c, index, x)
    case Create(x, face, container, maxSize) => Enlarged(s, x, face, container, maxSize)
    case Move(from, to, x, onto, m, copy) => Moved(s, from, to, x, onto, m, copy)
    case Mark(x) => Marked(s, x)
    case Clone(x, c, t) => t
  }

  // ---------------------------------------------------------------- what an operation does to the items in themselves

  /** The same items, none of them changed in itself. */
  ghost predicate SameFaces(s: Heap, t: Heap) {
    t.Keys == s.Keys && forall y <- s :: t[y].face == s[y].face && t[y].container == s[y].container
  }

  lemma SameListed(k: Catalogue, s: Heap, t: Heap)
    requires Listed(k, s) && SameFaces(s, t)
    ensures Listed(k, t)
  {
  }

  lemma CreditedFaces(s: Heap, t: Heap, p: Item, d: int)
    requires SameFaces(s, t) && Forested(t)
    ensures SameFaces(s, Credited(t, p, d))
  {
    hide Forested, Holds;
  }

  lemma AttachedFaces(s: Heap, p: Item, x: Item, i: nat)
    requires p in s && x in s && i <= |s[p].items|
    ensures SameFaces(s, Attached(s, p, x, i))
  {
  }

  lemma DetachedFaces(s: Heap, p: Item, i: nat)
    requires p in s && i < |s[p].items| && s[p].items[i] in s
    ensures SameFaces(s, Detached(s, p, i))
  {
  }

  lemma AddedFaces(s: Heap, p: Item, x: Item, i: nat)
    requires MayAttach(s, p, x) && i <= |s[p].items|
    ensures SameFaces(s, Added(s, p, x, i))
  {
    hide Forested, ParentsAgree, Holds, Attached, Credited, SameFaces;
    AttachRanked(s, p, x, i);
    AttachedFaces(s, p, x, i);
    CreditedFaces(s, Attached(s, p, x, i), p, WeightOf(s, x));
  }

  lemma RemovedFaces(s: Heap, c: Item, x: Item)
    requires Forested(s) && ParentsAgree(s) && c in s && x in s[c].items
    ensures SameFaces(s, RemovedItem(s, c, x))
  {
    hide Forested, ParentsAgree, Holds, Detached, Credited, SameFaces, IndexIn;
    ListedParent(s, c, x);
    var i := IndexIn(s[c].items, x);
    DetachRanked(s, c, i);
    DetachedFaces(s, c, i);
    CreditedFaces(s, Detached(s, c, i), c, -WeightOf(s, x));
  }

  lemma ReplacedFaces(s: Heap, c: Item, i: nat, x: Item)
    requires MayDetach(s, c, i) && MayAttach(s, c, x)
    ensures SameFaces(s, Replaced(s, c, i, x))
  {
    hide Forested, ParentsAgree, Holds, Detached, Attached, Credited;
    MayAttachAfter(s, c, i, x);
    var t := Detached(s, c, i);
    DetachedFaces(s, c, i);
    AttachRanked(t, c, x, i);
    AttachedFaces(t, c, x, i);
    CreditedFaces(s, Swapped(s, c, i, x), c, WeightOf(s, x) - WeightOf(s, s[c].items[i]));
  }

  lemma ChangedListed(k: Catalogue, s: Heap, x: Item, face: Face)
    requires Forested(s) && ParentsAgree(s) && Listed(k, s) && x in s && k.Lists(face, s[x].container)
    ensures Listed(k, Changed(s, x, face))
  {
    hide Forested, ParentsAgree, Changed;
    var t := Changed(s, x, face);
    ChangedCell(s, x, face, x);
    forall y <- t
      ensures k.Lists(t[y].face, t[y].container)
    {
      ChangedCell(s, x, face, y);
    }
  }

  lemma EnlargedListed(k: Catalogue, s: Heap, x: Item, face: Face, container: bool, maxSize: nat)
    requires Listed(k, s) && x !in s && k.Lists(face, container)
    ensures Listed(k, Enlarged(s, x, face, container, maxSize))
  {
    var t := Enlarged(s, x, face, container, maxSize);
    forall y <- t
      ensures k.Lists(t[y].face, t[y].container)
    {
      assert y == x || y in s;
    }
  }

  lemma MarkedListed(k: Catalogue, s: Heap, x: Item)
    requires Listed(k, s) && x in s
    ensures Listed(k, Marked(s, x))
  {
    forall y <- Marked(s, x)
      ensures k.Lists(Marked(s, x)[y].face, Marked(s, x)[y].container)
    {
      MarkedCell(s, x, y);
      assert k.Lists(s[y].face, s[y].container);
    }
  }

  lemma MovedListed(k: Catalogue, s: Heap, from: Item, to: Item, x: Item, onto: Item?, m: nat, copy: Item?)
    requires MayMove(s, from, to, x, onto, m, copy) && Listed(k, s)
    ensures Listed(k, Moved(s, from, to, x, onto, m, copy))
  {
    hide Forested, ParentsAgree, Weighted, Tidy, Holds, Taken, Merged, Arrived, Listed, Merging;
    MayMoveSteps(s, from, to, x, onto, m);
    var s1 := Taken(s, from, x, m);
    TakenListed(k, s, from, x, m);
    MergedListed(k, s1, to, x, onto, m);
    ArrivedListed(k, Merged(s1, x, onto, m), to, x, m - Merging(s[x].face, FaceAt(s, onto), m), copy);
  }

  lemma TakenListed(k: Catalogue, s: Heap, from: Item, x: Item, m: nat)
    requires MayTake(s, from, x, m) && Listed(k, s)
    ensures Listed(k, Taken(s, from, x, m))
  {
    hide Forested, ParentsAgree, Weighted, Tidy, Changed, RemovedItem;
    if TakesPart(s[x].face, m) {
      ChangedListed(k, s, x, Less(s[x].face, m));
    } else {
      RemovedFaces(s, from, x);
      SameListed(k, s, Taken(s, from, x, m));
    }
  }

  lemma MergedListed(k: Catalogue, s: Heap, to: Item, x: Item, onto: Item?, m: nat)
    requires MayMerge(s, to, x, onto) && Listed(k, s)
    ensures Listed(k, Merged(s, x, onto, m))
  {
    hide Forested, ParentsAgree, Weighted, Tidy, Changed;
    if onto != null {
      ChangedListed(k, s, onto, WithSubType(WithId(s[onto].face, s[onto].face.kind), s[onto].face.count + Merging(s[x].face, Some(s[onto].face), m)));
    }
  }

  lemma ArrivedListed(k: Catalogue, s: Heap, to: Item, x: Item, n: nat, copy: Item?)
    requires MayArrive(s, to, x, n, copy) && Listed(k, s)
    ensures Listed(k, Arrived(s, to, x, n, copy))
  {
    hide Sound, MayAttach, Added, Enlarged, Tidy;
    if !s[x].face.kind.stackable {
      AddedFaces(s, to, x, 0);
      SameListed(k, s, Added(s, to, x, 0));
    } else if n > 0 {
      var face := CloneFace(s[x].face, n);
      CopyMayAttach(s, to, face, copy);
      EnlargedListed(k, s, copy, face, false, 0);
      AddedFaces(Enlarged(s, copy, face), to, copy, 0);
      SameListed(k, Enlarged(s, copy, face), Added(Enlarged(s, copy, face), to, copy, 0));
    }
  }

  // ---------------------------------------------------------------- runs

  lemma AfterGood(k: Catalogue, s: Heap, op: Operation)
    requires k.Paired() && Good(k, s)
    ensures Good(k, After(k, s, op))
  {
    hide Forested, ParentsAgree, Weighted, MayAttach, MayDetach, MayMove, Added, Removed, Changed, Replaced, Enlarged, Moved, Marked, IndexIn, Listed, Cloned;
    if May(k, s, op) {
      match op
      case Add(c, x, index) =>
        AddedSound(s, c, x, index);
        AddedFaces(s, c, x, index);
        SameListed(k, s, Added(s, c, x, index));
      case Remove(c, x) =>
        TakeAway(s, c, x);
        RemovedFaces(s, c, x);
        SameListed(k, s, RemovedItem(s, c, x));
      case Change(x, face) =>
        ChangedSound(s, x, face);
        ChangedListed(k, s, x, face);
      case Replace(c, index, x) =>
        ReplacedSound(s, c, index, x);
        ReplacedFaces(s, c, index, x);
        SameListed(k, s, Replaced(s, c, index, x));
      case Create(x, face, container, maxSize) =>
        EnlargedSound(s, x, face, container, maxSize);
        EnlargedListed(k, s, x, face, container, maxSize);
      case Move(from, to, x, onto, m, copy) =>
        MovedSound(s, from, to, x, onto, m, copy);
        MovedListed(k, s, from, to, x, onto, m, copy);
      case Mark(x) =>
        MarkedSound(s, x);
        MarkedListed(k, s, x);
      case Clone(x, c, t) => CloneSound(k, s, t, x, c);
    }
  }

  lemma TakeAway(s: Heap, c: Item, x: Item)
    requires Sound(s) && c in s && x in s[c].items
    ensures Sound(RemovedItem(s, c, x))
  {
    hide Forested, ParentsAgree, Weighted, IndexIn, Removed;
    ListedParent(s, c, x);
    RemovedSound(s, c, IndexIn(s[c].items, x));
  }

  ghost function Run(k: Catalogue, s: Heap, ops: seq<Operation>): Heap
    requires k.Paired() && Good(k, s)
    decreases |ops|
  {
    if ops == [] then s else
      AfterGood(k, s, ops[0]);
      Run(k, After(k, s, ops[0]), ops[1..])
  }

  /** Every heap reached from a sound one is sound. */
  lemma {:induction false} RunSound(k: Catalogue, s: Heap, ops: seq<Operation>)
    requires k.Paired() && Good(k, s)
    ensures Good(k, Run(k, s, ops))
    decreases |ops|
  {
    if ops != [] {
      AfterGood(k, s, ops[0]);
      RunSound(k, After(k, s, ops[0]), ops[1..]);
    }
  }

  /** In every heap reached, no item holds one of its parents, and each cache is the weight of what is inside. */
  lemma RunKeeps(k: Catalogue, s: Heap, ops: seq<Operation>, c: Item, x: Item)
    requires k.Paired() && Good(k, s) && c in Run(k, s, ops) && x in Run(k, s, ops)[c].items
    ensures var t := Run(k, s, ops);
      && Forested(t) && x in t && t[x].parent == c && !Holds(t, x, c)
      && t[c].total == Total(t, OwnWeight, c) % WEIGHT_MODULUS
  {
    RunSound(k, s, ops);
    var t := Run(k, s, ops);
    hide Run, Weighted, Forested, Holds, ParentsAgree;
    CacheIs(t, c);
    ListedParent(t, c, x);
    HoldsUp(t, c, c, x);
  }
}
