/**
 Cloning a container (`Container::clone` in src/container.cpp): new objects in the same arrangement, the
 caches copied with them. Nothing that was there changes, and the caches are right in the copy.
 */
module ContainerClones {
  import opened Bytes
  import opened Containers
  import opened Forests
  import opened MoveItem
  import Items

  /** An item and all it holds, as values, caches included. */
  datatype Tree = Tree(face: Face, container: bool, maxSize: nat, total: nat, kids: seq<Tree>)

  ghost function TreeWith(s: Heap, h: Rank<Item>, x: Item): Tree
    requires Ranked(s, h) && x in s
    decreases h[x], |s[x].items| + 1
  {
    ChildrenBelow<Item>(Kids(s), h, x);
    Tree(s[x].face, s[x].container, s[x].maxSize, s[x].total, TreesWith(s, h, s[x].items, h[x]))
  }

  ghost function TreesWith(s: Heap, h: Rank<Item>, l: seq<Item>, bound: nat): seq<Tree>
    requires Ranked(s, h) && forall e <- l :: e in s && h[e] < bound
    decreases bound, |l|
  {
    if l == [] then [] else [TreeWith(s, h, l[0])] + TreesWith(s, h, l[1..], bound)
  }

  /** The tree of x. */
  ghost function TreeOf(s: Heap, x: Item): Tree
    requires Forested(s) && x in s
  {
    TreeWith(s, Ranks(s), x)
  }

  ghost predicate Alike(a: Cell, b: Cell) {
    a.face == b.face && a.container == b.container && a.maxSize == b.maxSize && a.total == b.total && a.items == b.items
  }

  /** Where everything in x is as it was, its tree is. */
  lemma {:induction false} SameTree(s: Heap, h: Rank<Item>, t: Heap, h': Rank<Item>, x: Item)
    requires Ranked(s, h) && Ranked(t, h') && x in s
    requires forall z :: z in s && Within<Item>(Kids(s), h, x, z) ==> z in t && Alike(s[z], t[z])
    ensures x in t && TreeWith(t, h', x) == TreeWith(s, h, x)
    decreases h[x], |s[x].items| + 1
  {
    assert Within<Item>(Kids(s), h, x, x);
    assert Kids(s)[x] == s[x].items;
    forall e, z | e in s[x].items && z in s && Within<Item>(Kids(s), h, e, z)
      ensures z in t && Alike(s[z], t[z])
    {
      WithinUp2<Item>(Kids(s), h, x, e, z);
    }
    ChildrenBelow<Item>(Kids(s), h, x);
    ChildrenBelow<Item>(Kids(t), h', x);
    SameTrees(s, h, t, h', s[x].items, h[x], h'[x]);
  }

  lemma {:induction false} SameTrees(s: Heap, h: Rank<Item>, t: Heap, h': Rank<Item>, l: seq<Item>, b: nat, b': nat)
    requires Ranked(s, h) && Ranked(t, h')
    requires forall e <- l :: e in s && h[e] < b && e in t && h'[e] < b'
    requires forall e, z :: e in l && z in s && Within<Item>(Kids(s), h, e, z) ==> z in t && Alike(s[z], t[z])
    ensures TreesWith(t, h', l, b') == TreesWith(s, h, l, b)
    decreases b, |l|
  {
    if l != [] {
      assert l[0] in l;
      SameTree(s, h, t, h', l[0]);
      SameTrees(s, h, t, h', l[1..], b, b');
    }
  }

  // ---------------------------------------------------------------- sums over trees

  function Sum(f: Face -> int, t: Tree): int {
    SumAll(f, t.kids)
  }

  function SumAll(f: Face -> int, l: seq<Tree>): int {
    if l == [] then 0 else f(l[0].face) + Sum(f, l[0]) + SumAll(f, l[1..])
  }

  lemma {:induction false} DeepIsSum(s: Heap, h: Rank<Item>, f: Face -> int, x: Item)
    requires Ranked(s, h) && x in s
    ensures Deep<Item>(Kids(s), h, Values(s, f), x) == Sum(f, TreeWith(s, h, x))
    decreases h[x], |s[x].items| + 1
  {
    assert Kids(s)[x] == s[x].items;
    ChildrenBelow<Item>(Kids(s), h, x);
    DeepListIsSum(s, h, f, s[x].items, h[x]);
  }

  lemma {:induction false} DeepListIsSum(s: Heap, h: Rank<Item>, f: Face -> int, l: seq<Item>, b: nat)
    requires Ranked(s, h) && forall e <- l :: e in s && h[e] < b
    ensures DeepList<Item>(Kids(s), h, Values(s, f), l, b) == SumAll(f, TreesWith(s, h, l, b))
    decreases b, |l|
  {
    hide IsForest, Deep;
    if l != [] {
      assert l[0] in l;
      DeepIsSum(s, h, f, l[0]);
      DeepListIsSum(s, h, f, l[1..], b);
      var t, r := TreeWith(s, h, l[0]), TreesWith(s, h, l[1..], b);
      assert ([t] + r)[1..] == r;
      assert t.face == s[l[0]].face;
    }
  }

  // ---------------------------------------------------------------- the copy

  /** The catalogue: a row for each id, and what a container of that type has room for. */
  datatype Catalogue = Catalogue(row: nat -> ItemType, capacity: nat -> nat) {
    /** The rows of types of which one is created as the other weigh the same; and nothing fluid stacks. */
    ghost predicate Paired() {
      forall id: nat ::
        && row(id).id == id && !(row(id).stackable && row(id).fluid)
        && row(Items.CreatedId(id)).weight == row(id).weight && row(Items.CreatedId(id)).stackable == row(id).stackable
    }

    /** An item's row is the catalogue's; it has a weight of its own only as an attribute; containers do not stack. */
    predicate Lists(x: Face, container: bool) {
      x.kind == row(x.kind.id) && (x.attrs.weight.Some? ==> x.attrs.present) && (container ==> !x.kind.stackable)
    }
  }

  /**
   `Item::clone`: as `Item::CreateItem` makes it of the type and the count, containers without the count and
   some types as another type; with the attributes taken over if there are any, and registered for decay if
   there is time left.
   */
  function CopyFace(k: Catalogue, x: Face, container: bool): Face {
    var kind := if container then x.kind else k.row(Items.CreatedId(x.kind.id));
    var n := if container then 0 else if x.kind.stackable && x.count == 0 then 1 else x.count;
    var count := if kind.fluid || !kind.stackable then 1 else if n != 0 then n else if kind.charges != 0 then kind.charges else 1;
    Face(kind, count, CloneAttributes(x.attrs, NewAttributes(kind, n)))
  }

  /** A copy weighs as much as the item. */
  lemma CopyWeight(k: Catalogue, x: Face, container: bool)
    requires k.Paired() && k.Lists(x, container)
    ensures OwnWeight(CopyFace(k, x, container)) == OwnWeight(x) && k.Lists(CopyFace(k, x, container), container)
  {
    var id := x.kind.id;
    assert k.row(id).id == id && k.row(Items.CreatedId(id)).weight == k.row(id).weight;
    assert k.row(Items.CreatedId(id)).id == Items.CreatedId(id);
  }

  /**
   A copy has the item's type, unless that is one created as another; of a stack, its count; and the item's attributes if it has any,
   marked as decaying if it has time left.
   */
  lemma CopiedFace(k: Catalogue, x: Face, container: bool)
    requires k.Lists(x, container)
    ensures var c := CopyFace(k, x, container);
      var lasts := x.attrs.duration.Some? && x.attrs.duration.value % 0x1_0000_0000 > 0;
      && (container || Items.CreatedId(x.kind.id) == x.kind.id ==> c.kind == x.kind)
      && (x.attrs.present ==> c.attrs == x.attrs.(decaying := if lasts then Some(1) else x.attrs.decaying))
      && (c.kind == x.kind && x.kind.stackable && !x.kind.fluid && x.count > 0 ==> c.count == x.count)
      && (c.kind == x.kind && !x.kind.stackable ==> c.count == 1)
  {
  }

  function Copy(k: Catalogue, t: Tree): Tree {
    Tree(CopyFace(k, t.face, t.container), t.container, CopyCapacity(k, t.face, t.container), t.total, CopyAll(k, t.kids))
  }

  /** A copy has the capacity of its type. */
  function CopyCapacity(k: Catalogue, x: Face, container: bool): nat {
    if container then k.capacity(x.kind.id) else 0
  }

  function CopyAll(k: Catalogue, l: seq<Tree>): seq<Tree> {
    if l == [] then [] else [Copy(k, l[0])] + CopyAll(k, l[1..])
  }

  lemma {:induction false} CopyAllAppend(k: Catalogue, l: seq<Tree>, t: Tree)
    ensures CopyAll(k, l + [t]) == CopyAll(k, l) + [Copy(k, t)]
  {
    if l != [] {
      assert (l + [t])[1..] == l[1..] + [t];
      CopyAllAppend(k, l[1..], t);
    }
  }

  lemma {:induction false} CopyWeighs(k: Catalogue, t: Tree)
    requires k.Paired() && AllOrderly(k, t.kids)
    ensures Sum(OwnWeight, Copy(k, t)) == Sum(OwnWeight, t)
    decreases t
  {
    CopyAllWeighs(k, t.kids);
  }

  lemma {:induction false} CopyAllWeighs(k: Catalogue, l: seq<Tree>)
    requires k.Paired() && AllOrderly(k, l)
    ensures SumAll(OwnWeight, CopyAll(k, l)) == SumAll(OwnWeight, l)
    decreases l
  {
    hide OwnWeight, CopyFace;
    if l != [] {
      CopyWeighs(k, l[0]);
      CopyAllWeighs(k, l[1..]);
      CopyWeight(k, l[0].face, l[0].container);
      var c, r := Copy(k, l[0]), CopyAll(k, l[1..]);
      assert ([c] + r)[1..] == r && c.face == CopyFace(k, l[0].face, l[0].container);
    }
  }

  /** Every cache in the tree is right, and every item as the catalogue lists it. */
  ghost predicate Orderly(k: Catalogue, t: Tree) {
    k.Lists(t.face, t.container) && t.total == Sum(OwnWeight, t) % WEIGHT_MODULUS && AllOrderly(k, t.kids)
  }

  ghost predicate AllOrderly(k: Catalogue, l: seq<Tree>) {
    l == [] || (Orderly(k, l[0]) && AllOrderly(k, l[1..]))
  }

  /** Right caches are right in the copy. */
  lemma {:induction false} CopyOrderly(k: Catalogue, t: Tree)
    requires k.Paired() && Orderly(k, t)
    ensures Orderly(k, Copy(k, t))
    decreases t
  {
    hide CopyFace, OwnWeight;
    CopyWeight(k, t.face, t.container);
    CopyWeighs(k, t);
    CopyAllCaches(k, t.kids);
  }

  lemma {:induction false} CopyAllCaches(k: Catalogue, l: seq<Tree>)
    requires k.Paired() && AllOrderly(k, l)
    ensures AllOrderly(k, CopyAll(k, l))
    decreases l
  {
    hide Orderly, Copy;
    if l != [] {
      CopyOrderly(k, l[0]);
      CopyAllCaches(k, l[1..]);
      var c, r := Copy(k, l[0]), CopyAll(k, l[1..]);
      assert ([c] + r)[1..] == r;
    }
  }

  /** A heap in which every item is as the catalogue lists it. */
  ghost predicate Listed(k: Catalogue, s: Heap) {
    forall y <- s :: k.Lists(s[y].face, s[y].container)
  }

  lemma {:induction false} WeightedTree(k: Catalogue, s: Heap, h: Rank<Item>, x: Item)
    requires Ranked(s, h) && x in s && Listed(k, s) && forall y <- s :: s[y].total == Deep<Item>(Kids(s), h, Values(s, OwnWeight), y) % WEIGHT_MODULUS
    ensures Orderly(k, TreeWith(s, h, x))
    decreases h[x], |s[x].items| + 1
  {
    ChildrenBelow<Item>(Kids(s), h, x);
    DeepIsSum(s, h, OwnWeight, x);
    WeightedTrees(k, s, h, s[x].items, h[x]);
  }

  lemma {:induction false} WeightedTrees(k: Catalogue, s: Heap, h: Rank<Item>, l: seq<Item>, b: nat)
    requires Ranked(s, h) && (forall e <- l :: e in s && h[e] < b) && Listed(k, s)
    requires forall y <- s :: s[y].total == Deep<Item>(Kids(s), h, Values(s, OwnWeight), y) % WEIGHT_MODULUS
    ensures AllOrderly(k, TreesWith(s, h, l, b))
    decreases b, |l|
  {
    hide IsForest, Deep, Orderly;
    if l != [] {
      assert l[0] in l;
      WeightedTree(k, s, h, l[0]);
      WeightedTrees(k, s, h, l[1..], b);
      var t, r := TreeWith(s, h, l[0]), TreesWith(s, h, l[1..], b);
      assert ([t] + r)[1..] == r;
    }
  }

  // And back: what is right in a tree is right of the objects.
  lemma {:induction false} TreeWeighted(k: Catalogue, s: Heap, h: Rank<Item>, x: Item, y: Item)
    requires Ranked(s, h) && x in s && y in s && Orderly(k, TreeWith(s, h, x)) && Within<Item>(Kids(s), h, x, y)
    ensures s[y].total == Deep<Item>(Kids(s), h, Values(s, OwnWeight), y) % WEIGHT_MODULUS && k.Lists(s[y].face, s[y].container)
    decreases h[x], |s[x].items| + 1
  {
    if y == x {
      DeepIsSum(s, h, OwnWeight, x);
    } else {
      ChildrenBelow<Item>(Kids(s), h, x);
      var c :| c in Kids(s)[x] && Within<Item>(Kids(s), h, c, y);
      TreesWeighted(k, s, h, s[x].items, h[x], c, y);
    }
  }

  lemma {:induction false} TreesWeighted(k: Catalogue, s: Heap, h: Rank<Item>, l: seq<Item>, b: nat, c: Item, y: Item)
    requires Ranked(s, h) && (forall e <- l :: e in s && h[e] < b) && c in l && y in s
    requires AllOrderly(k, TreesWith(s, h, l, b)) && Within<Item>(Kids(s), h, c, y)
    ensures s[y].total == Deep<Item>(Kids(s), h, Values(s, OwnWeight), y) % WEIGHT_MODULUS && k.Lists(s[y].face, s[y].container)
    decreases b, |l|
  {
    hide IsForest, Deep, Orderly, Within;
    assert l[0] in l;
    var t, r := TreeWith(s, h, l[0]), TreesWith(s, h, l[1..], b);
    assert ([t] + r)[1..] == r;
    if c == l[0] {
      TreeWeighted(k, s, h, c, y);
    } else {
      TreesWeighted(k, s, h, l[1..], b, c, y);
    }
  }

  // ---------------------------------------------------------------- putting a copy's parts together

  lemma TreesAppend(s: Heap, h: Rank<Item>, l: seq<Item>, e: Item, b: nat)
    requires Ranked(s, h) && forall x <- l + [e] :: x in s && h[x] < b
    ensures (forall x <- l :: x in l + [e]) && e in l + [e]
    ensures TreesWith(s, h, l + [e], b) == TreesWith(s, h, l, b) + [TreeWith(s, h, e)]
    decreases |l|
  {
    assert e in l + [e] && forall x <- l :: x in l + [e];
    if l != [] {
      assert (l + [e])[1..] == l[1..] + [e];
      TreesAppend(s, h, l[1..], e, b);
    }
  }

  /** An object elsewhere keeps its tree and what it holds when e is put into c. */
  lemma AdoptElsewhere(s: Heap, c: Item, e: Item, i: nat, x: Item)
    requires MayAttach(s, c, e) && i <= |s[c].items| && x in s && !Holds(s, x, c)
    ensures var t := Attached(s, c, e, i);
      && Forested(t) && x in t && TreeOf(t, x) == TreeOf(s, x) && (forall y :: Holds(t, x, y) <==> Holds(s, x, y))
  {
    hide ParentsAgree, IsForest, Within;
    var t := Attached(s, c, e, i);
    AttachRanked(s, c, e, i);
    AttachFacts(s, c, e, i);
    var g, h, g', h' := Kids(s), Ranks(s), Kids(t), Ranks(t);
    assert Ranked(s, h) && Ranked(t, h');
    assert forall z <- s :: z != c ==> Alike(s[z], t[z]);
    hide Kids, Attached, Forested;
    forall y
      ensures Within<Item>(g', h', x, y) <==> Within<Item>(g, h, x, y)
    {
      WithinElsewhere<Item>(g, h, g', h', c, x, y);
    }
    SameTree(s, h, t, h', x);
  }

  lemma AttachedList(s: Heap, c: Item, e: Item)
    requires MayAttach(s, c, e)
    ensures var t := Attached(s, c, e, |s[c].items|);
      && t.Keys == s.Keys && t[c].items == s[c].items + [e] && c != e
      && t[c].face == s[c].face && t[c].container == s[c].container && t[c].maxSize == s[c].maxSize && t[c].total == s[c].total
  {
    HoldsSelf(s, e);
    hide Forested, ParentsAgree, Holds;
    assert s[c].items[..|s[c].items|] + [e] + s[c].items[|s[c].items|..] == s[c].items + [e];
  }

  lemma {:induction false} TreesElsewhere(s: Heap, c: Item, e: Item, l: seq<Item>, b: nat, b': nat)
    requires MayAttach(s, c, e) && (forall x <- l :: x in s && Ranks(s)[x] < b && !Holds(s, x, c))
    requires var t := Attached(s, c, e, |s[c].items|);
      Forested(t) && forall x <- l :: x in t && Ranks(t)[x] < b'
    ensures var t := Attached(s, c, e, |s[c].items|);
      TreesWith(t, Ranks(t), l, b') == TreesWith(s, Ranks(s), l, b)
    decreases |l|
  {
    hide IsForest, Within, Attached, ParentsAgree;
    if l != [] {
      AdoptElsewhere(s, c, e, |s[c].items|, l[0]);
      TreesElsewhere(s, c, e, l[1..], b, b');
    }
  }

  lemma KidsBelow(s: Heap, c: Item)
    requires Forested(s) && c in s
    ensures Ranks(s).Keys == s.Keys && forall x <- s[c].items :: x in s && Ranks(s)[x] < Ranks(s)[c] && !Holds(s, x, c)
  {
    ChildrenBelow<Item>(Kids(s), Ranks(s), c);
  }

  /** Put at the end of c's list, e's tree is the last of c's trees, and c holds what it and e held. */
  lemma Adopt(s: Heap, c: Item, e: Item)
    requires MayAttach(s, c, e)
    ensures var t := Attached(s, c, e, |s[c].items|);
      && Forested(t) && c in t && TreeOf(t, c) == TreeOf(s, c).(kids := TreeOf(s, c).kids + [TreeOf(s, e)])
  {
    hide IsForest, Within, Attached, ParentsAgree, Forested;
    var t := Attached(s, c, e, |s[c].items|);
    AttachRanked(s, c, e, |s[c].items|);
    AttachedList(s, c, e);
    KidsBelow(s, c);
    KidsBelow(t, c);
    assert forall x <- s[c].items :: x in t[c].items;
    TreesElsewhere(s, c, e, s[c].items, Ranks(s)[c], Ranks(t)[c]);
    AdoptElsewhere(s, c, e, |s[c].items|, e);
    TreesAppend(t, Ranks(t), s[c].items, e, Ranks(t)[c]);
  }

  lemma AdoptHolds(s: Heap, c: Item, e: Item, y: Item)
    requires MayAttach(s, c, e)
    ensures var t := Attached(s, c, e, |s[c].items|);
      Forested(t) && c in t && (Holds(t, c, y) <==> Holds(s, c, y) || Holds(s, e, y))
  {
    hide Attached, ParentsAgree, Forested, IsForest;
    var t := Attached(s, c, e, |s[c].items|);
    AttachRanked(s, c, e, |s[c].items|);
    AttachedList(s, c, e);
    KidsBelow(s, c);
    AdoptElsewhere(s, c, e, |s[c].items|, e);
    HoldsSelf(s, c);
    HoldsSelf(t, c);
    if Holds(t, c, y) && y != c {
      var d := HoldsVia(t, c, y);
      if d != e {
        AdoptElsewhere(s, c, e, |s[c].items|, d);
        HoldsDown(s, c, d, y);
      }
    }
    if Holds(s, e, y) {
      assert e in t[c].items;
      HoldsDown(t, c, e, y);
    }
    if Holds(s, c, y) && y != c {
      var d := HoldsVia(s, c, y);
      AdoptElsewhere(s, c, e, |s[c].items|, d);
      assert d in t[c].items;
      HoldsDown(t, c, d, y);
    }
  }

  lemma HoldsVia(s: Heap, c: Item, y: Item) returns (d: Item)
    requires Forested(s) && c in s && Holds(s, c, y) && y != c
    ensures d in s[c].items && d in s && Holds(s, d, y)
  {
    KidsBelow(s, c);
    d :| d in Kids(s)[c] && Within<Item>(Kids(s), Ranks(s), d, y);
  }

  /** More objects change nothing for those there already. */
  lemma Grown(s: Heap, t: Heap, x: Item)
    requires Forested(s) && Forested(t) && x in s && forall z <- s :: z in t && t[z] == s[z]
    ensures x in t && TreeOf(t, x) == TreeOf(s, x) && forall y :: Holds(t, x, y) <==> Holds(s, x, y)
  {
    var g, h, g', h' := Kids(s), Ranks(s), Kids(t), Ranks(t);
    forall y
      ensures Within<Item>(g', h', x, y) <==> Within<Item>(g, h, x, y)
    {
      WithinGrown<Item>(g, h, g', h', x, y);
    }
    SameTree(s, h, t, h', x);
  }

  lemma {:induction false} TreesLength(s: Heap, h: Rank<Item>, l: seq<Item>, b: nat)
    requires Ranked(s, h) && forall e <- l :: e in s && h[e] < b
    ensures |TreesWith(s, h, l, b)| == |l|
    decreases |l|
  {
    hide IsForest;
    if l != [] {
      TreesLength(s, h, l[1..], b);
    }
  }

  lemma {:induction false} KidTrees(s: Heap, h: Rank<Item>, l: seq<Item>, b: nat, i: nat)
    requires Ranked(s, h) && (forall e <- l :: e in s && h[e] < b) && i < |l|
    ensures |TreesWith(s, h, l, b)| == |l| && l[i] in l && TreesWith(s, h, l, b)[i] == TreeWith(s, h, l[i])
    decreases |l|
  {
    hide IsForest, TreeWith;
    TreesLength(s, h, l, b);
    if i > 0 {
      KidTrees(s, h, l[1..], b, i - 1);
    }
  }

  lemma TreeIs(s: Heap, x: Item)
    requires Forested(s) && x in s
    ensures forall e <- s[x].items :: e in s && Ranks(s)[e] < Ranks(s)[x]
    ensures TreeOf(s, x) == Tree(s[x].face, s[x].container, s[x].maxSize, s[x].total, TreesWith(s, Ranks(s), s[x].items, Ranks(s)[x]))
  {
    hide Forested, Within;
    KidsBelow(s, x);
  }

  lemma TreeParts(s: Heap, x: Item)
    requires Forested(s) && x in s
    ensures var t := TreeOf(s, x);
      && t.face == s[x].face && t.container == s[x].container && t.maxSize == s[x].maxSize && t.total == s[x].total
      && |t.kids| == |s[x].items|
      && forall i :: 0 <= i < |s[x].items| ==> s[x].items[i] in s && t.kids[i] == TreeOf(s, s[x].items[i])
  {
    hide Forested, IsForest;
    TreeIs(s, x);
    TreesLength(s, Ranks(s), s[x].items, Ranks(s)[x]);
    forall i | 0 <= i < |s[x].items|
      ensures s[x].items[i] in s && TreeOf(s, x).kids[i] == TreeOf(s, s[x].items[i])
    {
      KidTrees(s, Ranks(s), s[x].items, Ranks(s)[x], i);
    }
  }

  // ---------------------------------------------------------------- the method

  /** A heap that may be climbed and walked: caches aside, everything is in order. */
  ghost predicate Ordered(s: Heap) {
    Forested(s) && ParentsAgree(s)
  }

  /** c, a new object, is a copy of x so far as its first n items, and holds all the other new objects. */
  ghost predicate CopiedTo(k: Catalogue, s0: Heap, s: Heap, x: Item, c: Item, n: nat)
    requires Forested(s0) && x in s0
  {
    && Ordered(s) && (forall z <- s0 :: z in s && s[z] == s0[z]) && c in s && c !in s0 && s[c].parent == null
    && s[c].container == s0[x].container && n <= |TreeOf(s0, x).kids|
    && TreeOf(s, c) == Tree(CopyFace(k, s0[x].face, s0[x].container), s0[x].container, CopyCapacity(k, s0[x].face, s0[x].container), 0, CopyAll(k, TreeOf(s0, x).kids[..n]))
    && forall y <- s :: Holds(s, c, y) <==> y !in s0
  }

  /** The heap t has, beside what there is in s, exactly a copy c of x, without a place. */
  ghost predicate Cloned(k: Catalogue, s: Heap, t: Heap, x: Item, c: Item) {
    && Ordered(s) && x in s && Ordered(t) && (forall z <- s :: z in t && t[z] == s[z]) && c in t && c !in s && t[c].parent == null
    && TreeOf(t, c) == Copy(k, TreeOf(s, x)) && (forall y <- t :: Holds(t, c, y) <==> y !in s)
  }

  lemma NewTree(s: Heap, c: Item, face: Face, container: bool, maxSize: nat)
    requires Ordered(s) && c !in s
    ensures var t := Enlarged(s, c, face, container, maxSize);
      Forested(t) && TreeOf(t, c) == Tree(face, container, maxSize, 0, [])
  {
    hide ParentsAgree, IsForest, TreeOf;
    var t := Enlarged(s, c, face, container, maxSize);
    EnlargedRanked(s, c, face, container, maxSize);
    TreeParts(t, c);
  }

  lemma CopyStarts(k: Catalogue, s0: Heap, x: Item, c: Item)
    requires Ordered(s0) && x in s0 && c !in s0
    ensures CopiedTo(k, s0, Enlarged(s0, c, CopyFace(k, s0[x].face, s0[x].container), s0[x].container, CopyCapacity(k, s0[x].face, s0[x].container)), x, c, 0)
  {
    hide ParentsAgree, Forested, Holds, TreeOf, CopyFace, CopyCapacity;
    var face, container, maxSize := CopyFace(k, s0[x].face, s0[x].container), s0[x].container, CopyCapacity(k, s0[x].face, s0[x].container);
    var s := Enlarged(s0, c, face, container, maxSize);
    EnlargedRanked(s0, c, face, container, maxSize);
    EnlargedAgrees(s0, c, face, container, maxSize);
    forall y <- s
      ensures Holds(s, c, y) <==> y !in s0
    {
      EnlargedAlone(s0, c, face, OwnWeight, y, container, maxSize);
    }
    NewTree(s0, c, face, container, maxSize);
    assert CopyAll(k, TreeOf(s0, x).kids[..0]) == [];
  }

  // The next item to be copied is as it was when the copying began, and its tree is smaller.
  lemma NextItem(k: Catalogue, s0: Heap, s: Heap, x: Item, c: Item, n: nat)
    requires Ordered(s0) && x in s0 && CopiedTo(k, s0, s, x, c, n) && n < |s0[x].items|
    ensures var e := s0[x].items[n];
      && e in s0 && e in s && n < |TreeOf(s0, x).kids| && TreeOf(s, e) == TreeOf(s0, e) == TreeOf(s0, x).kids[n]
      && s[c].container
  {
    hide IsForest, Holds;
    TreeParts(s0, x);
    Grown(s0, s, s0[x].items[n]);
    assert LinkedDown(s0, x);
  }

  lemma CopyMayJoin(k: Catalogue, s0: Heap, s: Heap, t: Heap, x: Item, c: Item, n: nat, e: Item)
    requires Ordered(s0) && x in s0 && CopiedTo(k, s0, s, x, c, n) && n < |s0[x].items| && Cloned(k, s, t, s0[x].items[n], e)
    ensures c in s && c in t && t[c] == s[c] && c !in s0 && MayAttach(t, c, e)
  {
    hide ParentsAgree, Forested, Holds, TreeOf, Copy, CopyAll;
    NextItem(k, s0, s, x, c, n);
  }

  lemma CopyHolds(k: Catalogue, s0: Heap, s: Heap, t: Heap, x: Item, c: Item, n: nat, e: Item, y: Item)
    requires Ordered(s0) && x in s0 && CopiedTo(k, s0, s, x, c, n) && n < |s0[x].items| && Cloned(k, s, t, s0[x].items[n], e)
    requires MayAttach(t, c, e) && y in t
    ensures var u := Attached(t, c, e, |t[c].items|);
      Forested(u) && c in u && (Holds(u, c, y) <==> y !in s0)
  {
    hide ParentsAgree, Forested, Holds, TreeOf, Copy, CopyAll, Attached;
    CopyMayJoin(k, s0, s, t, x, c, n, e);
    Grown(s, t, c);
    AdoptHolds(t, c, e, y);
    if Holds(s, c, y) {
      NotYetThere(s, c, y);
    }
  }

  lemma CopyTrees(k: Catalogue, s0: Heap, s: Heap, t: Heap, x: Item, c: Item, n: nat, e: Item)
    requires Ordered(s0) && x in s0 && CopiedTo(k, s0, s, x, c, n) && n < |s0[x].items| && Cloned(k, s, t, s0[x].items[n], e)
    requires MayAttach(t, c, e)
    ensures var u, kids := Attached(t, c, e, |t[c].items|), TreeOf(s0, x).kids;
      && Forested(u) && c in u && n + 1 <= |kids|
      && TreeOf(u, c) == Tree(CopyFace(k, s0[x].face, s0[x].container), s0[x].container, CopyCapacity(k, s0[x].face, s0[x].container), 0, CopyAll(k, kids[..n + 1]))
  {
    hide ParentsAgree, Forested, Holds, TreeOf, Copy, CopyAll, Attached;
    CopyMayJoin(k, s0, s, t, x, c, n, e);
    NextItem(k, s0, s, x, c, n);
    Grown(s, t, c);
    Adopt(t, c, e);
    var kids := TreeOf(s0, x).kids;
    assert kids[..n + 1] == kids[..n] + [kids[n]];
    CopyAllAppend(k, kids[..n], kids[n]);
  }

  /** With the copy of the next item put at its end, c is a copy of one item more. */
  lemma CopyGoesOn(k: Catalogue, s0: Heap, s: Heap, t: Heap, x: Item, c: Item, n: nat, e: Item)
    requires Ordered(s0) && x in s0 && CopiedTo(k, s0, s, x, c, n) && n < |s0[x].items| && Cloned(k, s, t, s0[x].items[n], e)
    ensures MayAttach(t, c, e) && CopiedTo(k, s0, Attached(t, c, e, |t[c].items|), x, c, n + 1)
  {
    hide ParentsAgree, Forested, Holds, Attached, TreeOf, Copy, CopyAll;
    CopyMayJoin(k, s0, s, t, x, c, n, e);
    var u := Attached(t, c, e, |t[c].items|);
    AttachRanked(t, c, e, |t[c].items|);
    AttachAgrees(t, c, e, |t[c].items|);
    AttachedList(t, c, e);
    AttachedOthers(t, c, e);
    CopyTrees(k, s0, s, t, x, c, n, e);
    forall y <- u
      ensures Holds(u, c, y) <==> y !in s0
    {
      CopyHolds(k, s0, s, t, x, c, n, e, y);
    }
  }

  lemma AttachedOthers(t: Heap, c: Item, e: Item)
    requires MayAttach(t, c, e)
    ensures forall z <- t :: z != c && z != e ==> Attached(t, c, e, |t[c].items|)[z] == t[z]
    ensures c != e ==> Attached(t, c, e, |t[c].items|)[c].parent == t[c].parent
  {
  }

  lemma NotYetThere(s: Heap, c: Item, y: Item)
    requires Forested(s) && c in s && Holds(s, c, y)
    ensures y in s
  {
    WithinRank<Item>(Kids(s), Ranks(s), c, y);
  }

  /** The caches are copied last. */
  lemma CopyEnds(k: Catalogue, s0: Heap, s: Heap, x: Item, c: Item)
    requires Ordered(s0) && x in s0 && CopiedTo(k, s0, s, x, c, |s0[x].items|)
    ensures var t := s[c := s[c].(total := s0[x].total)];
      && Ordered(t) && TreeOf(t, c) == Copy(k, TreeOf(s0, x)) && forall y <- t :: Holds(t, c, y) <==> y !in s0
  {
    hide ParentsAgree, Forested, Holds, TreeOf, Copy, CopyAll;
    var t := s[c := s[c].(total := s0[x].total)];
    assert SameButTotals(s, t);
    TotalsAside(s, t);
    SameKids(s, c, s0[x].total);
    CopyIs(k, s0, x);
    forall y <- t
      ensures Holds(t, c, y) <==> y !in s0
    {
      SameHolds(s, t, c, y);
    }
  }

  lemma CopyIs(k: Catalogue, s: Heap, x: Item)
    requires Forested(s) && x in s
    ensures |TreeOf(s, x).kids| == |s[x].items| && TreeOf(s, x).kids[..|s[x].items|] == TreeOf(s, x).kids
    ensures Copy(k, TreeOf(s, x)) == Tree(CopyFace(k, s[x].face, s[x].container), s[x].container, CopyCapacity(k, s[x].face, s[x].container), s[x].total, CopyAll(k, TreeOf(s, x).kids))
  {
    hide Forested, CopyAll;
    TreeParts(s, x);
  }

  // c's cache is no part of its items.
  lemma SameKids(s: Heap, c: Item, total: nat)
    requires Forested(s) && c in s
    ensures var t := s[c := s[c].(total := total)];
      Forested(t) && TreeOf(t, c) == TreeOf(s, c).(total := total)
  {
    hide IsForest, TreeOf;
    var t := s[c := s[c].(total := total)];
    assert SameButTotals(s, t);
    TotalsAside(s, t);
    TreeParts(s, c);
    TreeParts(t, c);
    forall i | 0 <= i < |s[c].items|
      ensures TreeOf(t, c).kids[i] == TreeOf(s, c).kids[i]
    {
      OtherCache(s, c, total, s[c].items[i]);
    }
    assert TreeOf(t, c).kids == TreeOf(s, c).kids;
  }

  lemma OtherCache(s: Heap, c: Item, total: nat, e: Item)
    requires Forested(s) && c in s && e in s[c].items
    ensures var t := s[c := s[c].(total := total)];
      Forested(t) && e in s && e in t && TreeOf(t, e) == TreeOf(s, e)
  {
    hide IsForest, Within;
    var t := s[c := s[c].(total := total)];
    assert SameButTotals(s, t);
    TotalsAside(s, t);
    KidsBelow(s, c);
    assert forall z <- s :: z != c ==> Alike(s[z], t[z]);
    hide Forested, Kids;
    SameTree(s, Ranks(s), t, Ranks(t), e);
  }

  /**
   `Container::clone`, and `Item::clone` for what is no container: new objects, whose tree is the copy of x's
   tree and which hold nothing that was there before. Nothing that was there changes.
   */
  method Clone(k: Catalogue, x: Item, ghost w: set<Item>) returns (c: Item, ghost w': set<Item>)
    requires x in w && Ordered(Snap(w))
    ensures w <= w' && fresh(w' - w) && c in w'
    ensures Snap(w) == old(Snap(w)) && Cloned(k, Snap(w), Snap(w'), x, c)
    decreases TreeOf(Snap(w), x), 1
  {
    hide Forested, ParentsAgree, Holds, CopiedTo, Copy, CopyAll, TreeOf, Enlarged, Attached;
    ghost var s0 := Snap(w);
    c, w' := NewLike(k, x, w);
    var i := 0;
    while i < |x.itemlist|
      invariant i <= |x.itemlist| && w <= w' && fresh(w' - w) && c in w' && c !in w
      invariant Snap(w) == s0 && CopiedTo(k, s0, Snap(w'), x, c, i)
    {
      w' := CloneNext(k, x, c, i, w, w');
      i := i + 1;
    }
    CopyEnds(k, s0, Snap(w'), x, c);
    ghost var s := Snap(w');
    CopiedFacts(k, s0, s, x, c, i);
    c.totalWeight := x.totalWeight;
    assert Snap(w') == s[c := s[c].(total := s0[x].total)];
  }

  lemma CopiedFacts(k: Catalogue, s0: Heap, s: Heap, x: Item, c: Item, n: nat)
    requires Forested(s0) && x in s0 && CopiedTo(k, s0, s, x, c, n)
    ensures Ordered(s) && c in s && s[c].parent == null && c !in s0
  {
  }

  /** A new object like x, so far without items. */
  method NewLike(k: Catalogue, x: Item, ghost w: set<Item>) returns (c: Item, ghost w': set<Item>)
    requires x in w && Ordered(Snap(w))
    ensures w' == w + {c} && fresh(c) && c !in w && CopiedTo(k, Snap(w), Snap(w'), x, c, 0)
  {
    hide Forested, ParentsAgree, Holds, CopiedTo;
    c := new Item(CopyFace(k, x.face, x.container), x.container, CopyCapacity(k, x.face, x.container));
    w' := w + {c};
    CopyStarts(k, Snap(w), x, c);
    assert Snap(w') == Enlarged(Snap(w), c, CopyFace(k, x.face, x.container), x.container, CopyCapacity(k, x.face, x.container));
  }

  /** One round of the loop in `Container::clone`. */
  method CloneNext(k: Catalogue, x: Item, c: Item, i: nat, ghost w: set<Item>, ghost v: set<Item>) returns (ghost w': set<Item>)
    requires x in w && Ordered(Snap(w)) && w <= v && c in v && c !in w && i < |x.itemlist|
    requires CopiedTo(k, Snap(w), Snap(v), x, c, i)
    modifies c`itemlist
    ensures v <= w' && fresh(w' - v)
    ensures CopiedTo(k, Snap(w), Snap(w'), x, c, i + 1)
    decreases TreeOf(Snap(w), x), 0
  {
    hide Forested, ParentsAgree, CopiedTo, Attached, MayAttach, Cloned, Snap;
    ghost var s0, s := Snap(w), Snap(v);
    InSnap(w, x);
    CopiedFacts(k, s0, s, x, c, i);
    NextItem(k, s0, s, x, c, i);
    var item := x.itemlist[i];
    InSnap(v, item);
    var copy;
    copy, w' := CloneItem(k, item, v);
    CopyGoesOn(k, s0, s, Snap(w'), x, c, i, copy);
    InSnap(w', c);
    AddItem(c, copy, w');
  }

  method CloneItem(k: Catalogue, item: Item, ghost v: set<Item>) returns (copy: Item, ghost w': set<Item>)
    requires item in v && Ordered(Snap(v))
    ensures v <= w' && fresh(w' - v) && fresh(copy) && copy in w'
    ensures Snap(v) == old(Snap(v)) && Cloned(k, Snap(v), Snap(w'), item, copy)
    decreases TreeOf(Snap(v), item), 2
  {
    hide Forested, ParentsAgree, Holds, Copy, CopyAll, TreeOf;
    copy, w' := Clone(k, item, v);
  }

  /** `Container::addItem`: to the back of the list, without telling the caches. */
  method AddItem(c: Item, x: Item, ghost w: set<Item>)
    requires c in w && x in w && MayAttach(Snap(w), c, x)
    modifies c`itemlist, x`parent
    ensures Snap(w) == Attached(old(Snap(w)), c, x, |old(c.itemlist)|)
  {
    ghost var s := Snap(w);
    HoldsSelf(s, x);
    hide Forested, ParentsAgree, Holds;
    c.itemlist := c.itemlist + [x];
    x.parent := c;
    assert s[c].items[..|s[c].items|] + [x] + s[c].items[|s[c].items|..] == s[c].items + [x];
  }

  /** A clone in a sound heap leaves it sound, and every item as the catalogue lists it. */
  lemma CloneSound(k: Catalogue, s: Heap, t: Heap, x: Item, c: Item)
    requires Sound(s) && k.Paired() && Listed(k, s) && Cloned(k, s, t, x, c)
    ensures Sound(t) && Listed(k, t)
  {
    hide IsForest, Within, ParentsAgree;
    WeightedTree(k, s, Ranks(s), x);
    CopyOrderly(k, TreeOf(s, x));
    forall y <- t
      ensures t[y].total == Total(t, OwnWeight, y) % WEIGHT_MODULUS && k.Lists(t[y].face, t[y].container)
    {
      if y in s {
        Grown(s, t, y);
        DeepIsSum(s, Ranks(s), OwnWeight, y);
        DeepIsSum(t, Ranks(t), OwnWeight, y);
      } else {
        TreeWeighted(k, t, Ranks(t), c, y);
      }
    }
  }
}
