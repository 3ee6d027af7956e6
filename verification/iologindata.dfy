/**
 Player items in the database (src/iologindata.cpp). `saveItems` lists a forest of containers breadth
 first as rows (pid, sid); loading walks the rows by falling sid and pushes each item to the front of
 its parent. The rows are proved to describe the forest, and the objects rebuilt from any such rows to
 be the forest again: items of unknown types, and what they held, are dropped, and everything else is
 in its old place and order with its weight cache and parent pointer right.
 */
module PlayerItems {
  import opened Bytes
  import opened Items

  const FIRST_SID := 101
  const WEIGHT_MODULUS := 0x1_0000_0000

  datatype Row = Row(pid: int, sid: int, itemtype: nat, count: nat, attributes: seq<byte>)

  function RowOf(types: Catalogue, pid: int, sid: int, item: Item): (r: Row)
    requires Wf(item)
    ensures r.pid == pid && r.sid == sid && r.itemtype == item.id
  {
    var ty := types(item.id);
    FieldsWellTyped(ty, item);
    Row(pid, sid, item.id, SubType(ty, item), FieldsBytes(Fields(ty, item)))
  }

  // ---------------------------------------------------------------- what rows describe

  /** The items of the rows with parent id s, in row order. */
  function Children(rows: seq<Row>, nodes: seq<Node>, s: int): seq<Node>
    requires |rows| == |nodes|
  {
    if rows == [] then []
    else
      var m := |rows| - 1;
      Children(rows[..m], nodes[..m], s) + (if rows[m].pid == s then [nodes[m]] else [])
  }

  /**
   The rows spell out the nodes: row i is the item nodes[i] under sid 101 + i, the roots come first
   with their own pids, and every other row comes after its parent's.
   */
  ghost predicate Table(types: Catalogue, roots: seq<(int, Node)>, rows: seq<Row>, nodes: seq<Node>) {
    && |rows| == |nodes|
    && (forall i :: 0 <= i < |rows| ==> Held(types, nodes[i]) && rows[i] == RowOf(types, rows[i].pid, FIRST_SID + i, nodes[i].item))
    && (forall i :: 0 <= i < |rows| && i < |roots| ==> rows[i].pid == roots[i].0 && nodes[i] == roots[i].1)
    && (forall i :: |roots| <= i < |rows| ==> FIRST_SID <= rows[i].pid < rows[i].sid)
  }

  /** The containers of rows before f have their contents as children, and no later row has any. */
  ghost predicate Done(rows: seq<Row>, nodes: seq<Node>, f: nat)
    requires |rows| == |nodes|
  {
    && f <= |rows|
    && (forall i :: 0 <= i < f ==> Children(rows, nodes, FIRST_SID + i) == nodes[i].contents)
    && forall r <- rows :: r.pid < FIRST_SID + f
  }

  /** The rows describe the forest of the roots. */
  ghost predicate Described(types: Catalogue, roots: seq<(int, Node)>, rows: seq<Row>, nodes: seq<Node>) {
    Table(types, roots, rows, nodes) && |roots| <= |rows| && Done(rows, nodes, |rows|)
  }

  // ---------------------------------------------------------------- saving

  type Queue = seq<(Node, int)>

  function QueueSize(q: Queue): nat {
    if q == [] then 0 else Size(q[0].0) + QueueSize(q[1..])
  }

  function Size(t: Node): nat {
    1 + SizeAll(t.contents)
  }

  function SizeAll(ts: seq<Node>): nat {
    if ts == [] then 0 else Size(ts[0]) + SizeAll(ts[1..])
  }

  lemma HeldWf(types: Catalogue, t: Node)
    requires Held(types, t)
    ensures Wf(t.item)
  {
  }

  lemma PopSize(q: Queue)
    requires q != []
    ensures QueueSize(q) == 1 + SizeAll(q[0].0.contents[0..]) + QueueSize(q[1..])
  {
    assert q[0].0.contents[0..] == q[0].0.contents;
  }

  // Moving a child from the contents being written to the queue, or dropping it, frees no more than it costs.
  lemma PushSize(q: Queue, ts: seq<Node>, k: nat, sid: int)
    requires k < |ts|
    ensures QueueSize(q) + SizeAll(ts[k + 1..]) <= QueueSize(q) + SizeAll(ts[k..])
    ensures QueueSize(q + [(ts[k], sid)]) + SizeAll(ts[k + 1..]) == QueueSize(q) + SizeAll(ts[k..])
  {
    QueueSizeAppend(q, (ts[k], sid));
    assert ts[k..][1..] == ts[k + 1..];
  }

  lemma {:induction false} QueueSizeAppend(q: Queue, e: (Node, int))
    ensures QueueSize(q + [e]) == QueueSize(q) + Size(e.0)
  {
    if q == [] {
      assert [e][1..] == [];
    } else {
      QueueSizeAppend(q[1..], e);
      assert (q + [e])[1..] == q[1..] + [e];
    }
  }

  /** The containers among nodes[f..], with their sids: what is still queued when all before f are done. */
  function Pending(types: Catalogue, nodes: seq<Node>, f: nat): Queue
    decreases |nodes| - f
  {
    if f >= |nodes| then []
    else (if types(nodes[f].item.id).container then [(nodes[f], FIRST_SID + f)] else []) + Pending(types, nodes, f + 1)
  }

  lemma {:induction false} PendingAppend(types: Catalogue, nodes: seq<Node>, f: nat, n: Node)
    requires f <= |nodes|
    ensures Pending(types, nodes + [n], f) ==
      Pending(types, nodes, f) + (if types(n.item.id).container then [(n, FIRST_SID + |nodes|)] else [])
    decreases |nodes| - f
  {
    if f < |nodes| {
      PendingAppend(types, nodes, f + 1, n);
    }
  }

  // The front of the queue is the first container from f on.
  lemma {:induction false} PendingFront(types: Catalogue, nodes: seq<Node>, f: nat) returns (c: nat)
    requires Pending(types, nodes, f) != []
    ensures f <= c < |nodes| && Pending(types, nodes, f)[0] == (nodes[c], FIRST_SID + c)
    ensures Pending(types, nodes, f)[1..] == Pending(types, nodes, c + 1)
    ensures forall i :: f <= i < c ==> !types(nodes[i].item.id).container
    decreases |nodes| - f
  {
    if types(nodes[f].item.id).container {
      c := f;
    } else {
      c := PendingFront(types, nodes, f + 1);
    }
  }

  lemma {:induction false} PendingEmpty(types: Catalogue, nodes: seq<Node>, f: nat)
    requires Pending(types, nodes, f) == []
    ensures forall i :: f <= i < |nodes| ==> !types(nodes[i].item.id).container
    decreases |nodes| - f
  {
    if f < |nodes| {
      PendingEmpty(types, nodes, f + 1);
    }
  }

  lemma ChildrenAppend(rows: seq<Row>, nodes: seq<Node>, r: Row, n: Node, s: int)
    requires |rows| == |nodes|
    ensures Children(rows + [r], nodes + [n], s) == Children(rows, nodes, s) + (if r.pid == s then [n] else [])
  {
    assert (rows + [r])[..|rows|] == rows && (nodes + [n])[..|rows|] == nodes;
  }

  lemma {:induction false} NoChildren(rows: seq<Row>, nodes: seq<Node>, s: int)
    requires |rows| == |nodes| && forall r <- rows :: r.pid != s
    ensures Children(rows, nodes, s) == []
  {
    if rows != [] {
      var m := |rows| - 1;
      NoChildren(rows[..m], nodes[..m], s);
    }
  }

  /** Container c is being written: its first k items are out. */
  ghost predicate Writing(rows: seq<Row>, nodes: seq<Node>, c: nat, k: nat)
    requires |rows| == |nodes|
  {
    && c < |rows| && k <= |nodes[c].contents|
    && (forall i :: 0 <= i < c ==> Children(rows, nodes, FIRST_SID + i) == nodes[i].contents)
    && Children(rows, nodes, FIRST_SID + c) == nodes[c].contents[..k]
    && forall r <- rows :: r.pid <= FIRST_SID + c
  }

  lemma TableAppend(types: Catalogue, roots: seq<(int, Node)>, rows: seq<Row>, nodes: seq<Node>, pid: int, n: Node)
    requires Table(types, roots, rows, nodes) && Held(types, n)
    requires if |rows| < |roots| then (pid, n) == roots[|rows|] else FIRST_SID <= pid < FIRST_SID + |rows|
    ensures Table(types, roots, rows + [RowOf(types, pid, FIRST_SID + |rows|, n.item)], nodes + [n])
  {
    hide Held, RowOf;
  }

  lemma WritingAppend(rows: seq<Row>, nodes: seq<Node>, c: nat, k: nat, r: Row)
    requires |rows| == |nodes| && Writing(rows, nodes, c, k) && k < |nodes[c].contents| && r.pid == FIRST_SID + c
    ensures Writing(rows + [r], nodes + [nodes[c].contents[k]], c, k + 1)
  {
    var n := nodes[c].contents[k];
    forall s | FIRST_SID <= s <= FIRST_SID + c
      ensures Children(rows + [r], nodes + [n], s) == Children(rows, nodes, s) + (if s == r.pid then [n] else [])
    {
      ChildrenAppend(rows, nodes, r, n, s);
    }
    hide Children;
    assert nodes[c].contents[..k + 1] == nodes[c].contents[..k] + [nodes[c].contents[k]];
  }

  // Rows that hold no containers are done without being visited.
  lemma DoneSkip(types: Catalogue, roots: seq<(int, Node)>, rows: seq<Row>, nodes: seq<Node>, f: nat, c: nat)
    requires Table(types, roots, rows, nodes) && Done(rows, nodes, f) && f <= c <= |rows|
    requires forall i :: f <= i < c ==> !types(nodes[i].item.id).container
    ensures Done(rows, nodes, c)
    ensures c < |rows| ==> Writing(rows, nodes, c, 0)
  {
    hide Children, RowOf;
    forall i | f <= i < c
      ensures Children(rows, nodes, FIRST_SID + i) == nodes[i].contents
    {
      NoChildren(rows, nodes, FIRST_SID + i);
      assert Held(types, nodes[i]);
    }
    if c < |rows| {
      NoChildren(rows, nodes, FIRST_SID + c);
      assert nodes[c].contents[..0] == [];
    }
  }

  method SaveItems(types: Catalogue, itemList: seq<(int, Node)>) returns (rows: seq<Row>, ghost nodes: seq<Node>)
    requires forall e <- itemList :: Held(types, e.1) && 0 <= e.0 < 100
    ensures Described(types, itemList, rows, nodes)
    ensures exists forest :: Described(types, itemList, rows, forest)
  {
    hide RowOf, Children, Table, Writing, Pending, QueueSize, SizeAll, Held;
    var queue: Queue := [];
    var runningId := FIRST_SID - 1;
    rows, nodes := [], [];
    NoRows(types, itemList);
    for k := 0 to |itemList|
      invariant |rows| == |nodes| == k && runningId == FIRST_SID - 1 + |rows|
      invariant Table(types, itemList, rows, nodes) && Done(rows, nodes, 0)
      invariant queue == Pending(types, nodes, 0)
    {
      assert itemList[k] in itemList;
      var (pid, item) := itemList[k];
      HeldWf(types, item);
      runningId := runningId + 1;
      var row := RowOf(types, pid, runningId, item.item);
      TableAppend(types, itemList, rows, nodes, pid, item);
      PendingAppend(types, nodes, 0, item);
      rows, nodes := rows + [row], nodes + [item];
      if types(item.item.id).container {
        queue := queue + [(item, runningId)];
      }
    }
    hide Done;
    ghost var f := 0;
    while queue != []
      invariant |itemList| <= |rows| == |nodes| && runningId == FIRST_SID - 1 + |rows| && f <= |rows|
      invariant Table(types, itemList, rows, nodes) && Done(rows, nodes, f)
      invariant queue == Pending(types, nodes, f)
      decreases QueueSize(queue)
    {
      ghost var c := PendingFront(types, nodes, f);
      var (container, parentId) := queue[0];
      PopSize(queue);
      ghost var size := QueueSize(queue);
      queue := queue[1..];
      DoneSkip(types, itemList, rows, nodes, f, c);
      f := c + 1;
      HeldContents(types, itemList, rows, nodes, c);
      for k := 0 to |container.contents|
        invariant |itemList| <= |rows| == |nodes| && runningId == FIRST_SID - 1 + |rows| && f <= |rows| && nodes[c] == container
        invariant Table(types, itemList, rows, nodes) && Writing(rows, nodes, c, k)
        invariant queue == Pending(types, nodes, f)
        invariant QueueSize(queue) + SizeAll(container.contents[k..]) < size
      {
        var item := container.contents[k];
        assert item in container.contents;
        HeldWf(types, item);
        runningId := runningId + 1;
        var row := RowOf(types, parentId, runningId, item.item);
        TableAppend(types, itemList, rows, nodes, parentId, item);
        WritingAppend(rows, nodes, c, k, row);
        PendingAppend(types, nodes, f, item);
        PushSize(queue, container.contents, k, runningId);
        rows, nodes := rows + [row], nodes + [item];
        if types(item.item.id).container {
          queue := queue + [(item, runningId)];
        }
      }
      Written(rows, nodes, c);
    }
    PendingEmpty(types, nodes, f);
    DoneSkip(types, itemList, rows, nodes, f, |rows|);
  }

  lemma NoRows(types: Catalogue, roots: seq<(int, Node)>)
    ensures Table(types, roots, [], []) && Pending(types, [], 0) == []
  {
  }

  lemma Written(rows: seq<Row>, nodes: seq<Node>, c: nat)
    requires |rows| == |nodes| && c < |nodes| && Writing(rows, nodes, c, |nodes[c].contents|)
    ensures Done(rows, nodes, c + 1)
  {
    hide Children;
    assert nodes[c].contents[..|nodes[c].contents|] == nodes[c].contents;
  }

  lemma HeldContents(types: Catalogue, roots: seq<(int, Node)>, rows: seq<Row>, nodes: seq<Node>, c: nat)
    requires Table(types, roots, rows, nodes) && c < |nodes|
    ensures forall n <- nodes[c].contents :: Held(types, n)
  {
    assert Held(types, nodes[c]);
  }

  // ---------------------------------------------------------------- what loading must build

  /** Rows as a database hands them back from `saveItems`: sids rise, parents come before children. */
  ghost predicate Ordered(rows: seq<Row>) {
    && (forall i, j :: 0 <= i < j < |rows| ==> rows[i].sid < rows[j].sid)
    && (forall i :: 0 <= i < |rows| ==> rows[i].sid >= FIRST_SID && rows[i].pid < rows[i].sid)
  }

  /** `loadItems` on one row: None for an unknown item type. */
  function LoadRow(types: Catalogue, r: Row): Option<Item> {
    match CreateItem(types, r.itemtype, r.count)
    case None => None
    case Some(made) =>
      match ReadAttrs(CreatedType(types, r.itemtype), made, r.attributes)
      case Ended(item, _) => Some(item)
      case Items(item, _, _) => Some(item)
      case Bad => Some(made) // a warning; what was read before the error is not modelled
  }

  predicate IsContainer(types: Catalogue, r: Row) {
    types(r.itemtype).container
  }

  /** The tree below row j, and the trees of the rows from `from` on whose parent id is s. */
  function Rebuilt(types: Catalogue, rows: seq<Row>, j: nat): Node
    requires j < |rows| && LoadRow(types, rows[j]).Some?
    decreases |rows| - j, 0
  {
    Node(LoadRow(types, rows[j]).value,
      if IsContainer(types, rows[j]) then RebuiltKids(types, rows, rows[j].sid, j + 1) else [])
  }

  function RebuiltKids(types: Catalogue, rows: seq<Row>, s: int, from: nat): seq<Node>
    decreases |rows| - from, 1
  {
    if from >= |rows| then []
    else
      (if rows[from].pid == s && LoadRow(types, rows[from]).Some? then [Rebuilt(types, rows, from)] else [])
      + RebuiltKids(types, rows, s, from + 1)
  }

  /** The forest less every item of unknown type, with all it holds; the rest as a row reload leaves it. */
  function Restored(types: Catalogue, t: Node): Node
    requires Held(types, t) && types(t.item.id).known
    decreases t
  {
    Node(ReloadedRow(types, t.item), RestoredAll(types, t.contents))
  }

  function RestoredAll(types: Catalogue, ts: seq<Node>): seq<Node>
    requires forall t <- ts :: Held(types, t)
    decreases ts
  {
    if ts == [] then []
    else (if types(ts[0].item.id).known then [Restored(types, ts[0])] else []) + RestoredAll(types, ts[1..])
  }

  lemma LoadSavedRow(types: Catalogue, pid: int, sid: int, item: Item)
    requires Wf(item)
    ensures LoadRow(types, RowOf(types, pid, sid, item)) ==
      if types(item.id).known then Some(ReloadedRow(types, item)) else None
  {
    if types(item.id).known {
      var ty := CreatedType(types, item.id);
      var made := CreateItem(types, item.id, SubType(types(item.id), item)).value;
      var fs := Fields(types(item.id), item);
      FieldsWellTyped(types(item.id), item);
      hide CreateItem, CreatedType, Fields, FieldsBytes, ApplyAll, SubType;
      ReadWritten(ty, made, fs, []);
      assert FieldsBytes(fs) + [] == FieldsBytes(fs);
    }
  }

  // Children read from the front, as loading does.
  function ChildrenFrom(rows: seq<Row>, nodes: seq<Node>, s: int, from: nat): seq<Node>
    requires |rows| == |nodes|
    decreases |rows| - from
  {
    if from >= |rows| then []
    else (if rows[from].pid == s then [nodes[from]] else []) + ChildrenFrom(rows, nodes, s, from + 1)
  }

  lemma {:induction false} ChildrenSplit(rows: seq<Row>, nodes: seq<Node>, s: int, k: nat)
    requires |rows| == |nodes| && k <= |rows|
    ensures Children(rows, nodes, s) == Children(rows[..k], nodes[..k], s) + ChildrenFrom(rows, nodes, s, k)
    decreases |rows| - k
  {
    if k == |rows| {
      assert rows[..k] == rows && nodes[..k] == nodes;
    } else {
      ChildrenSplit(rows, nodes, s, k + 1);
      assert rows[..k + 1][..k] == rows[..k] && nodes[..k + 1][..k] == nodes[..k];
      Assoc(Children(rows[..k], nodes[..k], s), if rows[k].pid == s then [nodes[k]] else [], ChildrenFrom(rows, nodes, s, k + 1));
    }
  }

  // Every row of a described forest is rebuilt as its restored node.
  lemma {:induction false} RebuiltNode(types: Catalogue, roots: seq<(int, Node)>, rows: seq<Row>, nodes: seq<Node>, j: nat)
    requires Described(types, roots, rows, nodes) && j < |rows| && forall e <- roots :: e.0 < FIRST_SID
    ensures LoadRow(types, rows[j]).Some? <==> types(nodes[j].item.id).known
    ensures types(nodes[j].item.id).known ==> Rebuilt(types, rows, j) == Restored(types, nodes[j])
    decreases |rows| - j, 0
  {
    hide LoadRow, RowOf, Held, Described, RebuiltKids, Children, ChildrenFrom;
    RowOfNode(types, roots, rows, nodes, j);
    var sid := FIRST_SID + j;
    LoadSavedRow(types, rows[j].pid, sid, nodes[j].item);
    RebuiltAll(types, roots, rows, nodes, sid, j + 1);
    KidsBehind(types, roots, rows, nodes, j);
  }

  lemma RowOfNode(types: Catalogue, roots: seq<(int, Node)>, rows: seq<Row>, nodes: seq<Node>, j: nat)
    requires Described(types, roots, rows, nodes) && j < |rows|
    ensures |rows| == |nodes| && Held(types, nodes[j]) && Wf(nodes[j].item) && nodes[j].item.id < 0x1_0000
    ensures types(nodes[j].item.id).container || nodes[j].contents == []
    ensures rows[j] == RowOf(types, rows[j].pid, FIRST_SID + j, nodes[j].item)
    ensures rows[j].sid == FIRST_SID + j && rows[j].itemtype == nodes[j].item.id
  {
    hide Done;
  }

  // The rows whose parent is row j all come after it, and are its contents.
  lemma KidsBehind(types: Catalogue, roots: seq<(int, Node)>, rows: seq<Row>, nodes: seq<Node>, j: nat)
    requires Described(types, roots, rows, nodes) && j < |rows| && forall e <- roots :: e.0 < FIRST_SID
    ensures ChildrenFrom(rows, nodes, FIRST_SID + j, j + 1) == nodes[j].contents
  {
    hide RowOf, Held, Children, ChildrenFrom;
    var sid := FIRST_SID + j;
    ChildrenSplit(rows, nodes, sid, j + 1);
    forall i | 0 <= i <= j
      ensures rows[i].pid != sid
    {
      if i < |roots| {
        assert roots[i] in roots;
      } else {
        RowOfNode(types, roots, rows, nodes, i);
      }
    }
    NoChildren(rows[..j + 1], nodes[..j + 1], sid);
    assert [] + ChildrenFrom(rows, nodes, sid, j + 1) == ChildrenFrom(rows, nodes, sid, j + 1);
  }

  lemma {:induction false} RebuiltAll(types: Catalogue, roots: seq<(int, Node)>, rows: seq<Row>, nodes: seq<Node>, s: int, from: nat)
    requires Described(types, roots, rows, nodes) && forall e <- roots :: e.0 < FIRST_SID
    ensures forall t <- ChildrenFrom(rows, nodes, s, from) :: Held(types, t)
    ensures RebuiltKids(types, rows, s, from) == RestoredAll(types, ChildrenFrom(rows, nodes, s, from))
    decreases |rows| - from, 1
  {
    hide LoadRow, RowOf, Rebuilt, Children;
    if from < |rows| {
      RebuiltNode(types, roots, rows, nodes, from);
      RebuiltAll(types, roots, rows, nodes, s, from + 1);
      var more := ChildrenFrom(rows, nodes, s, from + 1);
      if rows[from].pid == s {
        assert ([nodes[from]] + more)[1..] == more;
      } else {
        assert [] + more == more;
      }
    }
  }

  // ---------------------------------------------------------------- rebuilding objects

  /** `getWeight`: the item and, through the cache, everything below it. */
  function TreeWeight(types: Catalogue, t: Node): nat {
    (OwnWeight(types, t.item) + ContentsWeight(types, t.contents)) % WEIGHT_MODULUS
  }

  function ContentsWeight(types: Catalogue, ts: seq<Node>): nat {
    if ts == [] then 0 else (TreeWeight(types, ts[0]) + ContentsWeight(types, ts[1..])) % WEIGHT_MODULUS
  }

  /** An item object; a container if `container`. */
  class Thing {
    const item: Item
    const container: bool
    const ownWeight: nat
    var parent: Thing?
    var itemlist: seq<Thing>
    var totalWeight: nat

    constructor (item: Item, container: bool, ownWeight: nat)
      ensures this.item == item && this.container == container && this.ownWeight == ownWeight
      ensures parent == null && itemlist == [] && totalWeight == 0
    {
      this.item, this.container, this.ownWeight := item, container, ownWeight;
      parent, itemlist, totalWeight := null, [], 0;
    }

    /** `internalAddThing` on a container that is in no container itself, so that no ancestor's cache changes. */
    method InternalAddThing(thing: Thing)
      requires parent == null && thing != this
      modifies this, thing`parent
      ensures thing.parent == this && parent == null
      ensures itemlist == [thing] + old(itemlist)
      ensures totalWeight == (old(totalWeight) + thing.ownWeight + thing.totalWeight) % WEIGHT_MODULUS
    {
      thing.parent := this;
      itemlist := [thing] + itemlist;
      totalWeight := (totalWeight + thing.ownWeight + thing.totalWeight) % WEIGHT_MODULUS;
    }
  }

  /** The object and everything below it are the tree, with right caches and parent pointers. */
  ghost predicate Holds(world: set<Thing>, types: Catalogue, o: Thing, t: Node)
    reads world
    decreases t
  {
    && o in world && o.item == t.item && |o.itemlist| == |t.contents|
    && o.totalWeight == ContentsWeight(types, t.contents)
    && forall k :: 0 <= k < |o.itemlist| ==>
         o.itemlist[k] in world && o.itemlist[k].parent == o && Holds(world, types, o.itemlist[k], t.contents[k])
  }

  ghost predicate HoldsAll(world: set<Thing>, types: Catalogue, os: seq<Thing>, ts: seq<Node>)
    reads world
  {
    |os| == |ts| && forall k :: 0 <= k < |os| ==> os[k] in world && Holds(world, types, os[k], ts[k])
  }

  type ItemMap = map<int, Thing>

  function Objects(itemMap: ItemMap): set<Thing> {
    set sid | sid in itemMap :: itemMap[sid]
  }

  /** What `loadItems` leaves for row i: an object if the type is known. */
  ghost predicate MappedAt(types: Catalogue, rows: seq<Row>, itemMap: ItemMap, i: nat)
    requires i < |rows|
  {
    (rows[i].sid in itemMap && LoadRow(types, rows[i]).Some? ==>
          var o := itemMap[rows[i].sid];
          && o.item == LoadRow(types, rows[i]).value && o.container == IsContainer(types, rows[i])
          && o.ownWeight == OwnWeight(types, o.item))
  }

  /** One object per row of known type, each its own. */
  ghost predicate Mapped(types: Catalogue, rows: seq<Row>, itemMap: ItemMap)
  {
    && (forall sid <- itemMap :: exists i :: 0 <= i < |rows| && rows[i].sid == sid)
    && (forall i :: 0 <= i < |rows| ==> (rows[i].sid in itemMap <==> LoadRow(types, rows[i]).Some?))
    && (forall i :: 0 <= i < |rows| ==> MappedAt(types, rows, itemMap, i))
    && (forall s, s' :: s in itemMap && s' in itemMap && s != s' ==> itemMap[s] != itemMap[s'])
  }

  /** The objects of the rows from `from` on whose parent id is s. */
  function Kids(rows: seq<Row>, itemMap: ItemMap, s: int, from: nat): seq<Thing>
    decreases |rows| - from
  {
    if from >= |rows| then []
    else
      (if rows[from].pid == s && rows[from].sid in itemMap then [itemMap[rows[from].sid]] else [])
      + Kids(rows, itemMap, s, from + 1)
  }

  /** The object of row j when the rows from i on have been put in place. */
  ghost predicate LinkedAt(types: Catalogue, rows: seq<Row>, itemMap: ItemMap, i: nat, j: nat)
    requires j < |rows|
    reads if rows[j].sid in itemMap then {itemMap[rows[j].sid]} else {}
  {
    rows[j].sid in itemMap ==>
      var o := itemMap[rows[j].sid];
      && o.itemlist == (if o.container then Kids(rows, itemMap, rows[j].sid, i) else [])
      && o.totalWeight == (if o.container then ContentsWeight(types, RebuiltKids(types, rows, rows[j].sid, i)) else 0)
      && (j < i ==> o.parent == null)
      && (i <= j && rows[j].pid in itemMap && itemMap[rows[j].pid].container ==> o.parent == itemMap[rows[j].pid])
  }

  ghost predicate Linked(types: Catalogue, rows: seq<Row>, itemMap: ItemMap, i: nat)
    reads Objects(itemMap)
  {
    forall j :: 0 <= j < |rows| ==> LinkedAt(types, rows, itemMap, i, j)
  }

  // Rows up to and including a row are not its children.
  lemma {:induction false} KidsAfter(types: Catalogue, rows: seq<Row>, itemMap: ItemMap, s: int, from: nat, to: nat)
    requires from <= to <= |rows| && forall i :: from <= i < to ==> rows[i].pid != s
    ensures Kids(rows, itemMap, s, from) == Kids(rows, itemMap, s, to)
    ensures RebuiltKids(types, rows, s, from) == RebuiltKids(types, rows, s, to)
    decreases |rows| - from
  {
    if from < to {
      KidsAfter(types, rows, itemMap, s, from + 1, to);
    }
  }

  lemma {:induction false} HoldsRow(types: Catalogue, rows: seq<Row>, itemMap: ItemMap, j: nat)
    requires Ordered(rows) && Mapped(types, rows, itemMap) && Linked(types, rows, itemMap, 0)
    requires j < |rows| && rows[j].sid in itemMap
    ensures Holds(Objects(itemMap), types, itemMap[rows[j].sid], Rebuilt(types, rows, j))
    decreases |rows| - j, 0
  {
    hide LoadRow, RebuiltKids, Kids, ContentsWeight, IsContainer, OwnWeight, Linked, Mapped, Ordered, Objects, Rebuilt;
    LinkedRow(types, rows, itemMap, j);
    if itemMap[rows[j].sid].container {
      HoldsKids(types, rows, itemMap, rows[j].sid, j + 1);
    }
  }

  lemma RowAt(types: Catalogue, rows: seq<Row>, itemMap: ItemMap, i: nat, j: nat)
    requires Mapped(types, rows, itemMap) && Linked(types, rows, itemMap, i) && j < |rows|
    ensures MappedAt(types, rows, itemMap, j) && LinkedAt(types, rows, itemMap, i, j)
    ensures rows[j].sid in itemMap <==> LoadRow(types, rows[j]).Some?
    ensures rows[j].sid in itemMap ==> itemMap[rows[j].sid] in Objects(itemMap)
  {
  }

  // The object of one row, once all rows are in place.
  lemma LinkedRow(types: Catalogue, rows: seq<Row>, itemMap: ItemMap, j: nat)
    requires Ordered(rows) && Mapped(types, rows, itemMap) && Linked(types, rows, itemMap, 0)
    requires j < |rows| && rows[j].sid in itemMap
    ensures var o, sid := itemMap[rows[j].sid], rows[j].sid;
      && o in Objects(itemMap) && LoadRow(types, rows[j]).Some? && o.item == LoadRow(types, rows[j]).value
      && o.container == IsContainer(types, rows[j])
      && o.itemlist == (if o.container then Kids(rows, itemMap, sid, j + 1) else [])
      && Rebuilt(types, rows, j) == Node(o.item, if o.container then RebuiltKids(types, rows, sid, j + 1) else [])
      && o.totalWeight == ContentsWeight(types, Rebuilt(types, rows, j).contents)
  {
    assert ContentsWeight(types, []) == 0;
    hide LoadRow, RebuiltKids, Kids, ContentsWeight, IsContainer, OwnWeight, Mapped, Linked, Ordered, Objects;
    RowAt(types, rows, itemMap, 0, j);
    KidsOfRow(types, rows, itemMap, j);
  }

  lemma KidsOfRow(types: Catalogue, rows: seq<Row>, itemMap: ItemMap, j: nat)
    requires Ordered(rows) && j < |rows|
    ensures Kids(rows, itemMap, rows[j].sid, 0) == Kids(rows, itemMap, rows[j].sid, j + 1)
    ensures RebuiltKids(types, rows, rows[j].sid, 0) == RebuiltKids(types, rows, rows[j].sid, j + 1)
  {
    KidsAfter(types, rows, itemMap, rows[j].sid, 0, j + 1);
  }

  lemma {:induction false} HoldsKids(types: Catalogue, rows: seq<Row>, itemMap: ItemMap, s: int, from: nat)
    requires Ordered(rows) && Mapped(types, rows, itemMap) && Linked(types, rows, itemMap, 0)
    requires s in itemMap ==> itemMap[s].container
    ensures |Kids(rows, itemMap, s, from)| == |RebuiltKids(types, rows, s, from)|
    ensures forall k :: 0 <= k < |Kids(rows, itemMap, s, from)| ==>
      var o := Kids(rows, itemMap, s, from)[k];
      && o in Objects(itemMap) && (s in itemMap ==> o.parent == itemMap[s])
      && Holds(Objects(itemMap), types, o, RebuiltKids(types, rows, s, from)[k])
    decreases |rows| - from, 1
  {
    hide LoadRow, Rebuilt, Holds, Mapped, Linked;
    if from < |rows| {
      RowAt(types, rows, itemMap, 0, from);
      HoldsKids(types, rows, itemMap, s, from + 1);
      if rows[from].pid == s && rows[from].sid in itemMap {
        HoldsRow(types, rows, itemMap, from);
      }
    }
  }

  /** The row that ends up in an inventory slot: the last of known type, the others find it taken. */
  function SlotRow(types: Catalogue, rows: seq<Row>, slot: int, from: nat): (r: Option<nat>)
    ensures r.Some? ==> from <= r.value < |rows| && LoadRow(types, rows[r.value]).Some?
    decreases |rows| - from
  {
    if from >= |rows| then None
    else
      var later := SlotRow(types, rows, slot, from + 1);
      if later.Some? then later
      else if rows[from].pid == slot && LoadRow(types, rows[from]).Some? then Some(from)
      else None
  }

  method LoadItems(types: Catalogue, rows: seq<Row>) returns (itemMap: ItemMap)
    requires Ordered(rows)
    ensures Mapped(types, rows, itemMap) && fresh(Objects(itemMap)) && Linked(types, rows, itemMap, |rows|)
  {
    hide LoadRow, RebuiltKids, OwnWeight, IsContainer, Kids, ContentsWeight;
    itemMap := map[];
    for i := 0 to |rows|
      invariant forall s <- itemMap :: exists k :: 0 <= k < i && rows[k].sid == s
      invariant forall k :: 0 <= k < i ==> (rows[k].sid in itemMap <==> LoadRow(types, rows[k]).Some?)
      invariant forall k :: 0 <= k < i && rows[k].sid in itemMap ==>
        var o := itemMap[rows[k].sid];
        && o.item == LoadRow(types, rows[k]).value && o.container == IsContainer(types, rows[k])
        && o.ownWeight == OwnWeight(types, o.item)
      invariant forall s, s' :: s in itemMap && s' in itemMap && s != s' ==> itemMap[s] != itemMap[s']
      invariant forall s <- itemMap :: fresh(itemMap[s]) && itemMap[s].parent == null && itemMap[s].itemlist == [] && itemMap[s].totalWeight == 0
    {
      var item := LoadRow(types, rows[i]);
      if item.Some? {
        var o := new Thing(item.value, IsContainer(types, rows[i]), OwnWeight(types, item.value));
        itemMap := itemMap[rows[i].sid := o];
      }
    }
    forall j | 0 <= j < |rows|
      ensures MappedAt(types, rows, itemMap, j) && LinkedAt(types, rows, itemMap, |rows|, j)
    {
      NoKids(types, rows, itemMap, rows[j].sid);
    }
  }

  lemma NoKids(types: Catalogue, rows: seq<Row>, itemMap: ItemMap, s: int)
    ensures RebuiltKids(types, rows, s, |rows|) == [] && Kids(rows, itemMap, s, |rows|) == []
    ensures ContentsWeight(types, RebuiltKids(types, rows, s, |rows|)) == 0
  {
  }

  /** The weight of row i once its own contents are in place. */
  lemma RowWeight(types: Catalogue, rows: seq<Row>, itemMap: ItemMap, i: nat)
    requires Ordered(rows) && Mapped(types, rows, itemMap) && i < |rows| && Linked(types, rows, itemMap, i + 1)
    requires rows[i].sid in itemMap
    ensures var o := itemMap[rows[i].sid];
      TreeWeight(types, Rebuilt(types, rows, i)) == (o.ownWeight + o.totalWeight) % WEIGHT_MODULUS
  {
    hide LoadRow, RebuiltKids, Kids, IsContainer, OwnWeight, Ordered, Mapped, Linked, Objects;
    RowAt(types, rows, itemMap, i + 1, i);
    assert ContentsWeight(types, []) == 0;
  }

  lemma KidsStep(types: Catalogue, rows: seq<Row>, itemMap: ItemMap, s: int, i: nat)
    requires Ordered(rows) && Mapped(types, rows, itemMap) && i < |rows|
    ensures var hit := rows[i].pid == s && rows[i].sid in itemMap;
      && Kids(rows, itemMap, s, i) == (if hit then [itemMap[rows[i].sid]] else []) + Kids(rows, itemMap, s, i + 1)
      && ContentsWeight(types, RebuiltKids(types, rows, s, i)) ==
           var rest := ContentsWeight(types, RebuiltKids(types, rows, s, i + 1));
           if hit then (TreeWeight(types, Rebuilt(types, rows, i)) + rest) % WEIGHT_MODULUS else rest
  {
    hide LoadRow, Rebuilt, TreeWeight, Kids;
    var more := RebuiltKids(types, rows, s, i + 1);
    if rows[i].pid == s && rows[i].sid in itemMap {
      var first := Rebuilt(types, rows, i);
      assert ([first] + more)[0] == first && ([first] + more)[1..] == more;
    } else {
      assert [] + more == more;
    }
    KidsUnfold(rows, itemMap, s, i);
  }

  lemma KidsEnd(rows: seq<Row>, itemMap: ItemMap, s: int)
    ensures Kids(rows, itemMap, s, |rows|) == []
  {
  }

  lemma KidsUnfold(rows: seq<Row>, itemMap: ItemMap, s: int, i: nat)
    requires i < |rows|
    ensures Kids(rows, itemMap, s, i) ==
      (if rows[i].pid == s && rows[i].sid in itemMap then [itemMap[rows[i].sid]] else []) + Kids(rows, itemMap, s, i + 1)
  {
  }

  /** Put row i into its parent, if that is a container of a known type. */
  method PlaceRow(types: Catalogue, rows: seq<Row>, itemMap: ItemMap, i: nat)
    requires Ordered(rows) && Mapped(types, rows, itemMap) && i < |rows| && Linked(types, rows, itemMap, i + 1)
    requires rows[i].sid in itemMap
    modifies Objects(itemMap)
    ensures Linked(types, rows, itemMap, i)
  {
    hide LoadRow, Rebuilt, OwnWeight, TreeWeight, IsContainer, RebuiltKids, Kids, ContentsWeight;
    var pid := rows[i].pid;
    var item := itemMap[rows[i].sid];
    RowWeight(types, rows, itemMap, i);
    assert LinkedAt(types, rows, itemMap, i + 1, i);
    if pid in itemMap && itemMap[pid].container {
      ghost var k :| 0 <= k < |rows| && rows[k].sid == pid;
      assert LinkedAt(types, rows, itemMap, i + 1, k);
      itemMap[pid].InternalAddThing(item);
    }
    forall j | 0 <= j < |rows|
      ensures LinkedAt(types, rows, itemMap, i, j)
    {
      assert old(LinkedAt(types, rows, itemMap, i + 1, j));
      KidsStep(types, rows, itemMap, rows[j].sid, i);
    }
  }

  // A row of unknown type is passed over.
  lemma SkipRow(types: Catalogue, rows: seq<Row>, itemMap: ItemMap, i: nat)
    requires Ordered(rows) && Mapped(types, rows, itemMap) && i < |rows| && Linked(types, rows, itemMap, i + 1)
    requires rows[i].sid !in itemMap
    ensures Linked(types, rows, itemMap, i)
  {
    hide LoadRow, Rebuilt, OwnWeight, TreeWeight, IsContainer, RebuiltKids, Kids, ContentsWeight;
    forall j | 0 <= j < |rows|
      ensures LinkedAt(types, rows, itemMap, i, j)
    {
      assert LinkedAt(types, rows, itemMap, i + 1, j);
      KidsStep(types, rows, itemMap, rows[j].sid, i);
    }
  }

  /** A depot chest holding exactly the rows from i on whose parent id is its depot's. */
  ghost predicate ChestFilled(types: Catalogue, rows: seq<Row>, itemMap: ItemMap, depotId: int, i: nat, chest: Thing)
    reads chest
  {
    && chest !in Objects(itemMap) && chest.parent == null
    && chest.itemlist == Kids(rows, itemMap, depotId, i)
    && chest.totalWeight == ContentsWeight(types, RebuiltKids(types, rows, depotId, i))
  }

  /** Put row i, whose parent id is a depot's, into that depot's chest. */
  method PlaceInChest(types: Catalogue, rows: seq<Row>, itemMap: ItemMap, i: nat, chest: Thing)
    requires Ordered(rows) && Mapped(types, rows, itemMap) && i < |rows| && Linked(types, rows, itemMap, i + 1)
    requires rows[i].sid in itemMap && rows[i].pid < FIRST_SID
    requires ChestFilled(types, rows, itemMap, rows[i].pid, i + 1, chest)
    modifies chest, itemMap[rows[i].sid]
    ensures Linked(types, rows, itemMap, i) && ChestFilled(types, rows, itemMap, rows[i].pid, i, chest)
  {
    hide LoadRow, Rebuilt, OwnWeight, TreeWeight, IsContainer, RebuiltKids, Kids, ContentsWeight;
    RowWeight(types, rows, itemMap, i);
    KidsStep(types, rows, itemMap, rows[i].pid, i);
    chest.InternalAddThing(itemMap[rows[i].sid]);
    forall j | 0 <= j < |rows|
      ensures LinkedAt(types, rows, itemMap, i, j)
    {
      assert old(LinkedAt(types, rows, itemMap, i + 1, j));
      KidsStep(types, rows, itemMap, rows[j].sid, i);
    }
  }

  class Player {
    var inventory: map<int, Thing>
    var depotChests: map<int, Thing>

    constructor ()
      ensures inventory == map[] && depotChests == map[]
    {
      inventory, depotChests := map[], map[];
    }

    method LoadInventory(types: Catalogue, rows: seq<Row>) returns (ghost itemMap: ItemMap)
      requires Ordered(rows) && inventory == map[]
      modifies this
      ensures Mapped(types, rows, itemMap) && fresh(Objects(itemMap)) && depotChests == old(depotChests)
      ensures forall slot :: slot in inventory <==> 1 <= slot <= 10 && SlotRow(types, rows, slot, 0).Some?
      ensures forall slot <- inventory ::
        Holds(Objects(itemMap), types, inventory[slot], Rebuilt(types, rows, SlotRow(types, rows, slot, 0).value))
    {
      hide LoadRow, Rebuilt, Linked, Holds, Mapped, Ordered;
      var items := LoadItems(types, rows);
      var i := |rows|;
      while i > 0
        invariant 0 <= i <= |rows| && Mapped(types, rows, items) && Linked(types, rows, items, i)
        invariant fresh(Objects(items)) && depotChests == old(depotChests)
        invariant forall slot :: slot in inventory <==> 1 <= slot <= 10 && SlotRow(types, rows, slot, i).Some?
        invariant forall slot <- inventory :: var k := SlotRow(types, rows, slot, i).value;
          rows[k].sid in items && inventory[slot] == items[rows[k].sid]
      {
        i := i - 1;
        MappedRow(types, rows, items, i);
        if rows[i].sid in items {
          var pid := rows[i].pid;
          PlaceRow(types, rows, items, i);
          if 1 <= pid <= 10 && pid !in inventory {
            inventory := inventory[pid := items[rows[i].sid]];
          }
        } else {
          SkipRow(types, rows, items, i);
        }
      }
      forall slot <- inventory
        ensures Holds(Objects(items), types, inventory[slot], Rebuilt(types, rows, SlotRow(types, rows, slot, 0).value))
      {
        HoldsRow(types, rows, items, SlotRow(types, rows, slot, 0).value);
      }
      itemMap := items;
    }

    method GetDepotChest(depotId: int) returns (chest: Thing)
      modifies this`depotChests
      ensures depotId in depotChests && chest == depotChests[depotId]
      ensures if depotId in old(depotChests) then depotChests == old(depotChests)
        else depotChests == old(depotChests)[depotId := chest] && fresh(chest)
             && chest.parent == null && chest.itemlist == [] && chest.totalWeight == 0
    {
      if depotId !in depotChests {
        var made := new Thing(Item(0, 1, map[]), true, 0);
        depotChests := depotChests[depotId := made];
      }
      chest := depotChests[depotId];
    }

    method LoadDepots(types: Catalogue, rows: seq<Row>) returns (ghost itemMap: ItemMap)
      requires Ordered(rows) && depotChests == map[]
      modifies this
      ensures Mapped(types, rows, itemMap) && fresh(Objects(itemMap)) && inventory == old(inventory)
      ensures forall d :: d in depotChests <==> 0 <= d < 100 && Kids(rows, itemMap, d, 0) != []
      ensures forall d <- depotChests :: ChestFilled(types, rows, itemMap, d, 0, depotChests[d])
      ensures forall d <- depotChests :: HoldsAll(Objects(itemMap), types, depotChests[d].itemlist, RebuiltKids(types, rows, d, 0))
    {
      hide LoadRow, Rebuilt, Linked, Holds, HoldsAll, Mapped, ChestFilled, Kids, RebuiltKids, Ordered, SlotRow;
      var items := LoadItems(types, rows);
      forall d
        ensures Kids(rows, items, d, |rows|) == []
      {
        KidsEnd(rows, items, d);
      }
      var i := |rows|;
      while i > 0
        invariant 0 <= i <= |rows| && Mapped(types, rows, items) && Linked(types, rows, items, i)
        invariant fresh(Objects(items)) && inventory == old(inventory)
        invariant forall d <- depotChests :: fresh(depotChests[d]) && depotChests[d] !in Objects(items)
        invariant forall d, e :: d in depotChests && e in depotChests && d != e ==> depotChests[d] != depotChests[e]
        invariant forall d :: d in depotChests <==> 0 <= d < 100 && Kids(rows, items, d, i) != []
        invariant forall d <- depotChests :: ChestFilled(types, rows, items, d, i, depotChests[d])
      {
        i := i - 1;
        MappedRow(types, rows, items, i);
        var pid := rows[i].pid;
        forall d | 0 <= d < 100 && (d != pid || rows[i].sid !in items)
          ensures Kids(rows, items, d, i) == Kids(rows, items, d, i + 1)
          ensures d in depotChests ==> ChestFilled(types, rows, items, d, i, depotChests[d])
        {
          OtherDepot(types, rows, items, d, i);
          if d in depotChests {
            ChestKept(types, rows, items, d, i, depotChests[d]);
          }
        }
        if rows[i].sid in items && 0 <= pid < 100 {
          var known := pid in depotChests;
          var chest := GetDepotChest(pid);
          if !known {
            EmptyChest(types, rows, items, pid, i + 1, chest);
          }
          KidsUnfold(rows, items, pid, i);
          PlaceInChest(types, rows, items, i, chest);
        } else if rows[i].sid in items {
          PlaceRow(types, rows, items, i);
        } else {
          SkipRow(types, rows, items, i);
        }
      }
      forall d <- depotChests
        ensures HoldsAll(Objects(items), types, depotChests[d].itemlist, RebuiltKids(types, rows, d, 0))
      {
        ChestHolds(types, rows, items, d, depotChests[d]);
      }
      itemMap := items;
    }
  }

  lemma ChestHolds(types: Catalogue, rows: seq<Row>, itemMap: ItemMap, depotId: int, chest: Thing)
    requires Ordered(rows) && Mapped(types, rows, itemMap) && Linked(types, rows, itemMap, 0) && depotId < FIRST_SID
    requires ChestFilled(types, rows, itemMap, depotId, 0, chest)
    ensures HoldsAll(Objects(itemMap), types, chest.itemlist, RebuiltKids(types, rows, depotId, 0))
  {
    hide LoadRow, Kids, RebuiltKids, Holds;
    HoldsKids(types, rows, itemMap, depotId, 0);
  }

  lemma ChestKept(types: Catalogue, rows: seq<Row>, itemMap: ItemMap, depotId: int, i: nat, chest: Thing)
    requires Ordered(rows) && Mapped(types, rows, itemMap) && i < |rows|
    requires rows[i].pid != depotId || rows[i].sid !in itemMap
    requires ChestFilled(types, rows, itemMap, depotId, i + 1, chest)
    ensures ChestFilled(types, rows, itemMap, depotId, i, chest)
  {
    OtherDepot(types, rows, itemMap, depotId, i);
  }

  // A chest created for a depot that no row has reached yet.
  lemma EmptyChest(types: Catalogue, rows: seq<Row>, itemMap: ItemMap, depotId: int, i: nat, chest: Thing)
    requires Mapped(types, rows, itemMap) && i <= |rows|
    requires Kids(rows, itemMap, depotId, i) == []
    requires chest !in Objects(itemMap) && chest.parent == null && chest.itemlist == [] && chest.totalWeight == 0
    ensures ChestFilled(types, rows, itemMap, depotId, i, chest)
  {
    NoRebuilt(types, rows, itemMap, depotId, i);
  }

  lemma {:induction false} NoRebuilt(types: Catalogue, rows: seq<Row>, itemMap: ItemMap, s: int, i: nat)
    requires Mapped(types, rows, itemMap) && i <= |rows| && Kids(rows, itemMap, s, i) == []
    ensures RebuiltKids(types, rows, s, i) == []
    decreases |rows| - i
  {
    if i < |rows| {
      NoRebuilt(types, rows, itemMap, s, i + 1);
    }
  }

  /** A depot that no row from i on belongs to keeps its chest as it is. */
  lemma OtherDepot(types: Catalogue, rows: seq<Row>, itemMap: ItemMap, depotId: int, i: nat)
    requires Ordered(rows) && Mapped(types, rows, itemMap) && i < |rows|
    requires rows[i].pid != depotId || rows[i].sid !in itemMap
    ensures Kids(rows, itemMap, depotId, i) == Kids(rows, itemMap, depotId, i + 1)
    ensures ContentsWeight(types, RebuiltKids(types, rows, depotId, i))
         == ContentsWeight(types, RebuiltKids(types, rows, depotId, i + 1))
  {
    KidsStep(types, rows, itemMap, depotId, i);
  }

  lemma MappedRow(types: Catalogue, rows: seq<Row>, itemMap: ItemMap, i: nat)
    requires Mapped(types, rows, itemMap) && i < |rows|
    ensures rows[i].sid in itemMap <==> LoadRow(types, rows[i]).Some?
    ensures rows[i].sid in itemMap ==> itemMap[rows[i].sid] in Objects(itemMap)
  {
  }

  // ---------------------------------------------------------------- round trips

  lemma DescribedOrdered(types: Catalogue, roots: seq<(int, Node)>, rows: seq<Row>, nodes: seq<Node>)
    requires Described(types, roots, rows, nodes) && forall e <- roots :: e.0 < FIRST_SID
    ensures Ordered(rows) && forall i :: 0 <= i < |rows| ==> rows[i].sid == 101 + i
  {
    hide RowOf, Done;
    forall i | 0 <= i < |rows|
      ensures rows[i].sid == FIRST_SID + i && rows[i].pid < rows[i].sid
    {
      assert i < |roots| ==> roots[i] in roots;
      assert Held(types, nodes[i]) && rows[i] == RowOf(types, rows[i].pid, FIRST_SID + i, nodes[i].item);
    }
  }

  // Which forests the restoration leaves alone.
  lemma {:induction false} RestoredIff(types: Catalogue, t: Node)
    requires Held(types, t) && types(t.item.id).known
    ensures Restored(types, t) == t <==> TreeSurvives(types, t)
    decreases t
  {
    hide ReloadedRow, Survives;
    ReloadedIff(types, t.item);
    RestoredAllIff(types, t.contents);
  }

  lemma {:induction false} RestoredAllIff(types: Catalogue, ts: seq<Node>)
    requires forall t <- ts :: Held(types, t)
    ensures |RestoredAll(types, ts)| <= |ts|
    ensures RestoredAll(types, ts) == ts <==> forall t <- ts :: TreeSurvives(types, t)
    decreases ts
  {
    hide Restored;
    if ts != [] {
      RestoredAllIff(types, ts[1..]);
      var more := RestoredAll(types, ts[1..]);
      assert ts == [ts[0]] + ts[1..];
      if types(ts[0].item.id).known {
        RestoredIff(types, ts[0]);
        assert RestoredAll(types, ts) == [Restored(types, ts[0])] + more;
        assert RestoredAll(types, ts) == ts <==> Restored(types, ts[0]) == ts[0] && more == ts[1..];
        hide TreeSurvives;
        assert (forall t <- ts :: TreeSurvives(types, t)) <==>
               TreeSurvives(types, ts[0]) && forall t <- ts[1..] :: TreeSurvives(types, t);
      } else {
        assert RestoredAll(types, ts) == [] + more == more;
        assert !TreeSurvives(types, ts[0]) && ts[0] in ts;
      }
    }
  }

  // In a list of rows where only row k has a parent id, that row takes the slot.
  lemma {:induction false} OnlySlotRow(types: Catalogue, rows: seq<Row>, slot: int, from: nat, k: nat)
    requires k < |rows| && rows[k].pid == slot && forall i :: 0 <= i < |rows| && rows[i].pid == slot ==> i == k
    ensures from <= k ==> SlotRow(types, rows, slot, from) == if LoadRow(types, rows[k]).Some? then Some(k) else None
    ensures from > k ==> SlotRow(types, rows, slot, from) == None
    decreases |rows| - from
  {
    hide LoadRow;
    if from < |rows| {
      OnlySlotRow(types, rows, slot, from + 1, k);
    }
  }

  /**
   Inventory round trip. Whatever rows `saveItems` makes of the equipped items, the row that
   loading puts in a slot is that slot's item, restored; and it is the very same tree if and
   only if every item in it survives on its own.
   */
  lemma InventoryRoundTrip(types: Catalogue, itemList: seq<(int, Node)>, rows: seq<Row>, nodes: seq<Node>, k: nat)
    requires Described(types, itemList, rows, nodes)
    requires forall e <- itemList :: 1 <= e.0 <= 10
    requires forall i, j :: 0 <= i < j < |itemList| ==> itemList[i].0 != itemList[j].0
    requires k < |itemList|
    ensures Ordered(rows)
    ensures var (slot, item) := itemList[k]; var row := SlotRow(types, rows, slot, 0);
      && (row.Some? <==> types(item.item.id).known)
      && Held(types, item)
      && (row.Some? ==> Rebuilt(types, rows, row.value) == Restored(types, item))
      && (row.Some? ==> (Rebuilt(types, rows, row.value) == item <==> TreeSurvives(types, item)))
  {
    hide LoadRow, RowOf, Rebuilt, Restored, Done;
    DescribedOrdered(types, itemList, rows, nodes);
    var slot := itemList[k].0;
    forall i | 0 <= i < |rows| && rows[i].pid == slot
      ensures i == k
    {
      assert itemList[k] in itemList;
    }
    OnlySlotRow(types, rows, slot, 0, k);
    RebuiltNode(types, itemList, rows, nodes, k);
    assert Held(types, nodes[k]);
    if types(nodes[k].item.id).known {
      RestoredIff(types, nodes[k]);
    }
  }

  /** A slot nothing was saved from stays empty. */
  lemma {:induction false} EmptySlot(types: Catalogue, rows: seq<Row>, slot: int, from: nat)
    requires forall r <- rows :: r.pid != slot
    ensures SlotRow(types, rows, slot, from) == None
    decreases |rows| - from
  {
    hide LoadRow;
    if from < |rows| {
      EmptySlot(types, rows, slot, from + 1);
    }
  }

  /** The items saved from one depot, in order. */
  function OfDepot(itemList: seq<(int, Node)>, depotId: int, from: nat): seq<Node>
    decreases |itemList| - from
  {
    if from >= |itemList| then []
    else (if itemList[from].0 == depotId then [itemList[from].1] else []) + OfDepot(itemList, depotId, from + 1)
  }

  lemma {:induction false} DepotRows(types: Catalogue, itemList: seq<(int, Node)>, rows: seq<Row>, nodes: seq<Node>, depotId: int, from: nat)
    requires Described(types, itemList, rows, nodes) && depotId < FIRST_SID
    ensures ChildrenFrom(rows, nodes, depotId, from) == OfDepot(itemList, depotId, from)
    decreases |rows| - from
  {
    hide RowOf, Held, Done;
    if from < |rows| {
      DepotRows(types, itemList, rows, nodes, depotId, from + 1);
    }
  }

  /**
   Depot round trip. The trees loaded into a depot's chest are those saved from that depot, in the
   same order, restored; none is lost or changed if and only if every item in them survives.
   */
  lemma DepotRoundTrip(types: Catalogue, itemList: seq<(int, Node)>, rows: seq<Row>, nodes: seq<Node>, depotId: int)
    requires Described(types, itemList, rows, nodes) && 0 <= depotId < 100
    requires forall e <- itemList :: 0 <= e.0 < 100
    ensures Ordered(rows)
    ensures var saved := OfDepot(itemList, depotId, 0); var loaded := RebuiltKids(types, rows, depotId, 0);
      && (forall t <- saved :: Held(types, t)) && loaded == RestoredAll(types, saved)
      && (loaded == saved <==> forall t <- saved :: TreeSurvives(types, t))
  {
    DescribedOrdered(types, itemList, rows, nodes);
    RebuiltAll(types, itemList, rows, nodes, depotId, 0);
    DepotRows(types, itemList, rows, nodes, depotId, 0);
    hide RowOf, Held, Described, ChildrenFrom, RebuiltKids, RestoredAll;
    RestoredAllIff(types, OfDepot(itemList, depotId, 0));
  }

  /** What a save in rows and a load make of any tree of a known type. */
  lemma {:induction false} RestoredComesBack(types: Catalogue, t: Node)
    requires Held(types, t) && types(t.item.id).known
    ensures TreeComesBack(types, t, Restored(types, t), true)
    decreases t
  {
    hide ItemComesBack, ReloadedRow;
    ReloadedComesBack(types, t.item);
    RestoredAllComesBack(types, t.contents);
  }

  /** Of these trees, those of known types come back as `TreeComesBack` says, in order. */
  ghost predicate AllComeBack(types: Catalogue, ts: seq<Node>, r: seq<Node>) {
    var known := KnownOnes(types, ts);
    |r| == |known| && forall k :: 0 <= k < |r| ==> TreeComesBack(types, known[k], r[k], true)
  }

  lemma {:induction false} RestoredAllComesBack(types: Catalogue, ts: seq<Node>)
    requires forall t <- ts :: Held(types, t)
    ensures AllComeBack(types, ts, RestoredAll(types, ts))
    decreases ts
  {
    hide TreeComesBack, Restored;
    if ts != [] {
      RestoredAllComesBack(types, ts[1..]);
      if types(ts[0].item.id).known {
        RestoredComesBack(types, ts[0]);
      }
    }
  }

  // ---------------------------------------------------------------- saved and loaded

  /** Equipped items: one for each slot at most, as the server holds them. */
  ghost predicate Equipped(types: Catalogue, itemList: seq<(int, Node)>) {
    && (forall e <- itemList :: Held(types, e.1) && 1 <= e.0 <= 10)
    && forall i, j :: 0 <= i < j < |itemList| ==> itemList[i].0 != itemList[j].0
  }

  lemma NothingSaved(types: Catalogue, itemList: seq<(int, Node)>, rows: seq<Row>, nodes: seq<Node>, slot: int)
    requires Described(types, itemList, rows, nodes) && slot < FIRST_SID && forall e <- itemList :: e.0 != slot
    ensures SlotRow(types, rows, slot, 0) == None
  {
    hide RowOf, Held, Done, SlotRow;
    forall r <- rows
      ensures r.pid != slot
    {
      var i :| 0 <= i < |rows| && rows[i] == r;
      assert i < |itemList| ==> itemList[i] in itemList;
    }
    EmptySlot(types, rows, slot, 0);
  }

  /**
   The inventory saved and loaded again: each slot whose item is of a known type holds objects that are that
   item's tree, restored, in the same order and with right caches and parents; the other slots are empty. The
   tree is the very same if and only if every item in it survives on its own; in any case each of its items is
   what `TreeComesBack` says.
   */
  method SaveAndLoadInventory(types: Catalogue, itemList: seq<(int, Node)>) returns (player: Player, ghost itemMap: ItemMap)
    requires Equipped(types, itemList)
    ensures forall k :: 0 <= k < |itemList| ==>
      var (slot, item) := itemList[k];
      && Held(types, item) && (slot in player.inventory <==> types(item.item.id).known)
      && (slot in player.inventory ==> Holds(Objects(itemMap), types, player.inventory[slot], Restored(types, item)))
      && (slot in player.inventory ==> TreeComesBack(types, item, Restored(types, item), true))
      && (slot in player.inventory ==> (Restored(types, item) == item <==> TreeSurvives(types, item)))
    ensures forall slot <- player.inventory :: exists k :: 0 <= k < |itemList| && itemList[k].0 == slot
  {
    hide LoadRow, RowOf, Rebuilt, Restored, Done, Table, Held, Holds, Mapped, Ordered, TreeSurvives, Described, SlotRow, TreeComesBack;
    forall e <- itemList
      ensures Held(types, e.1) && 0 <= e.0 < 100
    {
    }
    var rows;
    ghost var nodes;
    rows, nodes := SaveItems(types, itemList);
    player := new Player();
    DescribedOrdered(types, itemList, rows, nodes);
    itemMap := player.LoadInventory(types, rows);
    forall k | 0 <= k < |itemList|
      ensures var (slot, item) := itemList[k];
        && Held(types, item) && (slot in player.inventory <==> types(item.item.id).known)
        && (slot in player.inventory ==> Holds(Objects(itemMap), types, player.inventory[slot], Restored(types, item)))
        && (slot in player.inventory ==> TreeComesBack(types, item, Restored(types, item), true))
        && (slot in player.inventory ==> (Restored(types, item) == item <==> TreeSurvives(types, item)))
    {
      assert itemList[k] in itemList;
      InventoryRoundTrip(types, itemList, rows, nodes, k);
      if types(itemList[k].1.item.id).known {
        RestoredComesBack(types, itemList[k].1);
      }
    }
    forall slot <- player.inventory
      ensures exists k :: 0 <= k < |itemList| && itemList[k].0 == slot
    {
      if forall e <- itemList :: e.0 != slot {
        NothingSaved(types, itemList, rows, nodes, slot);
      }
    }
  }

  lemma KidsMatch(types: Catalogue, rows: seq<Row>, itemMap: ItemMap, s: int)
    requires Mapped(types, rows, itemMap)
    ensures Kids(rows, itemMap, s, 0) == [] <==> RebuiltKids(types, rows, s, 0) == []
  {
    KidsCount(types, rows, itemMap, s, 0);
  }

  lemma {:induction false} KidsCount(types: Catalogue, rows: seq<Row>, itemMap: ItemMap, s: int, from: nat)
    requires Mapped(types, rows, itemMap)
    ensures |Kids(rows, itemMap, s, from)| == |RebuiltKids(types, rows, s, from)|
    decreases |rows| - from
  {
    hide LoadRow, Rebuilt;
    if from < |rows| {
      KidsCount(types, rows, itemMap, s, from + 1);
      MappedRow(types, rows, itemMap, from);
    }
  }

  /** The depots saved and loaded again: each chest holds the trees saved from its depot, restored, in the same order. */
  method SaveAndLoadDepots(types: Catalogue, itemList: seq<(int, Node)>) returns (player: Player, ghost itemMap: ItemMap)
    requires forall e <- itemList :: Held(types, e.1) && 0 <= e.0 < 100
    ensures forall d :: 0 <= d < 100 ==>
      var saved := OfDepot(itemList, d, 0);
      && (forall t <- saved :: Held(types, t)) && (d in player.depotChests <==> RestoredAll(types, saved) != [])
      && (d in player.depotChests ==> HoldsAll(Objects(itemMap), types, player.depotChests[d].itemlist, RestoredAll(types, saved)))
      && (RestoredAll(types, saved) == saved <==> forall t <- saved :: TreeSurvives(types, t))
      && AllComeBack(types, saved, RestoredAll(types, saved))
    ensures forall d <- player.depotChests :: 0 <= d < 100
  {
    hide LoadRow, RowOf, Rebuilt, RestoredAll, Done, Table, Held, HoldsAll, Mapped, Ordered, TreeSurvives, Described, OfDepot, Kids, RebuiltKids, ChestFilled, AllComeBack;
    var rows;
    ghost var nodes;
    rows, nodes := SaveItems(types, itemList);
    player := new Player();
    DescribedOrdered(types, itemList, rows, nodes);
    itemMap := player.LoadDepots(types, rows);
    forall d | 0 <= d < 100
      ensures var saved := OfDepot(itemList, d, 0);
        && (forall t <- saved :: Held(types, t)) && (d in player.depotChests <==> RestoredAll(types, saved) != [])
        && (d in player.depotChests ==> HoldsAll(Objects(itemMap), types, player.depotChests[d].itemlist, RestoredAll(types, saved)))
        && (RestoredAll(types, saved) == saved <==> forall t <- saved :: TreeSurvives(types, t))
        && AllComeBack(types, saved, RestoredAll(types, saved))
    {
      DepotRoundTrip(types, itemList, rows, nodes, d);
      KidsMatch(types, rows, itemMap, d);
      RestoredAllComesBack(types, OfDepot(itemList, d, 0));
    }
  }
}
