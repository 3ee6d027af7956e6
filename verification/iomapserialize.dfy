/**
 House items (src/iomapserialize.cpp): a tree of items as bytes. A container's items are written
 last to first and each is pushed to the front on loading. The item count of a container ends its
 attribute list early; the end marker of that list then stands after the items.
 */
module HouseItems {
  import opened Bytes
  import opened PropStreams
  import opened Items

  function SaveBytes(types: Catalogue, t: Node): seq<byte>
    requires Held(types, t)
  {
    FieldsWellTyped(types(t.item.id), t.item);
    Le(2, t.item.id) + FieldsBytes(Fields(types(t.item.id), t.item))
    + (if types(t.item.id).container then
         [ATTR_CONTAINER_ITEMS] + Le(4, |t.contents|) + ContentsBytes(types, t.contents)
       else [])
    + [ATTR_END]
  }

  /** Last item first. */
  function ContentsBytes(types: Catalogue, ts: seq<Node>): seq<byte>
    requires forall c <- ts :: Held(types, c)
  {
    if ts == [] then []
    else SaveBytes(types, ts[|ts| - 1]) + ContentsBytes(types, ts[..|ts| - 1])
  }

  /** An item whose id is unknown is passed over after its id alone: no node, and the rest of its bytes unread. */
  datatype Loaded = Failed | Got(node: Option<Node>, rest: seq<byte>)

  function Load(types: Catalogue, data: seq<byte>): (r: Loaded)
    ensures r.Got? ==> |r.rest| < |data|
    decreases |data|, 0
  {
    match TakeNumber(2, data)
    case None => Failed
    case Some((id, rest)) =>
      match Create(types, id)
      case None => Got(None, rest)
      case Some(made) =>
        match ReadAttrs(CreatedType(types, id), made, rest)
        case Bad => Failed
        case Ended(item, more) =>
          if types(id).container then LoadContents(types, item, 0, [], more) else Got(Some(Node(item, [])), more)
        case Items(item, size, more) => LoadContents(types, item, size, [], more)
  }

  /** `loadContainer`: `size` items still to come, each pushed in front of those already there. */
  function LoadContents(types: Catalogue, item: Item, size: nat, got: seq<Node>, data: seq<byte>): (r: Loaded)
    ensures r.Got? ==> |r.rest| <= |data|
    decreases |data|, 1 + size
  {
    if size > 0 then
      match Load(types, data)
      case Failed => Failed
      case Got(o, rest) =>
        LoadContents(types, item, size - 1, (if o.Some? then [o.value] else []) + got, rest)
    else if data == [] || data[0] != ATTR_END then Failed
    else Got(Some(Node(item, got)), data[1..])
  }

  ghost predicate AllKnown(types: Catalogue, t: Node) {
    types(t.item.id).known && forall c <- t.contents :: AllKnown(types, c)
  }

  /** The tree with every item as a reload leaves it. */
  function Restore(types: Catalogue, t: Node): Node
    requires Held(types, t) && AllKnown(types, t)
  {
    Node(Reloaded(types, t.item), RestoreAll(types, t.contents))
  }

  function RestoreAll(types: Catalogue, ts: seq<Node>): (r: seq<Node>)
    requires forall c <- ts :: Held(types, c) && AllKnown(types, c)
    ensures |r| == |ts|
  {
    if ts == [] then [] else RestoreAll(types, ts[..|ts| - 1]) + [Restore(types, ts[|ts| - 1])]
  }

  // The bytes of a saved item after its id and attributes, and what follows it in the stream.
  function Inner(types: Catalogue, t: Node, rest: seq<byte>): seq<byte>
    requires Held(types, t)
  {
    if types(t.item.id).container then
      [ATTR_CONTAINER_ITEMS] + (Le(4, |t.contents|) + (ContentsBytes(types, t.contents) + ([ATTR_END] + rest)))
    else [ATTR_END] + rest
  }

  lemma SaveShape(types: Catalogue, t: Node, rest: seq<byte>)
    requires Held(types, t)
    ensures AllTyped(Fields(types(t.item.id), t.item))
    ensures SaveBytes(types, t) + rest
         == Le(2, t.item.id) + (FieldsBytes(Fields(types(t.item.id), t.item)) + Inner(types, t, rest))
  {
    hide Le, FieldsBytes, Fields, ContentsBytes;
    FieldsWellTyped(types(t.item.id), t.item);
    var a, b := Le(2, t.item.id), FieldsBytes(Fields(types(t.item.id), t.item));
    if types(t.item.id).container {
      var n, c := Le(4, |t.contents|), ContentsBytes(types, t.contents);
      Assoc(a + b + ([ATTR_CONTAINER_ITEMS] + n + c), [ATTR_END], rest);
      Assoc([ATTR_CONTAINER_ITEMS] + n, c, [ATTR_END] + rest);
      Assoc([ATTR_CONTAINER_ITEMS], n, c + ([ATTR_END] + rest));
      Assoc(a + b, [ATTR_CONTAINER_ITEMS] + n + c, [ATTR_END] + rest);
    } else {
      Assoc(a + b + [], [ATTR_END], rest);
      assert a + b + [] == a + b;
    }
    Assoc(a, b, Inner(types, t, rest));
  }

  // Reading up to the point where the saved attributes end.
  lemma ReadInner(types: Catalogue, t: Node, item: Item, ty: ItemType, rest: seq<byte>)
    requires Held(types, t) && ty.container == types(t.item.id).container
    ensures ReadAttrs(ty, item, Inner(types, t, rest)) ==
      if ty.container then Items(item, |t.contents|, ContentsBytes(types, t.contents) + ([ATTR_END] + rest))
      else Ended(item, rest)
  {
    hide Le, TakeNumber, ContentsBytes;
    Pow2();
    if ty.container {
      var more := Le(4, |t.contents|) + (ContentsBytes(types, t.contents) + ([ATTR_END] + rest));
      NumberRoundTrip(4, |t.contents|, ContentsBytes(types, t.contents) + ([ATTR_END] + rest));
      assert ([ATTR_CONTAINER_ITEMS] + more)[1..] == more;
    } else {
      assert ([ATTR_END] + rest)[1..] == rest;
    }
  }

  /** The bytes of a saved tree, whatever follows them, load as that tree and leave what follows. */
  lemma {:induction false} LoadSaved(types: Catalogue, t: Node, rest: seq<byte>)
    requires Held(types, t) && AllKnown(types, t)
    ensures Load(types, SaveBytes(types, t) + rest) == Got(Some(Restore(types, t)), rest)
    decreases t
  {
    var fields := Fields(types(t.item.id), t.item);
    var made, ty := Create(types, t.item.id).value, CreatedType(types, t.item.id);
    FieldsWellTyped(types(t.item.id), t.item);
    var item := ApplyAll(ty, made, fields);
    assert item == Reloaded(types, t.item) && ty.container == types(t.item.id).container;
    Pow2();
    hide Le, TakeNumber, FieldsBytes, ApplyAll, Fields, CreateItem, CreatedType, ReadAttrs, SaveBytes, Inner,
      ContentsBytes, LoadContents, RestoreAll;
    SaveShape(types, t, rest);
    NumberRoundTrip(2, t.item.id, FieldsBytes(fields) + Inner(types, t, rest));
    ReadWritten(ty, made, fields, Inner(types, t, rest));
    ReadInner(types, t, item, ty, rest);
    LoadSavedContents(types, item, t.contents, [], rest);
    assert RestoreAll(types, t.contents) + [] == RestoreAll(types, t.contents);
    EmptyContents(types);
  }

  lemma EmptyContents(types: Catalogue)
    ensures RestoreAll(types, []) == []
  {
  }

  lemma {:induction false} LoadSavedContents(types: Catalogue, item: Item, ts: seq<Node>, got: seq<Node>, rest: seq<byte>)
    requires forall c <- ts :: Held(types, c) && AllKnown(types, c)
    ensures LoadContents(types, item, |ts|, got, ContentsBytes(types, ts) + ([ATTR_END] + rest))
         == Got(Some(Node(item, RestoreAll(types, ts) + got)), rest)
    decreases ts
  {
    hide SaveBytes, Load, Restore;
    var tail := [ATTR_END] + rest;
    if ts == [] {
      assert ContentsBytes(types, ts) + tail == tail && tail[1..] == rest;
      assert RestoreAll(types, ts) + got == got;
    } else {
      var last, before := ts[|ts| - 1], ts[..|ts| - 1];
      Assoc(SaveBytes(types, last), ContentsBytes(types, before), tail);
      LoadSaved(types, last, ContentsBytes(types, before) + tail);
      LoadSavedContents(types, item, before, [Restore(types, last)] + got, rest);
      Assoc(RestoreAll(types, before), [Restore(types, last)], got);
    }
  }

  // ---------------------------------------------------------------- which trees survive

  /** The forms `CreateItem` substitutes are themselves in the catalogue. */
  ghost predicate Sane(types: Catalogue) {
    forall id: nat :: types(id).known ==> types(CreatedId(id)).known
  }

  lemma {:induction false} SurvivesKnown(types: Catalogue, t: Node)
    requires TreeSurvives(types, t)
    ensures AllKnown(types, t)
  {
    forall c <- t.contents
      ensures AllKnown(types, c)
    {
      SurvivesKnown(types, c);
    }
  }

  lemma {:induction false} RestoreIff(types: Catalogue, t: Node)
    requires Held(types, t) && AllKnown(types, t)
    ensures Restore(types, t) == t <==> TreeSurvives(types, t)
    decreases t
  {
    hide Reloaded, Survives;
    ReloadedIff(types, t.item);
    RestoreAllIff(types, t.contents);
  }

  lemma {:induction false} RestoreAllIff(types: Catalogue, ts: seq<Node>)
    requires forall c <- ts :: Held(types, c) && AllKnown(types, c)
    ensures RestoreAll(types, ts) == ts <==> forall c <- ts :: TreeSurvives(types, c)
    decreases ts
  {
    hide Restore, TreeSurvives;
    if ts != [] {
      var last, before := ts[|ts| - 1], ts[..|ts| - 1];
      assert ts == before + [last];
      RestoreIff(types, last);
      RestoreAllIff(types, before);
      assert RestoreAll(types, ts) == ts <==> RestoreAll(types, before) == before && Restore(types, last) == last;
      assert (forall c <- ts :: TreeSurvives(types, c)) <==>
             (forall c <- before :: TreeSurvives(types, c)) && TreeSurvives(types, last);
    }
  }

  lemma {:induction false} AllAreKnown(types: Catalogue, ts: seq<Node>)
    requires forall c <- ts :: types(c.item.id).known
    ensures KnownOnes(types, ts) == ts
  {
    if ts != [] {
      AllAreKnown(types, ts[1..]);
    }
  }

  /** What a house save and a load make of any tree of known items. */
  lemma {:induction false} RestoreComesBack(types: Catalogue, t: Node)
    requires Held(types, t) && AllKnown(types, t)
    ensures TreeComesBack(types, t, Restore(types, t), false)
    decreases t
  {
    hide ItemComesBack, Reloaded, Fields, FieldsBytes;
    ReloadedComesBack(types, t.item);
    AllAreKnown(types, t.contents);
    forall k | 0 <= k < |t.contents|
      ensures TreeComesBack(types, t.contents[k], Restore(types, t).contents[k], false)
    {
      RestoreAt(types, t.contents, k);
      RestoreComesBack(types, t.contents[k]);
    }
  }

  lemma {:induction false} RestoreAt(types: Catalogue, ts: seq<Node>, k: nat)
    requires k < |ts| && forall c <- ts :: Held(types, c) && AllKnown(types, c)
    ensures RestoreAll(types, ts)[k] == Restore(types, ts[k])
  {
    hide Restore;
    if k < |ts| - 1 {
      RestoreAt(types, ts[..|ts| - 1], k);
    }
  }

  lemma {:induction false} NoTagFields(ty: ItemType, item: Item, tags: seq<byte>)
    requires item.attrs == map[]
    ensures TagFields(ty, item, tags) == []
  {
    if tags != [] {
      NoTagFields(ty, item, tags[1..]);
    }
  }

  /** A plain stack of up to 255: id, tag 15, count, end mark. */
  lemma StackBytes(types: Catalogue, id: nat, n: nat)
    requires id < 0x1_0000 && n < 0x100 && types(id).stackable && !types(id).fluid && !types(id).container
    ensures var t := Node(Item(id, n, map[]), []);
      Held(types, t) && SaveBytes(types, t) == [(id % 256) as byte, (id / 256) as byte, 15, n as byte, 0]
  {
    var item, f := Item(id, n, map[]), Field(ATTR_COUNT, Int(n));
    FieldsWellTyped(types(id), item);
    StackFields(types(id), id, n);
    CountBytes(n);
    LeBytes(id);
    LeafBytes(types, item);
    hide Le, Fields, FieldsBytes, SaveBytes, AllTyped;
  }

  lemma StackFields(ty: ItemType, id: nat, n: nat)
    requires ty.stackable && !ty.fluid
    ensures Fields(ty, Item(id, n, map[])) == [Field(ATTR_COUNT, Int(n))]
  {
    hide TagFields;
    Pow2();
    NoTagFields(ty, Item(id, n, map[]), TAGS);
  }

  lemma CountBytes(n: nat)
    requires n < 0x100
    ensures FieldsBytes([Field(ATTR_COUNT, Int(n))]) == [15, n as byte]
  {
    var f := Field(ATTR_COUNT, Int(n));
    LeBytes(n);
    Pow2();
    hide Le, Pow256;
    assert FieldsBytes([f]) == FieldBytes(f) + FieldsBytes([]);
  }

  lemma LeafBytes(types: Catalogue, item: Item)
    requires Held(types, Node(item, [])) && !types(item.id).container
    ensures AllTyped(Fields(types(item.id), item))
    ensures SaveBytes(types, Node(item, [])) == Le(2, item.id) + FieldsBytes(Fields(types(item.id), item)) + [0]
  {
    hide Le, Fields, FieldsBytes;
    FieldsWellTyped(types(item.id), item);
  }

  /** A bag of five and seven coins, byte by byte: the last item first, the end mark of the bag after both. */
  lemma BagBytes(types: Catalogue)
    requires types(1987).container && !types(1987).stackable && !types(1987).fluid
    requires types(2148).stackable && !types(2148).fluid && !types(2148).container
    ensures var five, seven := Node(Item(2148, 5, map[]), []), Node(Item(2148, 7, map[]), []);
      var bag := Node(Item(1987, 1, map[]), [five, seven]);
      Held(types, bag) && SaveBytes(types, bag) ==
        [0xC3, 0x07, 23, 2, 0, 0, 0] + [0x64, 0x08, 15, 7, 0] + [0x64, 0x08, 15, 5, 0] + [0]
  {
    hide Le, SaveBytes;
    var five, seven := Node(Item(2148, 5, map[]), []), Node(Item(2148, 7, map[]), []);
    StackBytes(types, 2148, 5);
    StackBytes(types, 2148, 7);
    assert [five, seven][..1] == [five] && [five][..0] == [];
    assert ContentsBytes(types, [five]) == SaveBytes(types, five) + ContentsBytes(types, []);
    assert ContentsBytes(types, [five, seven]) == SaveBytes(types, seven) + ContentsBytes(types, [five]);
    ContainerBytes(types, Item(1987, 1, map[]), [five, seven]);
    LeBytes(1987);
    LeBytes(2);
  }

  lemma ContainerBytes(types: Catalogue, item: Item, ts: seq<Node>)
    requires Held(types, Node(item, ts)) && types(item.id).container && !types(item.id).stackable && !types(item.id).fluid
    requires item.attrs == map[]
    ensures SaveBytes(types, Node(item, ts)) == Le(2, item.id) + [23] + Le(4, |ts|) + ContentsBytes(types, ts) + [0]
  {
    FieldsWellTyped(types(item.id), item);
    PlainFields(types(item.id), item);
    hide Le, ContentsBytes, Fields;
  }

  lemma PlainFields(ty: ItemType, item: Item)
    requires item.attrs == map[] && !ty.stackable && !ty.fluid
    ensures Fields(ty, item) == []
  {
    hide TagFields;
    Pow2();
    NoTagFields(ty, item, TAGS);
  }

  // Whatever bytes are read, only items of known ids are built.
  lemma {:induction false} LoadedKnown(types: Catalogue, data: seq<byte>)
    requires Sane(types)
    ensures var r := Load(types, data); r.Got? && r.node.Some? ==> AllKnown(types, r.node.value)
    decreases |data|, 0
  {
    hide ReadAttrs, TakeNumber, LoadContents;
    match TakeNumber(2, data) {
      case None =>
      case Some((id, rest)) =>
        if types(id).known {
          var made, ty := Create(types, id).value, CreatedType(types, id);
          assert types(made.id).known;
          ReadKeepsId(ty, made, rest);
          match ReadAttrs(ty, made, rest) {
            case Bad =>
            case Ended(item, more) => LoadedContentsKnown(types, item, 0, [], more);
            case Items(item, size, more) => LoadedContentsKnown(types, item, size, [], more);
          }
        }
    }
  }

  lemma {:induction false} LoadedContentsKnown(types: Catalogue, item: Item, size: nat, got: seq<Node>, data: seq<byte>)
    requires Sane(types) && types(item.id).known && forall c <- got :: AllKnown(types, c)
    ensures var r := LoadContents(types, item, size, got, data); r.Got? && r.node.Some? ==> AllKnown(types, r.node.value)
    decreases |data|, 1 + size
  {
    hide Load;
    if size > 0 {
      LoadedKnown(types, data);
      var r := Load(types, data);
      if r.Got? {
        LoadedContentsKnown(types, item, size - 1, (if r.node.Some? then [r.node.value] else []) + got, r.rest);
      }
    }
  }

  lemma {:induction false} ReadKeepsId(ty: ItemType, item: Item, data: seq<byte>)
    ensures var r := ReadAttrs(ty, item, data); !r.Bad? ==> r.item.id == item.id
    decreases |data|
  {
    hide TakeValue, TakeNumber;
    if data == [] || data[0] == ATTR_END || data[0] == ATTR_CONTAINER_ITEMS {
    } else if SkipOf(data[0]).Some? {
      var n := 1 + SkipOf(data[0]).value;
      if |data| >= n {
        ReadKeepsId(ty, item, data[n..]);
      }
    } else if FormatOf(data[0]).Some? && TakeValue(FormatOf(data[0]).value, data[1..]).Some? {
      var (v, rest) := TakeValue(FormatOf(data[0]).value, data[1..]).value;
      ReadKeepsId(ty, Apply(ty, item, data[0], v), rest);
    }
  }

  /**
   The house round trip, exactly: loading what `saveItem` wrote gives back the same tree and
   consumes exactly its bytes if and only if every item of the tree survives on its own. Of any tree of known items
   there comes back what `TreeComesBack` says.
   */
  lemma RoundTripIff(types: Catalogue, t: Node, rest: seq<byte>)
    requires Sane(types) && Held(types, t)
    ensures Load(types, SaveBytes(types, t) + rest) == Got(Some(t), rest) <==> TreeSurvives(types, t)
    ensures AllKnown(types, t) ==>
      var r := Load(types, SaveBytes(types, t) + rest); r.Got? && r.node.Some? && r.rest == rest && TreeComesBack(types, t, r.node.value, false)
  {
    if AllKnown(types, t) {
      RestoreComesBack(types, t);
      LoadSaved(types, t, rest);
      RestoreIff(types, t);
    } else {
      LoadedKnown(types, SaveBytes(types, t) + rest);
      if TreeSurvives(types, t) {
        SurvivesKnown(types, t);
      }
    }
  }

  /** An unknown id desynchronises the stream: two bytes are consumed and the rest is left to be misread. */
  lemma UnknownIdDesynchronises(types: Catalogue, t: Node, rest: seq<byte>)
    requires Held(types, t) && !types(t.item.id).known
    ensures var r := Load(types, SaveBytes(types, t) + rest);
      r.Got? && r.node.None? && |r.rest| == |SaveBytes(types, t)| + |rest| - 2 > |rest|
  {
    Pow2();
    SaveShape(types, t, rest);
    hide SaveBytes, Le, FieldsBytes, Fields, TakeNumber;
    var more := FieldsBytes(Fields(types(t.item.id), t.item)) + Inner(types, t, rest);
    NumberRoundTrip(2, t.item.id, more);
    LeRoundTrip(2, t.item.id);
  }

  // ---------------------------------------------------------------- the methods

  lemma NoContents(types: Catalogue)
    ensures ContentsBytes(types, []) == []
  {
  }

  method SaveItem(types: Catalogue, t: Node, stream: PropWriteStream)
    requires Held(types, t)
    modifies stream
    ensures stream.buffer == old(stream.buffer) + SaveBytes(types, t)
    decreases t
  {
    hide Le, FieldsBytes, Fields, ContentsBytes, SaveBytes;
    ghost var start := stream.buffer;
    assert ContentsBytes(types, []) == [] by { NoContents(types); }
    var ty := types(t.item.id);
    stream.Write(2, t.item.id);
    SerializeAttr(ty, t.item, stream);
    if ty.container {
      stream.Write(1, ATTR_CONTAINER_ITEMS as nat);
      stream.Write(4, |t.contents|);
      var it := |t.contents|;
      ghost var head := stream.buffer;
      assert t.contents[..it] == t.contents;
      while it > 0
        invariant 0 <= it <= |t.contents|
        invariant stream.buffer + ContentsBytes(types, t.contents[..it]) == head + ContentsBytes(types, t.contents)
      {
        it := it - 1;
        ghost var before := stream.buffer;
        SaveItem(types, t.contents[it], stream);
        LastOfContents(types, t.contents[..it + 1]);
        assert t.contents[..it + 1][..it] == t.contents[..it];
        Assoc(before, SaveBytes(types, t.contents[it]), ContentsBytes(types, t.contents[..it]));
      }
    }
    stream.Write(1, ATTR_END as nat);
    SavedInOrder(types, t, start);
  }

  // The writes of `saveItem`, one after the other.
  lemma SavedInOrder(types: Catalogue, t: Node, start: seq<byte>)
    requires Held(types, t)
    ensures AllTyped(Fields(types(t.item.id), t.item))
    ensures var attrs := start + Le(2, t.item.id) + FieldsBytes(Fields(types(t.item.id), t.item));
      start + SaveBytes(types, t) ==
        (if types(t.item.id).container then
           attrs + Le(1, ATTR_CONTAINER_ITEMS as nat) + Le(4, |t.contents|) + ContentsBytes(types, t.contents)
         else attrs) + Le(1, ATTR_END as nat)
  {
    FieldsWellTyped(types(t.item.id), t.item);
    LeOne(ATTR_END);
    LeOne(ATTR_CONTAINER_ITEMS);
    hide Le, FieldsBytes, Fields, ContentsBytes;
    var a, b := Le(2, t.item.id), FieldsBytes(Fields(types(t.item.id), t.item));
    Assoc(start, a, b);
    if types(t.item.id).container {
      var k, n, c := [ATTR_CONTAINER_ITEMS], Le(4, |t.contents|), ContentsBytes(types, t.contents);
      Assoc(start, a + b + (k + n + c), [ATTR_END]);
      Assoc(start, a + b, k + n + c);
      Assoc(start + a + b, k + n, c);
      Assoc(start + a + b, k, n);
    } else {
      Assoc(start, a + b + [], [ATTR_END]);
      assert a + b + [] == a + b;
    }
  }

  lemma LastOfContents(types: Catalogue, ts: seq<Node>)
    requires ts != [] && forall c <- ts :: Held(types, c)
    ensures ContentsBytes(types, ts) == SaveBytes(types, ts[|ts| - 1]) + ContentsBytes(types, ts[..|ts| - 1])
  {
  }

  /** `loadItem` where it creates a new item: for a movable or force-serialised id, or inside a container. */
  method LoadItem(types: Catalogue, stream: PropStream) returns (ok: bool, node: Option<Node>)
    requires stream.Valid()
    modifies stream
    ensures stream.Valid()
    ensures match Load(types, old(stream.Rest()))
            case Failed => !ok
            case Got(n, rest) => ok && node == n && stream.Rest() == rest
    decreases |stream.Rest()|, 0
  {
    hide TakeNumber, ReadAttrs, LoadContents, CreateItem;
    node := None;
    var id;
    ok, id := stream.Read(2);
    if !ok {
      return;
    }
    var created := Create(types, id);
    if created.None? {
      return true, None;
    }
    var item, size;
    ok, item, size := UnserializeAttr(CreatedType(types, id), created.value, stream);
    if !ok {
      return;
    }
    if types(id).container {
      ok, node := LoadContainer(types, item, if size.Some? then size.value else 0, stream);
    } else {
      node := Some(Node(item, []));
    }
  }

  method LoadContainer(types: Catalogue, item: Item, count: nat, stream: PropStream) returns (ok: bool, node: Option<Node>)
    requires stream.Valid()
    modifies stream
    ensures stream.Valid()
    ensures match LoadContents(types, item, count, [], old(stream.Rest()))
            case Failed => !ok
            case Got(n, rest) => ok && node == n && stream.Rest() == rest
    decreases |stream.Rest()|, 1
  {
    hide Load;
    node := None;
    var itemlist: seq<Node> := [];
    var serializationCount := count;
    ghost var data := stream.Rest();
    while serializationCount > 0
      invariant stream.Valid() && |stream.Rest()| <= |data|
      invariant LoadContents(types, item, serializationCount, itemlist, stream.Rest()) == LoadContents(types, item, count, [], data)
    {
      var loaded;
      ok, loaded := LoadItem(types, stream);
      if !ok {
        return;
      }
      assert [] + itemlist == itemlist;
      if loaded.Some? {
        itemlist := [loaded.value] + itemlist;
      }
      serializationCount := serializationCount - 1;
    }
    TakeByte(stream.Rest());
    var endAttr;
    ok, endAttr := stream.Read(1);
    if !ok || endAttr != ATTR_END as nat {
      return false, None;
    }
    node := Some(Node(item, itemlist));
  }
}
