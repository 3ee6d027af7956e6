/**
 Item attributes and their wire form (src/item.cpp). `serializeAttr` writes what an item holds;
 `unserializeAttr` applies what it reads to a freshly created item.
 */
module Items {
  import opened Bytes
  import opened PropStreams

  const ATTR_END: byte := 0
  const ATTR_ACTION_ID: byte := 4
  const ATTR_TEXT: byte := 6
  const ATTR_DESC: byte := 7
  const ATTR_TELE_DEST: byte := 8
  const ATTR_DEPOT_ID: byte := 10
  const ATTR_RUNE_CHARGES: byte := 12
  const ATTR_HOUSEDOORID: byte := 14
  const ATTR_SLEEPERGUID: byte := 20
  const ATTR_SLEEPSTART: byte := 21
  const ATTR_COUNT: byte := 15
  const ATTR_DURATION: byte := 16
  const ATTR_DECAYING_STATE: byte := 17
  const ATTR_WRITTENDATE: byte := 18
  const ATTR_WRITTENBY: byte := 19
  const ATTR_CHARGES: byte := 22
  const ATTR_CONTAINER_ITEMS: byte := 23
  const ATTR_NAME: byte := 24
  const ATTR_ARTICLE: byte := 25
  const ATTR_PLURALNAME: byte := 26
  const ATTR_WEIGHT: byte := 27
  const ATTR_ATTACK: byte := 28
  const ATTR_DEFENSE: byte := 29
  const ATTR_EXTRADEFENSE: byte := 30
  const ATTR_ARMOR: byte := 31
  const ATTR_HITCHANCE: byte := 32
  const ATTR_SHOOTRANGE: byte := 33
  const ATTR_DECAYTO: byte := 35

  const DECAYING_FALSE := 0
  const DECAYING_TRUE := 1
  const DECAYING_PENDING := 2

  /** A row of the item catalogue: what the code below asks of `Item::items[id]`. */
  datatype ItemType = ItemType(
    known: bool, container: bool, stackable: bool, fluid: bool, moveable: bool,
    charges: nat, decayTime: nat, weight: nat)

  type Catalogue = nat -> ItemType

  datatype Value = Int(i: int) | Str(s: seq<byte>)

  /** The attribute list, keyed by the tag an attribute has on the wire. Fluid type sits under ATTR_COUNT. */
  type Attributes = map<byte, Value>

  datatype Item = Item(id: nat, count: nat, attrs: Attributes)

  // ---------------------------------------------------------------- wire formats

  datatype Format = Unsigned(n: nat) | Signed(n: nat) | Text

  function FormatOf(tag: byte): Option<Format> {
    if tag == ATTR_COUNT || tag == ATTR_RUNE_CHARGES || tag == ATTR_DECAYING_STATE || tag == ATTR_SHOOTRANGE then Some(Unsigned(1))
    else if tag == ATTR_CHARGES || tag == ATTR_ACTION_ID then Some(Unsigned(2))
    else if tag == ATTR_HITCHANCE then Some(Signed(1))
    else if tag == ATTR_TEXT || tag == ATTR_DESC || tag == ATTR_WRITTENBY then Some(Text)
    else if ATTR_NAME <= tag <= ATTR_PLURALNAME then Some(Text)
    else if tag == ATTR_DURATION || tag == ATTR_WRITTENDATE || tag == ATTR_DECAYTO then Some(Signed(4))
    else if ATTR_WEIGHT <= tag <= ATTR_ARMOR then Some(Signed(4))
    else None
  }

  /** Tags that belong to special items; a plain item skips their payload. */
  function SkipOf(tag: byte): Option<nat> {
    if tag == ATTR_HOUSEDOORID then Some(1)
    else if tag == ATTR_DEPOT_ID then Some(2)
    else if tag == ATTR_SLEEPERGUID || tag == ATTR_SLEEPSTART then Some(4)
    else if tag == ATTR_TELE_DEST then Some(5)
    else None
  }

  predicate Typed(f: Format, v: Value) {
    f.Text? <==> v.Str?
  }

  function Mod(n: nat, i: int): nat
    ensures Mod(n, i) < Pow256(n)
  {
    PositivePow(n);
    i % Pow256(n)
  }

  lemma {:induction false} PositivePow(n: nat)
    ensures Pow256(n) > 0
  {
    if n > 0 {
      PositivePow(n - 1);
    }
  }

  function ToSigned(n: nat, u: nat): int {
    if 2 * u >= Pow256(n) then u - Pow256(n) else u
  }

  /** What a value becomes by being cast to its format. */
  function Cast(f: Format, v: Value): Value
    requires Typed(f, v)
  {
    match f
    case Text => Str(Kept(v.s))
    case Unsigned(n) => Int(Mod(n, v.i))
    case Signed(n) => Int(ToSigned(n, Mod(n, v.i)))
  }

  function ValueBytes(f: Format, v: Value): seq<byte>
    requires Typed(f, v)
  {
    if f.Text? then StringBytes(v.s) else Le(f.n, Mod(f.n, v.i))
  }

  function TakeValue(f: Format, data: seq<byte>): (r: Option<(Value, seq<byte>)>)
    ensures r.Some? ==> |r.value.1| <= |data|
  {
    if f.Text? then
      match TakeString(data)
      case None => None
      case Some((s, rest)) => Some((Str(s), rest))
    else
      match TakeNumber(f.n, data)
      case None => None
      case Some((u, rest)) => Some((Int(if f.Signed? then ToSigned(f.n, u) else u), rest))
  }

  lemma ValueRoundTrip(f: Format, v: Value, rest: seq<byte>)
    requires Typed(f, v)
    ensures TakeValue(f, ValueBytes(f, v) + rest) == Some((Cast(f, v), rest))
  {
    if f.Text? {
      StringRoundTrip(v.s, rest);
    } else {
      NumberRoundTrip(f.n, Mod(f.n, v.i), rest);
    }
  }

  // ---------------------------------------------------------------- creation

  /** Ids that `CreateItem` replaces: rings and the like fall back to their unworn form. */
  function CreatedId(id: nat): nat {
    if 2210 <= id <= 2212 then id - 3
    else if id == 2215 || id == 2216 then id - 2
    else if 2202 <= id <= 2206 then id - 37
    else if id == 2640 then 6132
    else if id == 6301 then 6300
    else if id == 18528 then 18408
    else id
  }

  /** The attributes the constructor sets, for a subtype n passed to it (0 for none). */
  function DefaultAttrs(ty: ItemType, n: nat): Attributes {
    var subtype: Attributes :=
      if ty.fluid then map[ATTR_COUNT := Int(n)]
      else if !ty.stackable && ty.charges != 0 then map[ATTR_CHARGES := Int(if n != 0 then n else ty.charges % 0x1_0000)]
      else map[];
    var duration := ty.decayTime * 1000 % 0x1_0000_0000;
    if duration == 0 then subtype else subtype[ATTR_DURATION := Int(ToSigned(4, duration))]
  }

  function DefaultCount(ty: ItemType, n: nat): nat {
    if ty.fluid || !ty.stackable then 1
    else if n != 0 then n % 0x100
    else if ty.charges != 0 then ty.charges % 0x100
    else 1
  }

  /** The type a created item answers to; whether it is a container object is settled by the id asked for. */
  function CreatedType(types: Catalogue, id: nat): ItemType {
    var newId := if types(id).container then id else CreatedId(id);
    types(newId).(container := types(id).container)
  }

  /** `CreateItem(id, count)`: a plain item or container with the defaults of its type; None for an unknown id. */
  function CreateItem(types: Catalogue, id: nat, count: nat): Option<Item> {
    if !types(id).known then None
    else
      // a container is constructed without the count; a stackable item starts at one
      var n := if types(id).container then 0 else if types(id).stackable && count == 0 then 1 else count;
      var ty := CreatedType(types, id);
      Some(Item(if types(id).container then id else CreatedId(id), DefaultCount(ty, n), DefaultAttrs(ty, n)))
  }

  function Create(types: Catalogue, id: nat): Option<Item> {
    CreateItem(types, id, 0)
  }

  // ---------------------------------------------------------------- writing

  function IntAttr(item: Item, tag: byte): int {
    if tag in item.attrs && item.attrs[tag].Int? then item.attrs[tag].i else 0
  }

  function SubType(ty: ItemType, item: Item): nat {
    if ty.fluid then Mod(2, IntAttr(item, ATTR_COUNT))
    else if ty.stackable then item.count
    else if ty.charges != 0 then Mod(2, IntAttr(item, ATTR_CHARGES))
    else item.count
  }

  /** The tags `serializeAttr` may write after the two subtype tags, in its order. */
  const TAGS: seq<byte> := [
    ATTR_ACTION_ID, ATTR_TEXT, ATTR_WRITTENDATE, ATTR_WRITTENBY, ATTR_DESC, ATTR_DURATION, ATTR_DECAYING_STATE,
    ATTR_NAME, ATTR_ARTICLE, ATTR_PLURALNAME, ATTR_WEIGHT, ATTR_ATTACK, ATTR_DEFENSE, ATTR_EXTRADEFENSE,
    ATTR_ARMOR, ATTR_HITCHANCE, ATTR_SHOOTRANGE, ATTR_DECAYTO]

  /** Whether `serializeAttr` writes the attribute an item holds under the tag. */
  predicate Writes(ty: ItemType, tag: byte, v: Value) {
    if tag == ATTR_ACTION_ID then ty.moveable && v.Int? && Mod(2, v.i) != 0
    else if tag == ATTR_TEXT || tag == ATTR_WRITTENBY || tag == ATTR_DESC then v.Str? && v.s != []
    else if tag == ATTR_WRITTENDATE then v.Int? && v.i != 0
    else if tag == ATTR_DECAYING_STATE then v.Int? && (Mod(1, v.i) == DECAYING_TRUE || Mod(1, v.i) == DECAYING_PENDING)
    else true
  }

  datatype Field = Field(tag: byte, value: Value)

  predicate WellTyped(f: Field) {
    f.tag != ATTR_RUNE_CHARGES && FormatOf(f.tag).Some? && Typed(FormatOf(f.tag).value, f.value)
  }

  predicate AllTyped(fs: seq<Field>) {
    forall i :: 0 <= i < |fs| ==> WellTyped(fs[i])
  }

  function SubTypeFields(ty: ItemType, item: Item): seq<Field> {
    (if ty.stackable || ty.fluid then [Field(ATTR_COUNT, Int(SubType(ty, item)))] else []) +
    (if Mod(2, IntAttr(item, ATTR_CHARGES)) != 0 then [Field(ATTR_CHARGES, Int(IntAttr(item, ATTR_CHARGES)))] else [])
  }

  function TagFields(ty: ItemType, item: Item, tags: seq<byte>): seq<Field> {
    if tags == [] then []
    else
      var t := tags[0];
      (if t in item.attrs && Writes(ty, t, item.attrs[t]) then [Field(t, item.attrs[t])] else [])
      + TagFields(ty, item, tags[1..])
  }

  /** Everything `serializeAttr` writes. */
  function Fields(ty: ItemType, item: Item): seq<Field> {
    SubTypeFields(ty, item) + TagFields(ty, item, TAGS)
  }

  function FieldBytes(f: Field): seq<byte>
    requires WellTyped(f)
  {
    [f.tag] + ValueBytes(FormatOf(f.tag).value, f.value)
  }

  function FieldsBytes(fs: seq<Field>): seq<byte>
    requires AllTyped(fs)
  {
    if fs == [] then [] else FieldBytes(fs[0]) + FieldsBytes(fs[1..])
  }

  /** Items as the source's setters leave them: known tags, each with its kind of value. */
  predicate Wf(item: Item) {
    forall tag <- item.attrs :: WellTyped(Field(tag, item.attrs[tag]))
  }

  // ---------------------------------------------------------------- reading

  function SetSubType(ty: ItemType, item: Item, n: nat): Item {
    if ty.fluid then item.(attrs := item.attrs[ATTR_COUNT := Int(n)])
    else if ty.stackable then item.(count := n % 0x100)
    else if ty.charges != 0 then item.(attrs := item.attrs[ATTR_CHARGES := Int(n)])
    else item.(count := n % 0x100)
  }

  /** The value the setter behind a tag stores for a value read; None where it leaves the item alone. */
  function Stores(tag: byte, v: Value): Option<Value> {
    if v.Str? then (if v.s == [] then None else Some(v))
    else if tag == ATTR_ACTION_ID then Some(Int(if v.i < 100 then 100 else v.i))
    else if tag == ATTR_DURATION then Some(Int(if v.i < 0 then 0 else v.i))
    else if tag == ATTR_DECAYING_STATE then (if v.i == DECAYING_FALSE then None else Some(Int(DECAYING_PENDING)))
    else Some(v)
  }

  /** One turn of `readAttr` on a value already read. */
  function Apply(ty: ItemType, item: Item, tag: byte, v: Value): Item {
    if (tag == ATTR_COUNT || tag == ATTR_RUNE_CHARGES || tag == ATTR_CHARGES) && v.Int? && v.i >= 0 then SetSubType(ty, item, v.i)
    else
      match Stores(tag, v)
      case None => item
      case Some(w) => item.(attrs := item.attrs[tag := w])
  }

  /** How `unserializeAttr` leaves off: failed, at the end marker, or at a container's item count. */
  datatype AttrRead = Bad | Ended(item: Item, rest: seq<byte>) | Items(item: Item, size: nat, rest: seq<byte>)

  function ReadAttrs(ty: ItemType, item: Item, data: seq<byte>): (r: AttrRead)
    ensures !r.Bad? ==> |r.rest| <= |data|
    ensures r.Items? ==> ty.container
    decreases |data|
  {
    if data == [] then Ended(item, [])
    else if data[0] == ATTR_END then Ended(item, data[1..])
    else if data[0] == ATTR_CONTAINER_ITEMS then
      match TakeNumber(4, data[1..])
      case Some((n, rest)) => if ty.container then Items(item, n, rest) else Bad
      case None => Bad
    else if SkipOf(data[0]).Some? then
      var n := 1 + SkipOf(data[0]).value;
      if |data| < n then Bad else ReadAttrs(ty, item, data[n..])
    else if FormatOf(data[0]).None? then Bad
    else
      match TakeValue(FormatOf(data[0]).value, data[1..])
      case None => Bad
      case Some((v, rest)) => ReadAttrs(ty, Apply(ty, item, data[0], v), rest)
  }

  function ApplyAll(ty: ItemType, item: Item, fs: seq<Field>): Item
    requires AllTyped(fs)
    decreases |fs|
  {
    if fs == [] then item
    else ApplyAll(ty, Apply(ty, item, fs[0].tag, Cast(FormatOf(fs[0].tag).value, fs[0].value)), fs[1..])
  }

  lemma ReadField(ty: ItemType, item: Item, f: Field, rest: seq<byte>)
    requires WellTyped(f)
    ensures ReadAttrs(ty, item, FieldBytes(f) + rest)
         == ReadAttrs(ty, Apply(ty, item, f.tag, Cast(FormatOf(f.tag).value, f.value)), rest)
  {
    hide ValueBytes, TakeValue, Apply, Cast;
    var format := FormatOf(f.tag).value;
    Assoc([f.tag], ValueBytes(format, f.value), rest);
    assert ([f.tag] + (ValueBytes(format, f.value) + rest))[1..] == ValueBytes(format, f.value) + rest;
    ValueRoundTrip(format, f.value, rest);
  }

  /** What is read back is what was written, each value cast to its format and put through its setter. */
  lemma {:induction false} ReadWritten(ty: ItemType, item: Item, fs: seq<Field>, rest: seq<byte>)
    requires AllTyped(fs)
    ensures ReadAttrs(ty, item, FieldsBytes(fs) + rest) == ReadAttrs(ty, ApplyAll(ty, item, fs), rest)
    decreases |fs|
  {
    hide FieldBytes, Apply, Cast, ReadAttrs, FormatOf;
    if fs == [] {
      assert FieldsBytes(fs) + rest == rest;
    } else {
      Assoc(FieldBytes(fs[0]), FieldsBytes(fs[1..]), rest);
      ReadField(ty, item, fs[0], FieldsBytes(fs[1..]) + rest);
      ReadWritten(ty, Apply(ty, item, fs[0].tag, Cast(FormatOf(fs[0].tag).value, fs[0].value)), fs[1..], rest);
    }
  }

  lemma {:induction false} TagFieldsWellTyped(ty: ItemType, item: Item, tags: seq<byte>)
    requires Wf(item)
    ensures AllTyped(TagFields(ty, item, tags))
  {
    if tags != [] {
      TagFieldsWellTyped(ty, item, tags[1..]);
    }
  }

  lemma FieldsWellTyped(ty: ItemType, item: Item)
    requires Wf(item)
    ensures AllTyped(Fields(ty, item))
  {
    TagFieldsWellTyped(ty, item, TAGS);
  }

  /** What an item is created with: its count, for a type that stacks; its charges, for one that has them; its fluid. */
  lemma CreatedWith(types: Catalogue, id: nat, count: nat)
    requires types(id).known && !types(id).container && CreatedId(id) == id && count < 0x100
    ensures var c, ty := CreateItem(types, id, count).value, types(id);
      && c.id == id && c.count == (if !ty.fluid && ty.stackable && count > 0 then count else 1)
      && (ty.fluid <==> ATTR_COUNT in c.attrs)
      && (ty.fluid && !ty.stackable ==> c.attrs[ATTR_COUNT] == Int(count))
      && (!ty.fluid && !ty.stackable && ty.charges != 0 <==> ATTR_CHARGES in c.attrs)
      && (ATTR_CHARGES in c.attrs && count > 0 ==> c.attrs[ATTR_CHARGES] == Int(count))
      && (ATTR_CHARGES in c.attrs && count == 0 && ty.charges < 0x1_0000 ==> c.attrs[ATTR_CHARGES] == Int(ty.charges))
  {
  }

  /** The item a reload builds: created anew, then given the written attributes. */
  function Reloaded(types: Catalogue, item: Item): Item
    requires Wf(item) && types(item.id).known
  {
    FieldsWellTyped(types(item.id), item);
    ApplyAll(CreatedType(types, item.id), Create(types, item.id).value, Fields(types(item.id), item))
  }

  /** The same through a database row, which passes the subtype to the creation as well. */
  function ReloadedRow(types: Catalogue, item: Item): Item
    requires Wf(item) && types(item.id).known
  {
    FieldsWellTyped(types(item.id), item);
    var made := CreateItem(types, item.id, SubType(types(item.id), item)).value;
    ApplyAll(CreatedType(types, item.id), made, Fields(types(item.id), item))
  }

  // ---------------------------------------------------------------- what survives a reload

  function Get(attrs: Attributes, tag: byte): Option<Value> {
    if tag in attrs then Some(attrs[tag]) else None
  }

  /** The tags of TAGS. */
  predicate IsTag(tag: byte) {
    FormatOf(tag).Some? && tag != ATTR_COUNT && tag != ATTR_CHARGES && tag != ATTR_RUNE_CHARGES
  }

  predicate Int32(i: int) {
    -0x8000_0000 <= i < 0x8000_0000
  }

  /** The attribute an item holds under the tag, or lacks, is what a reload leaves there. */
  predicate TagSurvives(ty: ItemType, tag: byte, o: Option<Value>) {
    match o
    case None => tag == ATTR_DURATION ==> ty.decayTime * 1000 % 0x1_0000_0000 == 0
    case Some(Str(s)) => s != [] && |s| <= MAX_STRING
    case Some(Int(i)) =>
      if tag == ATTR_ACTION_ID then ty.moveable && 100 <= i < 0x1_0000
      else if tag == ATTR_WRITTENDATE then i != 0 && Int32(i)
      else if tag == ATTR_DURATION then 0 <= i < 0x8000_0000
      else if tag == ATTR_DECAYING_STATE then i == DECAYING_PENDING
      else if tag == ATTR_HITCHANCE then -0x80 <= i < 0x80
      else if tag == ATTR_SHOOTRANGE then 0 <= i < 0x100
      else Int32(i)
  }

  predicate SubTypeSurvives(ty: ItemType, item: Item) {
    if ty.fluid then
      item.count == 1 && ATTR_CHARGES !in item.attrs && ATTR_COUNT in item.attrs
      && 0 <= IntAttr(item, ATTR_COUNT) < 0x100
    else if ty.stackable then
      item.count < 0x100 && ATTR_CHARGES !in item.attrs && ATTR_COUNT !in item.attrs
    else if ty.charges != 0 then
      var charges := IntAttr(item, ATTR_CHARGES);
      && item.count == 1 && ATTR_COUNT !in item.attrs && ATTR_CHARGES in item.attrs
      && 0 <= charges < 0x1_0000 && (charges == 0 ==> ty.charges % 0x1_0000 == 0)
    else
      item.count == 1 && ATTR_CHARGES !in item.attrs && ATTR_COUNT !in item.attrs
  }

  predicate Survives(types: Catalogue, item: Item) {
    var ty := types(item.id);
    && ty.known && (ty.container || CreatedId(item.id) == item.id)
    && SubTypeSurvives(ty, item)
    && forall tag | IsTag(tag) :: TagSurvives(ty, tag, Get(item.attrs, tag))
  }

  /** The value a reload puts under one of TAGS; None where it keeps the default. */
  function Restored(ty: ItemType, item: Item, tag: byte): Option<Value>
    requires Wf(item)
  {
    if tag in item.attrs && Writes(ty, tag, item.attrs[tag]) then
      assert WellTyped(Field(tag, item.attrs[tag]));
      Stores(tag, Cast(FormatOf(tag).value, item.attrs[tag]))
    else None
  }

  predicate Distinct(tags: seq<byte>) {
    && (forall i, j :: 0 <= i < j < |tags| ==> tags[i] != tags[j])
    && ATTR_COUNT !in tags && ATTR_CHARGES !in tags && ATTR_RUNE_CHARGES !in tags
  }

  lemma {:induction false} ApplyAllAppend(ty: ItemType, item: Item, a: seq<Field>, b: seq<Field>)
    requires AllTyped(a) && AllTyped(b)
    ensures AllTyped(a + b) && ApplyAll(ty, item, a + b) == ApplyAll(ty, ApplyAll(ty, item, a), b)
    decreases |a|
  {
    if a == [] {
      assert a + b == b;
    } else {
      hide Apply, Cast;
      ApplyAllAppend(ty, Apply(ty, item, a[0].tag, Cast(FormatOf(a[0].tag).value, a[0].value)), a[1..], b);
      assert (a + b)[1..] == a[1..] + b;
    }
  }

  // Reading back the tag fields touches each tag on its own.
  lemma {:induction false} ApplyTags(ty: ItemType, to: Item, ty': ItemType, item: Item, tags: seq<byte>)
    requires Wf(item) && Distinct(tags)
    ensures AllTyped(TagFields(ty', item, tags))
    ensures var r := ApplyAll(ty, to, TagFields(ty', item, tags));
      && r.id == to.id && r.count == to.count
      && forall k :: Get(r.attrs, k) ==
           if k in tags && Restored(ty', item, k).Some? then Restored(ty', item, k) else Get(to.attrs, k)
    decreases |tags|
  {
    TagFieldsWellTyped(ty', item, tags);
    if tags != [] {
      var t := tags[0];
      var more := TagFields(ty', item, tags[1..]);
      if t in item.attrs && Writes(ty', t, item.attrs[t]) {
        var f := Field(t, item.attrs[t]);
        assert TagFields(ty', item, tags) == [f] + more && ([f] + more)[1..] == more;
        var next := Apply(ty, to, t, Cast(FormatOf(t).value, item.attrs[t]));
        ApplyTags(ty, next, ty', item, tags[1..]);
      } else {
        assert TagFields(ty', item, tags) == [] + more == more;
        ApplyTags(ty, to, ty', item, tags[1..]);
      }
    }
  }

  // What the two subtype fields leave of a newly created item.
  function SubTypeReloaded(ty: ItemType, to: Item, item: Item): Item {
    var counted := if ty.stackable || ty.fluid then SetSubType(ty, to, SubType(ty, item) % 0x100) else to;
    var charges := Mod(2, IntAttr(item, ATTR_CHARGES));
    if charges != 0 then SetSubType(ty, counted, charges) else counted
  }

  lemma ApplySubType(ty: ItemType, to: Item, item: Item)
    ensures AllTyped(SubTypeFields(ty, item))
    ensures ApplyAll(ty, to, SubTypeFields(ty, item)) == SubTypeReloaded(ty, to, item)
  {
    Pow2();
    hide SetSubType, SubType;
    var a := if ty.stackable || ty.fluid then [Field(ATTR_COUNT, Int(SubType(ty, item)))] else [];
    var c := IntAttr(item, ATTR_CHARGES);
    var b := if Mod(2, c) != 0 then [Field(ATTR_CHARGES, Int(c))] else [];
    ApplyAllAppend(ty, to, a, b);
    assert forall it, f :: WellTyped(f) ==> ApplyAll(ty, it, [f]) == Apply(ty, it, f.tag, Cast(FormatOf(f.tag).value, f.value)) by {
      forall it, f | WellTyped(f)
        ensures ApplyAll(ty, it, [f]) == Apply(ty, it, f.tag, Cast(FormatOf(f.tag).value, f.value))
      {
        assert [f][1..] == [];
      }
    }
  }

  lemma TagsAreDistinct()
    ensures Distinct(TAGS)
    ensures forall tag :: IsTag(tag) <==> tag in TAGS
  {
  }

  // One of TAGS, on an item that is created with the same type it was saved with.
  lemma TagSurvivesIff(ty: ItemType, item: Item, tag: byte)
    requires Wf(item) && IsTag(tag)
    ensures var r := Restored(ty, item, tag);
      TagSurvives(ty, tag, Get(item.attrs, tag)) <==>
      Get(item.attrs, tag) == if r.Some? then r else Get(DefaultAttrs(ty, 0), tag)
  {
    if tag in item.attrs {
      assert WellTyped(Field(tag, item.attrs[tag]));
      if item.attrs[tag].Int? {
        Casts(item.attrs[tag].i);
        hide Mod, ToSigned;
      }
    }
  }

  // The values each number format keeps.
  lemma Casts(i: int)
    ensures Mod(1, i) == i <==> 0 <= i < 0x100
    ensures Mod(2, i) == i <==> 0 <= i < 0x1_0000
    ensures Mod(1, i) < 0x100 && Mod(2, i) < 0x1_0000
    ensures ToSigned(1, Mod(1, i)) == i <==> -0x80 <= i < 0x80
    ensures ToSigned(4, Mod(4, i)) == i <==> Int32(i)
  {
    Pow2();
  }

  lemma SubTypeSurvivesIff(ty: ItemType, item: Item, n: nat)
    requires Wf(item) && (n == 0 || n == SubType(ty, item) || ty.stackable)
    ensures var r := SubTypeReloaded(ty, Item(item.id, DefaultCount(ty, n), DefaultAttrs(ty, n)), item);
      SubTypeSurvives(ty, item) <==>
      && r.count == item.count
      && Get(r.attrs, ATTR_COUNT) == Get(item.attrs, ATTR_COUNT)
      && Get(r.attrs, ATTR_CHARGES) == Get(item.attrs, ATTR_CHARGES)
  {
    assert ATTR_COUNT in item.attrs ==> WellTyped(Field(ATTR_COUNT, item.attrs[ATTR_COUNT]));
    assert ATTR_CHARGES in item.attrs ==> WellTyped(Field(ATTR_CHARGES, item.attrs[ATTR_CHARGES]));
    Casts(IntAttr(item, ATTR_COUNT));
    Casts(IntAttr(item, ATTR_CHARGES));
    hide Mod, ToSigned, FormatOf, WellTyped;
    if ty.fluid {
    } else if ty.stackable {
    } else if ty.charges != 0 {
    } else {
    }
  }

  lemma SubTypeKeeps(ty: ItemType, to: Item, item: Item)
    ensures SubTypeReloaded(ty, to, item).id == to.id
    ensures forall tag :: tag != ATTR_COUNT && tag != ATTR_CHARGES ==>
      Get(SubTypeReloaded(ty, to, item).attrs, tag) == Get(to.attrs, tag)
  {
  }

  lemma SameAttrs(a: Attributes, b: Attributes)
    ensures a == b <==> forall tag :: Get(a, tag) == Get(b, tag)
  {
    if forall tag :: Get(a, tag) == Get(b, tag) {
      assert forall tag :: tag in a <==> Get(a, tag).Some?;
      assert forall tag :: tag in b <==> Get(b, tag).Some?;
      assert a.Keys == b.Keys;
      forall tag | tag in a
        ensures a[tag] == b[tag]
      {
        assert Get(a, tag) == Get(b, tag);
      }
    }
  }

  // A reload into a newly created item, attribute by attribute.
  lemma ReloadGet(ty: ItemType, made: Item, ty': ItemType, item: Item)
    requires Wf(item)
    ensures AllTyped(Fields(ty', item))
    ensures var r := ApplyAll(ty, made, Fields(ty', item));
      && r.id == made.id
      && (ty' == ty ==>
          var sub := SubTypeReloaded(ty, made, item);
          && r.count == sub.count
          && forall tag :: Get(r.attrs, tag) ==
               if IsTag(tag) && Restored(ty, item, tag).Some? then Restored(ty, item, tag) else Get(sub.attrs, tag))
  {
    hide Restored;
    TagsAreDistinct();
    FieldsWellTyped(ty', item);
    ApplySubType(ty', made, item);
    ApplyTags(ty, made, ty', item, TAGS);
    var first := ApplyAll(ty, made, SubTypeFields(ty', item));
    ApplyAllAppend(ty, made, SubTypeFields(ty', item), TagFields(ty', item, TAGS));
    ApplyTags(ty, first, ty', item, TAGS);
    ApplyKeepsId(ty, made, SubTypeFields(ty', item));
    assert ty' == ty ==> first == SubTypeReloaded(ty, made, item);
  }

  lemma {:induction false} ApplyKeepsId(ty: ItemType, item: Item, fs: seq<Field>)
    requires AllTyped(fs)
    ensures ApplyAll(ty, item, fs).id == item.id
    decreases |fs|
  {
    if fs != [] {
      ApplyKeepsId(ty, Apply(ty, item, fs[0].tag, Cast(FormatOf(fs[0].tag).value, fs[0].value)), fs[1..]);
    }
  }

  // An item created with the type it was saved with.
  lemma ReloadSameType(ty: ItemType, item: Item, n: nat)
    requires Wf(item) && (n == 0 || n == SubType(ty, item) || ty.stackable)
    ensures AllTyped(Fields(ty, item))
    ensures ApplyAll(ty, Item(item.id, DefaultCount(ty, n), DefaultAttrs(ty, n)), Fields(ty, item)) == item <==>
      SubTypeSurvives(ty, item) && forall tag | IsTag(tag) :: TagSurvives(ty, tag, Get(item.attrs, tag))
  {
    var made := Item(item.id, DefaultCount(ty, n), DefaultAttrs(ty, n));
    assert forall tag | IsTag(tag) :: Get(DefaultAttrs(ty, n), tag) == Get(DefaultAttrs(ty, 0), tag);
    assert forall tag :: !IsTag(tag) && tag != ATTR_COUNT && tag != ATTR_CHARGES ==> Get(DefaultAttrs(ty, n), tag).None?;
    hide ApplyAll, SubTypeReloaded, SubTypeSurvives, TagSurvives, Restored, DefaultAttrs, DefaultCount, SubType;
    ReloadGet(ty, made, ty, item);
    SubTypeKeeps(ty, made, item);
    SubTypeSurvivesIff(ty, item, n);
    TagsAreDistinct();
    var r := ApplyAll(ty, made, Fields(ty, item));
    forall tag | IsTag(tag)
      ensures TagSurvives(ty, tag, Get(item.attrs, tag)) <==> Get(item.attrs, tag) == Get(r.attrs, tag)
    {
      TagSurvivesIff(ty, item, tag);
    }
    forall tag | !IsTag(tag) && tag != ATTR_COUNT && tag != ATTR_CHARGES
      ensures Get(item.attrs, tag).None? && Get(r.attrs, tag).None?
    {
      assert tag in item.attrs ==> WellTyped(Field(tag, item.attrs[tag]));
    }
    hide WellTyped, FormatOf;
    SameAttrs(r.attrs, item.attrs);
    assert (forall tag | IsTag(tag) :: Get(item.attrs, tag) == Get(r.attrs, tag)) <==>
           forall tag | IsTag(tag) :: TagSurvives(ty, tag, Get(item.attrs, tag));
  }

  lemma ReloadIff(types: Catalogue, item: Item, count: nat)
    requires Wf(item) && types(item.id).known
    requires count == 0 || count == SubType(types(item.id), item)
    ensures AllTyped(Fields(types(item.id), item))
    ensures ApplyAll(CreatedType(types, item.id), CreateItem(types, item.id, count).value, Fields(types(item.id), item)) == item
      <==> Survives(types, item)
  {
    var ty := types(item.id);
    var made := CreateItem(types, item.id, count).value;
    hide ApplyAll, SubTypeSurvives, TagSurvives, DefaultAttrs, DefaultCount, SubType;
    ReloadGet(CreatedType(types, item.id), made, ty, item);
    if ty.container || CreatedId(item.id) == item.id {
      var n := if ty.container then 0 else if ty.stackable && count == 0 then 1 else count;
      assert made == Item(item.id, DefaultCount(ty, n), DefaultAttrs(ty, n)) && CreatedType(types, item.id) == ty;
      ReloadSameType(ty, item, n);
    }
  }

  /** An item comes back from a save as it was exactly if it meets `Survives`, by either road. */
  lemma ReloadedIff(types: Catalogue, item: Item)
    requires Wf(item) && types(item.id).known
    ensures Reloaded(types, item) == item <==> Survives(types, item)
    ensures ReloadedRow(types, item) == item <==> Survives(types, item)
  {
    ReloadIff(types, item, 0);
    ReloadIff(types, item, SubType(types(item.id), item));
  }

  // ---------------------------------------------------------------- what becomes of an item that does not survive

  /** The number of 32 or 8 bits, with its sign, that has the same residue. */
  function SignedWord(i: int): int {
    (i + 0x8000_0000) % 0x1_0000_0000 - 0x8000_0000
  }

  function SignedByte(i: int): int {
    (i + 0x80) % 0x100 - 0x80
  }

  function Largest(a: int, b: int): int {
    if a < b then b else a
  }

  /**
   What is under a tag after a reload, from what was there before: nothing where there was nothing, but for the
   duration, which is the type's; texts unless they are empty or too long; action ids of moveable types, at least
   100; a duration cut off at zero; any decay state pending; numbers wrapped to the width they are read with.
   */
  ghost predicate ComesBack(ty: ItemType, made: ItemType, tag: byte, before: Option<Value>, after: Option<Value>) {
    var span := made.decayTime * 1000 % 0x1_0000_0000;
    var created := if tag == ATTR_DURATION && span != 0 then Some(Int(SignedWord(span))) else None;
    match before
    case None => after == created
    case Some(Str(s)) => after == if s == [] || |s| > 0xFFFF then None else Some(Str(s))
    case Some(Int(i)) =>
      if tag == ATTR_ACTION_ID then
        after == if ty.moveable && i % 0x1_0000 != 0 then Some(Int(Largest(100, i % 0x1_0000))) else None
      else if tag == ATTR_WRITTENDATE then after == if i == 0 then None else Some(Int(SignedWord(i)))
      else if tag == ATTR_DURATION then after == Some(Int(Largest(0, SignedWord(i))))
      else if tag == ATTR_DECAYING_STATE then after == if i % 0x100 == 1 || i % 0x100 == 2 then Some(Int(2)) else None
      else if tag == ATTR_HITCHANCE then after == Some(Int(SignedByte(i)))
      else if tag == ATTR_SHOOTRANGE then after == Some(Int(i % 0x100))
      else after == Some(Int(SignedWord(i)))
  }

  lemma Wraps(i: int)
    ensures Mod(1, i) == i % 0x100 && Mod(2, i) == i % 0x1_0000 && Mod(4, i) == i % 0x1_0000_0000
    ensures ToSigned(1, Mod(1, i)) == SignedByte(i) && ToSigned(4, Mod(4, i)) == SignedWord(i)
  {
    Pow2();
    hide Pow256;
    SignsByte(i);
    SignsWord(i);
    hide SignedByte, SignedWord;
  }

  lemma SignsByte(i: int)
    ensures var u := i % 0x100; (if 2 * u >= 0x100 then u - 0x100 else u) == SignedByte(i)
  {
  }

  lemma SignsWord(i: int)
    ensures var u := i % 0x1_0000_0000; (if 2 * u >= 0x1_0000_0000 then u - 0x1_0000_0000 else u) == SignedWord(i)
  {
    var q, u := i / 0x1_0000_0000, i % 0x1_0000_0000;
    if 2 * u >= 0x1_0000_0000 {
      Remainder(i + 0x8000_0000, q + 1, u - 0x8000_0000);
    } else {
      Remainder(i + 0x8000_0000, q, u + 0x8000_0000);
    }
  }

  lemma Remainder(a: int, q: int, r: int)
    requires a == q * 0x1_0000_0000 + r && 0 <= r < 0x1_0000_0000
    ensures a % 0x1_0000_0000 == r
  {
  }

  lemma WrapsTwice(i: int)
    ensures 0 <= i < 0x1_0000_0000 ==> ToSigned(4, i) == SignedWord(i)
  {
    Pow2();
    hide Pow256;
    SignsWord(i);
  }

  // What is put under a tag where a number was.
  lemma NumberComesBack(ty: ItemType, made: ItemType, tag: byte, i: int, created: Option<Value>)
    requires IsTag(tag) && FormatOf(tag) != Some(Text) && (tag != ATTR_DURATION ==> created == None)
    ensures var stored := if Writes(ty, tag, Int(i)) then Stores(tag, Cast(FormatOf(tag).value, Int(i))) else None;
      ComesBack(ty, made, tag, Some(Int(i)), if stored.Some? then stored else created)
  {
    Wraps(i);
    hide Mod, ToSigned, SignedWord, SignedByte;
  }

  lemma TextComesBack(ty: ItemType, made: ItemType, tag: byte, s: seq<byte>)
    requires IsTag(tag) && FormatOf(tag) == Some(Text)
    ensures var stored := if Writes(ty, tag, Str(s)) then Stores(tag, Cast(FormatOf(tag).value, Str(s))) else None;
      ComesBack(ty, made, tag, Some(Str(s)), stored)
  {
  }

  lemma DefaultIs(made: ItemType, n: nat, tag: byte)
    requires IsTag(tag)
    ensures var span := made.decayTime * 1000 % 0x1_0000_0000;
      Get(DefaultAttrs(made, n), tag) == if tag == ATTR_DURATION && span != 0 then Some(Int(SignedWord(span))) else None
  {
    WrapsTwice(made.decayTime * 1000 % 0x1_0000_0000);
    hide ToSigned, SignedWord;
  }

  lemma RestoredComesBack(ty: ItemType, made: ItemType, item: Item, tag: byte, n: nat)
    requires Wf(item) && IsTag(tag)
    ensures var r := Restored(ty, item, tag);
      ComesBack(ty, made, tag, Get(item.attrs, tag), if r.Some? then r else Get(DefaultAttrs(made, n), tag))
  {
    DefaultIs(made, n, tag);
    if tag in item.attrs {
      assert WellTyped(Field(tag, item.attrs[tag]));
      match item.attrs[tag]
      case Int(i) => NumberComesBack(ty, made, tag, i, Get(DefaultAttrs(made, n), tag));
      case Str(s) => TextComesBack(ty, made, tag, s);
    }
    hide ComesBack, Writes, Stores, Cast, Wf, DefaultAttrs, SignedWord;
  }

  /** The subtypes a save writes, the last of which is the one that stays: count or fluid, then charges. */
  function SubTypesWritten(ty: ItemType, item: Item): seq<nat> {
    var charges := IntAttr(item, ATTR_CHARGES) % 0x1_0000;
    (if ty.fluid then [IntAttr(item, ATTR_COUNT) % 0x1_0000 % 0x100] else if ty.stackable then [item.count % 0x100] else [])
      + (if charges != 0 then [charges] else [])
  }

  /** Where the subtype of a type is kept: as a fluid, as a count, as charges, or again as a count. */
  ghost predicate SubTypeComesBack(made: ItemType, created: Item, written: seq<nat>, after: Item) {
    var last := if written == [] then None else Some(written[|written| - 1]);
    && (made.fluid ==> Get(after.attrs, ATTR_COUNT) == (if last.Some? then Some(Int(last.value)) else Get(created.attrs, ATTR_COUNT)))
    && (!made.fluid && !made.stackable && made.charges != 0 ==>
          Get(after.attrs, ATTR_CHARGES) == if last.Some? then Some(Int(last.value)) else Get(created.attrs, ATTR_CHARGES))
    && after.count == (if last.Some? && !made.fluid && (made.stackable || made.charges == 0) then last.value % 0x100 else created.count)
    && (!made.fluid ==> ATTR_COUNT !in after.attrs)
    && (made.fluid || made.stackable || made.charges == 0 ==> ATTR_CHARGES !in after.attrs)
  }

  /** What becomes of an item that is saved, by creation as this item, and loaded. */
  ghost predicate ItemComesBack(types: Catalogue, item: Item, created: Item, after: Item) {
    var ty, made := types(item.id), CreatedType(types, item.id);
    && after.id == (if ty.container then item.id else CreatedId(item.id))
    && SubTypeComesBack(made, created, SubTypesWritten(ty, item), after)
    && (forall tag | IsTag(tag) :: ComesBack(ty, made, tag, Get(item.attrs, tag), Get(after.attrs, tag)))
    && (forall tag <- after.attrs :: IsTag(tag) || tag == ATTR_COUNT || tag == ATTR_CHARGES)
  }

  lemma WrittenFields(ty: ItemType, item: Item)
    ensures var fs, ns := SubTypeFields(ty, item), SubTypesWritten(ty, item);
      && |fs| == |ns| && AllTyped(fs)
      && forall i :: 0 <= i < |fs| ==> (fs[i].tag == ATTR_COUNT || fs[i].tag == ATTR_CHARGES) && Cast(FormatOf(fs[i].tag).value, fs[i].value) == Int(ns[i])
  {
    Wraps(IntAttr(item, ATTR_CHARGES));
    Wraps(IntAttr(item, ATTR_COUNT));
    Wraps(SubType(ty, item));
    hide Mod, ToSigned, SignedByte, SignedWord;
  }

  // Setting subtypes one after the other leaves the last.
  lemma {:induction false} SetSubTypes(made: ItemType, to: Item, fs: seq<Field>, ns: seq<nat>)
    requires |fs| == |ns| && AllTyped(fs)
    requires forall i :: 0 <= i < |fs| ==> (fs[i].tag == ATTR_COUNT || fs[i].tag == ATTR_CHARGES) && Cast(FormatOf(fs[i].tag).value, fs[i].value) == Int(ns[i])
    ensures var r := ApplyAll(made, to, fs);
      r == if ns == [] then to else SetSubType(made, to, ns[|ns| - 1])
    decreases |fs|
  {
    hide Cast, SetSubType, FormatOf, WellTyped;
    if fs != [] {
      SetSubTypes(made, SetSubType(made, to, ns[0]), fs[1..], ns[1..]);
      if |fs| > 1 {
        SetAgain(made, to, ns[0], ns[|ns| - 1]);
      }
    }
  }

  lemma SetAgain(made: ItemType, to: Item, a: nat, b: nat)
    ensures SetSubType(made, SetSubType(made, to, a), b) == SetSubType(made, to, b)
  {
  }

  lemma CreatedIs(made: ItemType, id: nat, n: nat)
    ensures var c := Item(id, DefaultCount(made, n), DefaultAttrs(made, n));
      && (made.fluid <==> ATTR_COUNT in c.attrs) && (!made.fluid && !made.stackable && made.charges != 0 <==> ATTR_CHARGES in c.attrs)
      && (forall tag <- c.attrs :: tag == ATTR_COUNT || tag == ATTR_CHARGES || tag == ATTR_DURATION)
  {
  }

  lemma TagsComeBack(made: ItemType, id: nat, n: nat, ty: ItemType, item: Item, tag: byte)
    requires Wf(item) && IsTag(tag)
    ensures AllTyped(Fields(ty, item))
    ensures var created := Item(id, DefaultCount(made, n), DefaultAttrs(made, n));
      ComesBack(ty, made, tag, Get(item.attrs, tag), Get(ApplyAll(made, created, Fields(ty, item)).attrs, tag))
  {
    hide ApplyAll, DefaultAttrs, DefaultCount, Restored, ComesBack, SubTypesWritten, SubTypeFields, Fields, IsTag, SetSubType;
    var created := Item(id, DefaultCount(made, n), DefaultAttrs(made, n));
    ReloadParts(made, created, ty, item);
    WrittenFields(ty, item);
    SetSubTypes(made, created, SubTypeFields(ty, item), SubTypesWritten(ty, item));
    TagAside(made, created, SubTypesWritten(ty, item), tag);
    RestoredComesBack(ty, made, item, tag, n);
  }

  lemma TagAside(made: ItemType, to: Item, ns: seq<nat>, tag: byte)
    requires IsTag(tag)
    ensures Get((if ns == [] then to else SetSubType(made, to, ns[|ns| - 1])).attrs, tag) == Get(to.attrs, tag)
  {
  }

  lemma SubTypesComeBack(made: ItemType, id: nat, n: nat, ty: ItemType, item: Item)
    requires Wf(item)
    ensures AllTyped(Fields(ty, item))
    ensures var created := Item(id, DefaultCount(made, n), DefaultAttrs(made, n));
      var after := ApplyAll(made, created, Fields(ty, item));
      && SubTypeComesBack(made, created, SubTypesWritten(ty, item), after) && after.id == id
      && forall tag <- after.attrs :: IsTag(tag) || tag == ATTR_COUNT || tag == ATTR_CHARGES
  {
    hide ApplyAll, DefaultAttrs, DefaultCount, Restored, SubTypesWritten, SubTypeFields, Fields;
    var created := Item(id, DefaultCount(made, n), DefaultAttrs(made, n));
    ReloadParts(made, created, ty, item);
    WrittenFields(ty, item);
    SetSubTypes(made, created, SubTypeFields(ty, item), SubTypesWritten(ty, item));
    CreatedIs(made, id, n);
    var after := ApplyAll(made, created, Fields(ty, item));
    assert Get(after.attrs, ATTR_COUNT) == Get(ApplyAll(made, created, SubTypeFields(ty, item)).attrs, ATTR_COUNT);
    assert Get(after.attrs, ATTR_CHARGES) == Get(ApplyAll(made, created, SubTypeFields(ty, item)).attrs, ATTR_CHARGES);
    forall tag <- after.attrs
      ensures IsTag(tag) || tag == ATTR_COUNT || tag == ATTR_CHARGES
    {
      assert Get(after.attrs, tag).Some?;
    }
  }

  lemma ReloadComesBack(types: Catalogue, item: Item, count: nat)
    requires Wf(item) && types(item.id).known
    ensures AllTyped(Fields(types(item.id), item))
    ensures var created := CreateItem(types, item.id, count).value;
      ItemComesBack(types, item, created, ApplyAll(CreatedType(types, item.id), created, Fields(types(item.id), item)))
  {
    hide ApplyAll, DefaultAttrs, DefaultCount, ComesBack, SubTypesWritten, SubTypeComesBack, CreatedType, Fields;
    var ty, made := types(item.id), CreatedType(types, item.id);
    var created := CreateItem(types, item.id, count).value;
    var n := if ty.container then 0 else if ty.stackable && count == 0 then 1 else count;
    assert created == Item(created.id, DefaultCount(made, n), DefaultAttrs(made, n));
    hide CreateItem;
    SubTypesComeBack(made, created.id, n, ty, item);
    forall tag | IsTag(tag)
      ensures ComesBack(ty, made, tag, Get(item.attrs, tag), Get(ApplyAll(made, created, Fields(ty, item)).attrs, tag))
    {
      TagsComeBack(made, created.id, n, ty, item, tag);
    }
  }

  /** The numbers of the tags, in the order in which they are written, and how many bytes their values take. */
  lemma WireNumbers()
    ensures TAGS == [4, 6, 18, 19, 7, 16, 17, 24, 25, 26, 27, 28, 29, 30, 31, 32, 33, 35]
    ensures ATTR_COUNT == 15 && ATTR_RUNE_CHARGES == 12 && ATTR_CHARGES == 22 && ATTR_CONTAINER_ITEMS == 23 && ATTR_END == 0
    ensures forall tag: byte :: (FormatOf(tag) ==
      if tag in {6, 7, 19, 24, 25, 26} then Some(Text)
       else if tag in {12, 15, 17, 33} then Some(Unsigned(1))
       else if tag in {4, 22} then Some(Unsigned(2))
       else if tag == 32 then Some(Signed(1))
       else if tag in {16, 18, 27, 28, 29, 30, 31, 35} then Some(Signed(4))
       else None)
  {
  }

  // First the subtypes, then the tags.
  lemma ReloadParts(made: ItemType, created: Item, ty: ItemType, item: Item)
    requires Wf(item)
    ensures AllTyped(Fields(ty, item)) && AllTyped(SubTypeFields(ty, item))
    ensures var first, r := ApplyAll(made, created, SubTypeFields(ty, item)), ApplyAll(made, created, Fields(ty, item));
      && r.id == created.id && r.count == first.count
      && forall tag :: Get(r.attrs, tag) ==
           if IsTag(tag) && Restored(ty, item, tag).Some? then Restored(ty, item, tag) else Get(first.attrs, tag)
  {
    hide Restored;
    TagsAreDistinct();
    FieldsWellTyped(ty, item);
    ApplySubType(ty, created, item);
    var first := ApplyAll(made, created, SubTypeFields(ty, item));
    ApplyTags(made, first, ty, item, TAGS);
    ApplyAllAppend(made, created, SubTypeFields(ty, item), TagFields(ty, item, TAGS));
    ApplyKeepsId(made, created, SubTypeFields(ty, item));
  }

  /** What a save and a load make of any item, on either road: tag by tag, and its count, fluid or charges. */
  lemma ReloadedComesBack(types: Catalogue, item: Item)
    requires Wf(item) && types(item.id).known
    ensures ItemComesBack(types, item, Create(types, item.id).value, Reloaded(types, item))
    ensures ItemComesBack(types, item, CreateItem(types, item.id, SubType(types(item.id), item)).value, ReloadedRow(types, item))
  {
    ReloadComesBack(types, item, 0);
    ReloadComesBack(types, item, SubType(types(item.id), item));
  }

  /** `getWeight` of the item alone, a 32-bit product. */
  function OwnWeight(types: Catalogue, item: Item): nat {
    var base := if ATTR_WEIGHT in item.attrs then Mod(4, IntAttr(item, ATTR_WEIGHT)) else types(item.id).weight;
    if types(item.id).stackable then base * (if item.count == 0 then 1 else item.count) % 0x1_0000_0000
    else base % 0x1_0000_0000
  }

  // ---------------------------------------------------------------- trees of items

  datatype Node = Node(item: Item, contents: seq<Node>)

  /** A tree the server can hold: 16-bit ids, items only inside containers, 32-bit sizes. */
  ghost predicate Held(types: Catalogue, t: Node) {
    && Wf(t.item) && t.item.id < 0x1_0000
    && (types(t.item.id).container || t.contents == [])
    && |t.contents| < 0x1_0000_0000
    && forall c <- t.contents :: Held(types, c)
  }

  ghost predicate TreeSurvives(types: Catalogue, t: Node) {
    Survives(types, t.item) && forall c <- t.contents :: TreeSurvives(types, c)
  }

  function KnownOnes(types: Catalogue, ts: seq<Node>): seq<Node> {
    if ts == [] then [] else (if types(ts[0].item.id).known then [ts[0]] else []) + KnownOnes(types, ts[1..])
  }

  /** What becomes of a tree: its items as above, each with those of its items, in order, whose types are known. */
  ghost predicate TreeComesBack(types: Catalogue, t: Node, r: Node, byRow: bool)
    decreases r
  {
    && types(t.item.id).known
    && ItemComesBack(types, t.item, CreateItem(types, t.item.id, if byRow then SubType(types(t.item.id), t.item) else 0).value, r.item)
    && |r.contents| == |KnownOnes(types, t.contents)|
    && forall k :: 0 <= k < |r.contents| ==> TreeComesBack(types, KnownOnes(types, t.contents)[k], r.contents[k], byRow)
  }

  // ---------------------------------------------------------------- the methods

  lemma {:induction false} FieldsBytesAppend(a: seq<Field>, b: seq<Field>)
    requires AllTyped(a) && AllTyped(b)
    ensures AllTyped(a + b) && FieldsBytes(a + b) == FieldsBytes(a) + FieldsBytes(b)
    decreases |a|
  {
    hide FieldBytes;
    if a == [] {
      assert a + b == b;
    } else {
      FieldsBytesAppend(a[1..], b);
      assert (a + b)[1..] == a[1..] + b && (a + b)[0] == a[0];
      Assoc(FieldBytes(a[0]), FieldsBytes(a[1..]), FieldsBytes(b));
    }
  }

  lemma {:induction false} TagFieldsAppend(ty: ItemType, item: Item, a: seq<byte>, b: seq<byte>)
    ensures TagFields(ty, item, a + b) == TagFields(ty, item, a) + TagFields(ty, item, b)
    decreases |a|
  {
    if a == [] {
      assert a + b == b;
    } else {
      TagFieldsAppend(ty, item, a[1..], b);
      assert (a + b)[1..] == a[1..] + b && (a + b)[0] == a[0];
    }
  }

  method WriteField(f: Field, stream: PropWriteStream)
    requires WellTyped(f)
    modifies stream
    ensures stream.buffer == old(stream.buffer) + FieldBytes(f)
  {
    hide Le, StringBytes;
    var format := FormatOf(f.tag).value;
    stream.Write(1, f.tag as nat);
    LeOne(f.tag);
    if format.Text? {
      stream.WriteString(f.value.s);
    } else {
      stream.Write(format.n, Mod(format.n, f.value.i));
    }
    Assoc(old(stream.buffer), [f.tag], ValueBytes(format, f.value));
  }

  lemma LeOne(b: byte)
    ensures Le(1, b as nat) == [b]
  {
    assert Le(0, 0) == [];
  }

  lemma FieldAppended(start: seq<byte>, done: seq<Field>, f: Field)
    requires AllTyped(done) && WellTyped(f)
    ensures AllTyped(done + [f])
    ensures start + FieldsBytes(done) + FieldBytes(f) == start + FieldsBytes(done + [f])
  {
    FieldsBytesAppend(done, [f]);
    assert [f][1..] == [];
    assert FieldsBytes([f]) == FieldBytes(f);
    Assoc(start, FieldsBytes(done), FieldBytes(f));
  }

  /** One field more behind those already written. */
  method AppendField(f: Field, stream: PropWriteStream, ghost start: seq<byte>, ghost done: seq<Field>)
    requires AllTyped(done) && WellTyped(f) && stream.buffer == start + FieldsBytes(done)
    modifies stream
    ensures AllTyped(done + [f]) && stream.buffer == start + FieldsBytes(done + [f])
  {
    hide FieldBytes, FieldsBytes, WellTyped, AllTyped;
    FieldAppended(start, done, f);
    WriteField(f, stream);
  }

  /** The first fields: count or fluid, then charges. */
  method SerializeSubType(ty: ItemType, item: Item, stream: PropWriteStream)
    requires Wf(item)
    modifies stream
    ensures AllTyped(SubTypeFields(ty, item))
    ensures stream.buffer == old(stream.buffer) + FieldsBytes(SubTypeFields(ty, item))
  {
    hide FieldBytes, SubType, FieldsBytes, WellTyped, Wf;
    ghost var start := stream.buffer;
    ghost var done: seq<Field> := [];
    EmptyBytes();
    if ty.stackable || ty.fluid {
      var f := Field(ATTR_COUNT, Int(SubType(ty, item)));
      SubTypeTyped(f);
      AppendField(f, stream, start, done);
      done := done + [f];
    }
    var charges := IntAttr(item, ATTR_CHARGES);
    if Mod(2, charges) != 0 {
      var f := Field(ATTR_CHARGES, Int(charges));
      SubTypeTyped(f);
      AppendField(f, stream, start, done);
      done := done + [f];
    }
    assert done == SubTypeFields(ty, item);
  }

  method SerializeAttr(ty: ItemType, item: Item, stream: PropWriteStream)
    requires Wf(item)
    modifies stream
    ensures AllTyped(Fields(ty, item))
    ensures stream.buffer == old(stream.buffer) + FieldsBytes(Fields(ty, item))
  {
    hide FieldBytes, SubType, FieldsBytes, WellTyped, Writes, SubTypeFields, AllTyped, TagFields, Wf;
    ghost var start, done := stream.buffer, SubTypeFields(ty, item);
    SerializeSubType(ty, item, stream);
    NoTagFields(ty, item);
    for i := 0 to |TAGS|
      invariant AllTyped(done) && done == SubTypeFields(ty, item) + TagFields(ty, item, TAGS[..i])
      invariant stream.buffer == start + FieldsBytes(done)
    {
      var tag := TAGS[i];
      OneTagField(ty, item, i);
      if tag in item.attrs && Writes(ty, tag, item.attrs[tag]) {
        var f := Field(tag, item.attrs[tag]);
        AppendField(f, stream, start, done);
        done := done + [f];
      }
    }
    assert TAGS[..|TAGS|] == TAGS;
  }

  lemma NoTagFields(ty: ItemType, item: Item)
    ensures TagFields(ty, item, TAGS[..0]) == []
  {
  }

  lemma EmptyBytes()
    ensures FieldsBytes([]) == []
  {
  }

  lemma SubTypeTyped(f: Field)
    requires (f.tag == ATTR_COUNT || f.tag == ATTR_CHARGES) && f.value.Int?
    ensures WellTyped(f)
  {
  }

  // The loop over TAGS adds the fields of one tag at a time.
  lemma OneTagField(ty: ItemType, item: Item, i: nat)
    requires i < |TAGS| && Wf(item)
    ensures var tag, was := TAGS[i], TagFields(ty, item, TAGS[..i]);
      TagFields(ty, item, TAGS[..i + 1]) ==
        if tag in item.attrs && Writes(ty, tag, item.attrs[tag]) then was + [Field(tag, item.attrs[tag])] else was
    ensures TAGS[i] in item.attrs ==> WellTyped(Field(TAGS[i], item.attrs[TAGS[i]]))
  {
    hide Writes, WellTyped;
    var tag := TAGS[i];
    assert TAGS[..i + 1] == TAGS[..i] + [tag];
    TagFieldsAppend(ty, item, TAGS[..i], [tag]);
    assert [tag][1..] == [];
    assert TagFields(ty, item, []) == [];
  }

  method ReadValue(f: Format, stream: PropStream) returns (ok: bool, v: Value)
    requires stream.Valid()
    modifies stream
    ensures stream.Valid()
    ensures match TakeValue(f, old(stream.Rest()))
            case None => !ok
            case Some((w, rest)) => ok && v == w && stream.Rest() == rest
  {
    v := Int(0);
    if f.Text? {
      var s;
      ok, s := stream.ReadString();
      v := Str(s);
    } else {
      var u;
      ok, u := stream.Read(f.n);
      v := Int(if f.Signed? then ToSigned(f.n, u) else u);
    }
  }

  lemma TakeByte(data: seq<byte>)
    ensures data != [] ==> TakeNumber(1, data) == Some((data[0] as nat, data[1..]))
  {
    if data != [] {
      assert data[..1] == [data[0]] && data[..1][1..] == [];
      assert UnLe([]) == 0;
    }
  }

  /** `size` is the container's serialization count where the attributes end in one. */
  method UnserializeAttr(ty: ItemType, created: Item, stream: PropStream)
      returns (ok: bool, item: Item, size: Option<nat>)
    requires stream.Valid()
    modifies stream
    ensures stream.Valid()
    ensures match ReadAttrs(ty, created, old(stream.Rest()))
            case Bad => !ok
            case Ended(i, rest) => ok && item == i && size == None && stream.Rest() == rest
            case Items(i, n, rest) => ok && item == i && size == Some(n) && stream.Rest() == rest
  {
    hide TakeValue, UnLe, Apply;
    item, size := created, None;
    while true
      invariant stream.Valid()
      invariant ReadAttrs(ty, item, stream.Rest()) == ReadAttrs(ty, created, old(stream.Rest()))
      decreases |stream.Rest()|
    {
      TakeByte(stream.Rest());
      ghost var here := stream.Rest();
      var got, attr := stream.Read(1);
      if !got || attr as byte == ATTR_END {
        return true, item, None;
      }
      var tag := attr as byte;
      if tag == ATTR_CONTAINER_ITEMS {
        var n;
        ok, n := stream.Read(4);
        return ok && ty.container, item, Some(n);
      } else if SkipOf(tag).Some? {
        ok := stream.Skip(SkipOf(tag).value);
        if !ok {
          return;
        }
      } else {
        if FormatOf(tag).None? {
          return false, item, None;
        }
        var v;
        ok, v := ReadValue(FormatOf(tag).value, stream);
        if !ok {
          return;
        }
        item := Apply(ty, item, tag, v);
      }
    }
  }
}
