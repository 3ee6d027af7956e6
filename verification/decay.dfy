/**
 The decay wheel (src/game.cpp, `startDecay`, `checkDecay`, `cleanup`): four buckets, one of them looked
 at every 250 milliseconds. An item that starts to decay is in one place until it decays, decays once, never
 later than its duration and less than 875 milliseconds earlier, unless it is queued again or given a new
 duration while it is decaying. Both happen: `Game::internalAddItem` and `Item::clone` queue what has time
 left without asking whether it is queued already, and `Item::setID` takes the mark off an item that stays in
 its bucket. An item queued twice ages twice as fast, and decays on time only if it has less than 1875
 milliseconds to go.
 */
module Decay {

  const EVENT_DECAYINTERVAL := 250
  const EVENT_DECAY_BUCKETS := 4
  const ROUND := EVENT_DECAYINTERVAL * EVENT_DECAY_BUCKETS

  class Item {
    var duration: nat
    var decaying: bool
    /** `Item::canDecay`. */
    var able: bool
  }

  datatype Cell = Cell(duration: nat, decaying: bool, able: bool)

  /** Buckets, the bucket looked at last, items waiting for a bucket, the items themselves, and those decayed. */
  datatype Wheel = Wheel(buckets: seq<seq<Item>>, last: nat, pending: seq<Item>, cells: map<Item, Cell>, decayed: seq<Item>)

  // ---------------------------------------------------------------- one item at a time

  datatype Fate = Drop | Decays | Next | Stay

  /** What looking at an item does with it. */
  function FateOf(c: Cell): Fate {
    var left := LeftAfter(c);
    if !c.able then Drop
    else if left == 0 then Decays
    else if left < ROUND then (if (left + EVENT_DECAYINTERVAL / 2) / 1000 == 0 then Decays else Next)
    else Stay
  }

  function LeftAfter(c: Cell): nat {
    if c.duration < ROUND then 0 else c.duration - ROUND
  }

  function CellAfter(c: Cell): Cell {
    match FateOf(c)
    case Drop => c.(decaying := false)
    case Decays => Cell(LeftAfter(c), false, false)
    case Next => c.(duration := LeftAfter(c))
    case Stay => c.(duration := LeftAfter(c))
  }

  function Without(l: seq<Item>, i: nat): seq<Item>
    requires i < |l|
  {
    l[..i] + l[i + 1..]
  }

  ghost predicate Shaped(w: Wheel) {
    && |w.buckets| == EVENT_DECAY_BUCKETS && w.last < EVENT_DECAY_BUCKETS
    && (forall b, x :: 0 <= b < |w.buckets| && x in w.buckets[b] ==> x in w.cells)
    && (forall x <- w.pending :: x in w.cells)
  }

  function Following(b: nat): nat {
    (b + 1) % EVENT_DECAY_BUCKETS
  }

  /** The wheel once the i-th item of bucket b has been looked at. */
  ghost function Looked(w: Wheel, b: nat, i: nat): Wheel
    requires |w.buckets| == EVENT_DECAY_BUCKETS && b < EVENT_DECAY_BUCKETS && i < |w.buckets[b]| && w.buckets[b][i] in w.cells
  {
    var x := w.buckets[b][i];
    var c := w.cells[x];
    var w1 := w.(cells := w.cells[x := CellAfter(c)]);
    var rest := Without(w.buckets[b], i);
    match FateOf(c)
    case Drop => w1.(buckets := w.buckets[b := rest])
    case Decays => w1.(buckets := w.buckets[b := rest], decayed := w.decayed + [x])
    case Next => w1.(buckets := w.buckets[b := rest][Following(b) := w.buckets[Following(b)] + [x]])
    case Stay => w1
  }

  lemma LookedShaped(w: Wheel, b: nat, i: nat)
    requires Shaped(w) && b < EVENT_DECAY_BUCKETS && i < |w.buckets[b]|
    ensures w.buckets[b][i] in w.cells && Shaped(Looked(w, b, i))
    ensures var stays := FateOf(w.cells[w.buckets[b][i]]) == Stay;
      |Looked(w, b, i).buckets[b]| == (if stays then |w.buckets[b]| else |w.buckets[b]| - 1)
  {
    assert w.buckets[b][i] in w.buckets[b];
  }

  /** Bucket b is looked at from place i on. */
  ghost function LookedFrom(w: Wheel, b: nat, i: nat): Wheel
    requires Shaped(w) && b < EVENT_DECAY_BUCKETS && i <= |w.buckets[b]|
    decreases |w.buckets[b]| - i
  {
    if i == |w.buckets[b]| then w else
      LookedShaped(w, b, i);
      LookedFrom(Looked(w, b, i), b, if FateOf(w.cells[w.buckets[b][i]]) == Stay then i + 1 else i)
  }

  /** Items waiting go into the bucket looked at last if they have a round or more to go, and else into the next one. */
  ghost function Settled(w: Wheel, l: seq<Item>): Wheel
    requires Shaped(w) && forall x <- l :: x in w.cells
    ensures Shaped(Settled(w, l))
    decreases |l|
  {
    if l == [] then w.(pending := []) else
      var b := BucketFor(w.last, w.cells[l[0]].duration);
      Settled(w.(buckets := w.buckets[b := w.buckets[b] + [l[0]]]), l[1..])
  }

  function BucketFor(last: nat, duration: nat): (b: nat)
    requires last < EVENT_DECAY_BUCKETS
    ensures b < EVENT_DECAY_BUCKETS
  {
    if duration >= ROUND then last else (last + 1 + duration / 1000) % EVENT_DECAY_BUCKETS
  }

  ghost function Ticked(w: Wheel): Wheel
    requires Shaped(w)
    ensures Shaped(Ticked(w))
  {
    var b := Following(w.last);
    LookedFromShaped(w, b, 0);
    var w1 := LookedFrom(w, b, 0).(last := b);
    Settled(w1, w1.pending)
  }

  lemma {:induction false} LookedFromShaped(w: Wheel, b: nat, i: nat)
    requires Shaped(w) && b < EVENT_DECAY_BUCKETS && i <= |w.buckets[b]|
    ensures Shaped(LookedFrom(w, b, i)) && LookedFrom(w, b, i).pending == w.pending && LookedFrom(w, b, i).last == w.last
    ensures LookedFrom(w, b, i).cells.Keys == w.cells.Keys
    decreases |w.buckets[b]| - i
  {
    if i < |w.buckets[b]| {
      LookedShaped(w, b, i);
      LookedFromShaped(Looked(w, b, i), b, if FateOf(w.cells[w.buckets[b][i]]) == Stay then i + 1 else i);
    }
  }

  // ---------------------------------------------------------------- where an item is

  function Count(l: seq<Item>, x: Item): nat {
    multiset(l)[x]
  }

  lemma CountWithout(l: seq<Item>, i: nat, x: Item)
    requires i < |l|
    ensures Count(Without(l, i), x) == Count(l, x) - (if l[i] == x then 1 else 0)
    ensures Count(l[i..], x) == Count(l[i + 1..], x) + (if l[i] == x then 1 else 0)
    ensures Without(l, i)[i..] == l[i + 1..] && Without(l, i)[..i] == l[..i]
  {
    assert l == l[..i] + [l[i]] + l[i + 1..];
    assert l[i..] == [l[i]] + l[i + 1..];
  }

  ghost function In(w: Wheel, a: nat, x: Item): nat
    requires a < |w.buckets|
  {
    Count(w.buckets[a], x)
  }

  function OneIf(b: bool): nat {
    if b then 1 else 0
  }

  /** Looking at one item: its fate is its own, and everything else stays. */
  lemma LookedCounts(w: Wheel, b: nat, i: nat, x: Item, a: nat)
    requires Shaped(w) && b < EVENT_DECAY_BUCKETS && i < |w.buckets[b]| && x in w.cells && a < EVENT_DECAY_BUCKETS
    ensures w.buckets[b][i] in w.cells
    ensures var y := w.buckets[b][i]; var fate := FateOf(w.cells[y]);
      var w', j := Looked(w, b, i), if fate == Stay then i + 1 else i;
      && |w'.buckets| == |w.buckets| && j <= |w'.buckets[b]|
      && x in w'.cells && w'.cells[x] == (if x == y then CellAfter(w.cells[y]) else w.cells[x])
      && Count(w'.decayed, x) == Count(w.decayed, x) + OneIf(x == y && fate == Decays)
      && In(w', a, x) == In(w, a, x) - OneIf(x == y && a == b && fate != Stay) + OneIf(x == y && a == Following(b) && fate == Next)
      && Count(w'.buckets[b][j..], x) == Count(w.buckets[b][i..], x) - OneIf(x == y)
  {
    LookedShaped(w, b, i);
    CountWithout(w.buckets[b], i, x);
  }

  lemma {:induction false} NotLooked(w: Wheel, b: nat, i: nat, x: Item, a: nat)
    requires Shaped(w) && b < EVENT_DECAY_BUCKETS && i <= |w.buckets[b]| && x in w.cells && a < EVENT_DECAY_BUCKETS
    requires Count(w.buckets[b][i..], x) == 0
    ensures var w' := LookedFrom(w, b, i);
      && |w'.buckets| == |w.buckets| && x in w'.cells && w'.cells[x] == w.cells[x] && Count(w'.decayed, x) == Count(w.decayed, x)
      && In(w', a, x) == In(w, a, x)
    decreases |w.buckets[b]| - i
  {
    if i < |w.buckets[b]| {
      LookedShaped(w, b, i);
      LookedCounts(w, b, i, x, a);
      hide Count, Looked, FateOf, Shaped, In;
      NotLooked(Looked(w, b, i), b, if FateOf(w.cells[w.buckets[b][i]]) == Stay then i + 1 else i, x, a);
    }
  }

  /** An item in the bucket looked at meets its fate: it is dropped, decays, goes to the next bucket, or stays. */
  lemma {:induction false} IsLooked(w: Wheel, b: nat, i: nat, x: Item, a: nat)
    requires Shaped(w) && b < EVENT_DECAY_BUCKETS && i <= |w.buckets[b]| && x in w.cells && a < EVENT_DECAY_BUCKETS
    requires Count(w.buckets[b][i..], x) == 1
    ensures var w', fate := LookedFrom(w, b, i), FateOf(w.cells[x]);
      && |w'.buckets| == |w.buckets| && x in w'.cells && w'.cells[x] == CellAfter(w.cells[x])
      && Count(w'.decayed, x) == Count(w.decayed, x) + OneIf(fate == Decays)
      && In(w', a, x) == In(w, a, x) - OneIf(a == b && fate != Stay) + OneIf(a == Following(b) && fate == Next)
    decreases |w.buckets[b]| - i
  {
    if i < |w.buckets[b]| {
      LookedShaped(w, b, i);
      LookedCounts(w, b, i, x, a);
      hide Count, Looked, FateOf, CellAfter, Shaped, In;
      var j := if FateOf(w.cells[w.buckets[b][i]]) == Stay then i + 1 else i;
      if w.buckets[b][i] == x {
        NotLooked(Looked(w, b, i), b, j, x, a);
      } else {
        IsLooked(Looked(w, b, i), b, j, x, a);
      }
    }
  }

  lemma {:induction false} SettledCounts(w: Wheel, l: seq<Item>, x: Item, a: nat)
    requires Shaped(w) && (forall y <- l :: y in w.cells) && x in w.cells && a < EVENT_DECAY_BUCKETS
    ensures var w' := Settled(w, l);
      && |w'.buckets| == |w.buckets| && w'.cells == w.cells && w'.decayed == w.decayed && w'.last == w.last && w'.pending == []
      && In(w', a, x) == In(w, a, x) + (if a == BucketFor(w.last, w.cells[x].duration) then Count(l, x) else 0)
    decreases |l|
  {
    if l == [] {
    } else {
      var b := BucketFor(w.last, w.cells[l[0]].duration);
      assert l == [l[0]] + l[1..];
      SettledCounts(w.(buckets := w.buckets[b := w.buckets[b] + [l[0]]]), l[1..], x, a);
    }
  }

  // ---------------------------------------------------------------- every item has its place

  /** In how many places x is. */
  ghost function Places(w: Wheel, x: Item): nat
    requires |w.buckets| == EVENT_DECAY_BUCKETS
  {
    In(w, 0, x) + In(w, 1, x) + In(w, 2, x) + In(w, 3, x) + Count(w.pending, x)
  }

  /** A decaying item is in exactly one place, any other in none. */
  ghost predicate InPlace(w: Wheel, x: Item)
    requires |w.buckets| == EVENT_DECAY_BUCKETS && x in w.cells
  {
    Places(w, x) == OneIf(w.cells[x].decaying)
  }

  ghost predicate Placed(w: Wheel) {
    Shaped(w) && forall x <- w.cells :: InPlace(w, x)
  }

  // What a look at the next bucket does to one item.
  lemma TickedItem(w: Wheel, x: Item)
    requires Shaped(w) && x in w.cells && Places(w, x) <= 1
    ensures var w', b := Ticked(w), Following(w.last);
      var looked := In(w, b, x) == 1;
      var fate := FateOf(w.cells[x]);
      && |w'.buckets| == EVENT_DECAY_BUCKETS && w'.last == b && w'.pending == [] && x in w'.cells && w'.cells[x] == (if looked then CellAfter(w.cells[x]) else w.cells[x])
      && Count(w'.decayed, x) == Count(w.decayed, x) + OneIf(looked && fate == Decays)
      && (forall a :: 0 <= a < EVENT_DECAY_BUCKETS ==> In(w', a, x) == WhereAfter(w, x, a))
  {
    hide Ticked, FateOf, CellAfter, LookedFrom, Settled, Count, BucketFor;
    var b := Following(w.last);
    assert w.buckets[b][0..] == w.buckets[b];
    TickedIs(w);
    if In(w, b, x) == 1 {
      IsLooked(w, b, 0, x, b);
    } else {
      NotLooked(w, b, 0, x, b);
    }
    hide Shaped, Places;
    SettledCounts(LookedFrom(w, b, 0).(last := b), w.pending, x, 0);
    forall a | 0 <= a < EVENT_DECAY_BUCKETS
      ensures In(Ticked(w), a, x) == WhereAfter(w, x, a)
    {
      TickedBucket(w, x, a);
    }
  }

  lemma TickedIs(w: Wheel)
    requires Shaped(w)
    ensures var b := Following(w.last);
      && Shaped(LookedFrom(w, b, 0)) && LookedFrom(w, b, 0).pending == w.pending && LookedFrom(w, b, 0).cells.Keys == w.cells.Keys
      && Ticked(w) == Settled(LookedFrom(w, b, 0).(last := b), w.pending)
  {
    LookedFromShaped(w, Following(w.last), 0);
  }

  /** How often x is in bucket a after the next bucket has been looked at and waiting items have been placed. */
  ghost function WhereAfter(w: Wheel, x: Item, a: nat): int
    requires |w.buckets| == EVENT_DECAY_BUCKETS && w.last < EVENT_DECAY_BUCKETS && a < EVENT_DECAY_BUCKETS && x in w.cells
  {
    var b, fate := Following(w.last), FateOf(w.cells[x]);
    var looked := In(w, b, x) == 1;
    In(w, a, x)
      - OneIf(looked && a == b && fate != Stay) + OneIf(looked && a == Following(b) && fate == Next)
      + (if a == BucketFor(b, (if looked then CellAfter(w.cells[x]) else w.cells[x]).duration) then Count(w.pending, x) else 0)
  }

  lemma TickedBucket(w: Wheel, x: Item, a: nat)
    requires Shaped(w) && x in w.cells && Places(w, x) <= 1 && a < EVENT_DECAY_BUCKETS
    ensures |Ticked(w).buckets| == EVENT_DECAY_BUCKETS && In(Ticked(w), a, x) == WhereAfter(w, x, a)
  {
    hide Ticked, FateOf, CellAfter, LookedFrom, Settled, Count, BucketFor;
    var b := Following(w.last);
    assert w.buckets[b][0..] == w.buckets[b];
    TickedIs(w);
    if In(w, b, x) == 1 {
      IsLooked(w, b, 0, x, a);
    } else {
      NotLooked(w, b, 0, x, a);
    }
    hide Shaped, Places;
    SettledCounts(LookedFrom(w, b, 0).(last := b), w.pending, x, a);
  }

  // Summed over the buckets, a look moves an item or drops it.
  lemma TickedPlaces(w: Wheel, x: Item)
    requires Shaped(w) && x in w.cells && InPlace(w, x)
    ensures x in Ticked(w).cells && |Ticked(w).buckets| == EVENT_DECAY_BUCKETS && InPlace(Ticked(w), x)
  {
    hide Ticked, Count, Shaped;
    ShapedLength(w);
    TickedItem(w, x);
    var w' := Ticked(w);
    assert In(w', 0, x) == WhereAfter(w, x, 0) && In(w', 1, x) == WhereAfter(w, x, 1);
    assert In(w', 2, x) == WhereAfter(w, x, 2) && In(w', 3, x) == WhereAfter(w, x, 3);
    hide In;
    assert Count(w'.pending, x) == 0 by {
      NoneIn(x);
    }
    WhereSum(w, x);
  }

  lemma NoneIn(x: Item)
    ensures Count([], x) == 0
  {
  }

  lemma WhereSum(w: Wheel, x: Item)
    requires |w.buckets| == EVENT_DECAY_BUCKETS && w.last < EVENT_DECAY_BUCKETS && x in w.cells
    requires Places(w, x) == OneIf(w.cells[x].decaying)
    ensures var looked := In(w, Following(w.last), x) == 1;
      WhereAfter(w, x, 0) + WhereAfter(w, x, 1) + WhereAfter(w, x, 2) + WhereAfter(w, x, 3)
        == OneIf((if looked then CellAfter(w.cells[x]) else w.cells[x]).decaying)
  {
    hide In, Count;
    var last := w.last;
    assert last == 0 || last == 1 || last == 2 || last == 3;
  }

  lemma TickedKeys(w: Wheel)
    requires Shaped(w)
    ensures Ticked(w).cells.Keys == w.cells.Keys
  {
    TickedIs(w);
    var w1 := LookedFrom(w, Following(w.last), 0).(last := Following(w.last));
    SettledKeys(w1, w.pending);
  }

  lemma {:induction false} SettledKeys(w: Wheel, l: seq<Item>)
    requires Shaped(w) && forall x <- l :: x in w.cells
    ensures Settled(w, l).cells == w.cells && Settled(w, l).pending == [] && Settled(w, l).last == w.last && Settled(w, l).decayed == w.decayed
    decreases |l|
  {
    if l != [] {
      var b := BucketFor(w.last, w.cells[l[0]].duration);
      SettledKeys(w.(buckets := w.buckets[b := w.buckets[b] + [l[0]]]), l[1..]);
    }
  }

  // ---------------------------------------------------------------- when an item decays

  /** After how many looks at it, counted in ticks from the first one, an item with this duration decays. */
  function Further(duration: nat): nat {
    var left := if duration < ROUND then 0 else duration - ROUND;
    if left == 0 then 0
    else if left < ROUND then (if (left + EVENT_DECAYINTERVAL / 2) / 1000 == 0 then 0 else 1)
    else EVENT_DECAY_BUCKETS + Further(left)
  }

  /** In how many ticks bucket a is looked at. */
  function Wait(last: nat, a: nat): nat {
    (a + 2 * EVENT_DECAY_BUCKETS - 1 - last % EVENT_DECAY_BUCKETS) % EVENT_DECAY_BUCKETS + 1
  }

  function Due(w: Wheel, x: Item, a: nat): nat
    requires x in w.cells
  {
    Wait(w.last, a) + Further(w.cells[x].duration)
  }

  /** x is decaying, in bucket a and nowhere else. */
  ghost predicate Sits(w: Wheel, x: Item, a: nat) {
    && Shaped(w) && x in w.cells && a < EVENT_DECAY_BUCKETS && In(w, a, x) == 1 && Places(w, x) == 1
    && w.cells[x].able && w.cells[x].decaying
  }

  lemma SitsAlone(w: Wheel, x: Item, a: nat)
    requires Sits(w, x, a)
    ensures Count(w.pending, x) == 0 && forall c :: 0 <= c < EVENT_DECAY_BUCKETS && c != a ==> In(w, c, x) == 0
  {
    OnlyIn(w, x, a);
  }

  // What is in no more places than it is in one bucket is nowhere else.
  lemma OnlyIn(w: Wheel, x: Item, a: nat)
    requires |w.buckets| == EVENT_DECAY_BUCKETS && a < EVENT_DECAY_BUCKETS && Places(w, x) == In(w, a, x)
    ensures Count(w.pending, x) == 0 && forall c :: 0 <= c < EVENT_DECAY_BUCKETS && c != a ==> In(w, c, x) == 0
  {
    hide In, Count;
    forall c | 0 <= c < EVENT_DECAY_BUCKETS && c != a
      ensures In(w, c, x) == 0
    {
      assert c == 0 || c == 1 || c == 2 || c == 3;
      assert a == 0 || a == 1 || a == 2 || a == 3;
    }
    assert a == 0 || a == 1 || a == 2 || a == 3;
  }

  /** The last tick before an item is due decays it; any other brings it one tick nearer, still in one bucket. */
  lemma TickedSits(w: Wheel, x: Item, a: nat) returns (a': nat)
    requires Sits(w, x, a)
    ensures Due(w, x, a) >= 1
    ensures Due(w, x, a) == 1 ==>
      x in Ticked(w).cells && !Ticked(w).cells[x].able && !Ticked(w).cells[x].decaying && Count(Ticked(w).decayed, x) == Count(w.decayed, x) + 1
    ensures Due(w, x, a) > 1 ==>
      Sits(Ticked(w), x, a') && Due(Ticked(w), x, a') == Due(w, x, a) - 1 && Count(Ticked(w).decayed, x) == Count(w.decayed, x)
  {
    hide Ticked, Count, Places, FateOf, Shaped, Wait;
    SitsAlone(w, x, a);
    ShapedLength(w);
    TickedItem(w, x);
    TickedPlaces(w, x);
    var b, c := Following(w.last), w.cells[x];
    a' := if a == b && FateOf(c) == Next then Following(b) else a;
    NextTick(w.last, a, c);
    assert In(Ticked(w), a', x) == WhereAfter(w, x, a');
    if a == b {
      hide Following;
      assert In(w, b, x) == 1;
    } else {
      assert In(w, b, x) == 0;
    }
  }

  // One tick of the clock for an item in bucket a.
  lemma NextTick(last: nat, a: nat, c: Cell)
    requires last < EVENT_DECAY_BUCKETS && a < EVENT_DECAY_BUCKETS && c.able
    ensures var b, fate, f := Following(last), FateOf(c), Further(c.duration);
      && Wait(last, a) >= 1 && b < EVENT_DECAY_BUCKETS && Following(b) != b
      && (a == b <==> Wait(last, a) == 1) && (a != b ==> Wait(b, a) == Wait(last, a) - 1)
      && Wait(b, b) == EVENT_DECAY_BUCKETS && Wait(b, Following(b)) == 1
      && fate != Drop && (fate == Decays <==> f == 0)
      && (fate == Next ==> f == 1 && Further(CellAfter(c).duration) == 0)
      && (fate == Stay ==> f == EVENT_DECAY_BUCKETS + Further(CellAfter(c).duration))
      && (fate != Decays ==> CellAfter(c).able == c.able && CellAfter(c).decaying == c.decaying)
      && (fate == Decays ==> !CellAfter(c).able && !CellAfter(c).decaying)
  {
    hide Wait, Following;
    NextWait(last, a);
  }

  /** An item placed by a cleanup: in the next tick if it has less than a second, and else in four. */
  lemma SettledSits(w: Wheel, x: Item) returns (a: nat)
    requires Shaped(w) && x in w.cells && InPlace(w, x) && Count(w.pending, x) == 1 && w.cells[x].able
    ensures Sits(Settled(w, w.pending), x, a)
    ensures Due(Settled(w, w.pending), x, a) ==
      (if w.cells[x].duration < 1000 then 1 else EVENT_DECAY_BUCKETS + Further(w.cells[x].duration))
  {
    hide Count, Settled, BucketFor, Shaped;
    LastInRange(w);
    a := BucketFor(w.last, w.cells[x].duration);
    PendingOnly(w, x, a);
    SettledPlaces(w, x);
    SettledCounts(w, w.pending, x, a);
    FirstLook(w.last, w.cells[x].duration);
    assert |Settled(w, w.pending).buckets| == EVENT_DECAY_BUCKETS;
    assert In(Settled(w, w.pending), a, x) == 1;
  }

  lemma LastInRange(w: Wheel)
    requires Shaped(w)
    ensures w.last < EVENT_DECAY_BUCKETS && |w.buckets| == EVENT_DECAY_BUCKETS && forall y <- w.pending :: y in w.cells
  {
  }

  lemma PendingOnly(w: Wheel, x: Item, a: nat)
    requires |w.buckets| == EVENT_DECAY_BUCKETS && x in w.cells && Places(w, x) == Count(w.pending, x) && a < EVENT_DECAY_BUCKETS
    ensures In(w, a, x) == 0
  {
    hide Count;
    assert a == 0 || a == 1 || a == 2 || a == 3;
  }

  lemma FirstLook(last: nat, d: nat)
    requires last < EVENT_DECAY_BUCKETS
    ensures Wait(last, BucketFor(last, d)) == if d < 1000 then 1 else EVENT_DECAY_BUCKETS
    ensures d < 1000 ==> Further(d) == TwiceFurther(d) == 0
  {
    assert d < 1000 ==> d / 1000 == 0;
  }

  // A cleanup changes where an item is, not in how many places.
  lemma SettledPlaces(w: Wheel, x: Item)
    requires Shaped(w) && x in w.cells
    ensures var w' := Settled(w, w.pending);
      && |w'.buckets| == EVENT_DECAY_BUCKETS && w'.cells == w.cells && Places(w', x) == Places(w, x)
      && w'.decayed == w.decayed && w'.last == w.last && w'.pending == []
  {
    LastInRange(w);
    SettledKeys(w, w.pending);
    hide Settled, Count, Shaped;
    SettledCounts(w, w.pending, x, 0);
    SettledCounts(w, w.pending, x, 1);
    SettledCounts(w, w.pending, x, 2);
    SettledCounts(w, w.pending, x, 3);
    NoneIn(x);
  }

  /** A full round for every whole second, and one tick more when what remains rounds up to a second. */
  lemma {:induction false} FurtherIs(d: nat)
    requires d >= 1000
    ensures EVENT_DECAY_BUCKETS + Further(d) == 4 * (d / 1000) + (if d % 1000 >= 875 then 1 else 0)
  {
    if d >= 2 * ROUND {
      FurtherIs(d - ROUND);
      assert (d - ROUND) / 1000 == d / 1000 - 1 && (d - ROUND) % 1000 == d % 1000;
    }
  }

  /** Never late, and less than a second early. */
  lemma Punctual(d: nat)
    requires d >= 1000
    ensures var elapsed := EVENT_DECAYINTERVAL * (EVENT_DECAY_BUCKETS + Further(d));
      d - 875 < elapsed <= d
  {
    FurtherIs(d);
  }

  // ---------------------------------------------------------------- steps

  /**
   What happens: `Game::startDecay`; a tick; a cleanup; an item is no longer able to decay; an item is queued
   without being asked whether it is already, as at the end of `Game::internalAddItem` and in `Item::clone`;
   `Item::setID` takes the duration away or gives a new one.
   */
  datatype Step =
    | Start(x: Item)
    | Tick
    | Cleanup
    | Forbid(x: Item)
    | Queue(x: Item)
    | Reset(x: Item, duration: nat, able: bool)

  ghost function Begun(w: Wheel, x: Item): Wheel
    requires x in w.cells
  {
    var c := w.cells[x];
    if !c.able || c.decaying then w
    else if c.duration > 0 then Queued(w, x)
    else w.(cells := w.cells[x := c.(able := false)], decayed := w.decayed + [x])
  }

  ghost function Queued(w: Wheel, x: Item): Wheel
    requires x in w.cells
  {
    if w.cells[x].duration == 0 then w
    else w.(cells := w.cells[x := w.cells[x].(decaying := true)], pending := [x] + w.pending)
  }

  ghost function Renewed(w: Wheel, x: Item, duration: nat, able: bool): Wheel
    requires x in w.cells
  {
    w.(cells := w.cells[x := Cell(duration, false, able)])
  }

  ghost function Forbidden(w: Wheel, x: Item): Wheel
    requires x in w.cells
  {
    w.(cells := w.cells[x := w.cells[x].(able := false)])
  }

  ghost function After(w: Wheel, step: Step): Wheel
    requires Shaped(w)
  {
    match step
    case Start(x) => if x in w.cells then Begun(w, x) else w
    case Tick => Ticked(w)
    case Cleanup => Settled(w, w.pending)
    case Forbid(x) => if x in w.cells then Forbidden(w, x) else w
    case Queue(x) => if x in w.cells then Queued(w, x) else w
    case Reset(x, duration, able) => if x in w.cells then Renewed(w, x, duration, able) else w
  }

  lemma StepShaped(w: Wheel, step: Step)
    requires Shaped(w)
    ensures Shaped(After(w, step)) && After(w, step).cells.Keys == w.cells.Keys
  {
    hide Settled, Ticked;
    if step.Tick? {
      TickedKeys(w);
    } else if step.Cleanup? {
      SettledKeys(w, w.pending);
    }
  }

  /** An item that is decaying is queued again, or given a new duration. */
  predicate Disturbs(w: Wheel, x: Item, step: Step) {
    x in w.cells && w.cells[x].decaying && ((step == Queue(x) && w.cells[x].duration > 0) || (step.Reset? && step.x == x))
  }

  // Steps that touch single items, not the buckets.
  lemma TouchPlaces(w: Wheel, x: Item, step: Step)
    requires Shaped(w) && x in w.cells && InPlace(w, x) && !step.Tick? && !step.Cleanup?
    ensures var w' := After(w, step);
      x in w'.cells && |w'.buckets| == EVENT_DECAY_BUCKETS && (InPlace(w', x) <==> !Disturbs(w, x, step))
  {
    var w' := After(w, step);
    assert w'.buckets == w.buckets;
    hide In;
    assert forall a :: 0 <= a < EVENT_DECAY_BUCKETS ==> In(w', a, x) == In(w, a, x) by {
      SameBuckets(w, w', x);
    }
  }

  lemma SameBuckets(w: Wheel, w': Wheel, x: Item)
    requires w'.buckets == w.buckets && |w.buckets| == EVENT_DECAY_BUCKETS
    ensures forall a :: 0 <= a < EVENT_DECAY_BUCKETS ==> In(w', a, x) == In(w, a, x)
  {
  }

  /** A step leaves an item in its one place, or in none, if and only if it does not disturb it. */
  lemma StepInPlaceIff(w: Wheel, x: Item, step: Step)
    requires Shaped(w) && x in w.cells && InPlace(w, x)
    ensures var w' := After(w, step);
      x in w'.cells && |w'.buckets| == EVENT_DECAY_BUCKETS && (InPlace(w', x) <==> !Disturbs(w, x, step))
  {
    hide Settled, Ticked, Places, Shaped;
    if step.Tick? {
      TickedPlaces(w, x);
    } else if step.Cleanup? {
      SettledPlaces(w, x);
    } else {
      TouchPlaces(w, x, step);
    }
  }

  /** A step keeps every decaying item in one place and all others in none if and only if it disturbs no item. */
  lemma StepPlaced(w: Wheel, step: Step)
    requires Placed(w)
    ensures Placed(After(w, step)) <==> forall x <- w.cells :: !Disturbs(w, x, step)
  {
    hide After, InPlace, Disturbs;
    StepShaped(w, step);
    var w' := After(w, step);
    ShapedLength(w');
    hide Shaped;
    forall x <- w.cells
      ensures x in w'.cells && (InPlace(w', x) <==> !Disturbs(w, x, step))
    {
      StepInPlaceIff(w, x, step);
    }
  }

  // ---------------------------------------------------------------- whole runs

  ghost function Run(w: Wheel, steps: seq<Step>): (w': Wheel)
    requires Shaped(w)
    ensures Shaped(w')
    decreases |steps|
  {
    if steps == [] then w else
      StepShaped(w, steps[0]);
      Run(After(w, steps[0]), steps[1..])
  }

  function Ticks(steps: seq<Step>): nat {
    if steps == [] then 0 else (if steps[0].Tick? then 1 else 0) + Ticks(steps[1..])
  }

  /** At no point of the run is x, while it is decaying, queued again or given a new duration. */
  ghost predicate Undisturbed(w: Wheel, x: Item, steps: seq<Step>)
    requires Shaped(w)
    decreases |steps|
  {
    steps == [] || (!Disturbs(w, x, steps[0]) && (StepShaped(w, steps[0]); Undisturbed(After(w, steps[0]), x, steps[1..])))
  }

  /** A step that neither forbids x to decay nor makes another item of it. */
  predicate Spares(step: Step, x: Item) {
    step != Forbid(x) && !(step.Reset? && step.x == x)
  }

  // A step between ticks that spares x and does not queue it again leaves its state and its buckets as they are.
  lemma StepAside(w: Wheel, x: Item, step: Step)
    requires Shaped(w) && x in w.cells && w.cells[x].able && w.cells[x].decaying && Count(w.pending, x) == 0
    requires !step.Tick? && Spares(step, x) && !Disturbs(w, x, step)
    ensures var w' := After(w, step);
      && |w'.buckets| == EVENT_DECAY_BUCKETS && x in w'.cells && w'.cells[x].duration == w.cells[x].duration
      && w'.cells[x].able && w'.cells[x].decaying && w'.last == w.last
      && Count(w'.decayed, x) == Count(w.decayed, x) && Count(w'.pending, x) == 0
      && forall a :: 0 <= a < EVENT_DECAY_BUCKETS ==> In(w', a, x) == In(w, a, x)
  {
    var w' := After(w, step);
    LastInRange(w);
    if step.Cleanup? {
      hide Settled, Count, Shaped;
      SettledKeys(w, w.pending);
      NoneIn(x);
      forall a | 0 <= a < EVENT_DECAY_BUCKETS
        ensures In(w', a, x) == In(w, a, x)
      {
        SettledCounts(w, w.pending, x, a);
      }
      SettledCounts(w, w.pending, x, 0);
    } else {
      assert w'.buckets == w.buckets;
      SameBuckets(w, w', x);
    }
  }

  /** Steps that concern others, or the wheel, leave a sitting item where it is. */
  lemma OtherStepSits(w: Wheel, x: Item, a: nat, step: Step)
    requires Sits(w, x, a) && !step.Tick? && Spares(step, x) && !Disturbs(w, x, step)
    ensures Sits(After(w, step), x, a) && Due(After(w, step), x, a) == Due(w, x, a)
    ensures Count(After(w, step).decayed, x) == Count(w.decayed, x)
  {
    hide After, In, Count, Shaped, Disturbs, Spares;
    StepShaped(w, step);
    ShapedLength(w);
    SitsAlone(w, x, a);
    StepAside(w, x, step);
  }

  // An item that cannot decay does not, wherever and however often it is queued.
  lemma {:induction false} GoneLooked(w: Wheel, b: nat, i: nat, x: Item)
    requires Shaped(w) && b < EVENT_DECAY_BUCKETS && i <= |w.buckets[b]| && x in w.cells && !w.cells[x].able
    ensures var w' := LookedFrom(w, b, i);
      x in w'.cells && !w'.cells[x].able && Count(w'.decayed, x) == Count(w.decayed, x)
    decreases |w.buckets[b]| - i
  {
    if i < |w.buckets[b]| {
      LookedShaped(w, b, i);
      LookedCounts(w, b, i, x, 0);
      hide Count, Looked, Shaped, In;
      GoneLooked(Looked(w, b, i), b, if FateOf(w.cells[w.buckets[b][i]]) == Stay then i + 1 else i, x);
    }
  }

  lemma GoneTicked(w: Wheel, x: Item)
    requires Shaped(w) && x in w.cells && !w.cells[x].able
    ensures var w' := Ticked(w);
      x in w'.cells && !w'.cells[x].able && Count(w'.decayed, x) == Count(w.decayed, x)
  {
    hide Ticked, Settled, LookedFrom, Count, Shaped;
    ShapedLength(w);
    var b := Following(w.last);
    TickedIs(w);
    GoneLooked(w, b, 0, x);
    LastAside(LookedFrom(w, b, 0), b);
    LastInRange(w);
    SettledKeys(LookedFrom(w, b, 0).(last := b), w.pending);
  }

  lemma GoneStays(w: Wheel, x: Item, step: Step)
    requires Shaped(w) && x in w.cells && !w.cells[x].able && Spares(step, x)
    ensures var w' := After(w, step);
      x in w'.cells && !w'.cells[x].able && Count(w'.decayed, x) == Count(w.decayed, x)
  {
    hide Ticked, Settled;
    if step.Tick? {
      GoneTicked(w, x);
    } else if step.Cleanup? {
      SettledKeys(w, w.pending);
    }
  }

  /** Once decayed, an item does not decay again unless something else is made of it. */
  lemma {:induction false} DecayedOnce(w: Wheel, x: Item, steps: seq<Step>)
    requires Shaped(w) && x in w.cells && !w.cells[x].able && forall step <- steps :: Spares(step, x)
    ensures x in Run(w, steps).cells && Count(Run(w, steps).decayed, x) == Count(w.decayed, x)
    decreases |steps|
  {
    hide After, Count, Shaped, Spares;
    if steps != [] {
      assert steps[0] in steps && forall step <- steps[1..] :: step in steps;
      StepShaped(w, steps[0]);
      GoneStays(w, x, steps[0]);
      DecayedOnce(After(w, steps[0]), x, steps[1..]);
    }
  }

  /**
   Whatever else happens meanwhile, to this item or to others: as long as it is spared and not disturbed while
   it decays, a sitting item has not decayed before its tick, and from then on it has decayed exactly once.
   */
  lemma {:induction false} DecaysOnTime(w: Wheel, x: Item, a: nat, steps: seq<Step>)
    requires Sits(w, x, a) && Undisturbed(w, x, steps) && forall step <- steps :: Spares(step, x)
    ensures Count(Run(w, steps).decayed, x) == Count(w.decayed, x) + (if Ticks(steps) >= Due(w, x, a) then 1 else 0)
    decreases |steps|
  {
    hide Due, After, In, Places, Count, Shaped, Spares, Disturbs;
    if steps == [] {
      var _ := TickedSits(w, x, a);
    } else {
      StepShaped(w, steps[0]);
      var w' := After(w, steps[0]);
      assert steps[0] in steps && forall step <- steps[1..] :: step in steps;
      if steps[0].Tick? {
        TickIs(w);
        var a' := TickedSits(w, x, a);
        if Due(w, x, a) == 1 {
          DecayedOnce(w', x, steps[1..]);
        } else {
          DecaysOnTime(w', x, a', steps[1..]);
        }
      } else {
        OtherStepSits(w, x, a, steps[0]);
        DecaysOnTime(w', x, a, steps[1..]);
      }
    }
  }

  lemma TickIs(w: Wheel)
    requires Shaped(w)
    ensures After(w, Tick) == Ticked(w)
  {
  }

  // ---------------------------------------------------------------- an item queued twice

  /** After how many ticks an item decays that is twice in the bucket that is looked at. */
  function TwiceFurther(duration: nat): nat {
    if duration < 2875 then 0 else if duration < 3000 then 1 else EVENT_DECAY_BUCKETS + TwiceFurther(duration - 2 * ROUND)
  }

  /** x is decaying, twice in bucket a and nowhere else. */
  ghost predicate SitsTwice(w: Wheel, x: Item, a: nat) {
    && Shaped(w) && x in w.cells && a < EVENT_DECAY_BUCKETS && In(w, a, x) == 2 && Places(w, x) == 2
    && w.cells[x].able && w.cells[x].decaying
  }

  ghost function DueTwice(w: Wheel, x: Item, a: nat): nat
    requires x in w.cells
  {
    Wait(w.last, a) + TwiceFurther(w.cells[x].duration)
  }

  /** x decays in the next tick, however often it is queued. */
  ghost predicate Ripe(w: Wheel, x: Item) {
    && Shaped(w) && x in w.cells && w.cells[x].able && w.cells[x].decaying && w.cells[x].duration < ROUND
    && In(w, Following(w.last), x) >= 1 && Count(w.pending, x) == 0
  }

  /** Looked at twice, an item meets two fates, the second with what the first has left it. */
  lemma {:induction false} IsLookedTwice(w: Wheel, b: nat, i: nat, x: Item, a: nat)
    requires Shaped(w) && b < EVENT_DECAY_BUCKETS && i <= |w.buckets[b]| && x in w.cells && a < EVENT_DECAY_BUCKETS
    requires Count(w.buckets[b][i..], x) == 2
    ensures var w', c := LookedFrom(w, b, i), w.cells[x];
      var first, second := FateOf(c), FateOf(CellAfter(c));
      && |w'.buckets| == |w.buckets| && x in w'.cells && w'.cells[x] == CellAfter(CellAfter(c))
      && Count(w'.decayed, x) == Count(w.decayed, x) + OneIf(first == Decays) + OneIf(second == Decays)
      && In(w', a, x) == In(w, a, x)
           - OneIf(a == b && first != Stay) + OneIf(a == Following(b) && first == Next)
           - OneIf(a == b && second != Stay) + OneIf(a == Following(b) && second == Next)
    decreases |w.buckets[b]| - i
  {
    if i < |w.buckets[b]| {
      LookedShaped(w, b, i);
      LookedCounts(w, b, i, x, a);
      hide Count, Looked, FateOf, CellAfter, Shaped, In;
      var j := if FateOf(w.cells[w.buckets[b][i]]) == Stay then i + 1 else i;
      if w.buckets[b][i] == x {
        IsLooked(Looked(w, b, i), b, j, x, a);
      } else {
        IsLookedTwice(Looked(w, b, i), b, j, x, a);
      }
    }
  }

  /** How often x, twice in the bucket looked at and not waiting, is in bucket a afterwards. */
  ghost function WhereTwice(w: Wheel, x: Item, a: nat): int
    requires |w.buckets| == EVENT_DECAY_BUCKETS && a < EVENT_DECAY_BUCKETS && x in w.cells
  {
    var b, first, second := Following(w.last), FateOf(w.cells[x]), FateOf(CellAfter(w.cells[x]));
    In(w, a, x)
      - OneIf(a == b && first != Stay) + OneIf(a == Following(b) && first == Next)
      - OneIf(a == b && second != Stay) + OneIf(a == Following(b) && second == Next)
  }

  lemma TickedTwice(w: Wheel, x: Item, a: nat)
    requires Shaped(w) && x in w.cells && In(w, Following(w.last), x) == 2 && Count(w.pending, x) == 0 && a < EVENT_DECAY_BUCKETS
    ensures var w', c := Ticked(w), w.cells[x];
      && |w'.buckets| == EVENT_DECAY_BUCKETS && w'.last == Following(w.last) && w'.pending == [] && x in w'.cells
      && w'.cells[x] == CellAfter(CellAfter(c))
      && Count(w'.decayed, x) == Count(w.decayed, x) + OneIf(FateOf(c) == Decays) + OneIf(FateOf(CellAfter(c)) == Decays)
      && In(w', a, x) == WhereTwice(w, x, a)
  {
    hide Ticked, FateOf, CellAfter, LookedFrom, Settled, Count, BucketFor;
    var b := Following(w.last);
    assert w.buckets[b][0..] == w.buckets[b];
    TickedIs(w);
    IsLookedTwice(w, b, 0, x, a);
    hide Shaped;
    SettledCounts(LookedFrom(w, b, 0).(last := b), w.pending, x, a);
  }

  // A tick in which another bucket is looked at.
  lemma TickedAside(w: Wheel, x: Item, a: nat)
    requires Shaped(w) && x in w.cells && In(w, Following(w.last), x) == 0 && Count(w.pending, x) == 0 && a < EVENT_DECAY_BUCKETS
    ensures var w' := Ticked(w);
      && |w'.buckets| == EVENT_DECAY_BUCKETS && w'.last == Following(w.last) && w'.pending == [] && x in w'.cells
      && w'.cells[x] == w.cells[x] && Count(w'.decayed, x) == Count(w.decayed, x) && In(w', a, x) == In(w, a, x)
  {
    hide Ticked, FateOf, CellAfter, LookedFrom, Settled, Count, BucketFor;
    var b := Following(w.last);
    assert w.buckets[b][0..] == w.buckets[b];
    TickedIs(w);
    NotLooked(w, b, 0, x, a);
    hide Shaped;
    SettledCounts(LookedFrom(w, b, 0).(last := b), w.pending, x, a);
  }

  // What two looks in one tick do, by the duration.
  lemma TwoFates(c: Cell)
    requires c.able && c.decaying
    ensures var d, e := FateOf(c), FateOf(CellAfter(c));
      var f := TwiceFurther(c.duration);
      && (f == 0 ==> OneIf(d == Decays) + OneIf(e == Decays) == 1 && !CellAfter(CellAfter(c)).able)
      && (0 < f < EVENT_DECAY_BUCKETS ==> f == 1 && d == Stay && e == Next && c.duration < 3 * ROUND)
      && (f >= EVENT_DECAY_BUCKETS ==> d == e == Stay && f == EVENT_DECAY_BUCKETS + TwiceFurther(CellAfter(CellAfter(c)).duration))
      && (f > 0 ==> CellAfter(CellAfter(c)) == c.(duration := c.duration - 2 * ROUND))
  {
  }

  /** A tick on an item that sits twice: it decays, or becomes ripe, or is a tick nearer and still sits twice. */
  lemma TickedSitsTwice(w: Wheel, x: Item, a: nat)
    requires SitsTwice(w, x, a)
    ensures var w' := Ticked(w); var due := DueTwice(w, x, a);
      && Shaped(w') && x in w'.cells && due >= 1
      && Count(w'.decayed, x) == Count(w.decayed, x) + (if due == 1 then 1 else 0)
      && (due == 1 ==> !w'.cells[x].able)
      && (due > 1 ==> (due == 2 && Ripe(w', x)) || (SitsTwice(w', x, a) && DueTwice(w', x, a) == due - 1))
  {
    hide Ticked, Count, FateOf, CellAfter, Wait, TwiceFurther, In, Shaped;
    ShapedLength(w);
    OnlyIn(w, x, a);
    NextWait(w.last, a);
    var b, c := Following(w.last), w.cells[x];
    ShapedLength(Ticked(w));
    if a == b {
      forall e | 0 <= e < EVENT_DECAY_BUCKETS
        ensures In(Ticked(w), e, x) == WhereTwice(w, x, e)
      {
        TickedTwice(w, x, e);
      }
      TickedTwice(w, x, b);
      TwoFates(c);
      hide Following;
      NoneIn(x);
      if TwiceFurther(c.duration) >= EVENT_DECAY_BUCKETS {
        TwicePlaces(w, x);
      }
    } else {
      forall e | 0 <= e < EVENT_DECAY_BUCKETS
        ensures In(Ticked(w), e, x) == In(w, e, x)
      {
        TickedAside(w, x, e);
      }
      TickedAside(w, x, b);
      NoneIn(x);
    }
  }

  lemma TwicePlaces(w: Wheel, x: Item)
    requires |w.buckets| == EVENT_DECAY_BUCKETS && w.last < EVENT_DECAY_BUCKETS && x in w.cells
    requires In(w, Following(w.last), x) == 2 && Places(w, x) == 2
    requires FateOf(w.cells[x]) == FateOf(CellAfter(w.cells[x])) == Stay
    ensures WhereTwice(w, x, 0) + WhereTwice(w, x, 1) + WhereTwice(w, x, 2) + WhereTwice(w, x, 3) == 2
  {
    hide In, Count, FateOf, CellAfter;
  }

  lemma NextWait(last: nat, a: nat)
    requires last < EVENT_DECAY_BUCKETS && a < EVENT_DECAY_BUCKETS
    ensures var b := Following(last);
      && Wait(last, a) >= 1 && b < EVENT_DECAY_BUCKETS && Following(b) < EVENT_DECAY_BUCKETS && Following(b) != b
      && (a == b <==> Wait(last, a) == 1) && (a != b ==> Wait(b, a) == Wait(last, a) - 1)
      && Wait(b, b) == EVENT_DECAY_BUCKETS && Wait(b, Following(b)) == 1
  {
    WaitIs(last, a);
    WaitIs(Following(last), a);
    hide Wait;
    WaitIs(Following(last), Following(last));
    WaitIs(Following(last), Following(Following(last)));
  }

  lemma WaitIs(last: nat, a: nat)
    requires last < EVENT_DECAY_BUCKETS && a < EVENT_DECAY_BUCKETS
    ensures Wait(last, a) == if a > last then a - last else a + EVENT_DECAY_BUCKETS - last
  {
  }

  lemma {:induction false} RipeLooked(w: Wheel, b: nat, i: nat, x: Item)
    requires Shaped(w) && b < EVENT_DECAY_BUCKETS && i <= |w.buckets[b]| && x in w.cells && w.cells[x].able
    requires w.cells[x].duration < ROUND && Count(w.buckets[b][i..], x) >= 1
    ensures var w' := LookedFrom(w, b, i);
      x in w'.cells && !w'.cells[x].able && Count(w'.decayed, x) == Count(w.decayed, x) + 1
    decreases |w.buckets[b]| - i
  {
    if i < |w.buckets[b]| {
      LookedShaped(w, b, i);
      LookedCounts(w, b, i, x, 0);
      hide Count, Looked, Shaped, In;
      var j := if FateOf(w.cells[w.buckets[b][i]]) == Stay then i + 1 else i;
      if w.buckets[b][i] == x {
        GoneLooked(Looked(w, b, i), b, j, x);
      } else {
        RipeLooked(Looked(w, b, i), b, j, x);
      }
    }
  }

  lemma RipeTicked(w: Wheel, x: Item)
    requires Ripe(w, x)
    ensures var w' := Ticked(w);
      Shaped(w') && x in w'.cells && !w'.cells[x].able && Count(w'.decayed, x) == Count(w.decayed, x) + 1
  {
    hide Ticked, Settled, LookedFrom, Count, Shaped;
    ShapedLength(w);
    var b := Following(w.last);
    assert w.buckets[b][0..] == w.buckets[b];
    TickedIs(w);
    RipeLooked(w, b, 0, x);
    LastAside(LookedFrom(w, b, 0), b);
    LastInRange(w);
    SettledKeys(LookedFrom(w, b, 0).(last := b), w.pending);
  }

  lemma {:induction false} RipeDecays(w: Wheel, x: Item, steps: seq<Step>)
    requires Ripe(w, x) && Undisturbed(w, x, steps) && forall step <- steps :: Spares(step, x)
    ensures Count(Run(w, steps).decayed, x) == Count(w.decayed, x) + (if Ticks(steps) >= 1 then 1 else 0)
    decreases |steps|
  {
    hide After, Count, Shaped, Spares, Disturbs;
    if steps != [] {
      StepShaped(w, steps[0]);
      assert steps[0] in steps && forall step <- steps[1..] :: step in steps;
      if steps[0].Tick? {
        TickIs(w);
        RipeTicked(w, x);
        DecayedOnce(After(w, steps[0]), x, steps[1..]);
      } else {
        ShapedLength(w);
        StepAside(w, x, steps[0]);
        RipeDecays(After(w, steps[0]), x, steps[1..]);
      }
    }
  }

  /** An item that sits twice, spared and not disturbed further, decays once, at the tick given by `DueTwice`. */
  lemma {:induction false} DecaysTwiceAsFast(w: Wheel, x: Item, a: nat, steps: seq<Step>)
    requires SitsTwice(w, x, a) && Undisturbed(w, x, steps) && forall step <- steps :: Spares(step, x)
    ensures Count(Run(w, steps).decayed, x) == Count(w.decayed, x) + (if Ticks(steps) >= DueTwice(w, x, a) then 1 else 0)
    decreases |steps|
  {
    hide DueTwice, After, In, Places, Count, Shaped, Spares, Disturbs, Ripe;
    TickedSitsTwice(w, x, a);
    if steps != [] {
      StepShaped(w, steps[0]);
      var w' := After(w, steps[0]);
      assert steps[0] in steps && forall step <- steps[1..] :: step in steps;
      if steps[0].Tick? {
        TickIs(w);
        if DueTwice(w, x, a) == 1 {
          DecayedOnce(w', x, steps[1..]);
        } else if SitsTwice(w', x, a) && DueTwice(w', x, a) == DueTwice(w, x, a) - 1 {
          DecaysTwiceAsFast(w', x, a, steps[1..]);
        } else {
          RipeDecays(w', x, steps[1..]);
        }
      } else {
        OtherStepSitsTwice(w, x, a, steps[0]);
        DecaysTwiceAsFast(w', x, a, steps[1..]);
      }
    }
  }

  lemma OtherStepSitsTwice(w: Wheel, x: Item, a: nat, step: Step)
    requires SitsTwice(w, x, a) && !step.Tick? && Spares(step, x) && !Disturbs(w, x, step)
    ensures SitsTwice(After(w, step), x, a) && DueTwice(After(w, step), x, a) == DueTwice(w, x, a)
    ensures Count(After(w, step).decayed, x) == Count(w.decayed, x)
  {
    hide After, In, Count, Shaped, Disturbs, Spares;
    StepShaped(w, step);
    ShapedLength(w);
    OnlyIn(w, x, a);
    StepAside(w, x, step);
  }

  lemma SettledSitsTwice(w: Wheel, x: Item) returns (a: nat)
    requires Shaped(w) && x in w.cells && Places(w, x) == Count(w.pending, x) == 2 && w.cells[x].able && w.cells[x].decaying
    ensures SitsTwice(Settled(w, w.pending), x, a)
    ensures DueTwice(Settled(w, w.pending), x, a) == TicksTwice(w.cells[x].duration)
  {
    hide Count, Settled, BucketFor, Shaped;
    LastInRange(w);
    a := BucketFor(w.last, w.cells[x].duration);
    PendingOnly(w, x, a);
    SettledPlaces(w, x);
    SettledCounts(w, w.pending, x, a);
    FirstLook(w.last, w.cells[x].duration);
  }

  /** In how many ticks an item decays that is queued once, and that is queued twice, before it is placed. */
  function TicksOnce(duration: nat): nat {
    if duration < 1000 then 1 else EVENT_DECAY_BUCKETS + Further(duration)
  }

  function TicksTwice(duration: nat): nat {
    if duration < 1000 then 1 else EVENT_DECAY_BUCKETS + TwiceFurther(duration)
  }

  /** x can decay, has time left, and is nowhere. */
  ghost predicate Fresh(w: Wheel, x: Item) {
    Shaped(w) && x in w.cells && w.cells[x].able && !w.cells[x].decaying && w.cells[x].duration > 0 && Places(w, x) == 0
  }

  /** Queued, as by `Game::internalAddItem`, and placed by the next cleanup. */
  ghost function QueuedOnce(w: Wheel, x: Item): (w': Wheel)
    requires Fresh(w, x)
    ensures Shaped(w')
  {
    Settled(Queued(w, x), Queued(w, x).pending)
  }

  /** Queued twice, as by `Item::clone` and then `Game::internalAddItem`, and placed by the next cleanup. */
  ghost function QueuedTwice(w: Wheel, x: Item): (w': Wheel)
    requires Fresh(w, x)
    ensures Shaped(w')
  {
    var w1 := Queued(Queued(w, x), x);
    Settled(w1, w1.pending)
  }

  /** These are runs. */
  lemma QueuedRuns(w: Wheel, x: Item)
    requires Fresh(w, x)
    ensures Run(w, [Queue(x), Cleanup]) == QueuedOnce(w, x)
    ensures Run(w, [Queue(x), Queue(x), Cleanup]) == QueuedTwice(w, x)
  {
    hide Settled, Places;
    var w1 := Queued(w, x);
    StepShaped(w, Queue(x));
    StepShaped(w1, Queue(x));
    RunLast(w1, Cleanup);
    RunLast(After(w1, Queue(x)), Cleanup);
    assert [Queue(x), Cleanup][1..] == [Cleanup];
    assert [Queue(x), Queue(x), Cleanup][1..] == [Queue(x), Cleanup];
  }

  lemma RunLast(w: Wheel, step: Step)
    requires Shaped(w)
    ensures Run(w, [step]) == After(w, step)
  {
    hide After;
    StepShaped(w, step);
    assert [step][1..] == [];
  }

  /**
   Starting an item twice is starting it once. One that can decay and is nowhere is queued if it has time left, as
   above, and decays at once if it has none; any other is left alone.
   */
  lemma StartedOnce(w: Wheel, x: Item)
    requires Shaped(w) && x in w.cells
    ensures var w' := After(w, Start(x));
      && Shaped(w') && After(w', Start(x)) == w'
      && (!w.cells[x].able || w.cells[x].decaying ==> w' == w)
      && (w.cells[x].able && !w.cells[x].decaying && w.cells[x].duration == 0 ==>
            && Count(w'.decayed, x) == Count(w.decayed, x) + 1 && x in w'.cells && !w'.cells[x].able
            && w'.buckets == w.buckets && w'.pending == w.pending
            && forall y <- w.cells :: y != x ==> y in w'.cells && w'.cells[y] == w.cells[y] && Count(w'.decayed, y) == Count(w.decayed, y))
    ensures Fresh(w, x) ==> Run(w, [Start(x), Cleanup]) == QueuedOnce(w, x)
  {
    StepShaped(w, Start(x));
    if Fresh(w, x) {
      RunLast(After(w, Start(x)), Cleanup);
      assert [Start(x), Cleanup][1..] == [Cleanup];
    }
  }

  /** An item that can no longer decay leaves the wheel the next time its bucket is looked at, and has not decayed. */
  lemma ForbiddenLeaves(w: Wheel, x: Item)
    requires Shaped(w) && x in w.cells && InPlace(w, x) && w.cells[x].decaying && !w.cells[x].able
    requires In(w, Following(w.last), x) == 1
    ensures var w' := After(w, Tick);
      && x in w'.cells && !w'.cells[x].decaying && |w'.buckets| == EVENT_DECAY_BUCKETS && Places(w', x) == 0
      && Count(w'.decayed, x) == Count(w.decayed, x)
  {
    hide Ticked, Count, In, Places;
    TickedItem(w, x);
    TickedPlaces(w, x);
  }

  lemma QueuedPlaces(w: Wheel, x: Item)
    requires Shaped(w) && x in w.cells && w.cells[x].duration > 0
    ensures var w' := Queued(w, x);
      && Shaped(w') && x in w'.cells && w'.cells[x] == w.cells[x].(decaying := true) && Places(w', x) == Places(w, x) + 1
      && Count(w'.pending, x) == Count(w.pending, x) + 1 && w'.decayed == w.decayed
  {
    SameBuckets(w, Queued(w, x), x);
    hide In;
  }

  /** Queued once, an item decays at its tick, whatever happens to others. */
  lemma OnceDecays(w: Wheel, x: Item, steps: seq<Step>)
    requires Fresh(w, x) && Undisturbed(QueuedOnce(w, x), x, steps) && forall step <- steps :: Spares(step, x)
    ensures Count(Run(QueuedOnce(w, x), steps).decayed, x)
         == Count(w.decayed, x) + (if Ticks(steps) >= TicksOnce(w.cells[x].duration) then 1 else 0)
  {
    hide Settled, Places, Shaped, Queued, Count, Spares, Undisturbed, In;
    var w1 := Queued(w, x);
    ShapedLength(w);
    NoPlaces(w, x);
    QueuedPlaces(w, x);
    ShapedLength(w1);
    assert InPlace(w1, x);
    var a := SettledSits(w1, x);
    SettledPlaces(w1, x);
    DecaysOnTime(QueuedOnce(w, x), x, a, steps);
  }

  lemma NoPlaces(w: Wheel, x: Item)
    requires |w.buckets| == EVENT_DECAY_BUCKETS && Places(w, x) == 0
    ensures Count(w.pending, x) == 0
  {
  }

  /** Queued twice, it decays once too, but at a tick that comes twice as fast. */
  lemma TwiceDecays(w: Wheel, x: Item, steps: seq<Step>)
    requires Fresh(w, x) && Undisturbed(QueuedTwice(w, x), x, steps) && forall step <- steps :: Spares(step, x)
    ensures Count(Run(QueuedTwice(w, x), steps).decayed, x)
         == Count(w.decayed, x) + (if Ticks(steps) >= TicksTwice(w.cells[x].duration) then 1 else 0)
  {
    hide Settled, Places, Shaped, Queued, Count, Spares, Undisturbed, In;
    ShapedLength(w);
    NoPlaces(w, x);
    QueuedPlaces(w, x);
    QueuedPlaces(Queued(w, x), x);
    var w1 := Queued(Queued(w, x), x);
    var a := SettledSitsTwice(w1, x);
    SettledPlaces(w1, x);
    DecaysTwiceAsFast(QueuedTwice(w, x), x, a, steps);
  }

  /** A round for every two seconds, the first two for three, and a tick more when what remains rounds up to a second. */
  lemma {:induction false} TwiceFurtherIs(d: nat)
    requires d >= 1000
    ensures TicksTwice(d) == 4 * ((d + 1000) / 2000) + (if (d + 1000) % 2000 >= 1875 then 1 else 0)
  {
    if d >= 3000 {
      TwiceFurtherIs(d - 2000);
      assert (d - 1000) / 2000 == (d + 1000) / 2000 - 1 && (d - 1000) % 2000 == (d + 1000) % 2000;
    } else {
      assert (d + 1000) / 2000 == 1 && (d + 1000) % 2000 == d - 1000;
    }
  }

  /** An item queued twice decays at its tick if and only if it has less than 1875 milliseconds to go; else earlier. */
  lemma TwiceOnTimeIff(d: nat)
    ensures TicksTwice(d) <= TicksOnce(d)
    ensures TicksTwice(d) == TicksOnce(d) <==> d < 1875
    ensures d >= 1000 ==> (d - 875 < EVENT_DECAYINTERVAL * TicksTwice(d) <==> d < 1875)
  {
    if d >= 1000 {
      FurtherIs(d);
      TwiceFurtherIs(d);
      var q, r := (d + 1000) / 2000, (d + 1000) % 2000;
      assert d + 1000 == 2000 * q + r;
    }
  }

  /** Three seconds, queued twice: decayed after eight ticks, which is two seconds; queued once, after twelve. */
  lemma ThreeSecondsInTwo(w: Wheel, x: Item)
    requires Fresh(w, x) && w.cells[x].duration == 3000
    ensures Ticks(EIGHT_TICKS) * EVENT_DECAYINTERVAL == 2000 && TicksOnce(3000) * EVENT_DECAYINTERVAL == 3000
    ensures Count(Run(QueuedTwice(w, x), EIGHT_TICKS).decayed, x) == Count(w.decayed, x) + 1
    ensures Count(Run(QueuedOnce(w, x), EIGHT_TICKS).decayed, x) == Count(w.decayed, x)
  {
    hide Ticks, OnlyTicks, Fresh, QueuedTwice, QueuedOnce, Run, Undisturbed;
    TwiceFurtherIs(3000);
    FurtherIs(3000);
    hide TicksOnce, TicksTwice;
    CountTicks(8);
    TicksUndisturbed(QueuedTwice(w, x), x, EIGHT_TICKS);
    TicksUndisturbed(QueuedOnce(w, x), x, EIGHT_TICKS);
    TwiceDecays(w, x, EIGHT_TICKS);
    OnceDecays(w, x, EIGHT_TICKS);
  }

  const EIGHT_TICKS := OnlyTicks(8)

  function OnlyTicks(n: nat): seq<Step> {
    if n == 0 then [] else [Tick] + OnlyTicks(n - 1)
  }

  lemma {:induction false} CountTicks(n: nat)
    ensures Ticks(OnlyTicks(n)) == n && forall step <- OnlyTicks(n) :: step == Tick
  {
    if n > 0 {
      CountTicks(n - 1);
      assert ([Tick] + OnlyTicks(n - 1))[1..] == OnlyTicks(n - 1);
    }
  }

  lemma {:induction false} TicksUndisturbed(w: Wheel, x: Item, steps: seq<Step>)
    requires Shaped(w) && forall step <- steps :: step == Tick
    ensures Undisturbed(w, x, steps)
    decreases |steps|
  {
    hide After, Shaped;
    if steps != [] {
      assert steps[0] in steps && forall step <- steps[1..] :: step in steps;
      StepShaped(w, steps[0]);
      TicksUndisturbed(After(w, steps[0]), x, steps[1..]);
    }
  }

  /** Given a new duration where it sits, an item stays in its bucket unmarked, and starting it queues it a second time. */
  lemma RenewedStartsTwice(w: Wheel, x: Item, a: nat, duration: nat)
    requires Sits(w, x, a) && duration > 0
    ensures var w1 := After(w, Reset(x, duration, true));
      && Shaped(w1) && x in w1.cells && !w1.cells[x].decaying && In(w1, a, x) == 1 && !InPlace(w1, x)
      && var w2 := After(w1, Start(x));
      Shaped(w2) && x in w2.cells && w2.cells[x].decaying && Places(w2, x) == 2
  {
    hide Shaped, In, Count;
    ShapedLength(w);
    StepShaped(w, Reset(x, duration, true));
    var w1 := After(w, Reset(x, duration, true));
    StepShaped(w1, Start(x));
    SameBuckets(w, w1, x);
    QueuedPlaces(w1, x);
  }

  // The fates, as the code tells them apart.
  lemma FateIs(c: Cell, bucket: nat)
    requires bucket < EVENT_DECAY_BUCKETS
    ensures var duration := c.duration - (if ROUND < c.duration then ROUND else c.duration);
      var newBucket := (bucket + (duration + EVENT_DECAYINTERVAL / 2) / 1000) % EVENT_DECAY_BUCKETS;
      && FateOf(c) == (if !c.able then Drop else if duration <= 0 then Decays
                       else if duration < ROUND then (if newBucket == bucket then Decays else Next) else Stay)
      && (FateOf(c) == Next ==> newBucket == Following(bucket))
      && CellAfter(c) == (if FateOf(c) == Drop then c.(decaying := false)
                          else if FateOf(c) == Decays then Cell(duration, false, false) else c.(duration := duration))
  {
  }

  lemma Overwritten(m: map<Item, Cell>, x: Item, a: Cell, b: Cell)
    ensures m[x := a][x := b] == m[x := b]
  {
  }

  lemma LookedIs(w: Wheel, b: nat, i: nat)
    requires |w.buckets| == EVENT_DECAY_BUCKETS && b < EVENT_DECAY_BUCKETS && i < |w.buckets[b]| && w.buckets[b][i] in w.cells
    ensures var x := w.buckets[b][i];
      var fate, cells, rest := FateOf(w.cells[x]), w.cells[x := CellAfter(w.cells[x])], Without(w.buckets[b], i);
      && (fate == Drop ==> Looked(w, b, i) == w.(cells := cells, buckets := w.buckets[b := rest]))
      && (fate == Decays ==> Looked(w, b, i) == w.(cells := cells, buckets := w.buckets[b := rest], decayed := w.decayed + [x]))
      && Following(b) != b && Following(b) < EVENT_DECAY_BUCKETS
      && (fate == Next ==> Looked(w, b, i) == w.(cells := cells, buckets := w.buckets[b := rest][Following(b) := w.buckets[Following(b)] + [x]]))
      && (fate == Stay ==> Looked(w, b, i) == w.(cells := cells))
  {
  }

  lemma ShapedLength(w: Wheel)
    requires Shaped(w)
    ensures |w.buckets| == EVENT_DECAY_BUCKETS && w.last < EVENT_DECAY_BUCKETS
  {
  }

  lemma LastAside(w: Wheel, b: nat)
    requires Shaped(w) && b < EVENT_DECAY_BUCKETS
    ensures Shaped(w.(last := b))
  {
  }

  lemma BucketIs(last: nat, duration: nat)
    requires last < EVENT_DECAY_BUCKETS
    ensures BucketFor(last, duration) == if duration >= ROUND then last else (last + 1 + duration / 1000) % EVENT_DECAY_BUCKETS
  {
  }

  // The next waiting item goes into its bucket.
  lemma SettleNext(w: Wheel, l: seq<Item>, n: nat)
    requires Shaped(w) && n < |l| && forall x <- l[n..] :: x in w.cells
    ensures l[n] in w.cells && w.last < EVENT_DECAY_BUCKETS && |w.buckets| == EVENT_DECAY_BUCKETS
    ensures var b := BucketFor(w.last, w.cells[l[n]].duration);
      var w' := w.(buckets := w.buckets[b := w.buckets[b] + [l[n]]]);
      Shaped(w') && (forall x <- l[n + 1..] :: x in w'.cells) && Settled(w, l[n..]) == Settled(w', l[n + 1..])
  {
    assert l[n..][0] == l[n] && l[n..][1..] == l[n + 1..] && l[n] in l[n..];
    assert forall x <- l[n + 1..] :: x in l[n..];
  }

  lemma SettleNone(w: Wheel)
    requires Shaped(w)
    ensures Settled(w, []) == w.(pending := [])
  {
  }

  // ---------------------------------------------------------------- the methods

  class Game {
    const decayItems: array<seq<Item>>
    var lastBucket: nat
    var toDecayItems: seq<Item>
    ghost const items: set<Item>
    ghost var decayed: seq<Item>

    ghost function Now(): Wheel
      reads this, decayItems, items
    {
      Wheel(decayItems[..], lastBucket, toDecayItems, map x | x in items :: Cell(x.duration, x.decaying, x.able), decayed)
    }

    /** The item is seen to: its duration and state become those given. */
    method SetItem(x: Item, duration: nat, decaying: bool, able: bool)
      requires x in items
      modifies x
      ensures Now() == old(Now()).(cells := old(Now()).cells[x := Cell(duration, decaying, able)])
      ensures x.duration == duration && x.decaying == decaying && x.able == able
    {
      x.duration, x.decaying, x.able := duration, decaying, able;
    }

    method SetBucket(b: nat, l: seq<Item>)
      requires b < decayItems.Length
      modifies decayItems
      ensures Now() == old(Now()).(buckets := old(Now()).buckets[b := l])
    {
      decayItems[b] := l;
    }

    /** `Game::internalDecayItem`: the item becomes another, or is removed; either way it is done with. */
    method InternalDecayItem(x: Item)
      requires x in items
      modifies x, this`decayed
      ensures Now() == old(Now()).(cells := old(Now()).cells[x := Cell(old(x.duration), false, false)], decayed := old(decayed) + [x])
    {
      SetItem(x, x.duration, false, false);
      decayed := decayed + [x];
    }

    /** `Game::startDecay`. */
    method StartDecay(x: Item)
      requires x in items
      modifies x, this`toDecayItems, this`decayed
      ensures Now() == Begun(old(Now()), x)
    {
      if !x.able {
        return;
      }
      if x.decaying {
        return;
      }
      if x.duration > 0 {
        SetItem(x, x.duration, true, true);
        toDecayItems := [x] + toDecayItems;
      } else {
        InternalDecayItem(x);
      }
    }

    /** The end of `Game::internalAddItem`, and `Item::clone`: what has time left is queued, queued already or not. */
    method Enqueue(x: Item)
      requires x in items
      modifies x, this`toDecayItems
      ensures Now() == Queued(old(Now()), x)
    {
      if x.duration > 0 {
        SetItem(x, x.duration, true, x.able);
        toDecayItems := [x] + toDecayItems;
      }
    }

    /** `Item::setID`, where it gives the item the duration of its new type, or takes it away. */
    method SetId(x: Item, duration: nat, able: bool)
      requires x in items
      modifies x
      ensures Now() == Renewed(old(Now()), x, duration, able)
    {
      SetItem(x, duration, false, able);
    }

    lemma NowIs()
      ensures Now().buckets == decayItems[..] && Now().last == lastBucket && Now().pending == toDecayItems
      ensures Now().cells.Keys == items && Now().decayed == decayed
    {
    }

    lemma NowItem(x: Item)
      requires x in items
      ensures x in Now().cells && Now().cells[x] == Cell(x.duration, x.decaying, x.able)
    {
    }

    method ClearPending()
      modifies this`toDecayItems
      ensures Now() == old(Now()).(pending := [])
    {
      toDecayItems := [];
    }

    method SetLast(b: nat)
      modifies this`lastBucket
      ensures Now() == old(Now()).(last := b) && lastBucket == b
    {
      lastBucket := b;
    }

    /** The last part of `Game::cleanup`. */
    method Cleanup()
      requires Shaped(Now())
      modifies this`toDecayItems, decayItems
      ensures Now() == Settled(old(Now()), old(toDecayItems))
    {
      hide Now, Shaped, Settled, BucketFor;
      NowIs();
      ghost var w := Now();
      var n := 0;
      assert toDecayItems[0..] == toDecayItems;
      LastInRange(w);
      while n < |toDecayItems|
        invariant n <= |toDecayItems| && toDecayItems == w.pending && Shaped(Now()) && Now() == w.(buckets := Now().buckets)
        invariant (forall x <- toDecayItems[n..] :: x in Now().cells) && Settled(Now(), toDecayItems[n..]) == Settled(w, w.pending)
      {
        NowIs();
        var x := toDecayItems[n];
        SettleNext(Now(), toDecayItems, n);
        NowItem(x);
        BucketIs(lastBucket, x.duration);
        var b := if x.duration >= ROUND then lastBucket else (lastBucket + 1 + x.duration / 1000) % EVENT_DECAY_BUCKETS;
        SetBucket(b, decayItems[b] + [x]);
        n := n + 1;
      }
      SettleNone(Now());
      assert toDecayItems[n..] == [];
      ClearPending();
    }

    /** One step of the loop in `Game::checkDecay`. */
    method Look(bucket: nat, i: nat) returns (stays: bool)
      requires Shaped(Now()) && bucket < EVENT_DECAY_BUCKETS && i < |decayItems[bucket]|
      modifies decayItems, items, this`decayed
      ensures var w := old(Now());
        w.buckets[bucket][i] in w.cells && stays == (FateOf(w.cells[w.buckets[bucket][i]]) == Stay) && Now() == Looked(w, bucket, i)
    {
      hide Now, FateOf, CellAfter, Looked, Following;
      ghost var w := Now();
      NowIs();
      var item := decayItems[bucket][i];
      assert item in w.buckets[bucket] && item in w.cells;
      NowItem(item);
      FateIs(w.cells[item], bucket);
      LookedIs(w, bucket, i);
      hide Shaped;
      stays := false;
      var rest := Without(decayItems[bucket], i);
      if !item.able {
        SetItem(item, item.duration, false, item.able);
        SetBucket(bucket, rest);
        return;
      }
      var decreaseTime := if ROUND < item.duration then ROUND else item.duration;
      var duration := item.duration - decreaseTime;
      Overwritten(w.cells, item, Cell(duration, item.decaying, item.able), Cell(duration, false, false));
      SetItem(item, duration, item.decaying, item.able);
      NowIs();
      if duration <= 0 {
        SetBucket(bucket, rest);
        InternalDecayItem(item);
      } else if duration < ROUND {
        SetBucket(bucket, rest);
        NowIs();
        var newBucket := (bucket + (duration + EVENT_DECAYINTERVAL / 2) / 1000) % EVENT_DECAY_BUCKETS;
        if newBucket == bucket {
          InternalDecayItem(item);
        } else {
          SetBucket(newBucket, decayItems[newBucket] + [item]);
        }
      } else {
        stays := true;
      }
    }

    /** `Game::checkDecay`. */
    method CheckDecay()
      requires Shaped(Now())
      modifies this`lastBucket, this`toDecayItems, this`decayed, decayItems, items
      ensures Now() == Ticked(old(Now()))
    {
      hide Now, Shaped, Looked, FateOf;
      NowIs();
      ghost var w := Now();
      var bucket := (lastBucket + 1) % EVENT_DECAY_BUCKETS;
      ShapedLength(w);
      LookedFromShaped(w, bucket, 0);
      var i := 0;
      while i < |decayItems[bucket]|
        invariant Shaped(Now()) && |Now().buckets| == EVENT_DECAY_BUCKETS && decayItems.Length == EVENT_DECAY_BUCKETS
        invariant i <= |Now().buckets[bucket]| && Now().buckets[bucket] == decayItems[bucket]
        invariant lastBucket == w.last && toDecayItems == w.pending
        invariant LookedFrom(Now(), bucket, i) == LookedFrom(w, bucket, 0)
        decreases |decayItems[bucket]| - i
      {
        NowIs();
        ghost var now := Now();
        ShapedLength(now);
        LookedShaped(now, bucket, i);
        var stays := Look(bucket, i);
        NowIs();
        if stays {
          i := i + 1;
        }
      }
      NowIs();
      SetLast(bucket);
      TickedIs(w);
      NowIs();
      LastAside(Now().(last := w.last), bucket);
      Cleanup();
    }
  }
}
