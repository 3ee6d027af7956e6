/**
 The list of single hits a lasting damage is split into (src/condition.cpp,
 `ConditionDamage::generateDamageList`): falling from start to 1, each value as often as it takes to keep
 up with an even share of the whole. The hits add up to the whole exactly when one of each value fits into it.
 */
module DamageList {

  function Sum(l: seq<int>): int {
    if l == [] then 0 else Sum(l[..|l| - 1]) + l[|l| - 1]
  }

  lemma SumAppend(l: seq<int>, x: int)
    ensures Sum(l + [x]) == Sum(l) + x
  {
    assert (l + [x])[..|l|] == l;
  }

  /** The values from lo to hi occur, and no others. */
  ghost predicate Exactly(l: seq<int>, lo: int, hi: int) {
    forall x :: x in l <==> lo <= x <= hi
  }

  lemma PushDown(l: seq<int>, i: int, hi: int)
    requires Falling(l) && (Exactly(l, i + 1, hi) || Exactly(l, i, hi)) && i <= hi
    ensures Falling(l + [i]) && Exactly(l + [i], i, hi)
  {
    assert forall k :: 0 <= k < |l| ==> l[k] in l;
    assert forall x :: x in l + [i] <==> x in l || x == i;
  }

  predicate Falling(l: seq<int>) {
    forall i, j :: 0 <= i < j < |l| ==> l[i] >= l[j]
  }

  function Magnitude(x: int): nat {
    if x < 0 then -x else x
  }

  function Distance(x: real): real {
    if x < 0.0 then -x else x
  }

  /** How far a sum is from what is due by now, as a part of it; nothing is due, and everything infinitely far, when due is 0. */
  function Off(sum: int, due: int): real
    requires due != 0
  {
    Distance(1.0 - sum as real / due as real)
  }

  lemma OffScaled(sum: int, due: int)
    requires due > 0
    ensures Off(sum, due) * due as real == Magnitude(due - sum) as real
  {
    var q, d := sum as real / due as real, due as real;
    assert q * d == sum as real;
    assert (1.0 - q) * d == d - sum as real;
    assert 1.0 - q < 0.0 <==> d - sum as real < 0.0 by {
      if 1.0 - q < 0.0 {
        NegativeTimes(1.0 - q, d);
      } else {
        NonNegativeTimes(1.0 - q, d);
      }
    }
    assert (-(1.0 - q)) * d == sum as real - d;
  }

  lemma NegativeTimes(a: real, b: real)
    requires a < 0.0 && b > 0.0
    ensures a * b < 0.0
  {
  }

  lemma NonNegativeTimes(a: real, b: real)
    requires a >= 0.0 && b > 0.0
    ensures a * b >= 0.0
  {
  }

  lemma LessTimes(a: real, b: real, c: real)
    requires c > 0.0
    ensures a < b <==> a * c < b * c
  {
    assert (b - a) * c == b * c - a * c;
    if a < b {
      NegativeTimes(a - b, c);
    } else {
      NonNegativeTimes(a - b, c);
    }
  }

  /** Another hit of i comes nearer to what is due exactly when more than half of it is still missing. */
  lemma NearerIff(sum: int, i: int, due: int)
    requires due > 0 && i > 0
    ensures Off(sum + i, due) < Off(sum, due) <==> 2 * sum + i < 2 * due
  {
    hide Off;
    OffScaled(sum, due);
    OffScaled(sum + i, due);
    var a, b := Magnitude(due - (sum + i)), Magnitude(due - sum);
    ScaledLess(Off(sum + i, due), Off(sum, due), due as real, a, b);
  }

  lemma ScaledLess(x: real, y: real, d: real, a: int, b: int)
    requires d > 0.0 && x * d == a as real && y * d == b as real
    ensures x < y <==> a < b
  {
    LessTimes(x, y, d);
  }

  /** The even share of the whole that is due once the values from start down to i have had their turns. */
  function Due(start: nat, i: nat, amount: nat): int
    requires 1 <= i <= start
  {
    (start + 1 - i) * amount / start
  }

  lemma DueNonNegative(start: nat, i: nat, amount: nat)
    requires 1 <= i <= start
    ensures Due(start, i, amount) >= 0
  {
    TimesUp(0, amount, start + 1 - i);
    NonNegativeQuotient((start + 1 - i) * amount, start);
  }

  lemma NonNegativeQuotient(a: int, b: int)
    requires a >= 0 && b > 0
    ensures a / b >= 0
  {
  }

  /** One hit of each value up to k. */
  function Staircase(k: nat): nat {
    k * (k + 1) / 2
  }

  lemma StaircaseStep(k: nat)
    requires k > 0
    ensures Staircase(k) == Staircase(k - 1) + k && k * (k + 1) == 2 * Staircase(k)
  {
    assert k * (k + 1) == (k - 1) * k + 2 * k;
    Even(k - 1);
    Even(k);
  }

  lemma {:induction false} Even(k: nat)
    ensures k * (k + 1) % 2 == 0
  {
    if k > 0 {
      Even(k - 1);
      assert k * (k + 1) == (k - 1) * k + 2 * k;
    }
  }

  lemma StartRoom(start: nat, amount: nat)
    requires start > 0
    ensures start * (start + 1) <= 2 * amount <==> Staircase(start) <= amount
  {
    Even(start);
  }

  lemma TotalRoom(start: nat)
    requires start > 0
    ensures start * (start + 1) == 2 * Staircase(start)
  {
    Even(start);
  }

  lemma Halves(i: nat)
    requires i > 0
    ensures (i - 1) * (i + 1) == 2 * Staircase(i - 1) + i - 1
  {
    Even(i - 1);
    assert (i - 1) * (i + 1) == (i - 1) * i + (i - 1);
  }

  // What is due after the value i leaves room for one hit of each smaller value, and half a hit of i.
  lemma RoomBelow(start: nat, i: nat, amount: nat)
    requires 1 <= i <= start && start * (start + 1) <= 2 * amount
    ensures 2 * Due(start, i, amount) + (i - 1) * (i + 1) <= 2 * amount
  {
    var n, p := start + 1 - i, i - 1;
    var due := Due(start, i, amount);
    QuotientTimes(n * amount, start);
    Distributed(start, p, amount);
    assert 2 * (due * start) + 2 * (p * amount) <= 2 * (start * amount);
    TimesUp(i + 1, start + 1, start);
    TimesUp(start * (i + 1), 2 * amount, p);
    Regroup(p, i + 1, start, amount);
    assert (p * (i + 1)) * start <= 2 * (p * amount);
    SumTimes(2 * due, p * (i + 1), start);
    SumTimes(amount, amount, start);
    Cancel(2 * due + p * (i + 1), 2 * amount, start);
  }

  lemma QuotientTimes(a: nat, b: nat)
    requires b > 0
    ensures a / b * b <= a < a / b * b + b
  {
  }

  lemma SumTimes(a: int, b: int, c: int)
    ensures (a + b) * c == a * c + b * c
  {
  }

  lemma Distributed(a: int, b: int, c: int)
    ensures (a - b) * c == a * c - b * c
  {
  }

  lemma Regroup(p: int, q: int, r: int, s: int)
    ensures p * (r * q) == p * q * r && p * (2 * s) == 2 * (p * s)
  {
    assert r * q == q * r;
  }

  lemma TimesUp(a: int, b: int, c: nat)
    requires a <= b
    ensures c * a <= c * b
  {
  }

  lemma Cancel(a: int, b: int, c: nat)
    requires c > 0 && a * c <= b * c
    ensures a <= b
  {
    assert (b - a) * c >= 0;
  }

  lemma FullShare(start: nat, amount: nat)
    requires start > 0
    ensures Due(start, 1, amount) == amount
  {
    assert start * amount / start * start + start * amount % start == start * amount;
    var q, r := start * amount / start, start * amount % start;
    assert (amount - q) * start == r;
    if amount > q {
      TimesUp(1, amount - q, start);
    }
    if amount < q {
      TimesUp(1, q - amount, start);
    }
  }

  /** The sum of the hits of i or more. */
  function SumFrom(l: seq<int>, i: int): int {
    if l == [] then 0 else SumFrom(l[..|l| - 1], i) + (if l[|l| - 1] >= i then l[|l| - 1] else 0)
  }

  /**
   How often i occurs: once, and again as long as more than half a hit of it is still missing from the even share
   that is due once the values down to i have had their turns.
   */
  ghost predicate Paced(l: seq<int>, start: nat, i: nat, amount: nat)
    requires 1 <= i <= start
  {
    var due := (start + 1 - i) * amount / start;
    && 2 * SumFrom(l, i) + i >= 2 * due
    && multiset(l)[i] >= 1
    && (multiset(l)[i] > 1 ==> 2 * (SumFrom(l, i) - i) + i < 2 * due)
  }

  ghost predicate PacedDown(l: seq<int>, start: int, i: int, amount: nat) {
    start > 0 ==> forall j :: 1 <= j <= start && i < j ==> Paced(l, start, j, amount)
  }

  lemma NextHit(l: seq<int>, x: int)
    ensures forall i: int :: SumFrom(l + [x], i) == SumFrom(l, i) + if x >= i then x else 0
    ensures multiset(l + [x]) == multiset(l) + multiset{x}
  {
    assert (l + [x])[..|l|] == l;
  }

  lemma {:induction false} SumFromAll(l: seq<int>, i: int)
    requires forall x <- l :: x >= i
    ensures SumFrom(l, i) == Sum(l)
  {
    if l != [] {
      var rest, last := l[..|l| - 1], l[|l| - 1];
      assert last in l && last >= i;
      forall x <- rest
        ensures x >= i
      {
        assert x in l;
      }
      SumFromAll(l[..|l| - 1], i);
    }
  }

  lemma StillPaced(l: seq<int>, x: int, start: int, i: int, amount: nat)
    requires PacedDown(l, start, i, amount) && x <= i
    ensures PacedDown(l + [x], start, i, amount)
  {
    NextHit(l, x);
    if start > 0 {
      forall j | 1 <= j <= start && i < j
        ensures Paced(l + [x], start, j, amount)
      {
        assert Paced(l, start, j, amount);
      }
    }
  }

  // The hits of i are done.
  lemma PacedNext(l: seq<int>, start: nat, i: nat, amount: nat)
    requires 1 <= i <= start && PacedDown(l, start, i, amount) && Exactly(l, i, start)
    requires 2 * Sum(l) + i >= 2 * Due(start, i, amount)
    requires multiset(l)[i] == 1 || 2 * (Sum(l) - i) + i < 2 * Due(start, i, amount)
    ensures PacedDown(l, start, i - 1, amount)
  {
    SumFromAll(l, i);
    assert i in l && Paced(l, start, i, amount);
  }

  lemma OneHit(l: seq<int>, i: int, start: int, amount: nat)
    requires Falling(l) && (Exactly(l, i + 1, start) || Exactly(l, i, start)) && i <= start && PacedDown(l, start, i, amount)
    ensures Falling(l + [i]) && Exactly(l + [i], i, start) && PacedDown(l + [i], start, i, amount)
    ensures Sum(l + [i]) == Sum(l) + i && multiset(l + [i])[i] == multiset(l)[i] + 1
    ensures Exactly(l, i + 1, start) ==> multiset(l)[i] == 0
  {
    SumAppend(l, i);
    PushDown(l, i, start);
    StillPaced(l, i, start, i, amount);
    NextHit(l, i);
    assert i in l <==> multiset(l)[i] > 0;
  }

  lemma AllPaced(l: seq<int>, start: int, amount: nat)
    requires start > 0 ==> PacedDown(l, start, 0, amount)
    ensures start > 0 ==> forall i :: 1 <= i <= start ==> Paced(l, start, i, amount)
  {
  }

  lemma EmptyList(start: int)
    ensures forall amount: nat :: PacedDown([], start, start, amount)
    ensures Sum([]) == 0 && Falling([]) && Exactly([], start + 1, start) && (start <= 0 ==> Exactly([], 1, start))
    ensures Staircase(0) == 0
  {
  }

  /**
   The hits fall from start to 1 and every value occurs. They add up to the whole or more, and to
   exactly the whole if and only if one hit of each value is no more than the whole.
   */
  method GenerateDamageList(wanted: int, start: int) returns (list: seq<int>)
    ensures Falling(list) && Exactly(list, 1, start)
    ensures start > 0 ==> Sum(list) >= Magnitude(wanted)
    ensures start > 0 ==> (Sum(list) == Magnitude(wanted) <==> start * (start + 1) <= 2 * Magnitude(wanted))
    ensures start > 0 ==> forall i :: 1 <= i <= start ==> Paced(list, start, i, Magnitude(wanted))
  {
    hide Falling, Exactly, Sum, Off, Staircase, Due, PacedDown, SumFrom;
    EmptyList(start);
    var amount := Magnitude(wanted);
    var sum := 0;
    list := [];
    ghost var fits := start > 0 && start * (start + 1) <= 2 * amount;
    var i := start;
    if start > 0 {
      StartRoom(start, amount);
    }
    while i > 0
      invariant if start > 0 then 0 <= i <= start else i == start
      invariant sum == Sum(list) && Falling(list) && (start <= 0 ==> list == [])
      invariant Exactly(list, i + 1, start) && PacedDown(list, start, i, amount)
      invariant start > 0 ==> sum + Staircase(i) >= Staircase(start)
      invariant fits ==> sum + Staircase(i) <= amount
      invariant i == 0 && start > 0 ==> sum >= amount
    {
      var med := Due(start, i, amount);
      DueNonNegative(start, i, amount);
      ghost var before := sum;
      StaircaseStep(i);
      if fits {
        RoomBelow(start, i, amount);
        Halves(i);
      }
      if i == 1 {
        FullShare(start, amount);
      }
      OneHit(list, i, start, amount);
      sum := sum + i;
      list := list + [i];
      while med != 0 && Off(sum + i, med) < Off(sum, med)
        invariant sum == Sum(list) && Falling(list)
        invariant Exactly(list, i, start) && PacedDown(list, start, i, amount)
        invariant multiset(list)[i] == 1 || 2 * (sum - i) + i < 2 * med
        invariant sum + Staircase(i - 1) >= Staircase(start)
        invariant fits ==> sum + Staircase(i - 1) <= amount
        decreases if med > sum then med - sum else 0
      {
        NearerIff(sum, i, med);
        OneHit(list, i, start, amount);
        sum := sum + i;
        list := list + [i];
      }
      if med != 0 {
        NearerIff(sum, i, med);
      }
      PacedNext(list, start, i, amount);
      i := i - 1;
    }
    AllPaced(list, start, amount);
    if start > 0 {
      TotalRoom(start);
    }
  }
}
