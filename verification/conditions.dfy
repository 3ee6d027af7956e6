/**
 Conditions on a creature (src/creature.cpp, src/condition.cpp): haste, paralysis and attribute changes
 are added, refreshed, expire and are removed, sometimes later than asked. Throughout, the creature's speed
 and skills are what they would be without conditions, plus what the active conditions have on record.
 */
module Conditions {
  import opened Bytes

  const CONDITION_HASTE := 16
  const CONDITION_PARALYZE := 32
  const CONDITION_ATTRIBUTES := 524288
  const SKILLS := 7

  /** What a condition has on record of its effect. */
  datatype Effect = Speed(delta: int) | Attributes(skills: seq<int>, skillsPercent: seq<int>) | Plain

  datatype Condition = Condition(kind: nat, id: int, subId: nat, ticks: int, endTime: int, effect: Effect)

  /** Haste and paralysis change the speed, attribute conditions the skills, no others either. */
  predicate WellFormed(c: Condition) {
    && (c.effect.Speed? <==> c.kind == CONDITION_HASTE || c.kind == CONDITION_PARALYZE)
    && (c.effect.Attributes? <==> c.kind == CONDITION_ATTRIBUTES)
    && (c.effect.Attributes? ==> |c.effect.skills| == SKILLS && |c.effect.skillsPercent| == SKILLS)
  }

  predicate SameKey(c: Condition, d: Condition) {
    c.kind == d.kind && c.id == d.id && c.subId == d.subId
  }

  predicate OneEach(l: seq<Condition>) {
    forall i, j :: 0 <= i < j < |l| ==> !SameKey(l[i], l[j])
  }

  function SpeedOf(c: Condition): int {
    if c.effect.Speed? then c.effect.delta else 0
  }

  function SkillOf(c: Condition, k: nat): int {
    if c.effect.Attributes? && k < |c.effect.skills| then c.effect.skills[k] else 0
  }

  /** The sum of all speed changes on record. */
  function SpeedSum(l: seq<Condition>): int {
    if l == [] then 0 else SpeedOf(l[0]) + SpeedSum(l[1..])
  }

  /** The sum of all changes of one skill on record. */
  function SkillSum(l: seq<Condition>, k: nat): int {
    if l == [] then 0 else SkillOf(l[0], k) + SkillSum(l[1..], k)
  }

  lemma SumsCons(c: Condition, l: seq<Condition>, k: nat)
    ensures SpeedSum([c] + l) == SpeedOf(c) + SpeedSum(l) && SkillSum([c] + l, k) == SkillOf(c, k) + SkillSum(l, k)
  {
    assert ([c] + l)[1..] == l;
  }

  lemma {:induction false} SumsSplit(l: seq<Condition>, i: nat, k: nat)
    requires i < |l|
    ensures SpeedSum(l) == SpeedSum(l[..i] + l[i + 1..]) + SpeedOf(l[i])
    ensures SkillSum(l, k) == SkillSum(l[..i] + l[i + 1..], k) + SkillOf(l[i], k)
  {
    hide SpeedOf, SkillOf, SpeedSum, SkillSum;
    var t := l[1..];
    assert l == [l[0]] + t;
    SumsCons(l[0], t, k);
    if i > 0 {
      var rest := t[..i - 1] + t[i..];
      SumsSplit(t, i - 1, k);
      assert l[..i] + l[i + 1..] == [l[0]] + rest;
      SumsCons(l[0], rest, k);
    } else {
      assert l[..0] + l[1..] == t;
    }
  }

  lemma SumsUpdate(l: seq<Condition>, i: nat, c: Condition, k: nat)
    requires i < |l|
    ensures SpeedSum(l[i := c]) == SpeedSum(l) - SpeedOf(l[i]) + SpeedOf(c)
    ensures SkillSum(l[i := c], k) == SkillSum(l, k) - SkillOf(l[i], k) + SkillOf(c, k)
  {
    var m := l[i := c];
    SumsSplit(l, i, k);
    SumsSplit(m, i, k);
    assert m[..i] + m[i + 1..] == l[..i] + l[i + 1..];
  }

  lemma {:induction false} SumsAppend(l: seq<Condition>, c: Condition, k: nat)
    ensures SpeedSum(l + [c]) == SpeedSum(l) + SpeedOf(c) && SkillSum(l + [c], k) == SkillSum(l, k) + SkillOf(c, k)
  {
    if l != [] {
      assert (l + [c])[1..] == l[1..] + [c];
      SumsAppend(l[1..], c, k);
    }
  }

  // ---------------------------------------------------------------- lists of conditions

  function Without(l: seq<Condition>, i: nat): seq<Condition>
    requires i < |l|
  {
    l[..i] + l[i + 1..]
  }

  lemma OneEachWithout(l: seq<Condition>, i: nat)
    requires OneEach(l) && i < |l|
    ensures OneEach(Without(l, i))
  {
    var m := Without(l, i);
    forall a, b | 0 <= a < b < |m|
      ensures !SameKey(m[a], m[b])
    {
      assert m[a] == l[if a < i then a else a + 1] && m[b] == l[if b < i then b else b + 1];
    }
  }

  /** The conditions that are not chosen, in their order. */
  function Rest(l: seq<Condition>, chosen: Condition -> bool): seq<Condition> {
    if l == [] then [] else (if chosen(l[0]) then [] else [l[0]]) + Rest(l[1..], chosen)
  }

  /** The place of the condition with a key, or the end. */
  function Find(l: seq<Condition>, kind: nat, id: int, subId: nat): (i: nat)
    ensures i <= |l|
    ensures i < |l| ==> l[i].kind == kind && l[i].id == id && l[i].subId == subId
    ensures forall j :: 0 <= j < i ==> !(l[j].kind == kind && l[j].id == id && l[j].subId == subId)
  {
    if l == [] || (l[0].kind == kind && l[0].id == id && l[0].subId == subId) then 0 else 1 + Find(l[1..], kind, id, subId)
  }

  /** What surrounds a call: the clock, how long the creature is still walking, what it is immune against for now, what a roll of the dice and a percentage give. */
  datatype Circumstances = Circumstances(
    now: int, walkDelay: int, suppressed: nat -> bool, rolled: int, scaled: (int, int) -> int, baseSkills: seq<int>)

  predicate Fits(e: Circumstances) {
    |e.baseSkills| == SKILLS
  }

  /** `Creature::hasCondition`. */
  predicate Has(l: seq<Condition>, kind: nat, subId: nat, e: Circumstances) {
    !e.suppressed(kind) && exists c :: c in l && IsActive(c, kind, subId, e)
  }

  predicate IsActive(c: Condition, kind: nat, subId: nat, e: Circumstances) {
    c.kind == kind && c.subId == subId && (c.endTime >= e.now || c.ticks == -1)
  }

  // ---------------------------------------------------------------- a condition begins, is refreshed

  /** `ConditionAttributes::updatePercentSkills`: percentages of the skill as it is now replace the changes on record. */
  function Percent(e: Effect, x: Circumstances): Effect
    requires e.Attributes? && |e.skills| == SKILLS && |e.skillsPercent| == SKILLS && Fits(x)
  {
    Attributes(seq(SKILLS, k requires 0 <= k < SKILLS =>
      if e.skillsPercent[k] == 0 then e.skills[k] else x.scaled(x.baseSkills[k], e.skillsPercent[k])), e.skillsPercent)
  }

  /** The record once a condition's effect has been applied. */
  function Begun(e: Effect, x: Circumstances, isPlayer: bool): Effect
    requires (e.Attributes? ==> |e.skills| == SKILLS && |e.skillsPercent| == SKILLS) && Fits(x)
  {
    match e
    case Speed(d) => if d == 0 then Speed(x.rolled) else e
    case Attributes(_, _) => if isPlayer then Percent(e, x) else e
    case Plain => e
  }

  /** A speed change of none is rolled; a percentage of a player's skill replaces the change; anything else stays as it is. */
  lemma BegunIs(e: Effect, x: Circumstances, isPlayer: bool)
    requires (e.Attributes? ==> |e.skills| == SKILLS && |e.skillsPercent| == SKILLS) && Fits(x)
    ensures var b := Begun(e, x, isPlayer);
      && (e == Speed(0) ==> b == Speed(x.rolled))
      && (e.Attributes? && isPlayer ==>
            && b.Attributes? && |b.skills| == SKILLS && b.skillsPercent == e.skillsPercent
            && forall k :: 0 <= k < SKILLS ==> b.skills[k] == if e.skillsPercent[k] != 0 then x.scaled(x.baseSkills[k], e.skillsPercent[k]) else e.skills[k])
      && ((e.Speed? && e.delta != 0) || e.Plain? || (e.Attributes? && !isPlayer) ==> b == e)
  {
  }

  function Started(c: Condition, x: Circumstances, isPlayer: bool): (r: Condition)
    requires WellFormed(c) && Fits(x)
    ensures WellFormed(r) && SameKey(r, c)
  {
    c.(endTime := if c.ticks > 0 then c.ticks + x.now else c.endTime, effect := Begun(c.effect, x, isPlayer))
  }

  /** Whether a condition there already is replaced by the new one's data. */
  predicate Updates(was: Condition, c: Condition, x: Circumstances) {
    && !(was.ticks == -1 && c.ticks > 0)
    && (was.effect.Speed? || !(c.ticks >= 0 && was.endTime > x.now + c.ticks))
  }

  /** `addCondition` of a condition there already. */
  function Refreshed(was: Condition, c: Condition, x: Circumstances, isPlayer: bool): (r: Condition)
    requires WellFormed(was) && WellFormed(c) && SameKey(was, c) && Fits(x)
    ensures WellFormed(r) && SameKey(r, was)
  {
    if Updates(was, c, x) then was.(ticks := c.ticks, endTime := c.ticks + x.now, effect := Begun(c.effect, x, isPlayer)) else was
  }

  // ---------------------------------------------------------------- time passing

  /** `Condition::executeCondition`. */
  function Aged(c: Condition, interval: nat): Condition {
    if c.ticks == -1 then c else c.(ticks := if c.ticks > interval then c.ticks - interval else 0)
  }

  predicate Expired(c: Condition, now: int) {
    c.ticks != -1 && c.endTime < now
  }

  /** What is left of the list: all aged, without those whose time is over. */
  function Survivors(l: seq<Condition>, interval: nat, now: int): seq<Condition> {
    if l == [] then [] else (if Expired(l[0], now) then [] else [Aged(l[0], interval)]) + Survivors(l[1..], interval, now)
  }

  /** An execution of all conditions: so long after the last one, at such a time. */
  datatype Tick = Tick(interval: nat, now: int)

  ghost function Executed(l: seq<Condition>, ticks: seq<Tick>): seq<Condition> {
    if ticks == [] then l
    else Survivors(Executed(l, ticks[..|ticks| - 1]), ticks[|ticks| - 1].interval, ticks[|ticks| - 1].now)
  }

  function Elapsed(ticks: seq<Tick>): nat {
    if ticks == [] then 0 else Elapsed(ticks[..|ticks| - 1]) + ticks[|ticks| - 1].interval
  }

  /** A condition without end stays as it is; any other, up to its end, has aged by the time elapsed. */
  lemma {:induction false} Lasts(l: seq<Condition>, c: Condition, ticks: seq<Tick>)
    requires c in l && c.ticks >= -1 && (c.ticks == -1 || forall t <- ticks :: t.now <= c.endTime)
    ensures Left(c, Elapsed(ticks)) in Executed(l, ticks)
  {
    if ticks != [] {
      var last, before := ticks[|ticks| - 1], ticks[..|ticks| - 1];
      Lasts(l, c, before);
      var d := Left(c, Elapsed(before));
      LeftLater(c, Elapsed(before), last.interval);
      Stays(Executed(l, before), last.interval, last.now, d);
    }
  }

  /** The condition once so much time has elapsed. */
  function Left(c: Condition, elapsed: nat): Condition {
    if c.ticks == -1 then c else c.(ticks := if c.ticks > elapsed then c.ticks - elapsed else 0)
  }

  lemma LeftLater(c: Condition, a: nat, b: nat)
    requires c.ticks >= -1
    ensures Left(c, a + b) == Aged(Left(c, a), b) && Left(c, a).endTime == c.endTime
  {
  }

  lemma {:induction false} Stays(l: seq<Condition>, interval: nat, now: int, d: Condition)
    requires d in l && (d.ticks == -1 || now <= d.endTime)
    ensures Aged(d, interval) in Survivors(l, interval, now)
  {
    if d != l[0] {
      Stays(l[1..], interval, now, d);
    }
  }

  /** What is in the list has been there, with the same end. */
  lemma {:induction false} WasThere(l: seq<Condition>, ticks: seq<Tick>, d: Condition)
    requires d in Executed(l, ticks)
    ensures exists c :: c in l && SameKey(c, d) && c.endTime == d.endTime && (d.ticks == -1 <==> c.ticks == -1)
  {
    if ticks != [] {
      var last, m := ticks[|ticks| - 1], Executed(l, ticks[..|ticks| - 1]);
      SurvivedFrom(m, last.interval, last.now, d);
      var c :| c in m && SameKey(c, d) && c.endTime == d.endTime && (d.ticks == -1 <==> c.ticks == -1) && (c.ticks == -1 || last.now <= c.endTime);
      WasThere(l, ticks[..|ticks| - 1], c);
    }
  }

  lemma {:induction false} SurvivedFrom(l: seq<Condition>, interval: nat, now: int, d: Condition)
    requires d in Survivors(l, interval, now)
    ensures exists c :: c in l && SameKey(c, d) && c.endTime == d.endTime && (d.ticks == -1 <==> c.ticks == -1) && (c.ticks == -1 || now <= c.endTime)
  {
    if !Expired(l[0], now) && d == Aged(l[0], interval) {
      assert l[0] in l;
    } else {
      SurvivedFrom(l[1..], interval, now, d);
    }
  }

  lemma UniqueKey(l: seq<Condition>, c: Condition, d: Condition)
    requires OneEach(l) && c in l && d in l && SameKey(c, d)
    ensures c == d
  {
  }

  /**
   A condition begun at some time for so many milliseconds is in the list at every execution up to that time
   plus these, and in force for just so long; at the first execution after, it is gone.
   */
  lemma LastsItsTime(l: seq<Condition>, c: Condition, x: Circumstances, isPlayer: bool, ticks: seq<Tick>, last: Tick)
    requires WellFormed(c) && Fits(x) && c.ticks > 0 && OneEach(l) && Started(c, x, isPlayer) in l
    requires forall t <- ticks :: t.now <= x.now + c.ticks
    ensures exists d :: d in Executed(l, ticks) && SameKey(d, c) && d.effect == Begun(c.effect, x, isPlayer)
                        && forall e: Circumstances :: IsActive(d, c.kind, c.subId, e) <==> e.now <= x.now + c.ticks
    ensures last.now > x.now + c.ticks ==> forall d <- Executed(l, ticks + [last]) :: !SameKey(d, c)
  {
    var b := Started(c, x, isPlayer);
    Lasts(l, b, ticks);
    var d := b.(ticks := if b.ticks > Elapsed(ticks) then b.ticks - Elapsed(ticks) else 0);
    assert forall e: Circumstances :: IsActive(d, c.kind, c.subId, e) <==> e.now <= x.now + c.ticks;
    if last.now > x.now + c.ticks {
      assert (ticks + [last])[..|ticks|] == ticks;
      forall g <- Executed(l, ticks + [last])
        ensures !SameKey(g, c)
      {
        if SameKey(g, c) {
          Outlived(l, b, ticks, last, g);
        }
      }
    }
  }

  lemma Outlived(l: seq<Condition>, b: Condition, ticks: seq<Tick>, last: Tick, g: Condition)
    requires OneEach(l) && b in l && b.ticks != -1 && g in Survivors(Executed(l, ticks), last.interval, last.now) && SameKey(g, b)
    ensures last.now <= b.endTime
  {
    hide OneEach;
    SurvivedFrom(Executed(l, ticks), last.interval, last.now, g);
    var h :| h in Executed(l, ticks) && SameKey(h, g) && h.endTime == g.endTime && (g.ticks == -1 <==> h.ticks == -1)
             && (h.ticks == -1 || last.now <= h.endTime);
    WasThere(l, ticks, h);
    var k :| k in l && SameKey(k, h) && k.endTime == h.endTime && (h.ticks == -1 <==> k.ticks == -1);
    UniqueKey(l, k, b);
  }

  /** A condition without end stays, and is in force at any time. */
  lemma LastsForever(l: seq<Condition>, c: Condition, x: Circumstances, isPlayer: bool, ticks: seq<Tick>)
    requires WellFormed(c) && Fits(x) && c.ticks == -1 && Started(c, x, isPlayer) in l
    ensures Started(c, x, isPlayer) in Executed(l, ticks)
    ensures forall e: Circumstances :: IsActive(Started(c, x, isPlayer), c.kind, c.subId, e)
  {
    Lasts(l, Started(c, x, isPlayer), ticks);
  }

  /**
   Adding a condition anew: one without end is not cut short; a speed change starts over; anything else lasts as long
   as the longer of the two.
   */
  lemma RefreshedEnd(was: Condition, c: Condition, x: Circumstances, isPlayer: bool)
    requires WellFormed(was) && WellFormed(c) && SameKey(was, c) && Fits(x)
    ensures var r := Refreshed(was, c, x, isPlayer);
      && (was.ticks == -1 && c.ticks > 0 ==> r == was)
      && (c.ticks == -1 ==> r.ticks == -1)
      && (was.ticks != -1 && c.ticks >= 0 && !was.effect.Speed? ==>
            r.endTime == if was.endTime > x.now + c.ticks then was.endTime else x.now + c.ticks)
      && (was.ticks != -1 && was.effect.Speed? ==> r.endTime == x.now + c.ticks && r.ticks == c.ticks && r.effect == Begun(c.effect, x, isPlayer))
      && (r == was || (r.ticks == c.ticks && r.endTime == x.now + c.ticks && r.effect == Begun(c.effect, x, isPlayer)))
  {
  }

  // ---------------------------------------------------------------- the creature

  class Creature {
    const isPlayer: bool
    var conditions: seq<Condition>
    var varSpeed: int
    var varSkills: seq<int>
    /** Speed and skills as they would be without conditions. */
    ghost const speed: int
    ghost const skills: seq<int>

    /** One condition each; speed and skills are what they would be, plus what is on record. */
    ghost predicate Balanced()
      reads this
    {
      && OneEach(conditions) && (forall c <- conditions :: WellFormed(c))
      && varSpeed == speed + SpeedSum(conditions)
      && |varSkills| == |skills| == SKILLS
      && (isPlayer ==> forall k :: 0 <= k < SKILLS ==> varSkills[k] == skills[k] + SkillSum(conditions, k))
    }

    constructor (isPlayer: bool, varSpeed: int, varSkills: seq<int>)
      requires |varSkills| == SKILLS
      ensures Balanced() && conditions == [] && this.isPlayer == isPlayer
    {
      this.isPlayer, this.varSpeed, this.varSkills := isPlayer, varSpeed, varSkills;
      conditions := [];
      speed, skills := varSpeed, varSkills;
    }

    /** `Game::changeSpeed`. */
    method ChangeSpeed(varSpeedDelta: int)
      modifies this`varSpeed
      ensures varSpeed == old(varSpeed) + varSpeedDelta
    {
      varSpeed := varSpeed + varSpeedDelta;
    }

    /** `ConditionAttributes::updateSkills`, or `endCondition` with the sign turned. */
    method ChangeSkills(changes: seq<int>, sign: int)
      requires |changes| == |varSkills| == SKILLS
      modifies this`varSkills
      ensures |varSkills| == SKILLS
      ensures forall k :: 0 <= k < SKILLS ==> varSkills[k] == old(varSkills)[k] + sign * changes[k]
    {
      var i := 0;
      while i < SKILLS
        invariant 0 <= i <= SKILLS && |varSkills| == SKILLS
        invariant forall k :: 0 <= k < i ==> varSkills[k] == old(varSkills)[k] + sign * changes[k]
        invariant forall k :: i <= k < SKILLS ==> varSkills[k] == old(varSkills)[k]
      {
        if changes[i] != 0 {
          varSkills := varSkills[i := varSkills[i] + sign * changes[i]];
        }
        i := i + 1;
      }
    }

    /** A condition's effect sets in. */
    method Apply(e: Effect)
      requires |varSkills| == SKILLS && (e.Attributes? ==> |e.skills| == SKILLS)
      modifies this`varSpeed, this`varSkills
      ensures |varSkills| == SKILLS
      ensures varSpeed == old(varSpeed) + (if e.Speed? then e.delta else 0)
      ensures isPlayer ==> forall k :: 0 <= k < SKILLS ==> varSkills[k] == old(varSkills)[k] + (if e.Attributes? then e.skills[k] else 0)
    {
      if e.Speed? {
        ChangeSpeed(e.delta);
      } else if e.Attributes? && isPlayer {
        ChangeSkills(e.skills, 1);
      }
    }

    /** `endCondition`. */
    method End(e: Effect)
      requires |varSkills| == SKILLS && (e.Attributes? ==> |e.skills| == SKILLS)
      modifies this`varSpeed, this`varSkills
      ensures |varSkills| == SKILLS
      ensures varSpeed == old(varSpeed) - (if e.Speed? then e.delta else 0)
      ensures isPlayer ==> forall k :: 0 <= k < SKILLS ==> varSkills[k] == old(varSkills)[k] - (if e.Attributes? then e.skills[k] else 0)
    {
      if e.Speed? {
        ChangeSpeed(-e.delta);
      } else if e.Attributes? && isPlayer {
        ChangeSkills(e.skills, -1);
      }
    }

    /** A condition goes off the list, and its effect ends. */
    method Erase(i: nat)
      requires Balanced() && i < |conditions|
      modifies this
      ensures Balanced() && conditions == Without(old(conditions), i)
    {
      var condition := conditions[i];
      assert condition in conditions;
      forall k | 0 <= k < SKILLS
        ensures SkillSum(conditions, k) == SkillSum(Without(conditions, i), k) + SkillOf(condition, k)
      {
        SumsSplit(conditions, i, k);
      }
      SumsSplit(conditions, i, 0);
      OneEachWithout(conditions, i);
      conditions := Without(conditions, i);
      End(condition.effect);
    }

    /** A removal of a kind is put off while the creature walks, if it is paralysis. */
    predicate PutOff(kind: nat, force: bool, walkDelay: int) {
      !force && kind == CONDITION_PARALYZE && walkDelay > 0
    }

    /** `Creature::removeCondition` by type; with an id, only those with that id. */
    method RemoveCondition(kind: nat, id: Option<int>, force: bool, walkDelay: int)
      requires Balanced()
      modifies this
      ensures Balanced()
      ensures conditions == if PutOff(kind, force, walkDelay) then old(conditions) else Rest(old(conditions), OfKind(kind, id))
      ensures if kind == CONDITION_PARALYZE && !force && walkDelay > 0 then conditions == old(conditions)
              else forall c :: c in conditions <==> c in old(conditions) && !(c.kind == kind && (id == None || id == Some(c.id)))
    {
      RestIs(conditions, kind, id);
      hide Balanced, Rest, OfKind;
      var i := 0;
      ghost var l, chosen := conditions, OfKind(kind, id);
      assert conditions[0..] == conditions;
      while i < |conditions|
        invariant i <= |conditions| && Balanced()
        invariant conditions[..i] + Rest(conditions[i..], chosen) == Rest(l, chosen)
        invariant PutOff(kind, force, walkDelay) ==> conditions == l
        decreases |conditions| - i
      {
        if !OfKind(kind, id)(conditions[i]) {
          SkipOne(conditions, i, chosen);
          i := i + 1;
          continue;
        }
        if !force && kind == CONDITION_PARALYZE && walkDelay > 0 {
          return;
        }
        DropOne(conditions, i, chosen);
        Erase(i);
      }
      RestOfNone(chosen);
      assert conditions[..i] == conditions && conditions[i..] == [];
    }

    /** `Creature::removeCondition` of one condition, known by its key. */
    method RemoveOne(c: Condition, force: bool, walkDelay: int)
      requires Balanced()
      modifies this
      ensures Balanced()
      ensures var l := old(conditions); var i := Find(l, c.kind, c.id, c.subId);
        conditions == if i == |l| || PutOff(c.kind, force, walkDelay) then l else Without(l, i)
    {
      var i := Find(conditions, c.kind, c.id, c.subId);
      if i == |conditions| {
        return;
      }
      if !force && c.kind == CONDITION_PARALYZE && walkDelay > 0 {
        return;
      }
      Erase(i);
    }

    /** `Creature::hasCondition`. */
    method HasCondition(kind: nat, subId: nat, x: Circumstances) returns (has: bool)
      ensures has == Has(conditions, kind, subId, x)
    {
      if x.suppressed(kind) {
        return false;
      }
      var i := 0;
      while i < |conditions|
        invariant i <= |conditions|
        invariant forall j :: 0 <= j < i ==> !IsActive(conditions[j], kind, subId, x)
      {
        if IsActive(conditions[i], kind, subId, x) {
          return true;
        }
        i := i + 1;
      }
      return false;
    }

    /** `Creature::onAddCondition`: paralysis ends haste, and haste ends paralysis. */
    method OnAddCondition(kind: nat, x: Circumstances)
      requires Balanced()
      modifies this
      ensures Balanced() && conditions == WithoutOpposite(old(conditions), kind, x)
    {
      if kind == CONDITION_PARALYZE {
        var hasted := HasCondition(CONDITION_HASTE, 0, x);
        if hasted {
          RemoveCondition(CONDITION_HASTE, None, false, x.walkDelay);
        }
      } else if kind == CONDITION_HASTE {
        var paralyzed := HasCondition(CONDITION_PARALYZE, 0, x);
        if paralyzed {
          RemoveCondition(CONDITION_PARALYZE, None, false, x.walkDelay);
        }
      }
    }

    /** A condition already there takes over the new one's data; its effect is exchanged. */
    method Refresh(i: nat, c: Condition, x: Circumstances)
      requires Balanced() && i < |conditions| && WellFormed(c) && SameKey(conditions[i], c) && Fits(x)
      modifies this
      ensures Balanced()
      ensures WellFormed(old(conditions)[i]) && conditions == old(conditions)[i := Refreshed(old(conditions)[i], c, x, isPlayer)]
    {
      var before := conditions[i];
      assert before in conditions;
      if !Updates(before, c, x) {
        return;
      }
      var after := Refreshed(before, c, x, isPlayer);
      forall k | 0 <= k < SKILLS
        ensures SkillSum(conditions[i := after], k) == SkillSum(conditions, k) - SkillOf(before, k) + SkillOf(after, k)
      {
        SumsUpdate(conditions, i, after, k);
      }
      SumsUpdate(conditions, i, after, 0);
      OneEachUpdate(conditions, i, after);
      End(before.effect);
      conditions := conditions[i := after];
      Apply(after.effect);
    }

    /** A condition not there yet starts, and joins the list. */
    method Begin(c: Condition, x: Circumstances)
      requires Balanced() && WellFormed(c) && Fits(x) && Find(conditions, c.kind, c.id, c.subId) == |conditions|
      modifies this
      ensures Balanced() && conditions == old(conditions) + [Started(c, x, isPlayer)]
    {
      var started := Started(c, x, isPlayer);
      forall k | 0 <= k < SKILLS
        ensures SkillSum(conditions + [started], k) == SkillSum(conditions, k) + SkillOf(started, k)
      {
        SumsAppend(conditions, started, k);
      }
      SumsAppend(conditions, started, 0);
      Apply(started.effect);
      conditions := conditions + [started];
    }

    /** `Creature::addCondition`; haste is put off while the creature walks paralyzed. */
    method AddCondition(c: Condition, force: bool, x: Circumstances) returns (added: bool)
      requires Balanced() && WellFormed(c) && Fits(x)
      modifies this
      ensures Balanced()
      ensures added == !Deferred(old(conditions), c, force, x)
      ensures added <==> force || c.kind != CONDITION_HASTE || x.walkDelay <= 0 || x.suppressed(CONDITION_PARALYZE)
                         || forall d <- old(conditions) :: d.kind == CONDITION_PARALYZE && d.subId == 0 ==> d.ticks != -1 && d.endTime < x.now
      ensures (forall d <- old(conditions) :: WellFormed(d)) && conditions == Added(old(conditions), c, force, x, isPlayer)
    {
      if !force && c.kind == CONDITION_HASTE {
        var paralyzed := HasCondition(CONDITION_PARALYZE, 0, x);
        if paralyzed && x.walkDelay > 0 {
          return false;
        }
      }
      var i := Find(conditions, c.kind, c.id, c.subId);
      if i < |conditions| {
        Refresh(i, c, x);
        return true;
      }
      Begin(c, x);
      OnAddCondition(c.kind, x);
      return true;
    }

    /** `Creature::executeConditions`: every condition ages, and those whose time is over end. */
    method ExecuteConditions(interval: nat, now: int)
      requires Balanced()
      modifies this
      ensures Balanced() && conditions == Survivors(old(conditions), interval, now)
    {
      hide Balanced, Survivors;
      var tempConditions := conditions;
      var n := 0;
      SurvivorsStart(tempConditions, interval, now);
      while n < |tempConditions|
        invariant n <= |tempConditions| && Balanced()
        invariant conditions == Survivors(tempConditions[..n], interval, now) + tempConditions[n..]
      {
        ExecuteOne(tempConditions, n, interval, now);
        n := n + 1;
      }
      assert tempConditions[..n] == tempConditions;
      assert tempConditions[n..] == [];
    }

    /** The next condition ages, and ends if its time is over. */
    method ExecuteOne(tempConditions: seq<Condition>, n: nat, interval: nat, now: int)
      requires Balanced() && n < |tempConditions|
      requires conditions == Survivors(tempConditions[..n], interval, now) + tempConditions[n..]
      modifies this
      ensures Balanced()
      ensures conditions == Survivors(tempConditions[..n + 1], interval, now) + tempConditions[n + 1..]
    {
      hide Balanced, Survivors, Without, Find, OneEach, Expired, Aged;
      var condition := tempConditions[n];
      BalancedOneEach();
      SurvivorsStep(tempConditions, n, interval, now);
      FindsItself(conditions, |Survivors(tempConditions[..n], interval, now)|);
      var i := Find(conditions, condition.kind, condition.id, condition.subId);
      if i < |conditions| {
        Age(i, interval);
        if Expired(condition, now) {
          Erase(i);
        }
      }
    }

    lemma BalancedOneEach()
      requires Balanced()
      ensures OneEach(conditions)
    {
    }

    method Age(i: nat, interval: nat)
      requires Balanced() && i < |conditions|
      modifies this`conditions
      ensures Balanced() && conditions == old(conditions)[i := Aged(old(conditions)[i], interval)]
    {
      var before, after := conditions[i], Aged(conditions[i], interval);
      assert before in conditions;
      forall k | 0 <= k < SKILLS
        ensures SkillSum(conditions[i := after], k) == SkillSum(conditions, k)
      {
        SumsUpdate(conditions, i, after, k);
      }
      SumsUpdate(conditions, i, after, 0);
      OneEachUpdate(conditions, i, after);
      conditions := conditions[i := after];
    }
  }

  lemma OneEachUpdate(l: seq<Condition>, i: nat, c: Condition)
    requires OneEach(l) && i < |l| && SameKey(l[i], c)
    ensures OneEach(l[i := c])
  {
  }

  lemma FindsItself(l: seq<Condition>, i: nat)
    requires OneEach(l)
    ensures i < |l| ==> Find(l, l[i].kind, l[i].id, l[i].subId) == i
  {
  }

  lemma SurvivorsStart(l: seq<Condition>, interval: nat, now: int)
    ensures l == Survivors(l[..0], interval, now) + l[0..]
  {
  }

  lemma {:induction false} SurvivorsAppend(a: seq<Condition>, c: Condition, interval: nat, now: int)
    ensures Survivors(a + [c], interval, now) == Survivors(a, interval, now) + (if Expired(c, now) then [] else [Aged(c, interval)])
  {
    if a != [] {
      assert (a + [c])[1..] == a[1..] + [c];
      SurvivorsAppend(a[1..], c, interval, now);
    }
  }

  // One more condition has been seen to.
  lemma SurvivorsStep(l: seq<Condition>, n: nat, interval: nat, now: int)
    requires n < |l|
    ensures var done := Survivors(l[..n], interval, now);
      var now1, i := done + l[n..], |done|;
      && i < |now1| && now1[i] == l[n]
      && var aged := now1[i := Aged(l[n], interval)];
      Survivors(l[..n + 1], interval, now) + l[n + 1..] == if Expired(l[n], now) then Without(aged, i) else aged
  {
    hide Survivors, Without, Aged, Expired;
    assert l[..n + 1] == l[..n] + [l[n]] && l[n..] == [l[n]] + l[n + 1..];
    SurvivorsAppend(l[..n], l[n], interval, now);
    InTheMiddle(Survivors(l[..n], interval, now), l[n], Aged(l[n], interval), l[n + 1..]);
  }

  lemma InTheMiddle(a: seq<Condition>, c: Condition, d: Condition, b: seq<Condition>)
    ensures (a + ([c] + b))[|a|] == c && (a + ([c] + b))[|a| := d] == a + [d] + b
    ensures Without((a + ([c] + b))[|a| := d], |a|) == a + [] + b
  {
    var l := a + ([c] + b);
    assert l[|a| := d] == a + [d] + b;
    assert (a + [d] + b)[..|a|] == a && (a + [d] + b)[|a| + 1..] == b;
  }

  /** The list once the opposite of a new kind has been removed, unless that is put off. */
  ghost function WithoutOpposite(l: seq<Condition>, kind: nat, x: Circumstances): seq<Condition> {
    if kind == CONDITION_PARALYZE && Has(l, CONDITION_HASTE, 0, x) then Rest(l, OfKind(CONDITION_HASTE, None))
    else if kind == CONDITION_HASTE && Has(l, CONDITION_PARALYZE, 0, x) && x.walkDelay <= 0 then Rest(l, OfKind(CONDITION_PARALYZE, None))
    else l
  }

  ghost predicate Deferred(l: seq<Condition>, c: Condition, force: bool, x: Circumstances) {
    !force && c.kind == CONDITION_HASTE && Has(l, CONDITION_PARALYZE, 0, x) && x.walkDelay > 0
  }

  /** The list after an addition. */
  ghost function Added(l: seq<Condition>, c: Condition, force: bool, x: Circumstances, isPlayer: bool): seq<Condition>
    requires (forall d <- l :: WellFormed(d)) && WellFormed(c) && Fits(x)
  {
    var i := Find(l, c.kind, c.id, c.subId);
    if Deferred(l, c, force, x) then l
    else if i < |l| then assert l[i] in l; l[i := Refreshed(l[i], c, x, isPlayer)]
    else WithoutOpposite(l + [Started(c, x, isPlayer)], c.kind, x)
  }

  lemma {:induction false} RestHasNone(l: seq<Condition>, chosen: Condition -> bool)
    ensures forall c <- Rest(l, chosen) :: c in l && !chosen(c)
  {
    if l != [] {
      RestHasNone(l[1..], chosen);
    }
  }

  /** Removing leaves exactly the others. */
  lemma {:induction false} RestIs(l: seq<Condition>, kind: nat, id: Option<int>)
    ensures forall c :: c in Rest(l, OfKind(kind, id)) <==> c in l && !(c.kind == kind && (id == None || id == Some(c.id)))
  {
    if l != [] {
      RestIs(l[1..], kind, id);
    }
  }

  /**
   An addition that is not put off leaves every condition of another kind but the opposite; a new condition begins,
   and is there; one there already is refreshed.
   */
  lemma AddedThere(l: seq<Condition>, c: Condition, force: bool, x: Circumstances, isPlayer: bool)
    requires (forall d <- l :: WellFormed(d)) && WellFormed(c) && Fits(x) && OneEach(l) && !Deferred(l, c, force, x)
    ensures var m := Added(l, c, force, x, isPlayer);
      && (forall d <- l | !SameKey(d, c) && (d.kind != CONDITION_HASTE || c.kind != CONDITION_PARALYZE)
                          && (d.kind != CONDITION_PARALYZE || c.kind != CONDITION_HASTE || x.walkDelay > 0) :: d in m)
      && ((forall d <- l :: !SameKey(d, c)) ==> Started(c, x, isPlayer) in m)
      && forall d <- l :: SameKey(d, c) ==> Refreshed(d, c, x, isPlayer) in m
  {
    var i := Find(l, c.kind, c.id, c.subId);
    if i < |l| {
      var m := l[i := Refreshed(l[i], c, x, isPlayer)];
      assert m[i] == Refreshed(l[i], c, x, isPlayer);
      forall d <- l | !SameKey(d, c)
        ensures d in m
      {
        var j :| 0 <= j < |l| && l[j] == d;
        assert m[j] == d;
      }
    } else {
      RestIs(l + [Started(c, x, isPlayer)], CONDITION_HASTE, None);
      RestIs(l + [Started(c, x, isPlayer)], CONDITION_PARALYZE, None);
    }
  }

  /**
   A new paralysis ends all haste that is in force; a new haste ends all paralysis in force, unless the
   creature is still walking.
   */
  lemma OppositeEnds(l: seq<Condition>, c: Condition, force: bool, x: Circumstances, isPlayer: bool)
    requires (forall d <- l :: WellFormed(d)) && WellFormed(c) && Fits(x)
    requires Find(l, c.kind, c.id, c.subId) == |l| && !Deferred(l, c, force, x)
    ensures c.kind == CONDITION_PARALYZE ==> !Has(Added(l, c, force, x, isPlayer), CONDITION_HASTE, 0, x)
    ensures c.kind == CONDITION_HASTE && x.walkDelay <= 0 ==> !Has(Added(l, c, force, x, isPlayer), CONDITION_PARALYZE, 0, x)
  {
    var m := l + [Started(c, x, isPlayer)];
    RestHasNone(m, OfKind(CONDITION_HASTE, None));
    RestHasNone(m, OfKind(CONDITION_PARALYZE, None));
  }

  lemma RestOfNone(chosen: Condition -> bool)
    ensures Rest([], chosen) == []
  {
  }

  lemma SkipOne(l: seq<Condition>, i: nat, chosen: Condition -> bool)
    requires i < |l| && !chosen(l[i])
    ensures l[..i] + Rest(l[i..], chosen) == l[..i + 1] + Rest(l[i + 1..], chosen)
  {
    assert l[i..][1..] == l[i + 1..];
    Assoc(l[..i], [l[i]], Rest(l[i + 1..], chosen));
    assert l[..i + 1] == l[..i] + [l[i]];
  }

  lemma DropOne(l: seq<Condition>, i: nat, chosen: Condition -> bool)
    requires i < |l| && chosen(l[i])
    ensures l[..i] + Rest(l[i..], chosen) == Without(l, i)[..i] + Rest(Without(l, i)[i..], chosen)
  {
    assert l[i..][1..] == l[i + 1..] == Without(l, i)[i..] && Without(l, i)[..i] == l[..i];
    assert [] + Rest(l[i + 1..], chosen) == Rest(l[i + 1..], chosen);
  }

  /** The conditions of a kind, and with an id if one is given. */
  function OfKind(kind: nat, id: Option<int>): Condition -> bool {
    (c: Condition) => c.kind == kind && (id.Some? ==> c.id == id.value)
  }
}
