/**
 Trading between players (src/game.cpp): a request, a counter-offer, two acceptances, and the close that
 either side, or any disturbance, may bring about at any time. Methods change players, items and the
 register in place; the steps are stated on the state as a value. Every run keeps the bookkeeping right
 for any number of players, and items change hands only when both sides have offered and both accepted.
 */
module Trade {

  datatype TradeState = None | Initiated | Accept | Acknowledge | Transfer

  class Item {
    var referenceCounter: int
  }

  class Player {
    const id: nat
    var tradeState: TradeState
    var tradePartner: Player?
    var tradeItem: Item?
  }

  /** An item handed to a player. */
  datatype Handed = Handed(item: Item, to: Player)

  datatype Trader = Trader(state: TradeState, partner: Player?, item: Item?)

  const IDLE := Trader(None, null, null)

  /** Players, the register of offered items with their owners' ids, released items, and all reference counters. */
  datatype World = World(
    traders: map<Player, Trader>, register: map<Item, nat>, released: seq<Item>, refs: map<Item, int>, handed: seq<Handed>)

  /** What the scripts, and the checks outside trading, answer. */
  datatype Answers = Answers(visible: bool, allowed: bool, fitsPartner: bool, fitsPlayer: bool, removable: bool, moves: bool)

  // ---------------------------------------------------------------- what every state satisfies

  /** A player's state, partner and offer agree, and the partner agrees with them. */
  ghost predicate Consistent(w: World, p: Player)
    requires p in w.traders
  {
    var t := w.traders[p];
    && t.state != Transfer
    && (t.state == None <==> t.partner == null)
    && (t.partner != null ==> t.partner != p && t.partner in w.traders && w.traders[t.partner].partner == p)
    && (t.state == None || t.state == Acknowledge ==> t.item == null)
    && (t.state == Initiated ==> t.item != null)
    && (t.item != null ==> t.item in w.register && w.register[t.item] == p.id)
  }

  /** Someone offers i. */
  ghost predicate Offered(w: World, i: Item) {
    exists p :: p in w.traders && w.traders[p].item == i
  }

  /** References to i held by trades: the open one's, and ended ones' still to be given back. */
  ghost function Held(w: World, i: Item): int {
    (if i in w.register then 1 else 0) + multiset(w.released)[i]
  }

  /** The counter is what it is without trades, and the trades' references. */
  ghost predicate Counted(w: World, others: map<Item, int>, i: Item) {
    i in w.refs && i in others && w.refs[i] == others[i] + Held(w, i)
  }

  ghost predicate UniqueIds(w: World) {
    forall p, q :: p in w.traders && q in w.traders && p.id == q.id ==> p == q
  }

  ghost predicate Sound(w: World, others: map<Item, int>) {
    && UniqueIds(w)
    && (forall p <- w.traders :: Consistent(w, p))
    && (forall i <- w.register :: Offered(w, i))
    && Ledger(w, others)
  }

  /** Every counter is right. */
  ghost predicate Ledger(w: World, others: map<Item, int>) {
    && (forall i <- w.register.Keys :: i in others) && (forall i <- w.released :: i in others)
    && (forall i <- others :: Counted(w, others, i))
  }

  /** Partners name each other; no item is offered by two; the register has exactly the offered items. */
  lemma Bookkeeping(w: World, others: map<Item, int>, p: Player, q: Player, i: Item)
    requires Sound(w, others) && p in w.traders && q in w.traders
    ensures w.traders[p].partner == q <==> w.traders[q].partner == p
    ensures w.traders[p].item == w.traders[q].item != null ==> p == q
    ensures i in w.register <==> Offered(w, i)
    ensures w.traders[p].item == i ==> i in w.register && w.register[i] == p.id
  {
    assert Consistent(w, p) && Consistent(w, q);
    if Offered(w, i) {
      var r :| r in w.traders && w.traders[r].item == i;
      assert Consistent(w, r);
    }
  }

  // ---------------------------------------------------------------- the steps

  /** Neither is busy with someone else, and the player has not offered anything yet. */
  ghost predicate MayStart(w: World, player: Player, partner: Player)
    requires player in w.traders && partner in w.traders
  {
    var a, b := w.traders[player], w.traders[partner];
    && (a.state == None || (a.state == Acknowledge && a.partner == partner))
    && (b.state == None || b.partner == player)
  }

  ghost function Started(w: World, player: Player, partner: Player, item: Item): World
    requires partner in w.traders && item in w.refs
  {
    var b := w.traders[partner];
    var b' := if b.state == None then Trader(Acknowledge, player, b.item) else b;
    w.(traders := w.traders[player := Trader(Initiated, partner, item)][partner := b'],
       register := w.register[item := player.id],
       refs := w.refs[item := w.refs[item] + 1])
  }

  /** i leaves the register; its reference is given back at the next cleanup. */
  ghost function Unregistered(w: World, i: Item?): World {
    if i != null && i in w.register then w.(register := w.register - {i}, released := w.released + [i]) else w
  }

  /** Both sides are idle again. */
  ghost function Parted(w: World, player: Player): World
    requires player in w.traders
  {
    var partner := w.traders[player].partner;
    if partner == null then w.(traders := w.traders[player := IDLE])
    else w.(traders := w.traders[player := IDLE][partner := IDLE])
  }

  ghost function OfferOf(w: World, p: Player?): Item? {
    if p != null && p in w.traders then w.traders[p].item else null
  }

  ghost function Closed(w: World, player: Player): World
    requires player in w.traders
  {
    var partner := w.traders[player].partner;
    Parted(Unregistered(Unregistered(w, w.traders[player].item), OfferOf(w, partner)), player)
  }

  ghost predicate MayAccept(w: World, player: Player, a: Answers)
    requires player in w.traders
  {
    var t := w.traders[player];
    (t.state == Acknowledge || t.state == Initiated) && t.partner != null && a.visible
  }

  /** The items can be exchanged: there are two, and every check says yes. */
  ghost predicate Exchanges(w: World, player: Player, a: Answers)
    requires player in w.traders
  {
    && w.traders[player].item != null && OfferOf(w, w.traders[player].partner) != null
    && a.fitsPartner && a.fitsPlayer && a.removable && a.moves
  }

  ghost function Accepting(w: World, player: Player): World
    requires player in w.traders
  {
    w.(traders := w.traders[player := w.traders[player].(state := Accept)])
  }

  ghost function Accepted(w: World, player: Player, a: Answers): World
    requires player in w.traders
  {
    if !MayAccept(w, player, a) then w else
    var partner := w.traders[player].partner;
    var w1 := Accepting(w, player);
    if partner !in w.traders || w.traders[partner].state != Accept then w1
    else if !a.allowed then Closed(w1, player)
    else
      var w2 := Closed(w1, player);
      if Exchanges(w, player, a) then
        w2.(handed := w2.handed + [Handed(w.traders[player].item, partner), Handed(OfferOf(w, partner), player)])
      else w2
  }

  ghost function Cleaned(w: World): World {
    w.(released := [], refs := Lowered(w.refs, w.released))
  }

  // ---------------------------------------------------------------- each step keeps the state sound

  lemma StartedSound(w: World, others: map<Item, int>, player: Player, partner: Player, item: Item)
    requires Sound(w, others) && player in w.traders && partner in w.traders && player != partner
    requires item in others && item !in w.register && MayStart(w, player, partner)
    ensures item in w.refs && Sound(Started(w, player, partner, item), others)
  {
    assert Counted(w, others, item);
    var w' := Started(w, player, partner, item);
    assert Consistent(w, player) && Consistent(w, partner);
    forall p <- w'.traders
      ensures Consistent(w', p)
    {
      assert Consistent(w, p);
    }
    forall i <- w'.register
      ensures Offered(w', i)
    {
      if i == item {
        assert w'.traders[player].item == item;
      } else {
        var p :| p in w.traders && w.traders[p].item == i;
        assert w'.traders[p].item == i;
      }
    }
    forall i <- others
      ensures Counted(w', others, i)
    {
      assert Counted(w, others, i);
    }
  }

  lemma AcceptingSound(w: World, others: map<Item, int>, player: Player)
    requires Sound(w, others) && player in w.traders && w.traders[player].state in {Acknowledge, Initiated}
    ensures Sound(Accepting(w, player), others)
  {
    var w' := Accepting(w, player);
    forall p <- w'.traders
      ensures Consistent(w', p)
    {
      assert Consistent(w, p);
    }
    forall i <- w'.register
      ensures Offered(w', i)
    {
      var p :| p in w.traders && w.traders[p].item == i;
      assert w'.traders[p].item == i;
    }
    forall i <- others
      ensures Counted(w', others, i)
    {
      assert Counted(w, others, i);
    }
  }

  lemma UnregisteredLedger(w: World, others: map<Item, int>, i: Item?)
    requires Ledger(w, others)
    ensures Ledger(Unregistered(w, i), others)
  {
    var w' := Unregistered(w, i);
    if i != null && i in w.register {
      var k: Item := i;
      assert multiset(w'.released) == multiset(w.released) + multiset{k};
      forall j <- others
        ensures Counted(w', others, j)
      {
        assert Counted(w, others, j);
      }
    }
  }

  lemma PartedLedger(w: World, others: map<Item, int>, player: Player)
    requires Ledger(w, others) && player in w.traders
    ensures Ledger(Parted(w, player), others)
  {
    var w' := Parted(w, player);
    assert forall j <- others :: Counted(w, others, j) ==> Counted(w', others, j);
  }

  lemma ClosedLedger(w: World, others: map<Item, int>, player: Player)
    requires Ledger(w, others) && player in w.traders
    ensures Ledger(Closed(w, player), others)
  {
    hide Ledger;
    UnregisteredLedger(w, others, w.traders[player].item);
    var w1, b := Unregistered(w, w.traders[player].item), OfferOf(w, w.traders[player].partner);
    UnregisteredLedger(w1, others, b);
    PartedLedger(Unregistered(w1, b), others, player);
  }

  // Closing a trade does not touch anyone else's partner or offer.
  lemma Bystander(w: World, others: map<Item, int>, player: Player, p: Player)
    requires Sound(w, others) && player in w.traders && p in w.traders && p != player && p != w.traders[player].partner
    ensures var t, partner := w.traders[p], w.traders[player].partner;
      && t.partner != player && (partner != null ==> t.partner != partner)
      && (t.item != null ==> t.item != w.traders[player].item && t.item != OfferOf(w, partner))
  {
    assert Consistent(w, p) && Consistent(w, player);
    var partner := w.traders[player].partner;
    if partner != null {
      assert Consistent(w, partner);
    }
  }

  lemma ClosedParts(w: World, player: Player)
    requires player in w.traders && (w.traders[player].partner != null ==> w.traders[player].partner in w.traders)
    ensures var w', partner := Closed(w, player), w.traders[player].partner;
      && w'.traders.Keys == w.traders.Keys && w'.traders[player] == IDLE
      && (partner != null ==> w'.traders[partner] == IDLE)
      && (forall p <- w.traders :: p != player && p != partner ==> w'.traders[p] == w.traders[p])
      && w'.handed == w.handed
      && (forall j :: j in w'.register <==> j in w.register && j != w.traders[player].item && j != OfferOf(w, partner))
      && (forall j :: j in w'.register ==> w'.register[j] == w.register[j])
  {
  }

  lemma ClosedConsistent(w: World, others: map<Item, int>, player: Player, p: Player)
    requires Sound(w, others) && player in w.traders && p in w.traders
    ensures p in Closed(w, player).traders && Consistent(Closed(w, player), p)
  {
    assert Consistent(w, player) && Consistent(w, p);
    ClosedParts(w, player);
    hide Closed, Ledger, OfferOf;
    if p != player && p != w.traders[player].partner {
      Bystander(w, others, player, p);
    }
  }

  lemma ClosedOffers(w: World, others: map<Item, int>, player: Player, j: Item)
    requires Sound(w, others) && player in w.traders && j in Closed(w, player).register
    ensures Offered(Closed(w, player), j)
  {
    assert Consistent(w, player);
    ClosedParts(w, player);
    var w' := Closed(w, player);
    assert Offered(w, j);
    hide Closed, Ledger, Consistent;
    var p :| p in w.traders && w.traders[p].item == j;
    assert w'.traders[p].item == j;
  }

  lemma ClosedSound(w: World, others: map<Item, int>, player: Player)
    requires Sound(w, others) && player in w.traders
    ensures Sound(Closed(w, player), others)
  {
    assert Consistent(w, player);
    ClosedLedger(w, others, player);
    ClosedParts(w, player);
    var w' := Closed(w, player);
    hide Closed, Ledger, Consistent, Offered;
    forall p <- w'.traders
      ensures Consistent(w', p)
    {
      ClosedConsistent(w, others, player, p);
    }
    forall j <- w'.register
      ensures Offered(w', j)
    {
      ClosedOffers(w, others, player, j);
    }
  }

  lemma HandedAside(w: World, others: map<Item, int>, h: seq<Handed>)
    requires Sound(w, others)
    ensures Sound(w.(handed := h), others)
  {
    var w' := w.(handed := h);
    assert forall p <- w'.traders :: Consistent(w, p) ==> Consistent(w', p);
    forall i <- w'.register
      ensures Offered(w', i)
    {
      var p :| p in w.traders && w.traders[p].item == i;
      assert w'.traders[p].item == i;
    }
    assert forall i <- others :: Counted(w, others, i) ==> Counted(w', others, i);
  }

  lemma AcceptedSound(w: World, others: map<Item, int>, player: Player, a: Answers)
    requires Sound(w, others) && player in w.traders
    ensures Sound(Accepted(w, player, a), others)
  {
    hide Sound, Closed;
    if MayAccept(w, player, a) {
      AcceptingSound(w, others, player);
      var w1 := Accepting(w, player);
      ClosedSound(w1, others, player);
      HandedAside(Closed(w1, player), others, Accepted(w, player, a).handed);
    }
  }

  lemma CleanedSound(w: World, others: map<Item, int>)
    requires Sound(w, others)
    ensures Sound(Cleaned(w), others)
  {
    var w' := Cleaned(w);
    forall p <- w'.traders
      ensures Consistent(w', p)
    {
      assert Consistent(w, p);
    }
    forall i <- w'.register
      ensures Offered(w', i)
    {
      var p :| p in w.traders && w.traders[p].item == i;
      assert w'.traders[p].item == i;
    }
    forall i <- others
      ensures Counted(w', others, i)
    {
      assert Counted(w, others, i);
    }
  }

  // ---------------------------------------------------------------- whole runs

  datatype Step =
    | Request(player: Player, partner: Player, item: Item)
    | Consent(player: Player, answers: Answers)
    | Close(player: Player)
    | Cleanup

  /** A request as `Game::playerRequestTrade` lets it through. */
  ghost predicate MayRequest(w: World, player: Player, partner: Player, item: Item) {
    player in w.traders && partner in w.traders && player != partner && item in w.refs && item !in w.register && MayStart(w, player, partner)
  }

  ghost function After(w: World, step: Step): World {
    match step
    case Request(player, partner, item) => if MayRequest(w, player, partner, item) then Started(w, player, partner, item) else w
    case Consent(player, answers) => if player in w.traders then Accepted(w, player, answers) else w
    case Close(player) => if player in w.traders then Closed(w, player) else w
    case Cleanup => Cleaned(w)
  }

  ghost function Run(w: World, steps: seq<Step>): World {
    if steps == [] then w else After(Run(w, steps[..|steps| - 1]), steps[|steps| - 1])
  }

  /** Every player is idle, nothing is registered, and no reference is a trade's. */
  ghost predicate Quiet(w: World, others: map<Item, int>) {
    UniqueIds(w) && (forall p <- w.traders :: w.traders[p] == IDLE) && w.register == map[] && w.released == [] && w.refs == others
  }

  lemma StepSound(w: World, others: map<Item, int>, step: Step)
    requires Sound(w, others) && w.refs.Keys == others.Keys
    ensures Sound(After(w, step), others) && After(w, step).refs.Keys == others.Keys
  {
    hide Sound, Closed, Accepted;
    match step
    case Request(player, partner, item) =>
      if MayRequest(w, player, partner, item) {
        StartedSound(w, others, player, partner, item);
      }
    case Consent(player, answers) =>
      if player in w.traders {
        AcceptedSound(w, others, player, answers);
        KeysKept(w, player, answers);
      }
    case Close(player) =>
      if player in w.traders {
        ClosedSound(w, others, player);
        KeysKept(w, player, Answers(false, false, false, false, false, false));
      }
    case Cleanup =>
      CleanedSound(w, others);
  }

  lemma KeysKept(w: World, player: Player, a: Answers)
    requires player in w.traders
    ensures Closed(w, player).refs == w.refs && Accepted(w, player, a).refs == w.refs
  {
  }

  /** In every state of every run the bookkeeping is right. */
  lemma {:induction false} RunSound(w: World, others: map<Item, int>, steps: seq<Step>)
    requires Quiet(w, others)
    ensures Sound(Run(w, steps), others) && Run(w, steps).refs.Keys == others.Keys
  {
    if steps == [] {
      assert forall p <- w.traders :: Consistent(w, p);
      assert forall i <- others :: Counted(w, others, i);
    } else {
      RunSound(w, others, steps[..|steps| - 1]);
      hide Sound, After;
      StepSound(Run(w, steps[..|steps| - 1]), others, steps[|steps| - 1]);
    }
  }

  /** Both have offered, the partner has accepted, and the player is accepting. */
  ghost predicate BothSides(w: World, player: Player)
    requires player in w.traders
  {
    var t := w.traders[player];
    && t.item != null && t.partner != null && t.partner in w.traders
    && w.traders[t.partner].item != null && w.traders[t.partner].state == Accept
    && t.state in {Initiated, Acknowledge}
  }

  /** Items are handed over only by a consent on both sides, and then exactly the two offered, each to the other side. */
  lemma HandedOnlyByBoth(w: World, others: map<Item, int>, step: Step)
    requires Sound(w, others) && After(w, step).handed != w.handed
    ensures step.Consent? && step.player in w.traders && BothSides(w, step.player)
    ensures var t := w.traders[step.player];
      && After(w, step).handed == w.handed + [Handed(t.item, t.partner), Handed(w.traders[t.partner].item, step.player)]
      && w.traders[t.partner].partner == step.player
    ensures var w', t := After(w, step), w.traders[step.player];
      && w'.traders[step.player] == IDLE && w'.traders[t.partner] == IDLE && t.item !in w'.register && w.traders[t.partner].item !in w'.register
  {
    match step
    case Request(player, partner, item) =>
    case Consent(player, answers) =>
      assert player in w.traders;
      var partner := w.traders[player].partner;
      assert Consistent(w, player);
      AcceptingSound(w, others, player);
      assert Consistent(Accepting(w, player), player);
      ClosedParts(Accepting(w, player), player);
    case Close(player) =>
      if player in w.traders {
        assert Consistent(w, player);
        ClosedParts(w, player);
      }
    case Cleanup =>
  }

  /** Whether a consent counts: the player has offered or been asked, has not accepted yet, and sees the partner. */
  predicate Counts(t: Trader, a: Answers) {
    (t.state == Initiated || t.state == Acknowledge) && a.visible
  }

  /**
   What a consent brings about. If it does not count, nothing. If it is the first of the two, the player has
   accepted, and nobody is idle. If it is the second, both are idle and their offers off the register, and the
   two items change hands exactly if the script allows it, both have offered, both items fit, both can be taken,
   and the first of the two moves succeeds.
   */
  lemma ConsentOutcome(w: World, others: map<Item, int>, player: Player, a: Answers)
    requires Sound(w, others) && player in w.traders
    ensures var t, w' := w.traders[player], After(w, Consent(player, a));
      && (!Counts(t, a) ==> w' == w)
      && (Counts(t, a) ==>
            && t.partner != null && t.partner in w.traders
            && var b := w.traders[t.partner];
            && (b.state != Accept ==>
                  && w' == w.(traders := w.traders[player := Trader(Accept, t.partner, t.item)])
                  && w'.traders[player].state != None && w'.traders[t.partner].state != None)
            && (b.state == Accept ==>
                  && player in w'.traders && w'.traders[player] == IDLE && t.partner in w'.traders && w'.traders[t.partner] == IDLE
                  && (forall p <- w.traders :: p != player && p != t.partner ==> p in w'.traders && w'.traders[p] == w.traders[p])
                  && (forall i :: i in w'.register <==> i in w.register && i != t.item && i != b.item)
                  && w'.handed == w.handed + (if a.allowed && t.item != null && b.item != null && a.fitsPartner && a.fitsPlayer && a.removable && a.moves
                                              then [Handed(t.item, t.partner), Handed(b.item, player)] else [])))
  {
    assert Consistent(w, player);
    var partner := w.traders[player].partner;
    if Counts(w.traders[player], a) {
      assert Consistent(w, partner);
      ClosedParts(Accepting(w, player), player);
      hide Closed, Sound;
    }
  }

  /** Items change hands exactly so: both have offered, the partner has accepted, the player now does, and all checks say yes. */
  lemma HandedIff(w: World, others: map<Item, int>, player: Player, a: Answers)
    requires Sound(w, others) && player in w.traders
    ensures After(w, Consent(player, a)).handed != w.handed
            <==> BothSides(w, player) && a.visible && a.allowed && a.fitsPartner && a.fitsPlayer && a.removable && a.moves
  {
    ConsentOutcome(w, others, player, a);
    assert Consistent(w, player);
    hide Sound, Accepted, Consistent;
    if Counts(w.traders[player], a) && w.traders[w.traders[player].partner].state == Accept {
      var t := w.traders[player];
      var b := w.traders[t.partner];
      if t.item != null && b.item != null {
        assert |w.handed + [Handed(t.item, t.partner), Handed(b.item, player)]| > |w.handed|;
      }
      assert w.handed + [] == w.handed;
    }
  }

  /**
   A request goes through exactly if both are idle, or the player has been asked by this very partner. The player then
   offers the item; a partner that was idle is asked, and any other stays as it was.
   */
  lemma RequestOutcome(w: World, others: map<Item, int>, player: Player, partner: Player, item: Item)
    requires Sound(w, others) && w.refs.Keys == others.Keys && player in w.traders && partner in w.traders && player != partner
    requires item in w.refs && item !in w.register
    ensures var t, b, w' := w.traders[player], w.traders[partner], After(w, Request(player, partner, item));
      if (t.state == None && b.state == None) || (t.state == Acknowledge && t.partner == partner) then
        && w'.traders == w.traders[player := Trader(Initiated, partner, item)]
                                  [partner := if b.state == None then Trader(Acknowledge, player, null) else b]
        && w'.register == w.register[item := player.id] && w'.refs == w.refs[item := w.refs[item] + 1]
        && w'.released == w.released && w'.handed == w.handed
      else w' == w
  {
    assert Consistent(w, player) && Consistent(w, partner);
  }

  /** A close makes both idle and takes their offers off the register; each offer's reference waits for the cleanup. */
  lemma CloseOutcome(w: World, others: map<Item, int>, player: Player)
    requires Sound(w, others) && player in w.traders
    ensures var t, w' := w.traders[player], After(w, Close(player));
      && player in w'.traders && w'.traders[player] == IDLE
      && (t.partner != null ==> t.partner in w'.traders && w'.traders[t.partner] == IDLE)
      && (forall p <- w.traders :: p != player && p != t.partner ==> p in w'.traders && w'.traders[p] == w.traders[p])
      && (forall i <- w.register :: i !in w'.register <==> i == t.item || i == OfferOf(w, t.partner))
      && (forall i <- w.register :: multiset(w'.released)[i] == multiset(w.released)[i] + (if i in w'.register then 0 else 1))
      && w'.handed == w.handed && w'.refs == w.refs
  {
    assert Consistent(w, player);
    ClosedParts(w, player);
    ClosedReleases(w, others, player);
    KeysKept(w, player, Answers(false, false, false, false, false, false));
    hide Closed, Sound, Consistent, OfferOf;
  }

  lemma ClosedReleases(w: World, others: map<Item, int>, player: Player)
    requires Ledger(w, others) && player in w.traders
    ensures var w' := Closed(w, player);
      forall i <- w.register :: multiset(w'.released)[i] == multiset(w.released)[i] + (if i in w'.register then 0 else 1)
  {
    ClosedLedger(w, others, player);
    KeysKept(w, player, Answers(false, false, false, false, false, false));
    hide Closed;
    var w' := Closed(w, player);
    forall i <- w.register
      ensures multiset(w'.released)[i] == multiset(w.released)[i] + (if i in w'.register then 0 else 1)
    {
      assert Counted(w, others, i) && Counted(w', others, i);
    }
  }

  /** A cleanup gives every ended trade's reference back. */
  lemma CleanupOutcome(w: World, others: map<Item, int>, i: Item)
    requires Sound(w, others) && i in others
    ensures var w' := After(w, Cleanup);
      && i in w'.refs && w'.refs[i] == others[i] + (if i in w.register then 1 else 0)
      && w'.released == [] && w'.traders == w.traders && w'.register == w.register && w'.handed == w.handed
  {
    assert Counted(w, others, i);
  }

  /** The counters, each less by how often its item is listed. */
  ghost function Lowered(refs: map<Item, int>, l: seq<Item>): map<Item, int> {
    map i | i in refs :: refs[i] - multiset(l)[i]
  }

  lemma LoweredNone(refs: map<Item, int>)
    ensures Lowered(refs, []) == refs
  {
  }

  lemma LoweredKeys(refs: map<Item, int>, l: seq<Item>)
    ensures Lowered(refs, l).Keys == refs.Keys
  {
  }

  lemma LoweredOnce(refs: map<Item, int>, l: seq<Item>, item: Item)
    requires item in refs
    ensures item in Lowered(refs, l) && Lowered(refs, l + [item]) == Lowered(refs, l)[item := Lowered(refs, l)[item] - 1]
  {
    assert multiset(l + [item]) == multiset(l) + multiset{item};
  }

  ghost function Set(w: World, p: Player, t: Trader): World {
    w.(traders := w.traders[p := t])
  }

  // Passing through TRANSFER on the way to closing leaves no trace.
  lemma TransferCloses(w: World, player: Player, partner: Player)
    requires player in w.traders && partner in w.traders && player != partner && w.traders[player].partner == partner
    ensures var a, b := w.traders[player], w.traders[partner];
      var w1 := Set(Set(w, player, a.(state := Transfer)), partner, b.(state := Transfer));
      Set(Set(Unregistered(Unregistered(w1, a.item), b.item), player, IDLE), partner, IDLE) == Closed(w, player)
  {
    var a, b := w.traders[player], w.traders[partner];
    var w1 := Set(Set(w, player, a.(state := Transfer)), partner, b.(state := Transfer));
    var w2 := Unregistered(Unregistered(w1, a.item), b.item);
    assert Set(Set(w2, player, IDLE), partner, IDLE).traders == Closed(w, player).traders;
  }

  // ---------------------------------------------------------------- the methods

  class Game {
    ghost const players: set<Player>
    ghost const items: set<Item>
    var tradeItems: map<Item, nat>
    var toReleaseItems: seq<Item>
    ghost var handed: seq<Handed>

    ghost function Now(): World
      reads this, players, items
    {
      World(map p | p in players :: Trader(p.tradeState, p.tradePartner, p.tradeItem), tradeItems, toReleaseItems,
            map i | i in items :: i.referenceCounter, handed)
    }

    method SetTrader(p: Player, state: TradeState, partner: Player?, item: Item?)
      requires p in players
      modifies p
      ensures Now() == old(Now()).(traders := old(Now()).traders[p := Trader(state, partner, item)])
      ensures p.tradeState == state && p.tradePartner == partner && p.tradeItem == item
    {
      p.tradeState, p.tradePartner, p.tradeItem := state, partner, item;
    }

    /** `Game::internalStartTrade`. */
    method InternalStartTrade(player: Player, partner: Player, item: Item) returns (started: bool)
      requires player in players && partner in players && player != partner && item in items
      modifies this`tradeItems, player, partner, item
      ensures started == MayStart(old(Now()), player, partner)
      ensures Now() == if started then Started(old(Now()), player, partner, item) else old(Now())
    {
      if player.tradeState != None && !(player.tradeState == Acknowledge && player.tradePartner == partner) {
        return false;
      } else if partner.tradeState != None && partner.tradePartner != player {
        return false;
      }
      ghost var w := Now();
      SetTrader(player, Initiated, partner, item);
      Register(item, player.id);
      if partner.tradeState == None {
        SetTrader(partner, Acknowledge, player, partner.tradeItem);
      }
      assert Now() == Started(w, player, partner, item);
      return true;
    }

    /** The item is offered by the player with this id, and cannot be destroyed meanwhile. */
    method Register(item: Item, id: nat)
      requires item in items
      modifies this`tradeItems, item
      ensures Now() == old(Now()).(register := old(Now()).register[item := id], refs := old(Now()).refs[item := old(Now()).refs[item] + 1])
    {
      item.referenceCounter := item.referenceCounter + 1;
      tradeItems := tradeItems[item := id];
      assert Now().refs == old(Now()).refs[item := old(Now()).refs[item] + 1];
    }

    method GiveBack(item: Item)
      requires item in items
      modifies item
      ensures Now() == old(Now()).(refs := old(Now()).refs[item := old(Now()).refs[item] - 1])
    {
      item.referenceCounter := item.referenceCounter - 1;
      assert Now().refs == old(Now()).refs[item := old(Now()).refs[item] - 1];
    }

    /** No item in trade is this one, is inside it, or holds it. */
    ghost predicate Free(item: Item, holding: (Item, Item) -> bool)
      reads this
    {
      forall i <- tradeItems.Keys :: i != item && !holding(item, i) && !holding(i, item)
    }

    /**
     `Game::playerRequestTrade`. What the item holds, and the answers of the checks on distance, sight and
     the item itself, and of the script, are parameters.
     */
    method PlayerRequestTrade(player: Player, partner: Player?, item: Item, holding: (Item, Item) -> bool, itemHoldingCount: nat,
        reachable: bool, allowed: bool) returns (started: bool)
      requires player in players && (partner != null ==> partner in players) && item in items
      modifies this`tradeItems, players, item
      ensures started <==> partner != null && reachable && old(Free(item, holding)) && itemHoldingCount + 1 <= 100 && allowed
                           && partner != player && MayStart(old(Now()), player, partner)
      ensures Now() == if started then Started(old(Now()), player, partner, item) else old(Now())
      ensures started ==> MayRequest(old(Now()), player, partner, item)
    {
      if partner == null || partner == player || !reachable {
        return false;
      }
      var left := tradeItems.Keys;
      while left != {}
        invariant left <= tradeItems.Keys
        invariant forall i <- tradeItems.Keys - left :: i != item && !holding(item, i) && !holding(i, item)
        decreases |left|
      {
        var i :| i in left;
        if item == i || holding(item, i) || holding(i, item) {
          return false;
        }
        assert tradeItems.Keys - (left - {i}) == (tradeItems.Keys - left) + {i};
        left := left - {i};
      }
      if itemHoldingCount + 1 > 100 || !allowed {
        return false;
      }
      started := InternalStartTrade(player, partner, item);
    }

    /** Takes i off the register, if it is there. */
    method Unregister(i: Item?)
      modifies this`tradeItems, this`toReleaseItems
      ensures Now() == Unregistered(old(Now()), i)
    {
      if i != null && i in tradeItems {
        toReleaseItems := toReleaseItems + [i];
        tradeItems := tradeItems - {i};
      }
    }

    /** `Game::internalCloseTrade`. */
    method InternalCloseTrade(player: Player, ghost others: map<Item, int>)
      requires player in players && Sound(Now(), others)
      modifies this`tradeItems, this`toReleaseItems, players
      ensures Now() == Closed(old(Now()), player)
    {
      ghost var w := Now();
      assert Consistent(w, player);
      var partner := player.tradePartner;
      assert partner != null ==> Consistent(w, partner);
      if (partner != null && partner.tradeState == Transfer) || player.tradeState == Transfer {
        return;
      }
      var offer, counterOffer := player.tradeItem, if partner != null then partner.tradeItem else null;
      hide Sound, Consistent;
      Unregister(offer);
      SetTrader(player, None, null, null);
      if partner != null {
        Unregister(counterOffer);
        SetTrader(partner, None, null, null);
      }
      assert Now() == Closed(w, player);
    }

    /** `Game::internalAddItem`, only asked whether it would succeed; without an item it would not. */
    predicate WouldAdd(item: Item?, fits: bool) {
      item != null && fits
    }

    /** `Game::playerAcceptTrade`. */
    method PlayerAcceptTrade(player: Player, a: Answers, ghost others: map<Item, int>)
      requires player in players && Sound(Now(), others)
      modifies this`tradeItems, this`toReleaseItems, this`handed, players
      ensures Now() == Accepted(old(Now()), player, a)
    {
      ghost var w := Now();
      assert Consistent(w, player);
      if !(player.tradeState == Acknowledge || player.tradeState == Initiated) {
        return;
      }
      var partner := player.tradePartner;
      if partner == null || !a.visible {
        return;
      }
      AcceptingSound(w, others, player);
      hide Sound, Consistent;
      SetTrader(player, Accept, partner, player.tradeItem);
      assert Now() == Accepting(w, player);
      if partner.tradeState == Accept {
        if !a.allowed {
          InternalCloseTrade(player, others);
          return;
        }
        Exchange(player, partner, a);
      }
    }

    /** Both have accepted, and the scripts allow it: the exchange is tried, and the trade is over. */
    method Exchange(player: Player, partner: Player, a: Answers)
      requires player in players && partner in players && player != partner && player.tradePartner == partner
      modifies this`tradeItems, this`toReleaseItems, this`handed, players
      ensures var w := old(Now());
        var w2 := Closed(w, player);
        Now() == if Exchanges(w, player, a)
                 then w2.(handed := w2.handed + [Handed(w.traders[player].item, partner), Handed(OfferOf(w, partner), player)]) else w2
    {
      hide Closed, Unregistered, Now;
      ghost var w := Now();
      NowTrader(player);
      NowTrader(partner);
      var playerItem, partnerItem := player.tradeItem, partner.tradeItem;
      TransferCloses(w, player, partner);
      SetTrader(player, Transfer, partner, playerItem);
      SetTrader(partner, Transfer, partner.tradePartner, partnerItem);
      Unregister(playerItem);
      Unregister(partnerItem);
      ghost var log := [];
      if WouldAdd(playerItem, a.fitsPartner) && WouldAdd(partnerItem, a.fitsPlayer) {
        if a.removable && a.moves {
          log := [Handed(playerItem, partner), Handed(partnerItem, player)];
        }
      }
      SetTrader(player, None, null, null);
      SetTrader(partner, None, null, null);
      assert Now() == Closed(w, player);
      Log(log);
    }

    lemma NowTrader(p: Player)
      requires p in players
      ensures p in Now().traders && Now().traders[p] == Trader(p.tradeState, p.tradePartner, p.tradeItem)
    {
    }

    ghost method Log(l: seq<Handed>)
      modifies this`handed
      ensures Now() == old(Now()).(handed := old(Now()).handed + l)
    {
      handed := handed + l;
    }

    lemma NowIs()
      ensures Now().released == toReleaseItems && Now().refs.Keys == items
    {
    }

    method ClearReleased()
      modifies this`toReleaseItems
      ensures Now() == old(Now()).(released := [])
    {
      toReleaseItems := [];
    }

    /** `Game::cleanup`: released items give back a reference each. */
    method CleanupItems()
      requires forall i <- toReleaseItems :: i in items
      modifies this`toReleaseItems, items
      ensures Now() == Cleaned(old(Now()))
    {
      hide Now, Lowered;
      ghost var w := Now();
      NowIs();
      var n := 0;
      LoweredNone(w.refs);
      assert toReleaseItems[..0] == [];
      while n < |toReleaseItems|
        invariant n <= |toReleaseItems| && toReleaseItems == w.released && w.refs.Keys == items
        invariant Now() == w.(refs := Lowered(w.refs, toReleaseItems[..n]))
      {
        var item := toReleaseItems[n];
        assert item in toReleaseItems && toReleaseItems[..n + 1] == toReleaseItems[..n] + [item];
        LoweredKeys(w.refs, toReleaseItems[..n]);
        LoweredOnce(w.refs, toReleaseItems[..n], item);
        GiveBack(item);
        n := n + 1;
      }
      assert toReleaseItems[..n] == toReleaseItems;
      ClearReleased();
    }
  }
}
