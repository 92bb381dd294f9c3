/** `get_table_state`: the legal-action menu, against what `validate_bet` accepts. */
module TableMenu {
  import opened Basics
  import opened HandTypes
  import opened Validator
  import opened ActionPipeline
  import opened BlindPosting
  import opened StreetProgression
  import opened HandMachine
  import opened Verdicts

  /** An advertised action; `least` and `most` bound the amount when present. */
  datatype LegalAction = LegalAction(action: Action, least: Option<int>, most: Option<int>)

  predicate InRange(item: LegalAction, amount: int)
  {
    && (item.least.Some? ==> item.least.value <= amount)
    && (item.most.Some? ==> amount <= item.most.value)
  }

  function WagerItem(r: RoundState, p: PlayerState): seq<LegalAction>
  {
    if r.highest == 0 && p.stack > 0 then
      [LegalAction(Bet, Some(r.minRaise), Some(p.stack))]
    else if r.highest > 0 && p.stack > CallAmount(r, p) then
      [LegalAction(Raise, Some(r.highest + r.minRaise), Some(p.street + p.stack))]
    else []
  }

  function MenuFor(r: RoundState, p: PlayerState): seq<LegalAction>
  {
    var call := CallAmount(r, p);
    [LegalAction(Fold, None, None)]
    + (if call == 0 then [LegalAction(Check, None, None)]
       else [LegalAction(Call, Some(Min(call, p.stack)), Some(Min(call, p.stack)))])
    + WagerItem(r, p)
    + (if p.stack > 0 then [LegalAction(AllIn, Some(p.stack), Some(p.stack))] else [])
  }

  function Menu(h: Hand): seq<LegalAction>
  {
    if h.round.actor.None? || h.round.closed then []
    else
      var i := IndexOf(h.players, h.round.actor.value);
      if i < |h.players| then MenuFor(h.round, h.players[i]) else []
  }

  /** The conditional appends of the source. */
  method BuildMenu(h: Hand) returns (items: seq<LegalAction>)
    ensures items == Menu(h)
  {
    items := [];
    if h.round.actor.Some? && !h.round.closed {
      var i := IndexOf(h.players, h.round.actor.value);
      if i < |h.players| {
        var p := h.players[i];
        var call := Max(0, h.round.highest - p.street);
        items := items + [LegalAction(Fold, None, None)];
        if call == 0 {
          items := items + [LegalAction(Check, None, None)];
        } else {
          var effective := Min(call, p.stack);
          items := items + [LegalAction(Call, Some(effective), Some(effective))];
        }
        if h.round.highest == 0 && p.stack > 0 {
          items := items + [LegalAction(Bet, Some(h.round.minRaise), Some(p.stack))];
        } else if h.round.highest > 0 && p.stack > call {
          items := items + [LegalAction(Raise, Some(h.round.highest + h.round.minRaise), Some(p.street + p.stack))];
        }
        if p.stack > 0 {
          items := items + [LegalAction(AllIn, Some(p.stack), Some(p.stack))];
        }
      }
    }
  }

  // ------------------------------------------------------------------ the proofs

  lemma ItemsAreAccepted(r: RoundState, p: PlayerState, item: LegalAction, amount: int)
    requires 0 < p.stack && 0 <= p.street <= r.highest && 0 < r.minRaise
    requires item in MenuFor(r, p) && InRange(item, amount)
    ensures Judge(r, p, item.action, amount).Ok?
  {
  }

  lemma AcceptedIsAdvertised(r: RoundState, p: PlayerState, action: Action, amount: int)
    returns (item: LegalAction, offered: int)
    requires 0 < p.stack && 0 <= p.street <= r.highest && 0 < r.minRaise
    requires Judge(r, p, action, amount).Ok?
    ensures item in MenuFor(r, p) && InRange(item, offered)
    ensures Judge(r, p, item.action, offered) == Judge(r, p, action, amount)
  {
    var v := Judge(r, p, action, amount).value;
    var call := CallAmount(r, p);
    if action == Fold {
      item, offered := LegalAction(Fold, None, None), amount;
    } else if action == Check {
      item, offered := LegalAction(Check, None, None), amount;
    } else if action == Call {
      item, offered := LegalAction(Call, Some(Min(call, p.stack)), Some(Min(call, p.stack))), Min(call, p.stack);
    } else if v.action == AllIn {
      item, offered := LegalAction(AllIn, Some(p.stack), Some(p.stack)), p.stack;
    } else {
      assert WagerItem(r, p) != [];
      item, offered := WagerItem(r, p)[0], amount;
    }
  }

  /** Every advertised action, with any amount in its range, is accepted. */
  ghost predicate MenuIsSound(h: Hand)
    requires h.round.actor.Some?
  {
    forall item, amount :: item in Menu(h) && InRange(item, amount) ==>
      ValidateBet(h, h.round.actor.value, item.action, amount).Ok?
  }

  /** Every accepted request does what some advertised action in range does. */
  ghost predicate MenuIsComplete(h: Hand)
    requires h.round.actor.Some?
  {
    forall id, action, amount :: ValidateBet(h, id, action, amount).Ok? ==>
      exists item, offered ::
        && item in Menu(h) && InRange(item, offered)
        && ValidateBet(h, h.round.actor.value, item.action, offered) == ValidateBet(h, id, action, amount)
  }

  /** The designated actor sits at `i`, with the arithmetic facts of a reachable state. */
  ghost predicate ActorAt(h: Hand, i: nat)
  {
    && h.round.status == Active && !h.round.closed && 0 < h.round.minRaise
    && h.round.actor.Some? && i == IndexOf(h.players, h.round.actor.value) && i < |h.players|
    && 0 <= h.players[i].street <= h.round.highest
    && (Able(h.players[i]) ==> 0 < h.players[i].stack)
  }

  lemma ReachableActor(d: Deal, steps: seq<Step>) returns (i: nat)
    requires DealOk(d) && Play(StartRound(d), steps).round.actor.Some?
    ensures ActorAt(Play(StartRound(d), steps), i)
  {
    var h := Play(StartRound(d), steps);
    ReachableStatesAreSound(d, steps);
    i := IndexOf(h.players, h.round.actor.value);
    assert PlayerOk(h.players[i], d.seats[i]);
  }

  /** Only the designated actor gets past the first checks, and only when able. */
  lemma OnlyTheActorIsJudged(h: Hand, i: nat, id: PlayerId, action: Action, amount: int)
    requires ActorAt(h, i)
    ensures ValidateBet(h, id, action, amount).Ok? ==> id == h.round.actor.value && Able(h.players[i])
    ensures id == h.round.actor.value && Able(h.players[i]) ==>
      ValidateBet(h, id, action, amount) == Judge(h.round, h.players[i], action, amount)
  {
  }

  lemma SoundWhenAble(h: Hand, i: nat)
    requires ActorAt(h, i)
    ensures MenuIsSound(h) <==> Able(h.players[i])
  {
    if Able(h.players[i]) {
      forall item, amount | item in Menu(h) && InRange(item, amount)
        ensures ValidateBet(h, h.round.actor.value, item.action, amount).Ok?
      {
        ItemsAreAccepted(h.round, h.players[i], item, amount);
        OnlyTheActorIsJudged(h, i, h.round.actor.value, item.action, amount);
      }
    } else {
      var fold := LegalAction(Fold, None, None);
      assert MenuFor(h.round, h.players[i])[0] == fold;
      assert fold in Menu(h) && InRange(fold, 0);
      OnlyTheActorIsJudged(h, i, h.round.actor.value, fold.action, 0);
    }
  }

  lemma AlwaysComplete(h: Hand, i: nat)
    requires ActorAt(h, i)
    ensures MenuIsComplete(h)
  {
    forall id, action, amount | ValidateBet(h, id, action, amount).Ok?
      ensures exists item, offered ::
        && item in Menu(h) && InRange(item, offered)
        && ValidateBet(h, h.round.actor.value, item.action, offered) == ValidateBet(h, id, action, amount)
    {
      OnlyTheActorIsJudged(h, i, id, action, amount);
      var item, offered := AcceptedIsAdvertised(h.round, h.players[i], action, amount);
      OnlyTheActorIsJudged(h, i, id, item.action, offered);
    }
  }

  /** In every reachable state with a player to act, the menu is complete, and it is sound
      exactly when that player is able to act (the opener may have gone all-in posting). */
  lemma MenuMatchesValidator(d: Deal, steps: seq<Step>)
    requires DealOk(d)
    requires Play(StartRound(d), steps).round.actor.Some?
    ensures var h := Play(StartRound(d), steps);
            var i := IndexOf(h.players, h.round.actor.value);
            && MenuIsComplete(h)
            && i < |h.players| && (MenuIsSound(h) <==> Able(h.players[i]))
  {
    var i := ReachableActor(d, steps);
    SoundWhenAble(Play(StartRound(d), steps), i);
    AlwaysComplete(Play(StartRound(d), steps), i);
  }

  // ------------------------------------------------------------ what is on the menu

  ghost predicate Offers(items: seq<LegalAction>, action: Action)
  {
    exists k :: 0 <= k < |items| && items[k].action == action
  }

  /** Folding is always offered, checking when nothing is owed and calling otherwise, betting
      before any bet and raising after one as far as the chips go, and all-in with any chips. */
  ghost predicate OffersWhatApplies(r: RoundState, p: PlayerState, items: seq<LegalAction>)
  {
    && (forall j, k :: 0 <= j < k < |items| ==> items[j].action != items[k].action)
    && Offers(items, Fold) && !Offers(items, Unknown)
    && (Offers(items, Check) <==> p.street >= r.highest)
    && (Offers(items, Call) <==> p.street < r.highest)
    && (Offers(items, Bet) <==> r.highest == 0 && p.stack > 0)
    && (Offers(items, Raise) <==> r.highest > 0 && p.stack > r.highest - p.street)
    && (Offers(items, AllIn) <==> p.stack > 0)
  }

  /** A call and an all-in are offered at the chips they move; a bet and a raise at exactly the
      permitted amounts that are not below the minimum; a fold and a check name no amount. */
  ghost predicate StatesAmounts(r: RoundState, p: PlayerState, item: LegalAction)
  {
    match item.action
    case Call | AllIn =>
      item.least == item.most == Some(ChipsMoved(r, p, item.action, 0))
    case Bet | Raise =>
      && item.least.Some? && item.most.Some?
      && forall amount ::
           InRange(item, amount) <==> Permits(r, p, item.action, amount) && amount >= r.highest + r.minRaise
    case _ => item.least == None && item.most == None
  }

  lemma MenuForOffers(r: RoundState, p: PlayerState)
    requires 0 <= p.street <= r.highest
    ensures OffersWhatApplies(r, p, MenuFor(r, p))
  {
    var items, owes := MenuFor(r, p), p.street < r.highest;
    assert items[0].action == Fold;
    assert items[1].action == if owes then Call else Check;
    var wager := |WagerItem(r, p)|;
    assert wager == 1 ==> items[2] == WagerItem(r, p)[0];
    assert p.stack > 0 ==> items[2 + wager].action == AllIn;
  }

  lemma MenuForStates(r: RoundState, p: PlayerState, item: LegalAction)
    requires 0 <= p.street <= r.highest && 0 < r.minRaise && item in MenuFor(r, p)
    ensures StatesAmounts(r, p, item)
  {
  }

  /** In every reachable state the menu is empty exactly when the action is closed; otherwise it
      offers exactly what applies to the player to act, each action once, with its amounts. */
  lemma MenuIsExact(d: Deal, steps: seq<Step>, h: Hand)
    requires DealOk(d) && h == Play(StartRound(d), steps)
    ensures Menu(h) == [] <==> h.round.closed
    ensures h.round.actor.Some? ==>
      var i := IndexOf(h.players, h.round.actor.value);
      && i < |h.players| && OffersWhatApplies(h.round, h.players[i], Menu(h))
      && forall item :: item in Menu(h) ==> StatesAmounts(h.round, h.players[i], item)
  {
    ReachableStatesAreSound(d, steps);
    if h.round.actor.Some? {
      var i := ReachableActor(d, steps);
      MenuForOffers(h.round, h.players[i]);
      forall item | item in Menu(h) ensures StatesAmounts(h.round, h.players[i], item) {
        MenuForStates(h.round, h.players[i], item);
      }
    }
  }

  // --------------------------------------------------- when the actor cannot act

  /** Every accepted step leaves an actor who can act, or none. */
  lemma AcceptedStepGivesAbleActor(d: Deal, h: Hand, s: Step)
    requires DealOk(d) && Inv(d, h)
    ensures Take(h, s) == h || ActorIsAble(Take(h, s))
  {
    match s
    case BetStep(id, action, amount) =>
      if ApplyAction(h, id, action, amount, None).Ok? {
        var i, v := AcceptedBet(h, id, action, amount);
        BetKeepsInv(d, h, id, action, amount, i, v, Take(h, s));
      }
    case AdvanceStep =>
      if AdvanceStreet(h).Ok? {
        AdvancedActorIsAble(d, h);
      }
  }

  /** In a reachable state the designated actor can act, unless nothing has been accepted yet. */
  lemma {:induction false} UnableOnlyAtStart(d: Deal, steps: seq<Step>)
    requires DealOk(d)
    ensures Play(StartRound(d), steps) == StartRound(d) || ActorIsAble(Play(StartRound(d), steps))
  {
    if steps != [] {
      var front := steps[..|steps| - 1];
      UnableOnlyAtStart(d, front);
      ReachableStatesAreSound(d, front);
      AcceptedStepGivesAbleActor(d, Play(StartRound(d), front), steps[|steps| - 1]);
    }
  }

  /** The opener's whole stack goes into ante and blind. */
  predicate OpenerIsPostedOut(d: Deal)
    requires |d.seats| > 0
  {
    var p := d.seats[FirstActorIndex(d)];
    p.stack <= d.ante + BlindOf(d, p.seat)
  }

  /** A hand opens on a player who cannot act exactly when that player's stack is no more than
      the ante and their blind. */
  lemma OpenerAbleIff(d: Deal)
    requires DealOk(d)
    ensures var h := StartRound(d);
            var i := IndexOf(h.players, h.round.actor.value);
            i == FirstActorIndex(d) && (Able(h.players[i]) <==> !OpenerIsPostedOut(d))
  {
    var h, k := StartRound(d), FirstActorIndex(d);
    PostingIsCapped(d, d.seats[k]);
    StartIsOk(d);
    NamesStay(d, h);
    assert h.players[k].id == h.round.actor.value;
    assert IndexOf(h.players, h.round.actor.value) == k;
  }

  /** Such a hand is stuck: nobody's request is accepted, and only then. */
  lemma StuckExactlyWhenPostedOut(d: Deal)
    requires DealOk(d)
    ensures (forall id, action, amount :: ValidateBet(StartRound(d), id, action, amount).Err?) <==> OpenerIsPostedOut(d)
  {
    var h := StartRound(d);
    OpenerAbleIff(d);
    assert Play(h, []) == h;
    var i := ReachableActor(d, []);
    if OpenerIsPostedOut(d) {
      forall id, action, amount ensures ValidateBet(h, id, action, amount).Err? {
        OnlyTheActorIsJudged(h, i, id, action, amount);
      }
    } else {
      OnlyTheActorIsJudged(h, i, h.round.actor.value, Fold, 0);
      assert ValidateBet(h, h.round.actor.value, Fold, 0).Ok?;
    }
  }

  /** The menu is wrong exactly at the start of a hand whose opener posted everything, before
      any step was accepted. */
  lemma MenuIsWrongIff(d: Deal, steps: seq<Step>)
    requires DealOk(d) && Play(StartRound(d), steps).round.actor.Some?
    ensures var h := Play(StartRound(d), steps);
            !MenuIsSound(h) <==> h == StartRound(d) && OpenerIsPostedOut(d)
  {
    MenuMatchesValidator(d, steps);
    UnableOnlyAtStart(d, steps);
    OpenerAbleIff(d);
  }

  /** A deal whose opener is all-in from the ante. */
  function AllInOpener(): Deal
  {
    Deal([SeatPlayer("a", 1, 5), SeatPlayer("b", 2, 100), SeatPlayer("c", 3, 100)], 1, 2, 3, 10, 20, 5)
  }

  lemma AllInOpenerActs()
    ensures DealOk(AllInOpener()) && FirstActorIndex(AllInOpener()) == 0
  {
    var s := AllInOpener().seats;
    assert "a"[0] != "b"[0] && "a"[0] != "c"[0] && "b"[0] != "c"[0];
    assert s[1..] == [s[1], s[2]] && s[1..][1..] == [s[2]];
  }

  /** The menu of that hand offers FOLD, and every request is refused. */
  lemma OpenerMayBeAllIn()
    ensures var h := StartRound(AllInOpener());
            h.round.actor.Some? && !MenuIsSound(h)
            && forall id, action, amount :: ValidateBet(h, id, action, amount).Err?
  {
    var d := AllInOpener();
    AllInOpenerActs();
    assert Play(StartRound(d), []) == StartRound(d);
    var i := ReachableActor(d, []);
    assert StartRound(d).players[0].id == StartRound(d).round.actor.value;
    assert i == 0 && StartRound(d).players[0].allIn;
    SoundWhenAble(StartRound(d), 0);
    forall id, action, amount ensures ValidateBet(StartRound(d), id, action, amount).Err? {
      OnlyTheActorIsJudged(StartRound(d), 0, id, action, amount);
    }
  }
}
