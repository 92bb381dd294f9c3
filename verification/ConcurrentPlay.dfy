/** The concurrent protocol over a dealt hand: every interleaving is a run of the hand, settled
    at most once and then at its end, so what holds of all runs holds of the stored rows. */
module ConcurrentPlay {
  import opened Basics
  import opened HandTypes
  import opened Validator
  import opened ActionPipeline
  import opened BlindPosting
  import opened HandMachine
  import opened HandTheorems
  import opened Settlement
  import opened CasProtocol
  import opened Retries

  predicate Unsettled(log: seq<Change>) { forall i :: 0 <= i < |log| ==> !log[i].SettleChange? }

  /** The committed changes as steps of the hand. */
  function StepsOf(log: seq<Change>): (steps: seq<Step>)
    requires Unsettled(log)
    ensures |steps| == |log|
  {
    if log == [] then []
    else
      StepsOf(log[..|log| - 1])
      + [match log[|log| - 1]
         case BetChange(req) => BetStep(req.id, req.action, req.amount)
         case StreetChange => AdvanceStep]
  }

  /** An expected version can only refuse a request, never change what it does. */
  lemma ExpectedVersionOnlyRefuses(h: Hand, req: Request)
    requires ApplyAction(h, req.id, req.action, req.amount, req.expected).Ok?
    ensures ApplyAction(h, req.id, req.action, req.amount, None)
            == ApplyAction(h, req.id, req.action, req.amount, req.expected)
    ensures IsAcceptedBet(h, BetStep(req.id, req.action, req.amount))
  {
  }

  lemma ChangeIsStep(h: Hand, change: Change)
    requires Alone(h, change).Some? && !change.SettleChange?
    ensures var s := match change
                     case BetChange(req) => BetStep(req.id, req.action, req.amount)
                     case StreetChange => AdvanceStep;
            Take(h, s) == Alone(h, change).value && (change.BetChange? <==> IsAcceptedBet(h, s))
  {
    if change.BetChange? {
      ExpectedVersionOnlyRefuses(h, change.req);
    }
  }

  lemma {:induction false} LogIsPlayed(h: Hand, log: seq<Change>)
    requires Unsettled(log) && InOrder(h, log).Some?
    ensures InOrder(h, log).value == Play(h, StepsOf(log))
    ensures BetsAccepted(h, StepsOf(log)) == |KeysOf(log)|
  {
    if log != [] {
      var front, last := log[..|log| - 1], log[|log| - 1];
      LogIsPlayed(h, front);
      ChangeIsStep(InOrder(h, front).value, last);
      assert StepsOf(log)[..|log| - 1] == StepsOf(front);
    }
  }

  // ------------------------------------------------------------------- the settlement

  /** The committed changes up to a settlement, if the last one is a settlement. */
  function Played(log: seq<Change>): seq<Change>
  {
    if log != [] && log[|log| - 1].SettleChange? then log[..|log| - 1] else log
  }

  /** A completed round refuses every change. */
  lemma CompletedRefusesAll(h: Hand, payouts: seq<PotPayout>, change: Change)
    requires Alone(h, SettleChange(payouts)).Some?
    ensures Alone(Alone(h, SettleChange(payouts)).value, change).None?
  {
    var n := Alone(h, SettleChange(payouts)).value;
    assert n.round.status == Completed;
    if change.BetChange? {
      var req := change.req;
      assert ValidateBet(n, req.id, req.action, req.amount).Err?;
    }
  }

  lemma EarlierDoesNotSettle(first: Hand, log: seq<Change>, i: nat)
    requires InOrder(first, log).Some? && i + 1 < |log|
    ensures !log[i].SettleChange?
  {
    PrefixesExecute(first, log, i);
    PrefixesExecute(first, log, i + 1);
    assert log[..i + 1][..i] == log[..i];
    if log[i].SettleChange? {
      CompletedRefusesAll(InOrder(first, log[..i]).value, log[i].payouts, log[i + 1]);
    }
  }

  lemma PlayedExecutes(first: Hand, log: seq<Change>)
    requires InOrder(first, log).Some?
    ensures InOrder(first, Played(log)).Some?
  {
    if log != [] {
      LastExecutes(first, log);
    }
  }

  /** So in an executed log only the last change can be a settlement. */
  lemma OnlyLastSettles(first: Hand, log: seq<Change>)
    requires InOrder(first, log).Some?
    ensures forall i :: 0 <= i < |log| - 1 ==> !log[i].SettleChange?
  {
    forall i | 0 <= i < |log| - 1 ensures !log[i].SettleChange? {
      EarlierDoesNotSettle(first, log, i);
    }
  }

  lemma PlayedIsUnsettled(log: seq<Change>)
    requires forall i :: 0 <= i < |log| - 1 ==> !log[i].SettleChange?
    ensures Unsettled(Played(log))
  {
  }

  lemma SettlementRecordsNoBet(first: Hand, log: seq<Change>)
    requires InOrder(first, log).Some?
    ensures |KeysOf(Played(log))| == |KeysOf(log)|
    ensures Played(log) != log ==>
              && |log| > 0 && log[|log| - 1].SettleChange? && InOrder(first, Played(log)).Some?
              && ResolveHand(InOrder(first, Played(log)).value, log[|log| - 1].payouts)
                 == Ok(InOrder(first, log).value)
  {
  }

  /** In every interleaving of any number of clients over a dealt hand: at most one settlement
      commits, as the last change; the bets and street advances before it reach, one at a time,
      a hand that meets the hand invariant; the store is that hand, or that hand settled once;
      and no more bets are recorded than stacks plus able players after posting plus four. */
  lemma EveryInterleavingIsPlay(d: Deal, events: seq<Event>)
    requires DealOk(d)
    ensures var w := Run(Fresh(StartRound(d)), events);
            && Unsettled(Played(w.log))
            && var hand := Play(StartRound(d), StepsOf(Played(w.log)));
               && Inv(d, hand)
               && (if Played(w.log) == w.log then w.store == hand
                   else
                     && w.log != [] && w.log[|w.log| - 1].SettleChange?
                     && ResolveHand(hand, w.log[|w.log| - 1].payouts) == Ok(w.store))
               && |w.bets| <= SumBy(StartRound(d).players, StackOf) + AbleCount(StartRound(d)) + 4
  {
    var first := StartRound(d);
    var w := Run(Fresh(first), events);
    RunKeepsOk(first, events);
    OnlyLastSettles(first, w.log);
    PlayedIsUnsettled(w.log);
    PlayedExecutes(first, w.log);
    SettlementRecordsNoBet(first, w.log);
    LogIsPlayed(first, Played(w.log));
    ReachableStatesAreSound(d, StepsOf(Played(w.log)));
    BettingTerminates(d, StepsOf(Played(w.log)));
    assert |RowKeys(w.bets)| == |w.bets|;
  }
}
