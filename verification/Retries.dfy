/** What the retry of a committed request is answered, at any later point of any
    interleaving. */
module Retries {
  import opened Basics
  import opened HandTypes
  import opened Validator
  import opened ActionPipeline
  import opened CasProtocol

  /** Which accepted requests are recorded exactly as they were sent. */
  predicate RecordedAsSent(h: Hand, req: Request)
  {
    var i := IndexOf(h.players, req.id);
    i < |h.players| && JudgedAsSent(h.round, h.players[i], req.action, req.amount)
  }

  predicate JudgedAsSent(r: RoundState, p: PlayerState, action: Action, amount: int)
  {
    match action
    case Fold => amount == 0
    case Check => amount == 0
    case Call => CallAmount(r, p) < p.stack && amount == CallAmount(r, p)
    case Bet => amount < p.stack
    case Raise => p.street == 0 && amount < p.stack
    case AllIn => amount == p.stack
    case Unknown => false
  }

  lemma JudgedAsSentIff(r: RoundState, p: PlayerState, action: Action, amount: int)
    requires Judge(r, p, action, amount).Ok?
    ensures Judge(r, p, action, amount).value == ValidatedAction(action, amount) <==> JudgedAsSent(r, p, action, amount)
  {
  }

  /** An applied request was judged on the player's own row. */
  lemma AppliedAsJudged(h: Hand, req: Request)
    requires ApplyAction(h, req.id, req.action, req.amount, req.expected).Ok?
    ensures var a := ApplyAction(h, req.id, req.action, req.amount, req.expected).value;
            var i := IndexOf(h.players, req.id);
            && i < |h.players|
            && Judge(h.round, h.players[i], req.action, req.amount) == Ok(ValidatedAction(a.action, a.amount))
  {
  }

  // ------------------------------------------------------------- retries, along a run

  /** The row that a change writes to `bets` when it is executed on `h`. */
  function RowWritten(h: Hand, change: Change): seq<BetRow>
  {
    match change
    case BetChange(req) =>
      (match ApplyAction(h, req.id, req.action, req.amount, req.expected)
       case Ok(a) => [BetRow(req.id, a.action, a.amount, req.key)]
       case Err(_) => [])
    case StreetChange => []
    case SettleChange(_) => []
  }

  /** The rows of all committed changes, each executed on the hand its predecessors left. */
  function RowsWritten(first: Hand, log: seq<Change>): seq<BetRow>
  {
    if log == [] then []
    else
      var front := log[..|log| - 1];
      RowsWritten(first, front)
      + (match InOrder(first, front) case None => [] case Some(h) => RowWritten(h, log[|log| - 1]))
  }

  lemma RowsGrow(first: Hand, log: seq<Change>, store: Hand, change: Change)
    requires InOrder(first, log) == Some(store)
    ensures RowsWritten(first, log + [change]) == RowsWritten(first, log) + RowWritten(store, change)
  {
    assert (log + [change])[..|log|] == log;
  }

  lemma CommitWritesItsRow(first: Hand, w: World, c: ClientId)
    requires WorldOk(first, w) && c in w.clients && CommitSucceeds(w, w.clients[c])
    ensures var n, change := Next(w, Commit(c)), BetChange(w.clients[c].req);
            n.log == w.log + [change] && n.bets == w.bets + RowWritten(w.store, change)
  {
    CommitReadsTheStore(first, w, c);
  }

  lemma NextKeepsRows(first: Hand, w: World, e: Event)
    requires WorldOk(first, w) && w.bets == RowsWritten(first, w.log)
    ensures Next(w, e).bets == RowsWritten(first, Next(w, e).log)
  {
    match e
    case Commit(c) =>
      if CommitSucceeds(w, ClientOf(w, c)) {
        CommitWritesItsRow(first, w, c);
        RowsGrow(first, w.log, w.store, BetChange(w.clients[c].req));
      } else {
        RefusedCommitWritesNothing(w, c);
      }
    case AdvanceNow => AtomicWritesNoRow(first, w, e);
    case ResolveNow(payouts) => AtomicWritesNoRow(first, w, e);
    case Submit(_, _) => ReadingWritesNothing(w, e);
    case ReadRound(_) => ReadingWritesNothing(w, e);
    case ReadPlayers(_) => ReadingWritesNothing(w, e);
  }

  lemma ReadingWritesNothing(w: World, e: Event)
    requires e.Submit? || e.ReadRound? || e.ReadPlayers?
    ensures Next(w, e).bets == w.bets && Next(w, e).log == w.log
  {
  }

  lemma RefusedCommitWritesNothing(w: World, c: ClientId)
    requires !CommitSucceeds(w, ClientOf(w, c))
    ensures Next(w, Commit(c)).bets == w.bets && Next(w, Commit(c)).log == w.log
  {
  }

  lemma AtomicIsLogged(w: World, e: Event, change: Change)
    requires (e == AdvanceNow && change == StreetChange) || (e.ResolveNow? && change == SettleChange(e.payouts))
    ensures Next(w, e).bets == w.bets
    ensures Next(w, e).log == w.log || Next(w, e).log == w.log + [change]
  {
  }

  lemma NoRowForChange(first: Hand, log: seq<Change>, store: Hand, change: Change)
    requires InOrder(first, log) == Some(store) && !change.BetChange?
    ensures RowsWritten(first, log + [change]) == RowsWritten(first, log)
  {
    RowsGrow(first, log, store, change);
    assert RowWritten(store, change) == [];
  }

  lemma AtomicWritesNoRow(first: Hand, w: World, e: Event)
    requires InOrder(first, w.log) == Some(w.store) && (e.AdvanceNow? || e.ResolveNow?)
    ensures Next(w, e).bets == w.bets && RowsWritten(first, Next(w, e).log) == RowsWritten(first, w.log)
  {
    var change := if e.AdvanceNow? then StreetChange else SettleChange(e.payouts);
    AtomicIsLogged(w, e, change);
    NoRowForChange(first, w.log, w.store, change);
  }

  /** In every interleaving the recorded bets are the rows of the committed changes. */
  lemma {:induction false} RunKeepsRows(first: Hand, events: seq<Event>)
    ensures Run(Fresh(first), events).bets == RowsWritten(first, Run(Fresh(first), events).log)
  {
    if events != [] {
      var front := events[..|events| - 1];
      RunKeepsRows(first, front);
      RunKeepsOk(first, front);
      NextKeepsRows(first, Run(Fresh(first), front), events[|events| - 1]);
    }
  }

  lemma {:induction false} LastExecutes(first: Hand, log: seq<Change>)
    requires log != [] && InOrder(first, log).Some?
    ensures var front, last := log[..|log| - 1], log[|log| - 1];
            && InOrder(first, front).Some?
            && Alone(InOrder(first, front).value, last).Some?
            && RowsWritten(first, log) == RowsWritten(first, front) + RowWritten(InOrder(first, front).value, last)
  {
  }

  /** An executed log was executed up to every point of it. */
  lemma {:induction false} PrefixesExecute(first: Hand, log: seq<Change>, i: nat)
    requires InOrder(first, log).Some? && i < |log|
    ensures InOrder(first, log[..i]).Some?
    ensures Alone(InOrder(first, log[..i]).value, log[i]).Some?
    decreases |log|
  {
    var front := log[..|log| - 1];
    LastExecutes(first, log);
    if i < |front| {
      PrefixesExecute(first, front, i);
      assert front[..i] == log[..i] && front[i] == log[i];
    } else {
      assert front == log[..i];
    }
  }

  /** Every committed bet is recorded, as judged on the hand it was executed on. */
  lemma {:induction false} RowIsRecorded(first: Hand, log: seq<Change>, i: nat, h: Hand, row: BetRow)
    requires InOrder(first, log).Some? && i < |log|
    requires InOrder(first, log[..i]) == Some(h) && row in RowWritten(h, log[i])
    ensures row in RowsWritten(first, log)
    decreases |log|
  {
    var front := log[..|log| - 1];
    LastExecutes(first, log);
    if i < |front| {
      assert front[..i] == log[..i] && front[i] == log[i];
      RowIsRecorded(first, front, i, h, row);
    } else {
      assert front == log[..i];
    }
  }

  /** With unique keys, looking a recorded key up finds its row. */
  lemma {:induction false} KeyFindsRow(bets: seq<BetRow>, row: BetRow, key: string)
    requires KeysUnique(bets) && row in bets && row.key == Some(key)
    ensures FindKey(bets, key) == Some(row)
  {
    if bets[0] != row {
      var j :| 0 <= j < |bets| && bets[j] == row;
      assert bets[0].key != Some(key);
      assert bets[1..][j - 1] == row;
      KeyFindsRow(bets[1..], row, key);
    }
  }

  /** The hand on which the run executed its `i`-th committed change. */
  ghost function HandBefore(first: Hand, log: seq<Change>, i: nat): Hand
    requires InOrder(first, log).Some? && i < |log|
  {
    PrefixesExecute(first, log, i);
    InOrder(first, log[..i]).value
  }

  /** The retry of a committed request, at any later point of any interleaving: the lookup
      answers with the recorded bet exactly when the request was recorded as sent, judged on
      the hand it was executed on; otherwise it answers with a conflict. */
  lemma RetryReplaysIff(first: Hand, events: seq<Event>, i: nat)
    requires var w := Run(Fresh(first), events);
             i < |w.log| && w.log[i].BetChange? && w.log[i].req.key.Some? && w.log[i].req.key.value != ""
    ensures var w := Run(Fresh(first), events);
            && InOrder(first, w.log) == Some(w.store)
            && var req, h := w.log[i].req, HandBefore(first, w.log, i);
               var a := ApplyAction(h, req.id, req.action, req.amount, req.expected);
               && a.Ok?
               && LookUp(w.bets, req) == Some(
                    if RecordedAsSent(h, req) then Recorded(BetRow(req.id, a.value.action, a.value.amount, req.key))
                    else KeyConflict)
  {
    var w := Run(Fresh(first), events);
    RunKeepsOk(first, events);
    RunKeepsRows(first, events);
    PrefixesExecute(first, w.log, i);
    var h := HandBefore(first, w.log, i);
    forall row | row in RowWritten(h, w.log[i]) ensures row in w.bets {
      RowIsRecorded(first, w.log, i, h, row);
    }
    RecordedLookUp(h, w.log[i].req, w.bets);
  }

  lemma RecordedLookUp(h: Hand, req: Request, bets: seq<BetRow>)
    requires KeysUnique(bets) && req.key.Some? && req.key.value != ""
    requires Alone(h, BetChange(req)).Some?
    requires forall row :: row in RowWritten(h, BetChange(req)) ==> row in bets
    ensures var a := ApplyAction(h, req.id, req.action, req.amount, req.expected);
            && a.Ok?
            && LookUp(bets, req) == Some(
                 if RecordedAsSent(h, req) then Recorded(BetRow(req.id, a.value.action, a.value.amount, req.key))
                 else KeyConflict)
  {
    var a := ApplyAction(h, req.id, req.action, req.amount, req.expected).value;
    var row := BetRow(req.id, a.action, a.amount, req.key);
    assert RowWritten(h, BetChange(req)) == [row];
    assert row in RowWritten(h, BetChange(req));
    KeyFindsRow(bets, row, req.key.value);
    AppliedAsJudged(h, req);
    JudgedAsSentIff(h.round, h.players[IndexOf(h.players, req.id)], req.action, req.amount);
  }

  lemma CallNeverRecordsZero(h: Hand, req: Request)
    requires req.action == Call && req.amount == 0
    requires ApplyAction(h, req.id, req.action, req.amount, req.expected).Ok?
    ensures !RecordedAsSent(h, req)
  {
    AppliedAsJudged(h, req);
  }

  /** In particular a CALL sent with amount 0, once committed, conflicts with every retry. */
  lemma CallZeroConflicts(first: Hand, events: seq<Event>, i: nat)
    requires var w := Run(Fresh(first), events);
             && i < |w.log| && w.log[i].BetChange? && w.log[i].req.key.Some? && w.log[i].req.key.value != ""
             && w.log[i].req.action == Call && w.log[i].req.amount == 0
    ensures var w := Run(Fresh(first), events); LookUp(w.bets, w.log[i].req) == Some(KeyConflict)
  {
    var w := Run(Fresh(first), events);
    RetryReplaysIff(first, events, i);
    CallNeverRecordsZero(HandBefore(first, w.log, i), w.log[i].req);
  }

  /** One client sends a request and, once answered, sends it again. */
  function SendTwice(c: ClientId, req: Request): seq<Event>
  {
    [Submit(c, req), ReadRound(c), ReadPlayers(c), Commit(c), Submit(c, req)]
  }

  lemma {:induction false} RunGrows(w: World, events: seq<Event>, e: Event)
    ensures Run(w, events + [e]) == Next(Run(w, events), e)
  {
    assert (events + [e])[..|events|] == events;
  }

  /** Sent to a fresh world, the request is read together with the first hand. */
  lemma FirstSending(first: Hand, c: ClientId, req: Request)
    requires req.action != Unknown
    ensures var w := Next(Next(Next(Fresh(first), Submit(c, req)), ReadRound(c)), ReadPlayers(c));
            && ClientOf(w, c) == HasBoth(req, first.round, first.players)
            && w.store == first && w.bets == [] && w.log == []
  {
    var w1 := Next(Fresh(first), Submit(c, req));
    assert ClientOf(w1, c) == Started(req) && w1.store == first && w1.bets == [] && w1.log == [];
    var w2 := Next(w1, ReadRound(c));
    assert ClientOf(w2, c) == HasRound(req, first.round) && w2.store == first && w2.bets == [] && w2.log == [];
    var w3 := Next(w2, ReadPlayers(c));
    assert ClientOf(w3, c) == HasBoth(req, first.round, first.players);
  }

  /** A client that has read the store commits what the store accepts. */
  lemma UndisturbedCommit(w: World, c: ClientId, req: Request)
    requires ClientOf(w, c) == HasBoth(req, w.store.round, w.store.players) && w.bets == []
    requires ApplyAction(w.store, req.id, req.action, req.amount, req.expected).Ok?
    ensures Next(w, Commit(c)).log == w.log + [BetChange(req)]
    ensures ClientOf(Next(w, Commit(c)), c).Answered? && ClientOf(Next(w, Commit(c)), c).req == req
  {
    UndisturbedSucceeds(w, c, req);
    SuccessIsLogged(w, c);
  }

  lemma UndisturbedSucceeds(w: World, c: ClientId, req: Request)
    requires ClientOf(w, c) == HasBoth(req, w.store.round, w.store.players) && w.bets == []
    requires ApplyAction(w.store, req.id, req.action, req.amount, req.expected).Ok?
    ensures CommitSucceeds(w, ClientOf(w, c))
  {
    assert Hand(w.store.round, w.store.players) == w.store;
  }

  lemma SuccessIsLogged(w: World, c: ClientId)
    requires CommitSucceeds(w, ClientOf(w, c))
    ensures Next(w, Commit(c)).log == w.log + [BetChange(ClientOf(w, c).req)]
    ensures ClientOf(Next(w, Commit(c)), c).Answered? && ClientOf(Next(w, Commit(c)), c).req == ClientOf(w, c).req
  {
  }

  /** The answer to the second sending, for every first hand that accepts the request. */
  lemma SecondAnswer(first: Hand, c: ClientId, req: Request)
    requires req.key.Some? && req.key.value != ""
    requires ApplyAction(first, req.id, req.action, req.amount, req.expected).Ok?
    ensures var w := Run(Fresh(first), SendTwice(c, req));
            && w.log == [BetChange(req)]
            && ClientOf(w, c).Answered? && ClientOf(w, c).req == req
            && (ClientOf(w, c).reply == KeyConflict <==> !RecordedAsSent(first, req))
  {
    AppliedAsJudged(first, req);
    var read := ReadsBoth(first, c, req);
    SecondSending(first, read, c, req);
  }

  /** The world in which the request has been read together with the first hand. */
  lemma ReadsBoth(first: Hand, c: ClientId, req: Request) returns (read: World)
    requires req.action != Unknown
    ensures ClientOf(read, c) == HasBoth(req, first.round, first.players)
    ensures read.store == first && read.bets == [] && read.log == []
    ensures Run(Fresh(first), SendTwice(c, req)) == Next(Next(read, Commit(c)), Submit(c, req))
  {
    SendTwiceUnfolds(first, c, req);
    FirstSending(first, c, req);
    read := Next(Next(Next(Fresh(first), Submit(c, req)), ReadRound(c)), ReadPlayers(c));
  }

  /** A client that has read the first hand commits, and submits again. */
  lemma SecondSending(first: Hand, read: World, c: ClientId, req: Request)
    requires req.key.Some? && req.key.value != "" && req.action != Unknown
    requires ApplyAction(first, req.id, req.action, req.amount, req.expected).Ok?
    requires ClientOf(read, c) == HasBoth(req, first.round, first.players)
    requires read.store == first && read.bets == [] && read.log == []
    requires Run(Fresh(first), SendTwice(c, req)) == Next(Next(read, Commit(c)), Submit(c, req))
    ensures var w := Run(Fresh(first), SendTwice(c, req));
            && w.log == [BetChange(req)]
            && ClientOf(w, c).Answered? && ClientOf(w, c).req == req
            && (ClientOf(w, c).reply == KeyConflict <==> !RecordedAsSent(first, req))
  {
    var w := Next(read, Commit(c));
    UndisturbedCommit(read, c, req);
    AnsweredAgain(w, c, req);
    FirstRetry(first, SendTwice(c, req), Next(w, Submit(c, req)), req);
  }

  /** An answered client that submits again is answered by the lookup alone. */
  lemma AnsweredAgain(w: World, c: ClientId, req: Request)
    requires ClientOf(w, c).Answered? && req.action != Unknown
    ensures Next(w, Submit(c, req)).log == w.log && Next(w, Submit(c, req)).bets == w.bets
    ensures LookUp(w.bets, req).Some? ==>
      ClientOf(Next(w, Submit(c, req)), c) == Answered(req, LookUp(w.bets, req).value)
  {
  }

  /** The lookup after a run whose only committed change is the request. */
  lemma FirstRetry(first: Hand, events: seq<Event>, w: World, req: Request)
    requires w == Run(Fresh(first), events) && w.log == [BetChange(req)]
    requires req.key.Some? && req.key.value != ""
    ensures LookUp(w.bets, req).Some?
    ensures LookUp(w.bets, req) == Some(KeyConflict) <==> !RecordedAsSent(first, req)
  {
    RetryReplaysIff(first, events, 0);
    assert w.log[..0] == [];
  }

  lemma SendTwiceUnfolds(first: Hand, c: ClientId, req: Request)
    ensures Run(Fresh(first), SendTwice(c, req))
            == Next(Next(Next(Next(Next(Fresh(first), Submit(c, req)), ReadRound(c)), ReadPlayers(c)), Commit(c)),
                    Submit(c, req))
  {
    var w := Fresh(first);
    var s1: seq<Event> := [Submit(c, req)];
    var s2 := s1 + [ReadRound(c)];
    var s3 := s2 + [ReadPlayers(c)];
    var s4 := s3 + [Commit(c)];
    assert [] + [Submit(c, req)] == s1 && s4 + [Submit(c, req)] == SendTwice(c, req);
    RunGrows(w, [], Submit(c, req));
    RunGrows(w, s1, ReadRound(c));
    RunGrows(w, s2, ReadPlayers(c));
    RunGrows(w, s3, Commit(c));
    RunGrows(w, s4, Submit(c, req));
  }
}
