/** What a client is answered: on submitting, from the recorded bets; on committing, from what
    happened since its reads. */
module Replies {
  import opened Basics
  import opened HandTypes
  import opened Validator
  import opened ActionPipeline
  import opened Settlement
  import opened CasProtocol
  import opened Retries

  /** The client has no request under way. */
  ghost predicate Waiting(w: World, c: ClientId) { ClientOf(w, c).Idle? || ClientOf(w, c).Answered? }

  /** A key that the lookup does not skip. */
  ghost predicate CarriesKey(req: Request) { req.key.Some? && req.key.value != "" }

  predicate SamePayload(b: BetRow, req: Request)
  {
    b.id == req.id && b.action == req.action && b.amount == req.amount
  }

  /** In every interleaving, a request whose key some recorded bet carries is answered at once:
      with that bet when its player, action and amount are the request's, with a conflict
      otherwise. Nothing else changes. */
  lemma ReplyToUsedKey(first: Hand, events: seq<Event>, c: ClientId, req: Request, b: BetRow, w: World, n: World)
    requires w == Run(Fresh(first), events) && n == Next(w, Submit(c, req))
    requires Waiting(w, c) && CarriesKey(req) && req.action != Unknown
    requires b in w.bets && b.key == req.key
    ensures ClientOf(n, c) == Answered(req, if SamePayload(b, req) then Recorded(b) else KeyConflict)
    ensures n.store == w.store && n.bets == w.bets && n.log == w.log
  {
    RunKeepsOk(first, events);
    KeyFindsRow(w.bets, b, req.key.value);
  }

  /** A key another player has used always conflicts. */
  lemma OtherPlayersKeyConflicts(first: Hand, events: seq<Event>, c: ClientId, req: Request, b: BetRow, w: World)
    requires w == Run(Fresh(first), events) && Waiting(w, c) && CarriesKey(req) && req.action != Unknown
    requires b in w.bets && b.key == req.key && b.id != req.id
    ensures ClientOf(Next(w, Submit(c, req)), c) == Answered(req, KeyConflict)
  {
    ReplyToUsedKey(first, events, c, req, b, w, Next(w, Submit(c, req)));
  }

  /** With no key, an empty one or one that no recorded bet carries the request goes ahead; one
      that names no known action is refused before its key is looked at. */
  lemma ReplyToNewKey(w: World, c: ClientId, req: Request)
    requires Waiting(w, c)
    ensures req.action == Unknown ==> ClientOf(Next(w, Submit(c, req)), c) == Answered(req, Refused)
    ensures req.action != Unknown && (CarriesKey(req) ==> forall b :: b in w.bets ==> b.key != req.key) ==>
      ClientOf(Next(w, Submit(c, req)), c) == Started(req)
  {
  }

  // ---------------------------------------------------------------------------- commits

  /** The stored round still has the version the client read, the store as it is now accepts
      the request, and no recorded bet carries its key. */
  ghost predicate MayCommit(w: World, c: Client)
    requires c.HasBoth?
  {
    && c.round.version == w.store.round.version
    && ApplyAction(w.store, c.req.id, c.req.action, c.req.amount, c.req.expected).Ok?
    && (c.req.key.Some? ==> forall b :: b in w.bets ==> b.key != c.req.key)
  }

  /** The request is logged last, and the bet it came to is recorded and is the reply. */
  ghost predicate Committed(w: World, c: ClientId, req: Request, n: World)
  {
    var a := ApplyAction(w.store, req.id, req.action, req.amount, req.expected);
    && a.Ok?
    && var bet := BetRow(req.id, a.value.action, a.value.amount, req.key);
       n.store == a.value.hand && n.bets == w.bets + [bet] && n.log == w.log + [BetChange(req)]
       && ClientOf(n, c) == Answered(req, Recorded(bet))
  }

  ghost predicate TurnedAway(w: World, c: ClientId, req: Request, n: World)
  {
    n.store == w.store && n.bets == w.bets && n.log == w.log && ClientOf(n, c) == Answered(req, Refused)
  }

  lemma SucceedsIffMayCommit(first: Hand, w: World, c: ClientId)
    requires WorldOk(first, w) && ClientOf(w, c).HasBoth?
    ensures CommitSucceeds(w, ClientOf(w, c)) <==> MayCommit(w, ClientOf(w, c))
  {
    var client := ClientOf(w, c);
    assert ReadOk(w.store, client);
    if client.req.key.Some? && FindKey(w.bets, client.req.key.value).Some? {
      assert FindKey(w.bets, client.req.key.value).value in w.bets;
    }
  }

  lemma SuccessIsCommitted(first: Hand, w: World, c: ClientId, req: Request)
    requires WorldOk(first, w) && ClientOf(w, c).HasBoth? && CommitSucceeds(w, ClientOf(w, c))
    requires req == ClientOf(w, c).req
    ensures Committed(w, c, req, Next(w, Commit(c)))
  {
    CommitReadsTheStore(first, w, c);
    PartialWriteIsWhole(w.store, req.id, req.action, req.amount, req.expected);
  }

  // ------------------------------------------------ what happened since the first read

  /** The client still holds round `r`, alone or with the players it read later. */
  ghost predicate Holds(c: Client, req: Request, r: RoundState)
  {
    c == HasRound(req, r) || (c.HasBoth? && c.req == req && c.round == r)
  }

  lemma HoldsOn(w: World, e: Event, c: ClientId, req: Request, r: RoundState)
    requires Holds(ClientOf(w, c), req, r) && e != Commit(c)
    ensures Holds(ClientOf(Next(w, e), c), req, r)
  {
  }

  lemma {:induction false} HoldsAllAlong(first: Hand, w: World, events: seq<Event>, c: ClientId, req: Request,
                                         r: RoundState)
    requires WorldOk(first, w) && Holds(ClientOf(w, c), req, r) && Commit(c) !in events
    ensures Holds(ClientOf(Run(w, events), c), req, r) && WorldOk(first, Run(w, events))
  {
    if events != [] {
      var front := events[..|events| - 1];
      HoldsAllAlong(first, w, front, c, req, r);
      HoldsOn(Run(w, front), events[|events| - 1], c, req, r);
      NextKeepsOk(first, Run(w, front), events[|events| - 1]);
    }
  }

  /** The client reads the round, anything happens, and it has read the players too: its commit
      goes through exactly when nothing at all was committed since it read the round, the store
      accepts the request and its key is unused; otherwise it is refused and nothing changes. */
  lemma CommitsIffUndisturbed(first: Hand, before: seq<Event>, c: ClientId, middle: seq<Event>,
                              w: World, read: World, now: World, req: Request)
    requires w == Run(Fresh(first), before) && ClientOf(w, c) == Started(req)
    requires read == Next(w, ReadRound(c)) && now == Run(read, middle)
    requires Commit(c) !in middle && ClientOf(now, c).HasBoth?
    ensures if && |now.log| == |read.log|
               && ApplyAction(now.store, req.id, req.action, req.amount, req.expected).Ok?
               && (req.key.Some? ==> forall b :: b in now.bets ==> b.key != req.key)
            then Committed(now, c, req, Next(now, Commit(c)))
            else TurnedAway(now, c, req, Next(now, Commit(c)))
  {
    RunKeepsOk(first, before);
    NextKeepsOk(first, w, ReadRound(c));
    HoldsAllAlong(first, read, middle, c, req, read.store.round);
    SucceedsIffMayCommit(first, now, c);
    if MayCommit(now, ClientOf(now, c)) {
      SuccessIsCommitted(first, now, c, req);
    }
  }

  /** Advancing the street is committed exactly when it would be accepted alone. */
  lemma AdvanceCommitsIff(w: World)
    ensures match Alone(w.store, StreetChange)
            case Some(h) => Next(w, AdvanceNow) == w.(store := h, log := w.log + [StreetChange])
            case None => Next(w, AdvanceNow) == w
  {
  }

  /** So is a settlement. */
  lemma SettlementCommitsIff(w: World, payouts: seq<PotPayout>)
    ensures match Alone(w.store, SettleChange(payouts))
            case Some(h) => Next(w, ResolveNow(payouts)) == w.(store := h, log := w.log + [SettleChange(payouts)])
            case None => Next(w, ResolveNow(payouts)) == w
  {
  }
}
