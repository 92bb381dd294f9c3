/** `place_bet` as a client of the shared round: look the idempotency key up, read the round,
    read the players, compute, and commit only if `state_version` is unchanged. Any number of
    clients interleave; `advance_street` and `resolve_hand` are atomic steps. */
module CasProtocol {
  import opened Basics
  import opened HandTypes
  import opened Validator
  import opened ActionPipeline
  import opened StreetProgression
  import opened Settlement
  import opened Rows

  type ClientId = nat

  datatype Request = Request(id: PlayerId, action: Action, amount: int, key: Option<string>, expected: Option<int>)

  /** A row of `bets`: the effective action and amount. */
  datatype BetRow = BetRow(id: PlayerId, action: Action, amount: int, key: Option<string>)

  datatype Reply = Recorded(bet: BetRow) | KeyConflict | Refused

  datatype Client =
    | Idle
    | Started(req: Request)
    | HasRound(req: Request, round: RoundState)
    | HasBoth(req: Request, round: RoundState, players: seq<PlayerState>)
    | Answered(req: Request, reply: Reply)

  /** A committed change of the round, in commit order. */
  datatype Change = BetChange(req: Request) | StreetChange | SettleChange(payouts: seq<PotPayout>)

  datatype World = World(store: Hand, bets: seq<BetRow>, log: seq<Change>, clients: map<ClientId, Client>)

  datatype Event =
    | Submit(client: ClientId, req: Request)
    | ReadRound(client: ClientId)
    | ReadPlayers(client: ClientId)
    | Commit(client: ClientId)
    | AdvanceNow
    | ResolveNow(payouts: seq<PotPayout>)

  function ClientOf(w: World, c: ClientId): Client { if c in w.clients then w.clients[c] else Idle }

  /** The recorded bet with this key, if any. */
  function FindKey(bets: seq<BetRow>, key: string): (r: Option<BetRow>)
    ensures r.Some? ==> r.value in bets && r.value.key == Some(key)
    ensures r.None? ==> forall b :: b in bets ==> b.key != Some(key)
  {
    if bets == [] then None
    else if bets[0].key == Some(key) then Some(bets[0])
    else FindKey(bets[1..], key)
  }

  /** An empty key counts as no key for the lookup. */
  function LookUp(bets: seq<BetRow>, req: Request): Option<Reply>
  {
    if req.key.None? || req.key.value == "" then None
    else
      match FindKey(bets, req.key.value)
      case None => None
      case Some(b) =>
        if b.id != req.id || b.action != req.action || b.amount != req.amount then Some(KeyConflict)
        else Some(Recorded(b))
  }

  /** The unique constraint on (round, key) would reject this insert. */
  predicate KeyTaken(bets: seq<BetRow>, req: Request)
  {
    req.key.Some? && FindKey(bets, req.key.value).Some?
  }

  /** The columns the conditional update assigns. */
  function CasColumns(stored: RoundState, computed: RoundState): RoundState
  {
    stored.(pot := computed.pot, highest := computed.highest, minRaise := computed.minRaise,
            actor := computed.actor, aggressor := computed.aggressor, closed := computed.closed,
            version := computed.version, street := computed.street, status := computed.status,
            stamped := computed.stamped)
  }

  /** Only the bettor's own row is written back. */
  function WriteRow(stored: seq<PlayerState>, computed: seq<PlayerState>, id: PlayerId): seq<PlayerState>
  {
    var i, k := IndexOf(stored, id), IndexOf(computed, id);
    if i < |stored| && k < |computed| then stored[i := computed[k]] else stored
  }

  /** What a client that read `round` and `players` computes. */
  function Computed(c: Client): Result<Applied, BetError>
    requires c.HasBoth?
  {
    ApplyAction(Hand(c.round, c.players), c.req.id, c.req.action, c.req.amount, c.req.expected)
  }

  predicate CommitSucceeds(w: World, c: Client)
  {
    c.HasBoth? && Computed(c).Ok? && w.store.round.version == c.round.version && !KeyTaken(w.bets, c.req)
  }

  function Next(w: World, e: Event): World
  {
    match e
    case Submit(c, req) =>
      var current := ClientOf(w, c);
      if !current.Idle? && !current.Answered? then w
      else if req.action == Unknown then w.(clients := w.clients[c := Answered(req, Refused)])
      else
        var found := LookUp(w.bets, req);
        w.(clients := w.clients[c := if found.Some? then Answered(req, found.value) else Started(req)])
    case ReadRound(c) =>
      var current := ClientOf(w, c);
      if current.Started? then w.(clients := w.clients[c := HasRound(current.req, w.store.round)]) else w
    case ReadPlayers(c) =>
      var current := ClientOf(w, c);
      if current.HasRound?
      then w.(clients := w.clients[c := HasBoth(current.req, current.round, w.store.players)]) else w
    case Commit(c) =>
      var current := ClientOf(w, c);
      if !current.HasBoth? then w
      else if !CommitSucceeds(w, current) then w.(clients := w.clients[c := Answered(current.req, Refused)])
      else
        var a := Computed(current).value;
        var bet := BetRow(current.req.id, a.action, a.amount, current.req.key);
        World(Hand(CasColumns(w.store.round, a.hand.round), WriteRow(w.store.players, a.hand.players, current.req.id)),
              w.bets + [bet], w.log + [BetChange(current.req)],
              w.clients[c := Answered(current.req, Recorded(bet))])
    case AdvanceNow =>
      (match AdvanceStreet(w.store) case Err(_) => w case Ok(h) => w.(store := h, log := w.log + [StreetChange]))
    case ResolveNow(payouts) =>
      (match ResolveHand(w.store, payouts)
       case Err(_) => w
       case Ok(h) => w.(store := h, log := w.log + [SettleChange(payouts)]))
  }

  function Run(w: World, events: seq<Event>): World
  {
    if events == [] then w else Next(Run(w, events[..|events| - 1]), events[|events| - 1])
  }

  function Fresh(h: Hand): World { World(h, [], [], map[]) }

  /** `cas_update_round`: the conditional update of the stored row from the loaded and changed
      one, all or nothing. */
  method CasUpdateRound(stored: Round, computed: Round, expected: int) returns (updated: bool)
    requires stored != computed
    modifies stored
    ensures updated <==> old(stored.version) == expected
    ensures stored.View() == if updated then CasColumns(old(stored.View()), computed.View()) else old(stored.View())
    ensures stored.completedAt == if updated then computed.completedAt else old(stored.completedAt)
  {
    if stored.version != expected {
      return false;
    }
    stored.pot, stored.highest, stored.minRaise := computed.pot, computed.highest, computed.minRaise;
    stored.actor, stored.aggressor, stored.closed := computed.actor, computed.aggressor, computed.closed;
    stored.version, stored.street, stored.status := computed.version, computed.street, computed.status;
    stored.completedAt := computed.completedAt;
    return true;
  }

  // -------------------------------------------------------- the sequential reference

  /** One committed change executed alone; `None` when it would be refused. */
  function Alone(h: Hand, change: Change): Option<Hand>
  {
    match change
    case BetChange(req) =>
      (match ApplyAction(h, req.id, req.action, req.amount, req.expected)
       case Ok(a) => Some(a.hand)
       case Err(_) => None)
    case StreetChange => (match AdvanceStreet(h) case Ok(n) => Some(n) case Err(_) => None)
    case SettleChange(payouts) => (match ResolveHand(h, payouts) case Ok(n) => Some(n) case Err(_) => None)
  }

  /** The changes executed one at a time in order; `None` if any would be refused. */
  function InOrder(h: Hand, log: seq<Change>): Option<Hand>
  {
    if log == [] then Some(h)
    else
      match InOrder(h, log[..|log| - 1])
      case None => None
      case Some(m) => Alone(m, log[|log| - 1])
  }

  // ------------------------------------------------------------------- the invariant

  /** What a client has read is never newer than the store, and is the store itself when the
      versions are equal. */
  ghost predicate ReadOk(store: Hand, c: Client)
  {
    match c
    case HasRound(_, r) => r.version <= store.round.version && (r.version == store.round.version ==> r == store.round)
    case HasBoth(_, r, ps) =>
      r.version <= store.round.version && (r.version == store.round.version ==> Hand(r, ps) == store)
    case _ => true
  }

  ghost predicate KeysUnique(bets: seq<BetRow>)
  {
    forall i, j :: 0 <= i < j < |bets| && bets[i].key.Some? ==> bets[i].key != bets[j].key
  }

  /** The keys of the committed bets, in commit order. */
  function KeysOf(log: seq<Change>): seq<Option<string>>
  {
    if log == [] then []
    else
      KeysOf(log[..|log| - 1])
      + if log[|log| - 1].BetChange? then [log[|log| - 1].req.key] else []
  }

  function RowKeys(bets: seq<BetRow>): (r: seq<Option<string>>)
    ensures |r| == |bets| && forall i :: 0 <= i < |bets| ==> r[i] == bets[i].key
  {
    seq(|bets|, i requires 0 <= i < |bets| => bets[i].key)
  }

  ghost predicate WorldOk(first: Hand, w: World)
  {
    && InOrder(first, w.log) == Some(w.store)
    && w.store.round.version == first.round.version + |w.log|
    && (forall c :: c in w.clients ==> ReadOk(w.store, w.clients[c]))
    && KeysUnique(w.bets)
    && KeysOf(w.log) == RowKeys(w.bets)
  }

  lemma AloneBumps(h: Hand, change: Change)
    ensures Alone(h, change).Some? ==> Alone(h, change).value.round.version == h.round.version + 1
  {
  }

  /** A commit that succeeds read the current round and the current players: no torn read. */
  lemma CommitReadsTheStore(first: Hand, w: World, c: ClientId)
    requires WorldOk(first, w) && c in w.clients && CommitSucceeds(w, w.clients[c])
    ensures Hand(w.clients[c].round, w.clients[c].players) == w.store
  {
  }

  /** Writing back the listed columns and one row stores exactly what was computed. */
  lemma PartialWriteIsWhole(h: Hand, id: PlayerId, action: Action, amount: int, expected: Option<int>)
    requires ApplyAction(h, id, action, amount, expected).Ok?
    ensures var n := ApplyAction(h, id, action, amount, expected).value.hand;
            CasColumns(h.round, n.round) == n.round && WriteRow(h.players, n.players, id) == n.players
  {
    var n := ApplyAction(h, id, action, amount, expected).value.hand;
    var i := IndexOf(h.players, id);
    assert n.players[i].id == id;
    assert forall j :: 0 <= j < i ==> n.players[j] == h.players[j];
    assert IndexOf(n.players, id) == i;
  }

  lemma LogGrows(first: Hand, log: seq<Change>, store: Hand, change: Change)
    requires InOrder(first, log) == Some(store)
    ensures InOrder(first, log + [change]) == Alone(store, change)
    ensures KeysOf(log + [change]) == KeysOf(log) + if change.BetChange? then [change.req.key] else []
  {
    assert (log + [change])[..|log|] == log;
  }

  lemma ChangeKeepsReads(w: World, n: Hand)
    requires forall c :: c in w.clients ==> ReadOk(w.store, w.clients[c])
    requires n.round.version > w.store.round.version
    ensures forall c :: c in w.clients ==> ReadOk(n, w.clients[c])
  {
    forall c | c in w.clients ensures ReadOk(n, w.clients[c]) {
      assert ReadOk(w.store, w.clients[c]);
    }
  }

  /** A successful commit is the bet executed alone on the store. */
  lemma CommitIsAlone(first: Hand, w: World, c: ClientId)
    requires WorldOk(first, w) && c in w.clients && CommitSucceeds(w, w.clients[c])
    ensures var n := Next(w, Commit(c));
            && Alone(w.store, BetChange(w.clients[c].req)) == Some(n.store)
            && n.store.round.version == w.store.round.version + 1
  {
    var req := w.clients[c].req;
    CommitReadsTheStore(first, w, c);
    PartialWriteIsWhole(w.store, req.id, req.action, req.amount, req.expected);
    AloneBumps(w.store, BetChange(req));
  }

  lemma KeysStayUnique(bets: seq<BetRow>, bet: BetRow, req: Request)
    requires KeysUnique(bets) && !KeyTaken(bets, req) && bet.key == req.key
    ensures KeysUnique(bets + [bet])
    ensures RowKeys(bets + [bet]) == RowKeys(bets) + [req.key]
  {
  }

  lemma CommitKeepsOk(first: Hand, w: World, c: ClientId)
    requires WorldOk(first, w) && c in w.clients && CommitSucceeds(w, w.clients[c])
    ensures WorldOk(first, Next(w, Commit(c)))
  {
    var n, req := Next(w, Commit(c)), w.clients[c].req;
    CommitIsAlone(first, w, c);
    LogGrows(first, w.log, w.store, BetChange(req));
    ChangeKeepsReads(w, n.store);
    KeysStayUnique(w.bets, n.bets[|w.bets|], req);
  }

  lemma AtomicKeepsOk(first: Hand, w: World, change: Change)
    requires WorldOk(first, w) && !change.BetChange? && Alone(w.store, change).Some?
    ensures WorldOk(first, w.(store := Alone(w.store, change).value, log := w.log + [change]))
  {
    AloneBumps(w.store, change);
    LogGrows(first, w.log, w.store, change);
    ChangeKeepsReads(w, Alone(w.store, change).value);
    assert KeysOf(w.log) + [] == KeysOf(w.log);
  }

  lemma ReadsAreOk(w: World, c: ClientId)
    requires forall k :: k in w.clients ==> ReadOk(w.store, w.clients[k])
    ensures ClientOf(w, c).Started? ==> ReadOk(w.store, HasRound(ClientOf(w, c).req, w.store.round))
    ensures ClientOf(w, c).HasRound? ==>
      ReadOk(w.store, HasBoth(ClientOf(w, c).req, ClientOf(w, c).round, w.store.players))
  {
    assert c in w.clients ==> ReadOk(w.store, w.clients[c]);
  }

  /** Steps that only move one client on. */
  lemma ReadingKeepsOk(first: Hand, w: World, e: Event)
    requires WorldOk(first, w) && (e.Submit? || e.ReadRound? || e.ReadPlayers?)
    ensures WorldOk(first, Next(w, e))
  {
    var n := Next(w, e);
    ReadsAreOk(w, e.client);
    assert n.store == w.store && n.log == w.log && n.bets == w.bets;
    forall c | c in n.clients ensures ReadOk(n.store, n.clients[c]) {
      assert c in w.clients ==> ReadOk(w.store, w.clients[c]);
    }
  }

  lemma RefusedCommitKeepsOk(first: Hand, w: World, c: ClientId)
    requires WorldOk(first, w) && !CommitSucceeds(w, ClientOf(w, c))
    ensures WorldOk(first, Next(w, Commit(c)))
  {
    var n := Next(w, Commit(c));
    assert n.store == w.store && n.log == w.log && n.bets == w.bets;
    forall k | k in n.clients ensures ReadOk(n.store, n.clients[k]) {
      assert k in w.clients ==> ReadOk(w.store, w.clients[k]);
    }
  }

  lemma NextKeepsOk(first: Hand, w: World, e: Event)
    requires WorldOk(first, w)
    ensures WorldOk(first, Next(w, e))
  {
    match e
    case Commit(c) =>
      if CommitSucceeds(w, ClientOf(w, c)) {
        CommitKeepsOk(first, w, c);
      } else {
        RefusedCommitKeepsOk(first, w, c);
      }
    case AdvanceNow =>
      if AdvanceStreet(w.store).Ok? { AtomicKeepsOk(first, w, StreetChange); }
    case ResolveNow(payouts) =>
      if ResolveHand(w.store, payouts).Ok? { AtomicKeepsOk(first, w, SettleChange(payouts)); }
    case Submit(_, _) => ReadingKeepsOk(first, w, e);
    case ReadRound(_) => ReadingKeepsOk(first, w, e);
    case ReadPlayers(_) => ReadingKeepsOk(first, w, e);
  }

  lemma {:induction false} RunKeepsOk(first: Hand, events: seq<Event>)
    ensures WorldOk(first, Run(Fresh(first), events))
  {
    if events != [] {
      RunKeepsOk(first, events[..|events| - 1]);
      NextKeepsOk(first, Run(Fresh(first), events[..|events| - 1]), events[|events| - 1]);
    }
  }

  // --------------------------------------------------------------------- the theorems

  /** Serializability: for every interleaving, the stored round and players are the result of
      running the committed changes one at a time in commit order, none of which is refused
      there, and the version counts them: no update is lost. */
  lemma Serializable(first: Hand, events: seq<Event>)
    ensures var w := Run(Fresh(first), events);
            && InOrder(first, w.log) == Some(w.store)
            && w.store.round.version == first.round.version + |w.log|
  {
    RunKeepsOk(first, events);
  }

  /** No commit is computed from a torn read: whatever happened between the two reads and the
      commit, a commit that succeeds saw the round and the players as stored right now. */
  lemma NoTornCommit(first: Hand, events: seq<Event>, c: ClientId)
    requires CommitSucceeds(Run(Fresh(first), events), ClientOf(Run(Fresh(first), events), c))
    ensures var w := Run(Fresh(first), events);
            Hand(ClientOf(w, c).round, ClientOf(w, c).players) == w.store
  {
    RunKeepsOk(first, events);
    CommitReadsTheStore(first, Run(Fresh(first), events), c);
  }

  /** How many bets the changes of `log` committed: where in `bets` the next one is recorded. */
  function BetsBefore(log: seq<Change>): nat { |KeysOf(log)| }

  lemma {:induction false} KeyAt(log: seq<Change>, i: nat)
    requires i < |log| && log[i].BetChange?
    ensures BetsBefore(log[..i]) < |KeysOf(log)| && KeysOf(log)[BetsBefore(log[..i])] == log[i].req.key
    ensures forall j :: 0 <= j <= i ==> BetsBefore(log[..j]) <= BetsBefore(log[..i])
  {
    var n := |log| - 1;
    if i < n {
      KeyAt(log[..n], i);
      assert log[..n][..i] == log[..i];
      forall j | 0 <= j <= i ensures BetsBefore(log[..j]) <= BetsBefore(log[..i]) {
        assert log[..n][..j] == log[..j];
      }
    } else {
      forall j | 0 <= j <= i ensures BetsBefore(log[..j]) <= BetsBefore(log[..i]) {
        KeysGrow(log[..i], j);
        assert log[..i][..j] == log[..j];
      }
    }
  }

  lemma {:induction false} KeysGrow(log: seq<Change>, j: nat)
    requires j <= |log|
    ensures |KeysOf(log[..j])| <= |KeysOf(log)|
  {
    if j < |log| {
      KeysGrow(log[..|log| - 1], j);
      assert log[..|log| - 1][..j] == log[..j];
    } else {
      assert log[..j] == log;
    }
  }

  /** At most once: in every interleaving, two different committed bets never carry the same
      non-null idempotency key. */
  lemma EachKeyCommitsOnce(first: Hand, events: seq<Event>, i: nat, j: nat)
    requires var log := Run(Fresh(first), events).log;
             i < j < |log| && log[i].BetChange? && log[j].BetChange? && log[i].req.key.Some?
    ensures var log := Run(Fresh(first), events).log; log[i].req.key != log[j].req.key
  {
    var w := Run(Fresh(first), events);
    RunKeepsOk(first, events);
    KeyAt(w.log, i);
    KeyAt(w.log, j);
    KeysGrow(w.log[..j], i + 1);
    assert w.log[..j][..i + 1] == w.log[..i + 1] && w.log[..i + 1][..i] == w.log[..i];
  }

  /** Once a key is recorded, a commit of any request that carries it changes nothing and is
      refused, and submitting such a request (with a non-empty key) is answered at once with
      the recorded bet or a conflict. */
  lemma RepeatChangesNothing(w: World, c: ClientId, req: Request)
    requires KeyTaken(w.bets, req)
    ensures ClientOf(w, c).HasBoth? && ClientOf(w, c).req == req ==>
              && Next(w, Commit(c)).store == w.store && Next(w, Commit(c)).bets == w.bets
              && Next(w, Commit(c)).log == w.log
              && ClientOf(Next(w, Commit(c)), c) == Answered(req, Refused)
    ensures (ClientOf(w, c).Idle? || ClientOf(w, c).Answered?) && req.key != Some("") && req.action != Unknown ==>
              && Next(w, Submit(c, req)).store == w.store && Next(w, Submit(c, req)).log == w.log
              && var after := ClientOf(Next(w, Submit(c, req)), c);
                 after.Answered? && after.req == req
                 && (after.reply == KeyConflict || (after.reply.Recorded? && after.reply.bet in w.bets))
  {
  }
}
