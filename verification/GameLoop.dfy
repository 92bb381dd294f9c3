/** Hand after hand: deal from the snapshot, play, settle once, sync the snapshot, rotate the
    buttons or finish the game. */
module GameLoop {
  import opened Basics
  import opened HandTypes
  import opened BlindPosting
  import opened HandMachine
  import opened Settlement
  import opened SettlementTheorems
  import opened Positions

  datatype SnapPlayer = SnapPlayer(id: PlayerId, seat: int, chips: int, active: bool, eliminated: bool)

  datatype GameStatus = Playing | Finished

  /** `deal` and `hand` are those of the round in progress, if there is one. */
  datatype Game = Game(status: GameStatus, buttons: Buttons, snapshot: seq<SnapPlayer>, table: Option<Table>)

  datatype Table = Table(deal: Deal, hand: Hand)

  datatype Move =
    | DealHand(small: int, big: int, ante: int)
    | Act(step: Step)
    | SettleUp(payouts: seq<PotPayout>)

  function ChipsOf(p: SnapPlayer): int { p.chips }

  predicate InPlay(p: SnapPlayer) { p.active && !p.eliminated && p.chips > 0 }

  function SeatRow(p: SnapPlayer): SeatPlayer { SeatPlayer(p.id, p.seat, p.chips) }

  /** The snapshot rows are read in seat order. */
  function ActivePlayers(snap: seq<SnapPlayer>): seq<SeatPlayer>
  {
    if snap == [] then []
    else if InPlay(snap[0]) then [SeatRow(snap[0])] + ActivePlayers(snap[1..])
    else ActivePlayers(snap[1..])
  }

  function SeatsOf(ps: seq<SeatPlayer>): (r: seq<int>)
    ensures |r| == |ps| && forall i :: 0 <= i < |ps| ==> r[i] == ps[i].seat
  {
    seq(|ps|, i requires 0 <= i < |ps| => ps[i].seat)
  }

  function ActiveSeats(snap: seq<SnapPlayer>): seq<int> { SeatsOf(ActivePlayers(snap)) }

  function SyncOne(p: SnapPlayer, players: seq<PlayerState>): SnapPlayer
  {
    var i := IndexOf(players, p.id);
    if i == |players| then p
    else
      var chips := Max(players[i].stack, 0);
      p.(chips := chips, active := chips > 0, eliminated := chips <= 0)
  }

  /** `sync_room_snapshot_players_from_round`, row by row. */
  function Sync(snap: seq<SnapPlayer>, players: seq<PlayerState>): (r: seq<SnapPlayer>)
    ensures |r| == |snap| && forall i :: 0 <= i < |snap| ==> r[i] == SyncOne(snap[i], players)
  {
    seq(|snap|, i requires 0 <= i < |snap| => SyncOne(snap[i], players))
  }

  function StartGame(snap: seq<SnapPlayer>, startingDealer: int): Option<Game>
  {
    if |ActiveSeats(snap)| < 2 then None
    else Some(Game(Playing, AssignPositions(ActiveSeats(snap), startingDealer), snap, None))
  }

  function DealOf(g: Game, small: int, big: int, ante: int): Deal
  {
    Deal(ActivePlayers(g.snapshot), g.buttons.dealer, g.buttons.small, g.buttons.big, small, big, ante)
  }

  function AfterSettlement(g: Game, players: seq<PlayerState>): Game
  {
    var snap := Sync(g.snapshot, players);
    if |ActiveSeats(snap)| >= 2 then
      Game(g.status, RotatePositions(ActiveSeats(snap), g.buttons.dealer), snap, None)
    else Game(Finished, g.buttons, snap, None)
  }

  ghost function Next(g: Game, m: Move): Game
  {
    match m
    case DealHand(small, big, ante) =>
      if g.status != Playing || g.table.Some? || ActivePlayers(g.snapshot) == []
         || small <= 0 || big <= 0 || ante < 0 then g
      else g.(table := Some(Table(DealOf(g, small, big, ante), StartRound(DealOf(g, small, big, ante)))))
    case Act(step) =>
      if g.table.None? then g else g.(table := Some(g.table.value.(hand := Take(g.table.value.hand, step))))
    case SettleUp(payouts) =>
      if g.table.None? || !WellFormed(payouts) then g
      else
        match ResolveHand(g.table.value.hand, payouts)
        case Err(_) => g
        case Ok(h) => AfterSettlement(g, h.players)
  }

  ghost function Run(g: Game, moves: seq<Move>): Game
  {
    if moves == [] then g else Next(Run(g, moves[..|moves| - 1]), moves[|moves| - 1])
  }

  // ------------------------------------------------------ the source's sync loop

  function SnapIndex(snap: seq<SnapPlayer>, id: PlayerId): (i: nat)
    ensures i <= |snap|
    ensures i < |snap| ==> snap[i].id == id
    ensures forall j :: 0 <= j < i ==> snap[j].id != id
  {
    if snap == [] then 0
    else if snap[0].id == id then 0
    else
      var k := SnapIndex(snap[1..], id);
      assert forall j :: 1 <= j < k + 1 ==> snap[j] == snap[1..][j - 1];
      k + 1
  }

  ghost predicate SnapIdsDistinct(snap: seq<SnapPlayer>)
  {
    forall i, j :: 0 <= i < j < |snap| ==> snap[i].id != snap[j].id
  }

  lemma {:induction false} ActiveGrows(snap: seq<SnapPlayer>, p: SnapPlayer)
    ensures ActiveSeats(snap + [p]) == ActiveSeats(snap) + if InPlay(p) then [p.seat] else []
  {
    if snap == [] {
      assert snap + [p] == [p] && [p][1..] == [];
    } else {
      assert (snap + [p])[1..] == snap[1..] + [p];
      ActiveGrows(snap[1..], p);
    }
  }

  /** The seats still in play, collected row by row. */
  method CollectSeats(snap: seq<SnapPlayer>) returns (seats: seq<int>)
    ensures seats == ActiveSeats(snap)
  {
    seats := [];
    for i := 0 to |snap|
      invariant seats == ActiveSeats(snap[..i])
    {
      ActiveGrows(snap[..i], snap[i]);
      assert snap[..i + 1] == snap[..i] + [snap[i]];
      if snap[i].active && !snap[i].eliminated && snap[i].chips > 0 {
        seats := seats + [snap[i].seat];
      }
    }
    assert snap[..|snap|] == snap;
  }

  /** The loop over round players that overwrites snapshot rows, and the seats it returns. */
  method RunSync(snap: seq<SnapPlayer>, players: seq<PlayerState>) returns (r: seq<SnapPlayer>, seats: seq<int>)
    requires SnapIdsDistinct(snap) && IdsDistinct(players)
    ensures r == Sync(snap, players)
    ensures seats == ActiveSeats(Sync(snap, players))
  {
    r := OverwriteRows(snap, players);
    seats := CollectSeats(r);
  }

  method OverwriteRows(snap: seq<SnapPlayer>, players: seq<PlayerState>) returns (r: seq<SnapPlayer>)
    requires SnapIdsDistinct(snap) && IdsDistinct(players)
    ensures r == Sync(snap, players)
  {
    r := snap;
    for k := 0 to |players|
      invariant |r| == |snap|
      invariant forall i :: 0 <= i < |snap| ==>
        r[i] == if IndexOf(players, snap[i].id) < k then SyncOne(snap[i], players) else snap[i]
    {
      var i := SnapIndex(r, players[k].id);
      if i < |r| {
        var chips := Max(players[k].stack, 0);
        r := r[i := r[i].(chips := chips, active := chips > 0, eliminated := chips <= 0)];
      }
    }
  }

  // --------------------------------------------------------------------- invariant

  ghost predicate SnapOk(snap: seq<SnapPlayer>)
  {
    && (forall i, j :: 0 <= i < j < |snap| ==> snap[i].seat < snap[j].seat)
    && SnapIdsDistinct(snap)
    && (forall i :: 0 <= i < |snap| ==> snap[i].chips >= 0)
  }

  ghost predicate TableOk(g: Game, t: Table)
  {
    && t.deal == DealOf(g, t.deal.small, t.deal.big, t.deal.ante)
    && DealOk(t.deal) && Inv(t.deal, t.hand)
  }

  ghost predicate GameOk(g: Game)
  {
    && SnapOk(g.snapshot)
    && (g.status == Playing <==> |ActiveSeats(g.snapshot)| >= 2)
    && (g.status == Playing ==>
          ButtonsOk(ActiveSeats(g.snapshot), g.buttons) && InTurn(ActiveSeats(g.snapshot), g.buttons))
    && (g.table.Some? ==> g.status == Playing && TableOk(g, g.table.value))
  }

  /** In seat order, nobody twice, everybody with chips. */
  ghost predicate Ordered(a: seq<SeatPlayer>)
  {
    && (forall i, j :: 0 <= i < j < |a| ==> a[i].seat < a[j].seat)
    && (forall i, j :: 0 <= i < j < |a| ==> a[i].id != a[j].id)
    && (forall i :: 0 <= i < |a| ==> a[i].stack > 0)
  }

  lemma {:induction false} ActiveMembers(snap: seq<SnapPlayer>, q: SeatPlayer)
    requires q in ActivePlayers(snap)
    ensures exists k :: 0 <= k < |snap| && InPlay(snap[k]) && q == SeatRow(snap[k])
  {
    if InPlay(snap[0]) && q == SeatRow(snap[0]) {
      assert InPlay(snap[0]) && q == SeatRow(snap[0]);
    } else {
      ActiveMembers(snap[1..], q);
      var k :| 0 <= k < |snap[1..]| && InPlay(snap[1..][k]) && q == SeatRow(snap[1..][k]);
      assert snap[k + 1] == snap[1..][k];
    }
  }

  lemma FirstIsApart(snap: seq<SnapPlayer>, q: SeatPlayer)
    requires SnapOk(snap) && snap != [] && q in ActivePlayers(snap[1..])
    ensures q.seat > snap[0].seat && q.id != snap[0].id
  {
    ActiveMembers(snap[1..], q);
    var k :| 0 <= k < |snap[1..]| && InPlay(snap[1..][k]) && q == SeatRow(snap[1..][k]);
    assert snap[k + 1] == snap[1..][k];
  }

  lemma {:induction false} ActiveAreOrdered(snap: seq<SnapPlayer>)
    requires SnapOk(snap)
    ensures Ordered(ActivePlayers(snap))
  {
    if snap != [] {
      ActiveAreOrdered(snap[1..]);
      var b := ActivePlayers(snap[1..]);
      forall i | 0 <= i < |b| ensures b[i].seat > snap[0].seat && b[i].id != snap[0].id {
        FirstIsApart(snap, b[i]);
      }
    }
  }

  lemma ActiveSeatsDistinct(snap: seq<SnapPlayer>)
    requires SnapOk(snap)
    ensures SeatsDistinct(ActiveSeats(snap)) && Ascending(ActiveSeats(snap))
  {
    ActiveAreOrdered(snap);
    var a := ActivePlayers(snap);
    assert forall i :: 0 <= i < |a| ==> ActiveSeats(snap)[i] == a[i].seat;
  }

  lemma SyncKeepsSnap(snap: seq<SnapPlayer>, players: seq<PlayerState>)
    requires SnapOk(snap)
    ensures SnapOk(Sync(snap, players))
  {
  }

  /** Starting a game with two or more active players puts the buttons on the table. */
  lemma StartIsSound(snap: seq<SnapPlayer>, startingDealer: int)
    requires SnapOk(snap)
    ensures StartGame(snap, startingDealer).Some? ==> GameOk(StartGame(snap, startingDealer).value)
  {
    ActiveSeatsDistinct(snap);
    var seats := ActiveSeats(snap);
    if |seats| >= 2 {
      ButtonsAreOk(seats, if startingDealer in seats then Find(seats, startingDealer) else 0);
      AssignedInTurn(seats, startingDealer);
    }
  }

  lemma DealIsSound(g: Game, small: int, big: int, ante: int)
    requires GameOk(g)
    ensures GameOk(Next(g, DealHand(small, big, ante)))
  {
    var d := DealOf(g, small, big, ante);
    ActiveAreOrdered(g.snapshot);
    if ActivePlayers(g.snapshot) != [] && small > 0 && big > 0 && ante >= 0 {
      assert DealOk(d);
      StartIsOk(d);
    }
  }

  lemma SettlementIsSound(g: Game, players: seq<PlayerState>)
    requires GameOk(g) && g.status == Playing
    ensures GameOk(AfterSettlement(g, players))
  {
    var snap := Sync(g.snapshot, players);
    SyncKeepsSnap(g.snapshot, players);
    ActiveSeatsDistinct(snap);
    if |ActiveSeats(snap)| >= 2 {
      RotationIsOk(ActiveSeats(snap), g.buttons.dealer);
      RotatedInTurn(ActiveSeats(snap), g.buttons.dealer);
    }
  }

  lemma NextIsSound(g: Game, m: Move)
    requires GameOk(g)
    ensures GameOk(Next(g, m))
  {
    match m
    case DealHand(small, big, ante) => DealIsSound(g, small, big, ante);
    case Act(step) =>
      if g.table.Some? {
        TakeKeepsInv(g.table.value.deal, g.table.value.hand, step);
      }
    case SettleUp(payouts) =>
      if g.table.Some? && WellFormed(payouts) && ResolveHand(g.table.value.hand, payouts).Ok? {
        SettlementIsSound(g, ResolveHand(g.table.value.hand, payouts).value.players);
      }
  }

  lemma {:induction false} RunIsSound(g: Game, moves: seq<Move>)
    requires GameOk(g)
    ensures GameOk(Run(g, moves))
  {
    if moves != [] {
      RunIsSound(g, moves[..|moves| - 1]);
      NextIsSound(Run(g, moves[..|moves| - 1]), moves[|moves| - 1]);
    }
  }

  // ------------------------------------------------------------------ chips of a game

  function Total(g: Game): int { SumBy(g.snapshot, ChipsOf) }

  function SeatStack(p: SeatPlayer): int { p.stack }

  /** The round players are the active players, in order. */
  ghost predicate Matches(a: seq<SeatPlayer>, players: seq<PlayerState>)
  {
    |players| == |a| && forall i :: 0 <= i < |a| ==> players[i].id == a[i].id && players[i].stack >= 0
  }

  /** Syncing replaces the chips the players were dealt in with by their final stacks. */
  lemma {:induction false} SyncMovesChips(snap: seq<SnapPlayer>, players: seq<PlayerState>)
    requires SnapOk(snap) && Matches(ActivePlayers(snap), players)
    ensures SumBy(Sync(snap, players), ChipsOf)
            == SumBy(snap, ChipsOf) - SumBy(ActivePlayers(snap), SeatStack) + SumBy(players, StackOf)
  {
    if snap != [] {
      var p, rest := snap[0], snap[1..];
      assert Sync(snap, players)[1..] == Sync(rest, players);
      if InPlay(p) {
        assert ActivePlayers(snap)[1..] == ActivePlayers(rest) && ActivePlayers(snap)[0] == SeatRow(p);
        SyncMovesChips(rest, players[1..]);
        SyncIgnores(rest, players);
      } else {
        SyncMovesChips(rest, players);
        NotDealtIn(snap, players);
      }
    }
  }

  lemma NotDealtIn(snap: seq<SnapPlayer>, players: seq<PlayerState>)
    requires SnapOk(snap) && snap != [] && Matches(ActivePlayers(snap[1..]), players)
    ensures SyncOne(snap[0], players) == snap[0]
  {
    var i := IndexOf(players, snap[0].id);
    if i < |players| {
      FirstIsApart(snap, ActivePlayers(snap[1..])[i]);
    }
  }

  /** A round player whose id no row has changes nothing. */
  lemma SyncIgnores(snap: seq<SnapPlayer>, players: seq<PlayerState>)
    requires players != [] && forall i :: 0 <= i < |snap| ==> snap[i].id != players[0].id
    ensures Sync(snap, players) == Sync(snap, players[1..])
  {
    forall i | 0 <= i < |snap| ensures SyncOne(snap[i], players) == SyncOne(snap[i], players[1..]) {
    }
  }

  // ------------------------------------------------------------------- the theorems

  lemma InvIsBalanced(d: Deal, h: Hand)
    requires DealOk(d) && Inv(d, h)
    ensures Balanced(h)
  {
    NamesStay(d, h);
    forall i | 0 <= i < |h.players| ensures h.players[i].hand >= 0 {
      assert PlayerOk(h.players[i], d.seats[i]);
    }
  }

  /** Before payment the stacks are what was dealt in minus the pot. */
  lemma {:induction false} StacksPlusPot(seats: seq<SeatPlayer>, ps: seq<PlayerState>)
    requires |ps| == |seats| && forall i :: 0 <= i < |ps| ==> ps[i].stack + ps[i].hand == seats[i].stack
    ensures SumBy(ps, StackOf) + SumBy(ps, CommitOf) == SumBy(seats, SeatStack)
  {
    if ps != [] {
      StacksPlusPot(seats[1..], ps[1..]);
    }
  }

  /** An accepted settlement of the hand on the table, seen from the players. */
  lemma SettledStacks(g: Game, payouts: seq<PotPayout>)
    requires GameOk(g) && g.table.Some? && WellFormed(payouts)
    requires ResolveHand(g.table.value.hand, payouts).Ok?
    ensures var t := g.table.value;
            var paid := ResolveHand(t.hand, payouts).value.players;
            && Matches(t.deal.seats, paid)
            && SumBy(paid, StackOf) == SumBy(t.deal.seats, SeatStack) - t.hand.round.pot + TotalPaid(payouts)
            && 0 < TotalPaid(payouts) <= t.hand.round.pot
  {
    var t := g.table.value;
    var ps := t.hand.players;
    InvIsBalanced(t.deal, t.hand);
    PotsExist(t.hand, payouts);
    SettlementAddsItsPayment(t.hand, payouts);
    forall i | 0 <= i < |ps| ensures ps[i].stack + ps[i].hand == t.deal.seats[i].stack {
      assert PlayerOk(ps[i], t.deal.seats[i]);
    }
    StacksPlusPot(t.deal.seats, ps);
    PaidStacksStand(t.deal, t.hand, payouts);
  }

  lemma PaidStacksStand(d: Deal, h: Hand, payouts: seq<PotPayout>)
    requires DealOk(d) && Inv(d, h) && WellFormed(payouts)
    ensures Matches(d.seats, PayAll(h.players, payouts))
  {
    NamesStay(d, h);
    PayoutsRaise(h.players, payouts);
    forall i | 0 <= i < |h.players|
      ensures PayAll(h.players, payouts)[i].id == d.seats[i].id && PayAll(h.players, payouts)[i].stack >= 0
    {
      assert PlayerOk(h.players[i], d.seats[i]);
      forall p | p in payouts ensures 0 <= WonFrom(h.players[i].id)(p) {
        PaidIsNonNegative(p, h.players[i].id);
      }
      SumByNonNegative(payouts, WonFrom(h.players[i].id));
    }
  }

  /** The move is a settlement that is accepted. */
  ghost predicate Settles(g: Game, m: Move)
  {
    m.SettleUp? && g.table.Some? && WellFormed(m.payouts) && ResolveHand(g.table.value.hand, m.payouts).Ok?
  }

  /** The chips of the pot that a move leaves unpaid. */
  ghost function Unpaid(g: Game, m: Move): int
  {
    if Settles(g, m) then g.table.value.hand.round.pot - TotalPaid(m.payouts) else 0
  }

  ghost function UnpaidInRun(g: Game, moves: seq<Move>): int
  {
    if moves == [] then 0
    else UnpaidInRun(g, moves[..|moves| - 1]) + Unpaid(Run(g, moves[..|moves| - 1]), moves[|moves| - 1])
  }

  lemma SettlementAccountsForChips(g: Game, payouts: seq<PotPayout>)
    requires GameOk(g) && g.table.Some? && WellFormed(payouts)
    requires ResolveHand(g.table.value.hand, payouts).Ok?
    ensures Total(Next(g, SettleUp(payouts))) + g.table.value.hand.round.pot - TotalPaid(payouts) == Total(g)
    ensures TotalPaid(payouts) <= g.table.value.hand.round.pot
  {
    var paid := ResolveHand(g.table.value.hand, payouts).value.players;
    assert Next(g, SettleUp(payouts)) == AfterSettlement(g, paid);
    SettledStacks(g, payouts);
    SyncMovesChips(g.snapshot, paid);
  }

  lemma OtherMovesKeepSnapshot(g: Game, m: Move)
    requires !Settles(g, m)
    ensures Next(g, m).snapshot == g.snapshot
  {
  }

  lemma MoveAccountsForChips(g: Game, m: Move)
    requires GameOk(g)
    ensures Total(Next(g, m)) + Unpaid(g, m) == Total(g) && Unpaid(g, m) >= 0
  {
    if Settles(g, m) {
      SettlementAccountsForChips(g, m.payouts);
    } else {
      OtherMovesKeepSnapshot(g, m);
    }
  }

  /** Every settlement along the run paid its whole pot. */
  ghost predicate PaysInFull(g: Game, moves: seq<Move>)
  {
    moves == [] ||
    (PaysInFull(g, moves[..|moves| - 1]) && Unpaid(Run(g, moves[..|moves| - 1]), moves[|moves| - 1]) == 0)
  }

  /** Across any number of hands, each settled once, the chips in the snapshot never increase:
      what is missing is exactly what settlements left unpaid, so the total is unchanged
      exactly when every settlement paid its whole pot. */
  lemma {:induction false} ChipsAreAccountedFor(g: Game, moves: seq<Move>)
    requires GameOk(g)
    ensures Total(Run(g, moves)) + UnpaidInRun(g, moves) == Total(g)
    ensures 0 <= UnpaidInRun(g, moves)
    ensures Total(Run(g, moves)) == Total(g) <==> PaysInFull(g, moves)
  {
    if moves != [] {
      var front := moves[..|moves| - 1];
      ChipsAreAccountedFor(g, front);
      RunIsSound(g, front);
      MoveAccountsForChips(Run(g, front), moves[|moves| - 1]);
    }
  }

  // ---------------------------------------------------------------------- pot by pot

  /** Every settlement along the run names each pot at most once. */
  ghost predicate NamesPotsOnce(g: Game, moves: seq<Move>)
  {
    moves == [] ||
    var front, m := moves[..|moves| - 1], moves[|moves| - 1];
    NamesPotsOnce(g, front) && (Settles(Run(g, front), m) ==> IndicesDistinct(m.payouts))
  }

  /** The settlement, if the move is one, pays every pot of the hand its whole amount. */
  ghost predicate PaysEveryPot(g: Game, m: Move)
  {
    Settles(g, m) ==>
      var h := g.table.value.hand;
      forall i :: 0 <= i < |PotsOf(h)| ==> PaidFromPot(m.payouts, i) == PotsOf(h)[i].amount
  }

  ghost predicate AlwaysPaysEveryPot(g: Game, moves: seq<Move>)
  {
    moves == [] ||
    (AlwaysPaysEveryPot(g, moves[..|moves| - 1]) && PaysEveryPot(Run(g, moves[..|moves| - 1]), moves[|moves| - 1]))
  }

  lemma PaysEveryPotIff(g: Game, m: Move)
    requires GameOk(g) && (Settles(g, m) ==> IndicesDistinct(m.payouts))
    ensures PaysEveryPot(g, m) <==> Unpaid(g, m) == 0
  {
    if Settles(g, m) {
      InvIsBalanced(g.table.value.deal, g.table.value.hand);
      PaidInFull(g.table.value.hand, m.payouts);
    }
  }

  lemma {:induction false} EveryPotIsPaidIff(g: Game, moves: seq<Move>)
    requires GameOk(g) && NamesPotsOnce(g, moves)
    ensures AlwaysPaysEveryPot(g, moves) <==> PaysInFull(g, moves)
  {
    if moves != [] {
      var front := moves[..|moves| - 1];
      EveryPotIsPaidIff(g, front);
      RunIsSound(g, front);
      PaysEveryPotIff(Run(g, front), moves[|moves| - 1]);
    }
  }

  /** When every settlement names each pot at most once, the snapshot total is unchanged exactly
      when every pot of every settled hand was paid in full. */
  lemma ChipsKeptIffEveryPotPaid(g: Game, moves: seq<Move>)
    requires GameOk(g) && NamesPotsOnce(g, moves)
    ensures Total(Run(g, moves)) <= Total(g)
    ensures Total(Run(g, moves)) == Total(g) <==> AlwaysPaysEveryPot(g, moves)
  {
    ChipsAreAccountedFor(g, moves);
    EveryPotIsPaidIff(g, moves);
  }

  /** In every game started from a stored snapshot: play goes on exactly while at least two
      active players hold chips, and every hand on the table was dealt to at least two players
      with the dealer, small blind and big blind on dealt seats in that order clockwise, the big
      blind apart from the other two, and the dealer posting the small blind exactly heads-up. */
  lemma EveryHandIsWellPlaced(snap: seq<SnapPlayer>, startingDealer: int, moves: seq<Move>)
    requires SnapOk(snap) && StartGame(snap, startingDealer).Some?
    ensures var g := Run(StartGame(snap, startingDealer).value, moves);
            && (g.status == Playing <==> |ActiveSeats(g.snapshot)| >= 2)
            && (g.table.Some? ==>
                  var d := g.table.value.deal;
                  var b := Buttons(d.dealerSeat, d.smallSeat, d.bigSeat);
                  |d.seats| >= 2 && ButtonsOk(SeatsOf(d.seats), b) && InTurn(SeatsOf(d.seats), b))
  {
    StartIsSound(snap, startingDealer);
    RunIsSound(StartGame(snap, startingDealer).value, moves);
  }

  // -------------------------------------------------------- what a settlement leaves

  /** A settlement at the table leaves the snapshot rows of the players in the hand with their
      stacks, in play exactly when they hold chips, and all other rows alone. */
  ghost predicate SyncedTo(snap: seq<SnapPlayer>, players: seq<PlayerState>, after: seq<SnapPlayer>)
  {
    && |after| == |snap|
    && forall k :: 0 <= k < |snap| ==>
         && after[k].id == snap[k].id && after[k].seat == snap[k].seat
         && (forall j :: 0 <= j < |players| && players[j].id == snap[k].id ==>
               && after[k].chips == players[j].stack
               && (after[k].active <==> players[j].stack > 0) && (after[k].eliminated <==> players[j].stack == 0))
         && ((forall j :: 0 <= j < |players| ==> players[j].id != snap[k].id) ==> after[k] == snap[k])
  }

  lemma SyncMeaning(snap: seq<SnapPlayer>, players: seq<PlayerState>)
    requires IdsDistinct(players) && forall j :: 0 <= j < |players| ==> players[j].stack >= 0
    ensures SyncedTo(snap, players, Sync(snap, players))
  {
    forall k, j | 0 <= k < |snap| && 0 <= j < |players| && players[j].id == snap[k].id
      ensures IndexOf(players, snap[k].id) == j
    {
    }
  }

  /** With two players left the button passes to the first seat after the dealer's that is still
      in play, or to the lowest one when the dealer is out, and the blinds follow; otherwise the
      game is finished and the buttons stay. */
  ghost predicate ButtonPassed(g: Game, n: Game)
  {
    var seats := ActiveSeats(n.snapshot);
    if |seats| < 2 then n.status == Finished && n.buttons == g.buttons
    else
      && n.status == g.status && InTurn(seats, n.buttons)
      && if g.buttons.dealer in seats then FirstAfter(seats, g.buttons.dealer, n.buttons.dealer)
         else Lowest(seats, n.buttons.dealer)
  }

  lemma SyncPassesTheButton(g: Game, players: seq<PlayerState>)
    requires SnapOk(g.snapshot)
    ensures ButtonPassed(g, AfterSettlement(g, players))
  {
    var snap := Sync(g.snapshot, players);
    SyncKeepsSnap(g.snapshot, players);
    ActiveSeatsDistinct(snap);
    if |ActiveSeats(snap)| >= 2 {
      RotatedInTurn(ActiveSeats(snap), g.buttons.dealer);
    }
  }

  lemma PaidPlayersStand(g: Game, payouts: seq<PotPayout>, paid: seq<PlayerState>)
    requires GameOk(g) && Settles(g, SettleUp(payouts))
    requires paid == ResolveHand(g.table.value.hand, payouts).value.players
    ensures IdsDistinct(paid) && forall j :: 0 <= j < |paid| ==> paid[j].stack >= 0
  {
    SettledStacks(g, payouts);
  }

  /** An accepted settlement, anywhere in a game: the snapshot is synced to the paid stacks, the
      table is cleared and the button passes. */
  lemma SettlementPassesTheButton(g: Game, payouts: seq<PotPayout>, paid: seq<PlayerState>, n: Game)
    requires GameOk(g) && Settles(g, SettleUp(payouts)) && n == Next(g, SettleUp(payouts))
    requires paid == ResolveHand(g.table.value.hand, payouts).value.players
    ensures SyncedTo(g.snapshot, paid, n.snapshot) && n.table == None && ButtonPassed(g, n)
  {
    assert n == AfterSettlement(g, paid);
    PaidPlayersStand(g, payouts, paid);
    SyncMeaning(g.snapshot, paid);
    SyncPassesTheButton(g, paid);
  }

  lemma {:induction false} InPlayAreDealt(snap: seq<SnapPlayer>, k: nat)
    requires k < |snap| && InPlay(snap[k])
    ensures SeatRow(snap[k]) in ActivePlayers(snap)
  {
    if k > 0 {
      InPlayAreDealt(snap[1..], k - 1);
    }
  }

  /** A hand is dealt to exactly the snapshot rows that are in play, with their chips. */
  lemma DealtInExactly(snap: seq<SnapPlayer>, q: SeatPlayer)
    ensures q in ActivePlayers(snap) <==>
              exists k :: 0 <= k < |snap| && q == SeatPlayer(snap[k].id, snap[k].seat, snap[k].chips)
                && snap[k].active && !snap[k].eliminated && snap[k].chips > 0
  {
    if q in ActivePlayers(snap) {
      ActiveMembers(snap, q);
    }
    if k :| 0 <= k < |snap| && q == SeatRow(snap[k]) && InPlay(snap[k]) {
      InPlayAreDealt(snap, k);
    }
  }
}
