/** `evaluate_street_end` and `advance_street`. */
module StreetProgression {
  import opened Basics
  import opened HandTypes
  import opened TurnEngine
  import opened Rows

  datatype AdvanceError = RoundNotActive | AlreadyAtShowdown

  datatype StreetEnd =
    | SettleHand(winner: Option<PlayerId>)
    | GoToShowdown
    | NextStreet(street: Street, actor: Option<PlayerId>)

  function Following(s: Street): Option<Street>
  {
    match s
    case PreFlop => Some(Flop)
    case Flop => Some(Turn)
    case Turn => Some(River)
    case River => Some(Showdown)
    case Showdown => None
  }

  function SeatOf(p: PlayerState): int { p.seat }

  predicate InHand(p: PlayerState) { !p.folded && p.active }

  function Remaining(ps: seq<PlayerState>): (r: seq<PlayerState>)
    ensures forall p :: p in r <==> p in ps && InHand(p)
  {
    if ps == [] then []
    else if InHand(ps[0]) then [ps[0]] + Remaining(ps[1..])
    else Remaining(ps[1..])
  }

  function NotAllIn(ps: seq<PlayerState>): (r: seq<PlayerState>)
    ensures forall p :: p in r <==> p in ps && !p.allIn
  {
    if ps == [] then []
    else if !ps[0].allIn then [ps[0]] + NotAllIn(ps[1..])
    else NotAllIn(ps[1..])
  }

  /** First player of an ascending list seated above `seat`, else the first player. */
  function FirstSeatedAbove(s: seq<PlayerState>, seat: int): (r: Option<PlayerState>)
    ensures r.Some? ==> r.value in s && r.value.seat > seat
    ensures r.None? ==> forall p :: p in s ==> p.seat <= seat
  {
    if s == [] then None
    else if s[0].seat > seat then Some(s[0])
    else FirstSeatedAbove(s[1..], seat)
  }

  function FindFirstToAct(eligible: seq<PlayerState>, reference: int): Option<PlayerState>
  {
    var s := SortBy(eligible, SeatOf);
    if s == [] then None
    else
      var above := FirstSeatedAbove(s, reference);
      if above.Some? then above else Some(s[0])
  }

  function EvaluateStreetEnd(street: Street, dealerSeat: int, ps: seq<PlayerState>): StreetEnd
  {
    var notFolded := Remaining(ps);
    if |notFolded| <= 1 then
      SettleHand(if notFolded == [] then None else Some(notFolded[0].id))
    else if street == River || street == Showdown then GoToShowdown
    else
      var able := NotAllIn(notFolded);
      if |able| <= 1 then GoToShowdown
      else
        var first := FindFirstToAct(able, dealerSeat);
        NextStreet(Following(street).value, if first.Some? then Some(first.value.id) else None)
  }

  function ClearStreet(p: PlayerState): PlayerState { p.(street := 0) }

  function ClearAll(ps: seq<PlayerState>): (r: seq<PlayerState>)
    ensures |r| == |ps|
    ensures forall i :: 0 <= i < |ps| ==> r[i] == ClearStreet(ps[i])
  {
    seq(|ps|, i requires 0 <= i < |ps| => ClearStreet(ps[i]))
  }

  function RoundAfter(r: RoundState, end: StreetEnd): RoundState
  {
    var bumped := r.(version := r.version + 1);
    match end
    case SettleHand(_) => bumped.(closed := true, actor := None)
    case GoToShowdown => bumped.(street := Showdown, closed := true, actor := None, highest := 0)
    case NextStreet(street, actor) =>
      bumped.(street := street, highest := 0, minRaise := r.bigBlind, actor := actor,
              closed := false, aggressor := None)
  }

  function AdvanceStreet(h: Hand): Result<Hand, AdvanceError>
  {
    if h.round.status != Active then Err(RoundNotActive)
    else if h.round.street == Showdown then Err(AlreadyAtShowdown)
    else
      var end := EvaluateStreetEnd(h.round.street, h.round.dealerSeat, h.players);
      Ok(Hand(RoundAfter(h.round, end), if end.SettleHand? then h.players else ClearAll(h.players)))
  }

  // ---------------------------------------------------- the imperative command

  method ClearRows(rows: seq<RoundPlayer>)
    requires RowsDistinct(rows)
    modifies rows
    ensures ViewAll(rows) == ClearAll(old(ViewAll(rows)))
  {
    for i := 0 to |rows|
      invariant forall k :: 0 <= k < |rows| ==>
        rows[k].View() == if k < i then ClearStreet(old(rows[k].View())) else old(rows[k].View())
    {
      rows[i].street := 0;
    }
  }

  method WriteStreetEnd(round: Round, end: StreetEnd)
    modifies round
    ensures round.View() == RoundAfter(old(round.View()), end) && round.completedAt == old(round.completedAt)
  {
    match end {
      case SettleHand(_) =>
        round.closed := true;
        round.actor := None;
      case GoToShowdown =>
        round.street := Showdown;
        round.closed := true;
        round.actor := None;
        round.highest := 0;
      case NextStreet(street, actor) =>
        round.street := street;
        round.highest := 0;
        round.minRaise := round.bigBlind;
        round.actor := actor;
        round.closed := false;
        round.aggressor := None;
    }
    round.version := round.version + 1;
  }

  method RunAdvanceStreet(round: Round, rows: seq<RoundPlayer>) returns (e: Option<AdvanceError>)
    requires RowsDistinct(rows)
    modifies round, rows
    ensures match AdvanceStreet(old(ViewHand(round, rows)))
            case Ok(h) => e == None && ViewHand(round, rows) == h
            case Err(x) => e == Some(x) && ViewHand(round, rows) == old(ViewHand(round, rows))
    ensures round.completedAt == old(round.completedAt)
  {
    if round.status != Active {
      return Some(RoundNotActive);
    }
    if round.street == Showdown {
      return Some(AlreadyAtShowdown);
    }
    var end := EvaluateStreetEnd(round.street, round.dealerSeat, ViewAll(rows));
    WriteStreetEnd(round, end);
    if !end.SettleHand? {
      ClearRows(rows);
    }
    return None;
  }

  // ------------------------------------------------------------- who acts first

  /** The player who opens a street is the able player reached first from the dealer. */
  lemma FirstActorIsClockwise(ps: seq<PlayerState>, dealerSeat: int)
    requires ps != []
    ensures var r := FindFirstToAct(ps, dealerSeat);
            && r.Some? && r.value in ps
            && forall q :: q in ps && q.seat != r.value.seat ==> Precedes(dealerSeat, r.value.seat, q.seat)
  {
    var s := SortBy(ps, SeatOf);
    SortBySorted(ps, SeatOf);
    assert ps[0] in s;
    assert forall q :: q in s ==> SeatOf(s[0]) <= SeatOf(q);
    FirstAboveIsLeast(s, dealerSeat);
  }

  lemma {:induction false} FirstAboveIsLeast(s: seq<PlayerState>, seat: int)
    requires SortedBy(s, SeatOf)
    ensures var r := FirstSeatedAbove(s, seat);
            r.Some? ==> forall q :: q in s && q.seat > seat ==> r.value.seat <= q.seat
  {
    if s != [] {
      FirstAboveIsLeast(s[1..], seat);
      forall q | q in s ensures SeatOf(s[0]) <= SeatOf(q) {
        var j :| 0 <= j < |s| && s[j] == q;
      }
    }
  }
}
