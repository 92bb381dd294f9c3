/** The mutable rows: `Round` and `RoundPlayer` objects whose fields the commands assign. */
module Rows {
  import opened Basics
  import opened HandTypes

  class RoundPlayer {
    const id: PlayerId
    const seat: int
    var stack: int
    var street: int
    var hand: int
    var folded: bool
    var allIn: bool
    var active: bool

    constructor (p: PlayerState)
      ensures View() == p
    {
      id, seat, stack, street, hand := p.id, p.seat, p.stack, p.street, p.hand;
      folded, allIn, active := p.folded, p.allIn, p.active;
    }

    function View(): PlayerState
      reads this
    {
      PlayerState(id, seat, stack, street, hand, folded, allIn, active)
    }
  }

  class Round {
    const dealerSeat: int
    const bigBlind: int
    var status: RoundStatus
    var street: Street
    var pot: int
    var highest: int
    var minRaise: int
    var actor: Option<PlayerId>
    var aggressor: Option<int>
    var closed: bool
    var completedAt: Option<int>
    var version: Version

    constructor (r: RoundState, time: Option<int>)
      requires r.stamped <==> time.Some?
      ensures View() == r && completedAt == time
    {
      dealerSeat, bigBlind, status, street := r.dealerSeat, r.bigBlind, r.status, r.street;
      pot, highest, minRaise, actor := r.pot, r.highest, r.minRaise, r.actor;
      aggressor, closed, completedAt, version := r.aggressor, r.closed, time, r.version;
    }

    function View(): RoundState
      reads this
    {
      RoundState(status, street, dealerSeat, bigBlind, pot, highest, minRaise, actor, aggressor, closed,
                 completedAt.Some?, version)
    }
  }

  /** No row object appears twice in the list a query returned. */
  ghost predicate RowsDistinct(rows: seq<RoundPlayer>)
  {
    forall i, j :: 0 <= i < j < |rows| ==> rows[i] != rows[j]
  }

  function ViewAll(rows: seq<RoundPlayer>): (ps: seq<PlayerState>)
    reads rows
    ensures |ps| == |rows|
    ensures forall i :: 0 <= i < |rows| ==> ps[i] == rows[i].View()
  {
    seq(|rows|, i requires 0 <= i < |rows| reads rows => rows[i].View())
  }

  function ViewHand(round: Round, rows: seq<RoundPlayer>): Hand
    reads round, rows
  {
    Hand(round.View(), ViewAll(rows))
  }
}
