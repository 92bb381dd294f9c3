/** The values of one hand: what the rows of `rounds` and `round_players` hold. */
module HandTypes {
  import opened Basics

  type PlayerId = string

  datatype Street = PreFlop | Flop | Turn | River | Showdown

  datatype RoundStatus = Active | Completed

  /** A requested or recorded action; `Unknown` is any text that names none of the six. */
  datatype Action = Fold | Check | Call | Bet | Raise | AllIn | Unknown

  datatype PlayerState = PlayerState(
    id: PlayerId, seat: int, stack: int, street: int, hand: int,
    folded: bool, allIn: bool, active: bool)

  /** `state_version`: the table's check constraint keeps it at least 1, so the source's
      `or 1` never takes effect. */
  type Version = v: int | 1 <= v witness 1

  /** `stamped`: `completed_at` is set; the time itself is kept in the stored row. */
  datatype RoundState = RoundState(
    status: RoundStatus, street: Street, dealerSeat: int, bigBlind: int,
    pot: int, highest: int, minRaise: int,
    actor: Option<PlayerId>, aggressor: Option<int>, closed: bool, stamped: bool, version: Version)

  datatype Hand = Hand(round: RoundState, players: seq<PlayerState>)

  /** In the hand and still able to put chips in. */
  predicate Able(p: PlayerState) { p.active && !p.folded && !p.allIn }

  /** Able, and short of the highest bet of the street. */
  predicate Owing(p: PlayerState, highest: int) { Able(p) && p.street < highest }

  function StackOf(p: PlayerState): int { p.stack }
  function CommitOf(p: PlayerState): int { p.hand }
  function AbleUnit(p: PlayerState): int { if Able(p) then 1 else 0 }

  /** `round_players` is read ordered by seat, and a seat is unique within a round. */
  ghost predicate SeatsAscend(ps: seq<PlayerState>)
  {
    forall i, j :: 0 <= i < j < |ps| ==> ps[i].seat < ps[j].seat
  }

  /** A player id is unique within a round. */
  ghost predicate IdsDistinct(ps: seq<PlayerState>)
  {
    forall i, j :: 0 <= i < j < |ps| ==> ps[i].id != ps[j].id
  }

  /** Position of the first player with this id, or `|ps|` when there is none. */
  function IndexOf(ps: seq<PlayerState>, id: PlayerId): (i: nat)
    ensures i <= |ps|
    ensures i < |ps| ==> ps[i].id == id
    ensures forall j :: 0 <= j < i ==> ps[j].id != id
  {
    IndexFrom(ps, id, 0)
  }

  function IndexFrom(ps: seq<PlayerState>, id: PlayerId, from: nat): (i: nat)
    requires from <= |ps|
    ensures from <= i <= |ps|
    ensures i < |ps| ==> ps[i].id == id
    ensures forall j :: from <= j < i ==> ps[j].id != id
    decreases |ps| - from
  {
    if from == |ps| || ps[from].id == id then from else IndexFrom(ps, id, from + 1)
  }
}
