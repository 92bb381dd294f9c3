/** `post_blinds_and_antes` and the part of `start_round` that turns the posted seats
    into the first state of a hand. */
module BlindPosting {
  import opened Basics
  import opened HandTypes

  datatype SeatPlayer = SeatPlayer(id: PlayerId, seat: int, stack: int)

  datatype PostedPlayer = PostedPlayer(
    id: PlayerId, seat: int, stack: int, street: int, hand: int, allIn: bool)

  datatype Posting = Posting(players: seq<PostedPlayer>, pot: int, highest: int)

  /** What a hand is started with. */
  datatype Deal = Deal(
    seats: seq<SeatPlayer>, dealerSeat: int, smallSeat: int, bigSeat: int,
    small: int, big: int, ante: int)

  function PostedOf(p: PostedPlayer): int { p.street }

  function MaxPosted(s: seq<PostedPlayer>): int
  {
    if s == [] then 0
    else if |s| == 1 then s[0].street
    else Max(s[0].street, MaxPosted(s[1..]))
  }

  /** The blind a seat owes; the small blind is looked at first. */
  function BlindOf(d: Deal, seat: int): int
  {
    if seat == d.smallSeat then d.small else if seat == d.bigSeat then d.big else 0
  }

  function PostOne(d: Deal, p: SeatPlayer): PostedPlayer
  {
    var ante := if d.ante > 0 then Min(d.ante, p.stack) else 0;
    var blind := Min(BlindOf(d, p.seat), p.stack - ante);
    var committed := ante + blind;
    var remaining := p.stack - committed;
    PostedPlayer(p.id, p.seat, remaining, committed, committed, remaining == 0 && committed > 0)
  }

  function PostAll(d: Deal): (s: seq<PostedPlayer>)
    ensures |s| == |d.seats|
    ensures forall i :: 0 <= i < |s| ==> s[i] == PostOne(d, d.seats[i])
  {
    seq(|d.seats|, i requires 0 <= i < |d.seats| => PostOne(d, d.seats[i]))
  }

  /** What start-game and the stored snapshot guarantee of a deal: distinct players in
      seat order, each with chips, positive blinds and no negative ante. */
  ghost predicate DealOk(d: Deal)
  {
    && |d.seats| > 0
    && (forall i, j :: 0 <= i < j < |d.seats| ==> d.seats[i].seat < d.seats[j].seat)
    && (forall i, j :: 0 <= i < j < |d.seats| ==> d.seats[i].id != d.seats[j].id)
    && (forall i :: 0 <= i < |d.seats| ==> d.seats[i].stack > 0)
    && d.small > 0 && d.big > 0 && d.ante >= 0
  }

  /** A seat puts in its ante plus its blind, capped by its stack; nothing is lost. */
  lemma PostingIsCapped(d: Deal, p: SeatPlayer)
    requires d.small >= 0 && d.big >= 0 && d.ante >= 0 && p.stack >= 0
    ensures var q := PostOne(d, p);
            && q.street == q.hand == Min(p.stack, d.ante + BlindOf(d, p.seat))
            && q.stack == p.stack - q.hand >= 0
            && (p.stack > 0 ==> (q.allIn <==> q.stack == 0))
  {
  }

  /** The per-player loop of the source. */
  method PostBlindsAndAntes(d: Deal) returns (r: Posting)
    requires forall i :: 0 <= i < |d.seats| ==> d.seats[i].stack >= 0
    ensures r == Posting(PostAll(d), SumBy(PostAll(d), PostedOf), MaxPosted(PostAll(d)))
  {
    var posted: seq<PostedPlayer> := [];
    for i := 0 to |d.seats|
      invariant posted == PostAll(d)[..i]
    {
      var p := d.seats[i];
      var remaining := p.stack;
      var committed := 0;
      if d.ante > 0 {
        var ante := Min(d.ante, remaining);
        committed := committed + ante;
        remaining := remaining - ante;
      }
      if p.seat == d.smallSeat {
        var blind := Min(d.small, remaining);
        committed := committed + blind;
        remaining := remaining - blind;
      } else if p.seat == d.bigSeat {
        var blind := Min(d.big, remaining);
        committed := committed + blind;
        remaining := remaining - blind;
      }
      posted := posted +
        [PostedPlayer(p.id, p.seat, remaining, committed, committed, remaining == 0 && committed > 0)];
    }
    assert posted == PostAll(d);
    r := Posting(posted, SumBy(posted, PostedOf), MaxPosted(posted));
  }

  // ------------------------------------------------------------ starting a hand

  function SeatIndex(seats: seq<SeatPlayer>, seat: int): (i: nat)
    ensures i <= |seats|
    ensures i < |seats| ==> seats[i].seat == seat
    ensures i == |seats| ==> forall j :: 0 <= j < |seats| ==> seats[j].seat != seat
  {
    if seats == [] then 0
    else if seats[0].seat == seat then 0
    else
      var k := SeatIndex(seats[1..], seat);
      assert forall j :: 1 <= j < |seats| ==> seats[j] == seats[1..][j - 1];
      k + 1
  }

  /** The seat after the big blind, or the first seat when the big blind is not dealt in. */
  function FirstActorIndex(d: Deal): (i: nat)
    requires |d.seats| > 0
    ensures i < |d.seats|
  {
    var k := SeatIndex(d.seats, d.bigSeat);
    if k < |d.seats| then (k + 1) % |d.seats| else 0
  }

  function Seated(p: PostedPlayer): PlayerState
  {
    PlayerState(p.id, p.seat, p.stack, p.street, p.hand, false, p.allIn, true)
  }

  function SeatedAll(d: Deal): (ps: seq<PlayerState>)
    ensures |ps| == |d.seats|
    ensures forall i :: 0 <= i < |ps| ==> ps[i] == Seated(PostOne(d, d.seats[i]))
  {
    seq(|d.seats|, i requires 0 <= i < |d.seats| => Seated(PostOne(d, d.seats[i])))
  }

  function StartRound(d: Deal): Hand
    requires |d.seats| > 0
  {
    Hand(RoundState(Active, PreFlop, d.dealerSeat, d.big, SumBy(PostAll(d), PostedOf),
                    MaxPosted(PostAll(d)), d.big, Some(d.seats[FirstActorIndex(d)].id), None, false, false, 1),
         SeatedAll(d))
  }
}
