/** `next_to_act`: who acts after a bet. The engine scans clockwise and stops early at
    the last aggressor; the reference is the full clockwise scan, stated without any
    order of visiting. */
module TurnEngine {
  import opened Basics
  import opened HandTypes

  datatype ActionSeat = ActionSeat(
    id: PlayerId, seat: int, folded: bool, allIn: bool, active: bool, street: int)

  datatype NextActor = Closed | Next(id: PlayerId, seat: int)

  predicate CanAct(p: ActionSeat) { p.active && !p.folded && !p.allIn }

  predicate NeedsAction(p: ActionSeat, highest: int) { CanAct(p) && p.street < highest }

  function SeatKey(p: ActionSeat): int { p.seat }

  /** The players of the list who can act, in list order. */
  function Eligible(ps: seq<ActionSeat>): (r: seq<ActionSeat>)
    ensures forall p :: p in r <==> p in ps && CanAct(p)
  {
    if ps == [] then []
    else if CanAct(ps[0]) then [ps[0]] + Eligible(ps[1..])
    else Eligible(ps[1..])
  }

  /** Index of the first seat above `seat`, or the length when there is none. */
  function FirstAbove(ordered: seq<ActionSeat>, seat: int): (k: nat)
    ensures k <= |ordered|
    ensures forall i :: 0 <= i < k ==> ordered[i].seat <= seat
    ensures k < |ordered| ==> ordered[k].seat > seat
  {
    if ordered == [] || ordered[0].seat > seat then 0
    else
      var k := FirstAbove(ordered[1..], seat);
      assert forall i :: 1 <= i < k + 1 ==> ordered[i] == ordered[1..][i - 1];
      k + 1
  }

  /** The visiting order: seats above `seat` first, then wrapping round. */
  function Clockwise(ordered: seq<ActionSeat>, seat: int): (r: seq<ActionSeat>)
    ensures |r| == |ordered|
    ensures forall p :: p in r <==> p in ordered
  {
    var k := FirstAbove(ordered, seat);
    assert ordered == ordered[..k] + ordered[k..];
    ordered[k..] + ordered[..k]
  }

  /** Visit in order; the aggressor's seat ends the scan before its player is examined. */
  function Scan(order: seq<ActionSeat>, aggressor: Option<int>, highest: int): NextActor
  {
    if order == [] then Closed
    else if aggressor == Some(order[0].seat) then Closed
    else if NeedsAction(order[0], highest) then Next(order[0].id, order[0].seat)
    else Scan(order[1..], aggressor, highest)
  }

  function NextToAct(ps: seq<ActionSeat>, seat: int, aggressor: Option<int>, highest: int): NextActor
  {
    var eligible := Eligible(ps);
    if |eligible| < 2 then Closed
    else Scan(Clockwise(SortBy(eligible, SeatKey), seat), aggressor, highest)
  }

  /** The first loop of the source: where the clockwise scan starts. */
  method FindStart(ordered: seq<ActionSeat>, seat: int) returns (start: nat)
    requires |ordered| > 0
    ensures start < |ordered|
    ensures ordered[start..] + ordered[..start] == Clockwise(ordered, seat)
  {
    var i := 0;
    while i < |ordered|
      invariant 0 <= i <= |ordered|
      invariant forall j :: 0 <= j < i ==> ordered[j].seat <= seat
    {
      if ordered[i].seat > seat {
        return i;
      }
      i := i + 1;
    }
    assert FirstAbove(ordered, seat) == |ordered|;
    return 0;
  }

  /** The second loop of the source: step modulo the seat count, stopping early. */
  method ScanFrom(ordered: seq<ActionSeat>, start: nat, aggressor: Option<int>, highest: int)
    returns (r: NextActor)
    requires start < |ordered|
    ensures r == Scan(ordered[start..] + ordered[..start], aggressor, highest)
  {
    var n := |ordered|;
    ghost var order := ordered[start..] + ordered[..start];
    assert order[0..] == order;
    for step := 0 to n
      invariant Scan(order, aggressor, highest) == Scan(order[step..], aggressor, highest)
    {
      OnwardIsModulo(start, step, n);
      var candidate := ordered[(start + step) % n];
      assert candidate == order[step];
      assert order[step..][1..] == order[step + 1..];
      if aggressor.Some? && candidate.seat == aggressor.value {
        return Closed;
      }
      if NeedsAction(candidate, highest) {
        return Next(candidate.id, candidate.seat);
      }
    }
    return Closed;
  }

  method RunNextToAct(ps: seq<ActionSeat>, seat: int, aggressor: Option<int>, highest: int)
    returns (r: NextActor)
    ensures r == NextToAct(ps, seat, aggressor, highest)
  {
    var eligible := Eligible(ps);
    if |eligible| < 2 {
      return Closed;
    }
    var ordered := SortBy(eligible, SeatKey);
    var start := FindStart(ordered, seat);
    r := ScanFrom(ordered, start, aggressor, highest);
  }

  // ------------------------------------------------ the reference definition

  /** Going clockwise from just after `from`, seat `a` is reached before seat `b`
      (`from` itself is reached last). */
  predicate Precedes(from: int, a: int, b: int)
  {
    (a > from && b <= from) || ((a > from) == (b > from) && a < b)
  }

  /** Seat `x` lies on the clockwise arc that starts at `g` and stops before `a`. */
  predicate OnArc(g: int, a: int, x: int)
  {
    if g <= a then g <= x < a else x >= g || x < a
  }

  ghost predicate DistinctSeats(ps: seq<ActionSeat>) { DistinctBy(ps, SeatKey) }

  /** `r` is the outcome of looking at every player: closed when fewer than two can act
      or nobody owes, otherwise the player who owes and is reached first. */
  ghost predicate ExhaustiveOutcome(ps: seq<ActionSeat>, from: int, highest: int, r: NextActor)
  {
    match r
    case Closed => |Eligible(ps)| < 2 || forall p :: p in ps ==> !NeedsAction(p, highest)
    case Next(id, seat) =>
      && |Eligible(ps)| >= 2
      && exists p ::
           && p in ps && p.id == id && p.seat == seat && NeedsAction(p, highest)
           && forall q :: q in ps && NeedsAction(q, highest) && q != p ==> Precedes(from, p.seat, q.seat)
  }

  // ------------------------------------------------------------- the proofs

  /** Each pair of the visiting order is in clockwise order. */
  ghost predicate InClockwiseOrder(order: seq<ActionSeat>, from: int)
  {
    forall i, j :: 0 <= i < j < |order| ==> Precedes(from, order[i].seat, order[j].seat)
  }

  lemma {:induction false} EligibleDistinct(ps: seq<ActionSeat>)
    requires DistinctSeats(ps)
    ensures DistinctSeats(Eligible(ps))
  {
    if ps != [] {
      EligibleDistinct(ps[1..]);
      forall q | q in Eligible(ps[1..]) ensures q.seat != ps[0].seat {
        var j :| 0 <= j < |ps[1..]| && ps[1..][j] == q;
        assert ps[j + 1] == q;
      }
    }
  }

  lemma ClockwiseOrdered(s: seq<ActionSeat>, from: int)
    requires DistinctSeats(s)
    requires forall i, j :: 0 <= i < j < |s| ==> s[i].seat <= s[j].seat
    ensures InClockwiseOrder(Clockwise(s, from), from)
  {
    var k := FirstAbove(s, from);
    var order := Clockwise(s, from);
    assert forall i, j :: 0 <= i < j < |s| ==> SeatKey(s[i]) != SeatKey(s[j]);
    var m := |s| - k;
    assert |order| == |s|;
    assert forall i :: 0 <= i < m ==> order[i] == s[k + i];
    assert forall i :: m <= i < |s| ==> order[i] == s[i - m];
    forall i, j | 0 <= i < j < |s| ensures Precedes(from, order[i].seat, order[j].seat) {
      var a, b := if i < m then k + i else i - m, if j < m then k + j else j - m;
      assert order[i] == s[a] && order[j] == s[b];
      assert a < b ==> SeatKey(s[a]) != SeatKey(s[b]) && s[a].seat <= s[b].seat;
    }
  }

  /** The order the engine visits is the clockwise order, over exactly the able players. */
  lemma VisitingOrder(ps: seq<ActionSeat>, from: int)
    requires DistinctSeats(ps)
    ensures InClockwiseOrder(Clockwise(SortBy(Eligible(ps), SeatKey), from), from)
    ensures forall p :: p in Clockwise(SortBy(Eligible(ps), SeatKey), from) <==> p in ps && CanAct(p)
  {
    var s := SortBy(Eligible(ps), SeatKey);
    EligibleDistinct(ps);
    SortByDistinct(Eligible(ps), SeatKey, SeatKey);
    SortBySorted(Eligible(ps), SeatKey);
    assert forall i, j :: 0 <= i < j < |s| ==> SeatKey(s[i]) <= SeatKey(s[j]);
    ClockwiseOrdered(s, from);
  }

  /** What the scan returns on any visiting order: the first player who owes, unless an
      aggressor's seat comes no later. */
  lemma {:induction false} ScanMeaning(order: seq<ActionSeat>, aggressor: Option<int>, highest: int)
    ensures match Scan(order, aggressor, highest)
            case Closed =>
              forall k :: 0 <= k < |order| && NeedsAction(order[k], highest) ==>
                exists g :: 0 <= g <= k && aggressor == Some(order[g].seat)
            case Next(id, seat) =>
              exists k :: 0 <= k < |order| && order[k].id == id && order[k].seat == seat
                && NeedsAction(order[k], highest)
                && aggressor != Some(seat)
                && forall j :: 0 <= j < k ==> !NeedsAction(order[j], highest) && aggressor != Some(order[j].seat)
  {
    if order == [] || aggressor == Some(order[0].seat) || NeedsAction(order[0], highest) {
    } else {
      ScanMeaning(order[1..], aggressor, highest);
      match Scan(order[1..], aggressor, highest)
      case Closed =>
        forall k | 0 <= k < |order| && NeedsAction(order[k], highest)
          ensures exists g :: 0 <= g <= k && aggressor == Some(order[g].seat)
        {
          assert order[k] == order[1..][k - 1];
          var g :| 0 <= g <= k - 1 && aggressor == Some(order[1..][g].seat);
          assert order[g + 1] == order[1..][g];
        }
      case Next(id, seat) =>
        var k :| 0 <= k < |order[1..]| && order[1..][k].id == id && order[1..][k].seat == seat
          && NeedsAction(order[1..][k], highest)
          && (forall j :: 0 <= j < k ==> !NeedsAction(order[1..][j], highest) && aggressor != Some(order[1..][j].seat));
        assert order[k + 1] == order[1..][k];
        assert forall j :: 1 <= j < k + 1 ==> order[j] == order[1..][j - 1];
    }
  }

  /** Nobody able owes on the closed arc from the aggressor to the player who just acted. */
  ghost predicate ArcSettled(ps: seq<ActionSeat>, from: int, aggressor: Option<int>, highest: int)
  {
    aggressor.Some? ==>
      forall q :: q in ps && (q.seat == from || OnArc(aggressor.value, from, q.seat)) ==> !NeedsAction(q, highest)
  }

  /** The scan of a clockwise order whose arc is settled finds the first player who owes. */
  lemma SettledScan(order: seq<ActionSeat>, from: int, aggressor: Option<int>, highest: int)
    requires InClockwiseOrder(order, from)
    requires ArcSettled(order, from, aggressor, highest)
    ensures match Scan(order, aggressor, highest)
            case Closed => forall p :: p in order ==> !NeedsAction(p, highest)
            case Next(id, seat) =>
              && aggressor != Some(seat)
              && exists p :: p in order && p.id == id && p.seat == seat && NeedsAction(p, highest)
                   && forall q :: q in order && NeedsAction(q, highest) && q != p ==> Precedes(from, p.seat, q.seat)
  {
    ScanMeaning(order, aggressor, highest);
    match Scan(order, aggressor, highest)
    case Closed =>
      forall k | 0 <= k < |order| ensures !NeedsAction(order[k], highest) {
      }
    case Next(id, seat) =>
      var k :| 0 <= k < |order| && order[k].id == id && order[k].seat == seat
        && NeedsAction(order[k], highest)
        && (forall j :: 0 <= j < k ==> !NeedsAction(order[j], highest));
      forall m | 0 <= m < |order| && NeedsAction(order[m], highest) && order[m] != order[k]
        ensures Precedes(from, order[k].seat, order[m].seat)
      {
      }
  }

  /** The early stop loses nothing as long as the arc behind the last actor is settled. */
  lemma EarlyStopIsExhaustive(ps: seq<ActionSeat>, from: int, aggressor: Option<int>, highest: int)
    requires DistinctSeats(ps)
    requires ArcSettled(ps, from, aggressor, highest)
    ensures ExhaustiveOutcome(ps, from, highest, NextToAct(ps, from, aggressor, highest))
    ensures var r := NextToAct(ps, from, aggressor, highest); r.Next? ==> aggressor != Some(r.seat)
  {
    if |Eligible(ps)| >= 2 {
      VisitingOrder(ps, from);
      SettledScan(Clockwise(SortBy(Eligible(ps), SeatKey), from), from, aggressor, highest);
    }
  }

  /** After a full scan picks the next player, the arc from the aggressor to that player
      is settled again: the fact that makes the early stop safe on the following action. */
  lemma ArcStaysSettled(ps: seq<ActionSeat>, from: int, aggressor: Option<int>, highest: int)
    requires DistinctSeats(ps)
    requires ArcSettled(ps, from, aggressor, highest)
    ensures var r := NextToAct(ps, from, aggressor, highest);
            r.Next? && aggressor.Some? ==>
              forall q :: q in ps && OnArc(aggressor.value, r.seat, q.seat) ==> !NeedsAction(q, highest)
  {
    EarlyStopIsExhaustive(ps, from, aggressor, highest);
  }
}
