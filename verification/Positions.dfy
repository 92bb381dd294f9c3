/** `assign_positions` and `rotate_positions`: who is dealer, small blind and big blind. */
module Positions {
  import opened Basics
  import opened TurnEngine

  datatype Buttons = Buttons(dealer: int, small: int, big: int)

  ghost predicate SeatsDistinct(seats: seq<int>)
  {
    forall i, j :: 0 <= i < j < |seats| ==> seats[i] != seats[j]
  }

  function Find(seats: seq<int>, seat: int): (i: nat)
    ensures i <= |seats|
    ensures i < |seats| <==> seat in seats
    ensures i < |seats| ==> seats[i] == seat
  {
    if seats == [] then 0 else if seats[0] == seat then 0 else Find(seats[1..], seat) + 1
  }

  /** The buttons once the dealer sits at index `d`: heads-up the dealer is the small blind. */
  function ButtonsAt(seats: seq<int>, d: nat): Buttons
    requires d < |seats|
  {
    var n := |seats|;
    if n == 2 then Buttons(seats[d], seats[d], seats[(d + 1) % n])
    else Buttons(seats[d], seats[(d + 1) % n], seats[(d + 2) % n])
  }

  function AssignPositions(seats: seq<int>, starting: int): Buttons
    requires seats != []
  {
    ButtonsAt(seats, if starting in seats then Find(seats, starting) else 0)
  }

  function RotatePositions(seats: seq<int>, dealer: int): Buttons
    requires seats != []
  {
    ButtonsAt(seats, if dealer in seats then (Find(seats, dealer) + 1) % |seats| else 0)
  }

  /** Buttons on the table: on active seats, the big blind apart from the other two, and the
      dealer posting the small blind exactly heads-up. */
  ghost predicate ButtonsOk(seats: seq<int>, b: Buttons)
  {
    && b.dealer in seats && b.small in seats && b.big in seats
    && b.big != b.dealer && b.big != b.small
    && (b.dealer == b.small <==> |seats| == 2)
  }

  /** With two or more distinct seats every assignment and every rotation is well placed. */
  lemma ButtonsAreOk(seats: seq<int>, d: nat)
    requires SeatsDistinct(seats) && |seats| >= 2 && d < |seats|
    ensures ButtonsOk(seats, ButtonsAt(seats, d))
  {
    OnwardIsModulo(d, 1, |seats|);
    OnwardIsModulo(d, 2, |seats|);
  }

  /** A rotation is well placed, whether or not the dealer is still active. */
  lemma RotationIsOk(seats: seq<int>, dealer: int)
    requires SeatsDistinct(seats) && |seats| >= 2
    ensures ButtonsOk(seats, RotatePositions(seats, dealer))
  {
    if dealer in seats {
      OnwardIsModulo(Find(seats, dealer), 1, |seats|);
      ButtonsAreOk(seats, (Find(seats, dealer) + 1) % |seats|);
    } else {
      ButtonsAreOk(seats, 0);
    }
  }

  // ------------------------------------------------------------ who sits where

  /** `active_seats` comes from rows read in seat order. */
  ghost predicate Ascending(seats: seq<int>)
  {
    forall i, j :: 0 <= i < j < |seats| ==> seats[i] < seats[j]
  }

  /** Going clockwise from `from`, `seat` is reached before every other seat. */
  ghost predicate FirstAfter(seats: seq<int>, from: int, seat: int)
  {
    seat in seats && forall s :: s in seats && s != seat ==> Precedes(from, seat, s)
  }

  ghost predicate Lowest(seats: seq<int>, seat: int)
  {
    seat in seats && forall s :: s in seats ==> seat <= s
  }

  /** The small blind is the first seat after the dealer, or heads-up the dealer; the big blind
      is the first seat after the small blind. */
  ghost predicate InTurn(seats: seq<int>, b: Buttons)
  {
    && b.dealer in seats
    && (if |seats| == 2 then b.small == b.dealer else FirstAfter(seats, b.dealer, b.small))
    && FirstAfter(seats, b.small, b.big)
  }

  lemma OnwardIsFirst(seats: seq<int>, i: nat)
    requires Ascending(seats) && i < |seats|
    ensures FirstAfter(seats, seats[i], seats[Onward(i, 1, |seats|)])
  {
    var k := Onward(i, 1, |seats|);
    forall j | 0 <= j < |seats| && seats[j] != seats[k] ensures Precedes(seats[i], seats[k], seats[j]) {
      assert j < k ==> seats[j] < seats[k];
      assert k < j ==> seats[k] < seats[j];
      assert i < j ==> seats[i] < seats[j];
      assert j < i ==> seats[j] < seats[i];
      assert i < k ==> seats[i] < seats[k];
      assert k < i ==> seats[k] < seats[i];
    }
  }

  lemma ButtonsInTurn(seats: seq<int>, d: nat)
    requires Ascending(seats) && |seats| >= 2 && d < |seats|
    ensures InTurn(seats, ButtonsAt(seats, d)) && ButtonsAt(seats, d).dealer == seats[d]
  {
    OnwardIsModulo(d, 1, |seats|);
    OnwardIsModulo(d, 2, |seats|);
    OnwardIsFirst(seats, d);
    OnwardIsFirst(seats, Onward(d, 1, |seats|));
  }

  /** At the start the chosen seat deals, or the lowest one when that seat is not active, and
      the blinds follow clockwise. */
  lemma AssignedInTurn(seats: seq<int>, starting: int)
    requires Ascending(seats) && |seats| >= 2
    ensures var b := AssignPositions(seats, starting);
            && InTurn(seats, b)
            && if starting in seats then b.dealer == starting else Lowest(seats, b.dealer)
  {
    ButtonsInTurn(seats, if starting in seats then Find(seats, starting) else 0);
  }

  /** The button moves to the first active seat after the old dealer's, or to the lowest seat
      when the old dealer is gone, and the blinds follow clockwise. */
  lemma RotatedInTurn(seats: seq<int>, dealer: int)
    requires Ascending(seats) && |seats| >= 2
    ensures var b := RotatePositions(seats, dealer);
            && InTurn(seats, b)
            && if dealer in seats then FirstAfter(seats, dealer, b.dealer) else Lowest(seats, b.dealer)
  {
    if dealer in seats {
      var i := Find(seats, dealer);
      OnwardIsModulo(i, 1, |seats|);
      OnwardIsFirst(seats, i);
      ButtonsInTurn(seats, Onward(i, 1, |seats|));
    } else {
      ButtonsInTurn(seats, 0);
    }
  }

  /** The dealer after `k` hands on the same seats. */
  function DealerAfter(seats: seq<int>, dealer: int, k: nat): int
    requires seats != []
  {
    if k == 0 then dealer else RotatePositions(seats, DealerAfter(seats, dealer, k - 1)).dealer
  }

  lemma {:induction false} FindAt(seats: seq<int>, i: nat)
    requires SeatsDistinct(seats) && i < |seats|
    ensures Find(seats, seats[i]) == i
  {
    if i > 0 {
      assert forall a, b :: 0 <= a < b < |seats[1..]| ==>
        seats[1..][a] == seats[a + 1] && seats[1..][b] == seats[b + 1];
      FindAt(seats[1..], i - 1);
      assert seats[0] != seats[i];
    }
  }

  lemma OnwardOnce(i: nat, k: nat, n: nat)
    requires i < n && 0 < k <= n
    ensures Onward(Onward(i, k - 1, n), 1, n) == Onward(i, k, n)
  {
  }

  lemma OneRotation(seats: seq<int>, i: nat)
    requires SeatsDistinct(seats) && i < |seats|
    ensures RotatePositions(seats, seats[i]).dealer == seats[Onward(i, 1, |seats|)]
  {
    FindAt(seats, i);
    OnwardIsModulo(i, 1, |seats|);
  }

  /** `k` rotations move the button `k` seats on. */
  lemma {:induction false} ButtonMovesOn(seats: seq<int>, i: nat, k: nat)
    requires SeatsDistinct(seats) && i < |seats| && k <= |seats|
    ensures DealerAfter(seats, seats[i], k) == seats[Onward(i, k, |seats|)]
  {
    if k > 0 {
      ButtonMovesOn(seats, i, k - 1);
      OneRotation(seats, Onward(i, k - 1, |seats|));
      OnwardOnce(i, k, |seats|);
    }
  }

  lemma NoSeatDealsTwice(seats: seq<int>, dealer: int, k: nat, m: nat)
    requires SeatsDistinct(seats) && dealer in seats && 1 <= k < m <= |seats|
    ensures DealerAfter(seats, dealer, k) != DealerAfter(seats, dealer, m)
  {
    var i := Find(seats, dealer);
    ButtonMovesOn(seats, i, k);
    ButtonMovesOn(seats, i, m);
  }

  lemma SeatDeals(seats: seq<int>, dealer: int, seat: int) returns (k: nat)
    requires SeatsDistinct(seats) && dealer in seats && seat in seats
    ensures 1 <= k <= |seats| && DealerAfter(seats, dealer, k) == seat
  {
    var i, j := Find(seats, dealer), Find(seats, seat);
    k := if j > i then j - i else j - i + |seats|;
    ButtonMovesOn(seats, i, k);
  }

  /** With a fixed seat list and an active dealer, as many rotations as seats bring the button
      back, and on the way each seat deals exactly once. */
  lemma EverySeatDealsOnce(seats: seq<int>, dealer: int, seat: int)
    requires SeatsDistinct(seats) && dealer in seats && seat in seats
    ensures DealerAfter(seats, dealer, |seats|) == dealer
    ensures exists k :: 1 <= k <= |seats| && DealerAfter(seats, dealer, k) == seat
    ensures forall k, m :: 1 <= k < m <= |seats| ==> DealerAfter(seats, dealer, k) != DealerAfter(seats, dealer, m)
  {
    ButtonMovesOn(seats, Find(seats, dealer), |seats|);
    var at := SeatDeals(seats, dealer, seat);
    forall k, m | 1 <= k < m <= |seats| ensures DealerAfter(seats, dealer, k) != DealerAfter(seats, dealer, m) {
      NoSeatDealsTwice(seats, dealer, k, m);
    }
  }
}
