/**
 * Seat labels shown next to each player (`get_player_position`, src/util.rs:4-50).
 * The function reads only the dealer, small-blind and big-blind indices and the
 * table size, so it takes those instead of the whole game.
 */
module Positions {

  const Button := "Button (BTN)"
  const SmallBlind := "Small Blind (SB)"
  const BigBlind := "Big Blind (BB)"
  const UnderTheGun := "Under The Gun (UTG)"
  const UnderTheGun1 := "UTG+1"
  const UnderTheGun2 := "UTG+2"
  const Middle := "Middle Position (MP)"
  const Middle1 := "Middle Position +1 (MP+1)"
  const Hijack := "Hijack (HJ)"
  const CutOff := "Cut-off (CO)"

  /** The eleven labels the function can return (the empty one for small tables). */
  const PositionLabels: set<string> :=
    {Button, SmallBlind, BigBlind, "", UnderTheGun, UnderTheGun1, UnderTheGun2,
     Middle, Middle1, Hijack, CutOff}

  /** Seats after the big blind, going round the table (`distance_from_bb`). */
  function DistanceFromBigBlind(playerIdx: nat, bigBlindIdx: nat, numPlayers: nat): nat
    requires numPlayers > 0 && bigBlindIdx <= playerIdx + numPlayers
  {
    (playerIdx + numPlayers - bigBlindIdx) % numPlayers
  }

  /**
   * The seat label. The only failure the source can meet is the `usize`
   * subtraction `player_idx + num_players - big_blind_idx`, reached only for a
   * seat that is none of the three special ones on a table of four or more.
   */
  function GetPlayerPosition(playerIdx: nat, dealerIdx: nat, smallBlindIdx: nat, bigBlindIdx: nat,
                             numPlayers: nat): (pos: string)
    requires playerIdx == dealerIdx || playerIdx == smallBlindIdx || playerIdx == bigBlindIdx
             || numPlayers <= 3 || bigBlindIdx <= playerIdx + numPlayers
    ensures pos in PositionLabels
    // the button wins over the blinds (heads-up the button is also the big blind)
    ensures playerIdx == dealerIdx ==> pos == Button
    ensures playerIdx != dealerIdx && playerIdx == smallBlindIdx ==> pos == SmallBlind
    ensures playerIdx != dealerIdx && playerIdx != smallBlindIdx && playerIdx == bigBlindIdx ==> pos == BigBlind
    // only small tables leave a seat unlabelled, and they leave every other seat unlabelled
    ensures pos == "" <==> playerIdx != dealerIdx && playerIdx != smallBlindIdx && playerIdx != bigBlindIdx
                              && numPlayers <= 3
    ensures pos in {Button, SmallBlind, BigBlind} ==>
              playerIdx == dealerIdx || playerIdx == smallBlindIdx || playerIdx == bigBlindIdx
  {
    if playerIdx == dealerIdx then Button
    else if playerIdx == smallBlindIdx then SmallBlind
    else if playerIdx == bigBlindIdx then BigBlind
    else if numPlayers <= 3 then ""
    else
      var n := numPlayers;
      match DistanceFromBigBlind(playerIdx, bigBlindIdx, n)
      case 1 => UnderTheGun
      case 2 => UnderTheGun1
      case 3 => UnderTheGun2
      case 4 => if n >= 7 then Middle else Hijack
      case 5 => if n >= 8 then Middle1 else Hijack
      case 6 => Hijack
      case 7 => CutOff
      case _ =>
        if playerIdx == (dealerIdx + n - 1) % n then CutOff
        else if playerIdx == (dealerIdx + n - 2) % n then Hijack
        else Middle
  }

  /** The seat `k` places after `dealer` on a table of `n`. */
  function SeatAfter(dealer: nat, k: nat, n: nat): (s: nat)
    requires dealer < n && k < n
    ensures s < n
  {
    if dealer + k < n then dealer + k else dealer + k - n
  }

  /**
   * Reference labelling of the seat `k` places after the button when the blinds
   * sit right after it: UTG and its followers counted from the button, and on
   * tables of eleven or more the last seats before the button named from the
   * button backwards.
   */
  function RingLabel(k: nat, n: nat): string
  {
    if k == 3 then UnderTheGun
    else if k == 4 then UnderTheGun1
    else if k == 5 then UnderTheGun2
    else if k == 6 then Middle
    else if k == 7 then Middle1
    else if k == 8 then Hijack
    else if k == 9 then CutOff
    else if k == n - 1 then CutOff
    else if k == n - 2 then Hijack
    else Middle
  }

  lemma ModAfterOneLap(x: nat, n: nat)
    requires n > 0 && n <= x < 2 * n
    ensures x % n == x - n
  {
  }

  lemma ModBelowOneLap(x: nat, n: nat)
    requires n > 0 && x < n
    ensures x % n == x
  {
  }

  /**
   * With positions rotated as `deal_cards` rotates them (small blind one seat
   * after the button, big blind one after that), the seat `k` places after the
   * button (3 <= k < n) gets `RingLabel(k, n)`. In particular the Hijack
   * fall-backs for distances 4 and 5 on tables under seven and eight seats are
   * never reached.
   */
  lemma {:induction false} RotatedTableLabels(dealer: nat, k: nat, n: nat)
    requires n >= 4 && dealer < n && 3 <= k < n
    ensures var sb := SeatAfter(dealer, 1, n);
            var bb := SeatAfter(dealer, 2, n);
            GetPlayerPosition(SeatAfter(dealer, k, n), dealer, sb, bb, n) == RingLabel(k, n)
  {
    var sb := SeatAfter(dealer, 1, n);
    var bb := SeatAfter(dealer, 2, n);
    var p := SeatAfter(dealer, k, n);
    assert p != dealer && p != sb && p != bb;
    var x := p + n - bb;
    if x < n { ModBelowOneLap(x, n); } else { ModAfterOneLap(x, n); }
    assert DistanceFromBigBlind(p, bb, n) == k - 2;
    var y1 := dealer + n - 1;
    if y1 < n { ModBelowOneLap(y1, n); } else { ModAfterOneLap(y1, n); }
    var y2 := dealer + n - 2;
    if y2 < n { ModBelowOneLap(y2, n); } else { ModAfterOneLap(y2, n); }
    assert (p == (dealer + n - 1) % n) <==> k == n - 1;
    assert (p == (dealer + n - 2) % n) <==> k == n - 2;
  }
}
