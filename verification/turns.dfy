/**
 * `next_player` (src/game.rs:545-664) on a state value: when a betting round
 * is complete, and whose turn it is otherwise. The two walks of the source
 * that follow `find_next_active_player` from the last aggressor are given
 * here by what they are meant to find, scanning the seats after the
 * aggressor in table order; `PokerGame.Game` computes them with the walks
 * themselves, cut off where they wrap past the aggressor (see
 * `Findings.WalkAsWritten` for the loop as written).
 */
module Turns {
  import opened Wrappers
  import opened Cards
  import opened Betting
  import opened Table

  // ---------------------------------------------------------------------
  // Distances round the table

  /** The seat `d` steps after `a`. */
  function SeatAt(a: nat, d: nat, n: nat): (i: nat)
    requires a < n && 1 <= d <= n
    ensures i < n && Dist(a, i, n) == d
  {
    if a + d < n then a + d else a + d - n
  }

  /** Two seats at the same distance from `a` are the same seat. */
  lemma DistInjective(a: nat, i: nat, j: nat, n: nat)
    requires a < n && i < n && j < n && Dist(a, i, n) == Dist(a, j, n)
    ensures i == j
  {
  }

  /** Distances from `a` to seats beyond `i`, measured from `i`. */
  lemma DistFrom(a: nat, i: nat, j: nat, n: nat)
    requires a < n && i < n && j < n
    ensures Dist(a, i, n) < Dist(a, j, n) ==> Dist(i, j, n) == Dist(a, j, n) - Dist(a, i, n)
    ensures Dist(a, j, n) <= Dist(a, i, n) ==> Dist(i, j, n) == n - Dist(a, i, n) + Dist(a, j, n)
  {
  }

  /**
   * One step of a walk by `find_next_active_player` from seat `i`, measured
   * from `a`: either it moves further from `a` and skips no active seat, or
   * it wraps round, and then no active seat lies beyond `i`.
   */
  lemma WalkStep(players: seq<Player>, a: nat, i: nat)
    requires a < |players| && i < |players|
    ensures var n := |players|;
            var next := NextActive(players, i);
            && next < n
            && (Dist(a, next, n) > Dist(a, i, n) ==>
                  next == i || IsActive(players[next]))
            && (Dist(a, next, n) > Dist(a, i, n) ==>
                  forall j :: 0 <= j < n && IsActive(players[j]) && Dist(a, i, n) < Dist(a, j, n) ==>
                    Dist(a, next, n) <= Dist(a, j, n))
            && (Dist(a, next, n) <= Dist(a, i, n) ==>
                  forall j :: 0 <= j < n && IsActive(players[j]) ==> Dist(a, j, n) <= Dist(a, i, n))
  {
    var n := |players|;
    var next := NextActive(players, i);
    forall j | 0 <= j < n && IsActive(players[j])
      ensures Dist(a, next, n) > Dist(a, i, n) && Dist(a, i, n) < Dist(a, j, n) ==> Dist(a, next, n) <= Dist(a, j, n)
      ensures Dist(a, next, n) <= Dist(a, i, n) ==> Dist(a, j, n) <= Dist(a, i, n)
    {
      DistFrom(a, i, j, n);
      DistFrom(a, i, next, n);
    }
  }

  // ---------------------------------------------------------------------
  // What next_player looks at

  /** A seat that still owes an action: active, and not both acted since the last aggression and matched. */
  predicate NeedsToAct(players: seq<Player>, acted: seq<nat>, highest: nat, i: nat)
    requires i < |players|
  {
    IsActive(players[i]) && !(i in acted && players[i].currentBet == highest)
  }

  /** Everybody still in the hand has matched the highest bet or is all-in (src/game.rs:564-567). */
  predicate BetsMatched(players: seq<Player>, highest: nat)
  {
    forall i :: 0 <= i < |players| && !players[i].folded ==> players[i].currentBet == highest || players[i].chips == 0
  }

  /** What the walk of src/game.rs:584-599 is there to decide: every active seat but the aggressor has acted since the aggression. */
  predicate AllActedSince(players: seq<Player>, acted: seq<nat>, aggressor: nat)
  {
    forall i :: 0 <= i < |players| && i != aggressor && IsActive(players[i]) ==> i in acted
  }

  /** Without an aggressor: every active seat has acted (src/game.rs:602-609). */
  predicate AllActiveActed(players: seq<Player>, acted: seq<nat>)
  {
    forall i :: 0 <= i < |players| && IsActive(players[i]) ==> i in acted
  }

  /**
   * What the walk of src/game.rs:635-657 is there to find: among the seats
   * `d`, `d + 1`, .. `n - 1` steps after the aggressor, the first that needs
   * to act; None when nobody does.
   */
  function FirstToAct(players: seq<Player>, acted: seq<nat>, highest: nat, aggressor: nat, d: nat): (r: Option<nat>)
    requires aggressor < |players| && 1 <= d <= |players|
    ensures r.Some? ==>
              && r.value < |players| && r.value != aggressor
              && NeedsToAct(players, acted, highest, r.value)
              && d <= Dist(aggressor, r.value, |players|)
              && forall i ::
                   0 <= i < |players| && i != aggressor && d <= Dist(aggressor, i, |players|) && NeedsToAct(players, acted, highest, i)
                   ==> Dist(aggressor, r.value, |players|) <= Dist(aggressor, i, |players|)
    ensures r.None? ==>
              forall i :: 0 <= i < |players| && i != aggressor && d <= Dist(aggressor, i, |players|) ==>
                !NeedsToAct(players, acted, highest, i)
    decreases |players| - d
  {
    var n := |players|;
    if d == n then None
    else
      var j := SeatAt(aggressor, d, n);
      forall i | 0 <= i < n && Dist(aggressor, i, n) == d ensures i == j {
        DistInjective(aggressor, i, j, n);
      }
      if NeedsToAct(players, acted, highest, j) then Some(j)
      else FirstToAct(players, acted, highest, aggressor, d + 1)
  }

  /**
   * The scan names exactly the first seat after the aggressor that needs to
   * act, and None exactly when no seat but the aggressor needs to.
   */
  lemma FirstToActUnique(players: seq<Player>, acted: seq<nat>, highest: nat, aggressor: nat, r: Option<nat>)
    requires aggressor < |players|
    requires r.Some? ==>
               && r.value < |players| && r.value != aggressor
               && NeedsToAct(players, acted, highest, r.value)
               && forall j :: 0 <= j < |players| && j != aggressor && Dist(aggressor, j, |players|) < Dist(aggressor, r.value, |players|) ==>
                    !NeedsToAct(players, acted, highest, j)
    requires r.None? ==> forall j :: 0 <= j < |players| && j != aggressor ==> !NeedsToAct(players, acted, highest, j)
    ensures FirstToAct(players, acted, highest, aggressor, 1) == r
  {
    var n := |players|;
    var f := FirstToAct(players, acted, highest, aggressor, 1);
    if f.Some? && r.Some? {
      DistInjective(aggressor, f.value, r.value, n);
    }
  }

  // ---------------------------------------------------------------------
  // The walks, one step at a time

  /** Walk 1's invariant: every active seat the walk from `a` has passed before `idx` has acted. */
  predicate ActedBefore(players: seq<Player>, acted: seq<nat>, a: nat, idx: nat)
    requires a < |players| && idx < |players|
  {
    forall j :: 0 <= j < |players| && IsActive(players[j]) && Dist(a, j, |players|) < Dist(a, idx, |players|) ==> j in acted
  }

  /** Walk 2's invariant: no seat the walk from `a` has passed before `idx` needs to act. */
  predicate NoneNeedBefore(players: seq<Player>, acted: seq<nat>, highest: nat, a: nat, idx: nat)
    requires a < |players| && idx < |players|
  {
    forall j :: 0 <= j < |players| && j != a && Dist(a, j, |players|) < Dist(a, idx, |players|) ==>
      !NeedsToAct(players, acted, highest, j)
  }

  /** The first seat walk 1 visits has no active seat before it. */
  lemma ActedBeforeStart(players: seq<Player>, acted: seq<nat>, a: nat)
    requires a < |players|
    ensures ActedBefore(players, acted, a, NextActive(players, a))
    ensures NextActive(players, a) == a ==> AllActedSince(players, acted, a)
  {
  }

  /** A step of walk 1 past a seat that has acted keeps its invariant, or on wrapping ends it with the answer true. */
  lemma ActedStep(players: seq<Player>, acted: seq<nat>, a: nat, idx: nat)
    requires a < |players| && idx < |players| && idx != a && IsActive(players[idx])
    requires ActedBefore(players, acted, a, idx) && idx in acted
    ensures var n := |players|;
            var next := NextActive(players, idx);
            && (Dist(a, next, n) > Dist(a, idx, n) ==>
                  ActedBefore(players, acted, a, next) && (next != a ==> IsActive(players[next])))
            && (Dist(a, next, n) <= Dist(a, idx, n) ==> AllActedSince(players, acted, a))
  {
    WalkStep(players, a, idx);
  }

  /** Walk 1 reaching the aggressor, every seat before it having acted, answers true. */
  lemma ActedEnd(players: seq<Player>, acted: seq<nat>, a: nat)
    requires a < |players| && ActedBefore(players, acted, a, a)
    ensures AllActedSince(players, acted, a)
  {
  }

  /** The first seat walk 2 visits: another active seat, with nobody before it needing to act. */
  lemma NeedStart(players: seq<Player>, acted: seq<nat>, highest: nat, a: nat)
    requires a < |players| && CountActive(players) >= 2
    ensures var idx := NextActive(players, a);
            idx < |players| && idx != a && IsActive(players[idx]) && NoneNeedBefore(players, acted, highest, a, idx)
  {
    var j := AnotherActive(players, a);
  }

  /**
   * A step of walk 2 past a seat that need not act keeps its invariant;
   * when it comes back to the aggressor or wraps past them, nobody needs to act.
   */
  lemma NeedStep(players: seq<Player>, acted: seq<nat>, highest: nat, a: nat, idx: nat)
    requires a < |players| && idx < |players| && idx != a && IsActive(players[idx])
    requires NoneNeedBefore(players, acted, highest, a, idx) && !NeedsToAct(players, acted, highest, idx)
    ensures var n := |players|;
            var next := NextActive(players, idx);
            && (next != a && Dist(a, next, n) > Dist(a, idx, n) ==>
                  next < n && IsActive(players[next]) && NoneNeedBefore(players, acted, highest, a, next))
            && (next == a || Dist(a, next, n) <= Dist(a, idx, n) ==>
                  FirstToAct(players, acted, highest, a, 1) == None)
  {
    var n := |players|;
    var next := NextActive(players, idx);
    WalkStep(players, a, idx);
    if next == a || Dist(a, next, n) <= Dist(a, idx, n) {
      FirstToActUnique(players, acted, highest, a, None);
    }
  }

  /** Walk 2 stopping at a seat that needs to act has found the scan's answer. */
  lemma NeedFound(players: seq<Player>, acted: seq<nat>, highest: nat, a: nat, idx: nat)
    requires a < |players| && idx < |players| && idx != a
    requires NoneNeedBefore(players, acted, highest, a, idx) && NeedsToAct(players, acted, highest, idx)
    ensures FirstToAct(players, acted, highest, a, 1) == Some(idx)
  {
    FirstToActUnique(players, acted, highest, a, Some(idx));
  }

  /** The round is over: bets matched, the big blind heard pre-flop and everyone acted, or the safeguard count reached. */
  predicate RoundComplete(s: State)
    requires ValidState(s)
  {
    var highest := HighestBet(s.players);
    var bbRule := s.round == PreFlop ==> s.bbActed || s.players[s.bigBlind].folded;
    var allActed := match s.aggressor
      case Some(a) => AllActedSince(s.players, s.acted, a)
      case None => AllActiveActed(s.players, s.acted);
    (BetsMatched(s.players, highest) && bbRule && allActed) || s.actionCount >= CountActive(s.players) * 3
  }

  /** A finished round: in Showdown the hand is over (false), otherwise `next_round` (true). */
  function Finish(s: State, shuffled: seq<Card>): (State, bool)
    requires ValidState(s)
  {
    if s.round == Showdown then (s, false) else (NextRoundState(s, shuffled), true)
  }

  /**
   * Step 3 of `next_player` (src/game.rs:624-660), for a round that is not
   * over: the big blind's action recorded pre-flop, then the turn passed on.
   */
  function AdvanceTurn(s: State, shuffled: seq<Card>): (State, bool)
    requires ValidState(s)
  {
    var marked := if s.round == PreFlop && s.current == s.bigBlind then s.(bbActed := true) else s;
    match s.aggressor
    case Some(a) =>
      (match FirstToAct(s.players, s.acted, HighestBet(s.players), a, 1)
       case Some(j) => (marked.(current := j), true)
       case None => Finish(marked.(current := a), shuffled))
    case None => (marked.(current := NextActive(s.players, s.current)), true)
  }

  /** The state after `next_player` and its result. */
  function NextPlayerState(s: State, shuffled: seq<Card>): (State, bool)
    requires ValidState(s)
  {
    if CountActive(s.players) <= 1 then
      if s.round == Showdown then (s, false) else (s.(round := Showdown), true)
    else if RoundComplete(s) then Finish(s, shuffled)
    else AdvanceTurn(s, shuffled)
  }

  // ---------------------------------------------------------------------
  // Properties of next_player

  /** `next_player` keeps the state well formed. */
  lemma NextPlayerValid(s: State, shuffled: seq<Card>)
    requires ValidState(s)
    ensures ValidState(NextPlayerState(s, shuffled).0)
  {
    if CountActive(s.players) > 1 {
      if RoundComplete(s) {
        FinishValid(s, shuffled);
      } else {
        AdvanceTurnValid(s, shuffled);
      }
    }
  }

  lemma AdvanceTurnValid(s: State, shuffled: seq<Card>)
    requires ValidState(s)
    ensures ValidState(AdvanceTurn(s, shuffled).0)
  {
    if s.aggressor.Some? {
      var a := s.aggressor.value;
      var marked := if s.round == PreFlop && s.current == s.bigBlind then s.(bbActed := true) else s;
      FinishValid(marked.(current := a), shuffled);
    } else {
      assert NextActive(s.players, s.current) < |s.players|;
    }
  }

  lemma FinishValid(s: State, shuffled: seq<Card>)
    requires ValidState(s)
    ensures ValidState(Finish(s, shuffled).0)
  {
    if s.round != Showdown {
      NextRoundTurn(s, shuffled);
    }
  }

  /**
   * `next_player` answers false only in Showdown, and then changes nothing
   * but possibly the turn.
   */
  lemma NextPlayerFalseOnlyInShowdown(s: State, shuffled: seq<Card>)
    requires ValidState(s)
    ensures var (t, more) := NextPlayerState(s, shuffled);
            !more ==> s.round == Showdown && t == s.(current := t.current)
  {
  }

  /** With at most one active player the round jumps to Showdown, or the hand ends if it is there. */
  lemma NextPlayerLoneActive(s: State, shuffled: seq<Card>)
    requires ValidState(s) && CountActive(s.players) <= 1
    ensures NextPlayerState(s, shuffled) == if s.round == Showdown then (s, false) else (s.(round := Showdown), true)
  {
  }

  /** The safeguard: after three actions per active player the round is over, whatever else holds. */
  lemma NextPlayerForced(s: State, shuffled: seq<Card>)
    requires ValidState(s) && CountActive(s.players) >= 2
    requires s.actionCount >= 3 * CountActive(s.players)
    ensures NextPlayerState(s, shuffled) == Finish(s, shuffled)
  {
  }

  /** With no aggressor and the round not over, the turn passes to `find_next_active_player(current)`. */
  lemma NextPlayerNoAggressor(s: State, shuffled: seq<Card>)
    requires ValidState(s) && CountActive(s.players) >= 2 && s.aggressor.None? && !RoundComplete(s)
    ensures var (t, more) := NextPlayerState(s, shuffled);
            && more
            && t.current == NextActive(s.players, s.current) && IsActive(s.players[t.current])
            && t == s.(current := t.current, bbActed := t.bbActed)
  {
    var j := AnotherActive(s.players, s.current);
  }

  /**
   * After a bet or raise, with the round not over, the turn goes to the
   * first seat after the aggressor that still needs to act; when there is
   * none the round is finished with the turn at the aggressor.
   */
  lemma NextPlayerAfterAggression(s: State, shuffled: seq<Card>)
    requires ValidState(s) && CountActive(s.players) >= 2 && s.aggressor.Some? && !RoundComplete(s)
    ensures var (t, more) := NextPlayerState(s, shuffled);
            var n := |s.players|;
            var a := s.aggressor.value;
            var highest := HighestBet(s.players);
            && ((exists i :: 0 <= i < n && i != a && NeedsToAct(s.players, s.acted, highest, i)) ==>
                  && more && t.round == s.round
                  && t.current != a && NeedsToAct(s.players, s.acted, highest, t.current)
                  && forall i :: 0 <= i < n && i != a && NeedsToAct(s.players, s.acted, highest, i) ==>
                       Dist(a, t.current, n) <= Dist(a, i, n))
            && ((forall i :: 0 <= i < n && i != a ==> !NeedsToAct(s.players, s.acted, highest, i)) ==>
                  var marked := if s.round == PreFlop && s.current == s.bigBlind then s.(bbActed := true) else s;
                  (t, more) == Finish(marked.(current := a), shuffled))
  {
  }

  /**
   * The big blind's flag is set only after the completion check: pre-flop,
   * with no raise, the big blind neither folded nor yet recorded, and the
   * safeguard not reached, the call of `next_player` that records the big
   * blind's action cannot end the round, so one more turn is always played.
   */
  lemma BigBlindFlagAfterCheck(s: State, shuffled: seq<Card>)
    requires ValidState(s) && CountActive(s.players) >= 2
    requires s.round == PreFlop && s.aggressor.None? && !s.bbActed && !s.players[s.bigBlind].folded
    requires s.actionCount < 3 * CountActive(s.players)
    ensures var (t, more) := NextPlayerState(s, shuffled);
            && more && t.round == PreFlop
            && t.bbActed == (s.current == s.bigBlind)
            && t.current == NextActive(s.players, s.current)
  {
  }
}
