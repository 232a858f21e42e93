/**
 * The walk of `next_player` that checks whether everyone has acted since the
 * last aggression (src/game.rs:584-599), as it is written: it starts at the
 * active seat after the aggressor and steps with `find_next_active_player`
 * until it is back at the aggressor. An aggressor who went all-in is no
 * longer active, so the walk never lands on it again and, when every other
 * active seat has acted, it never stops. `fuel` bounds the steps; `None`
 * means the fuel ran out before the loop did.
 *
 * `Turns.AllActedSince`, computed by `PokerGame.Game.AllActedAfterAggressor`,
 * is the corrected walk: it stops once it has gone round the table.
 */
module Findings {
  import opened Wrappers
  import opened Betting
  import opened Table
  import opened Turns

  /** The loop of src/game.rs:588-597 from seat `idx`, for at most `fuel` steps. */
  function WalkAsWritten(players: seq<Player>, acted: seq<nat>, aggressor: nat, idx: nat, fuel: nat): Option<bool>
    requires idx < |players|
    decreases fuel
  {
    if fuel == 0 then None
    else if idx == aggressor then Some(true)
    else if idx !in acted && IsActive(players[idx]) then Some(false)
    else WalkAsWritten(players, acted, aggressor, NextActive(players, idx), fuel - 1)
  }

  /** The whole walk of src/game.rs:586-599, from the seat after the aggressor. */
  function AllActedAsWritten(players: seq<Player>, acted: seq<nat>, aggressor: nat, fuel: nat): Option<bool>
    requires aggressor < |players|
  {
    WalkAsWritten(players, acted, aggressor, NextActive(players, aggressor), fuel)
  }

  /** Seat 0 went all-in for 10 and seats 1 and 2 called it. */
  function StuckPlayers(): seq<Player>
  {
    [Player("Player 1", [], 0, 10, false, false, Easy),
     Player("Bot 2", [], 90, 10, false, true, Easy),
     Player("Bot 3", [], 90, 10, false, true, Easy)]
  }

  /** The table when seat 2 has called, on the flop, and `next_player` is asked for the next turn. */
  function StuckState(): State
  {
    State(StuckPlayers(), [], [], 30, 2, 10, Flop, 0, 1, 2, 3, false, [0, 1, 2], Some(0), false, [10, 10, 10])
  }

  /** From seat 1 or seat 2 the walk alternates between them and never stops. */
  lemma {:induction false} StuckWalk(fuel: nat)
    ensures WalkAsWritten(StuckPlayers(), [0, 1, 2], 0, 1, fuel) == None
    ensures WalkAsWritten(StuckPlayers(), [0, 1, 2], 0, 2, fuel) == None
    decreases fuel
  {
    if fuel > 0 {
      var players := StuckPlayers();
      assert !IsActive(players[0]) && IsActive(players[1]) && IsActive(players[2]);
      assert NextActive(players, 1) == 2;
      assert NextActive(players, 2) == 1;
      StuckWalk(fuel - 1);
    }
  }

  /**
   * The state is well formed and its round is over (everyone has matched the
   * all-in bet), yet the walk as written does not return for any number of
   * steps, so `next_player` never returns; the corrected check says that
   * everyone has acted and the round is complete.
   */
  lemma WalkAsWrittenDiverges()
    ensures ValidState(StuckState())
    ensures forall fuel: nat :: AllActedAsWritten(StuckPlayers(), [0, 1, 2], 0, fuel) == None
    ensures AllActedSince(StuckPlayers(), [0, 1, 2], 0)
    ensures RoundComplete(StuckState())
  {
    var players := StuckPlayers();
    assert IsActive(players[1]) && IsActive(players[2]);
    assert NextActive(players, 0) == 1;
    forall fuel: nat ensures AllActedAsWritten(players, [0, 1, 2], 0, fuel) == None {
      StuckWalk(fuel);
    }
    assert HighestBet(players) == 10;
    assert CountActive(players) == 2;
  }
}
