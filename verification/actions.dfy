/**
 * `perform_action` (src/game.rs:666-848) on a state value: the acting seat is
 * `current_player_idx`, the decision of what really happens is
 * `Betting.ResolveAction`, and the bookkeeping around it is below.
 */
module Actions {
  import opened Wrappers
  import opened Decimal
  import opened Betting
  import opened Table

  /**
   * The unchecked `u32` additions of the raise branch facing a bet,
   * `highest_bet + min_bet` and `player_current_bet + amount`
   * (src/game.rs:758-762), do not overflow.
   */
  predicate RaiseInRange(s: State, action: GameAction)
    requires s.current < |s.players|
  {
    action.Raise? && HighestBet(s.players) > 0 ==>
      && HighestBet(s.players) + s.minBet < U32_LIMIT
      && s.players[s.current].currentBet + action.amount < U32_LIMIT
  }

  /** The acting seat after `o`: chips to the pot, the bet raised by the same amount, folded on a fold. */
  function Settled(p: Player, o: Outcome): Player
    requires o.paid <= p.chips
  {
    p.(chips := p.chips - o.paid, currentBet := p.currentBet + o.paid, folded := p.folded || o.taken.Fold?)
  }

  /** The acted list after the action: only the actor after a bet or raise, else the actor added once. */
  function ActedAfter(acted: seq<nat>, actor: nat, aggression: bool): seq<nat>
  {
    if aggression then [actor] else if actor in acted then acted else acted + [actor]
  }

  /**
   * The state after `perform_action(action)` and the outcome: the action
   * actually taken, the reported total bet and the chips paid.
   */
  function ApplyAction(s: State, action: GameAction): (r: (State, Outcome))
    requires ValidState(s)
  {
    var cur := s.current;
    var p := s.players[cur];
    var o := ResolveAction(action, p.currentBet, p.chips, HighestBet(s.players), s.minBet);
    var t := s.(players := s.players[cur := Settled(p, o)],
                pot := s.pot + o.paid,
                contributions := s.contributions[cur := s.contributions[cur] + o.paid],
                actionCount := s.actionCount + 1,
                acted := ActedAfter(s.acted, cur, o.aggression),
                aggressor := if o.aggression then Some(cur) else s.aggressor);
    (t, o)
  }

  /**
   * Chips move only from the actor to the pot: the actor's stack falls by
   * exactly what the pot and the actor's contribution rise by, never by more
   * than the stack, and every other seat and contribution stays as it was.
   * So stacks plus pot are conserved, and so is the pot less the round's
   * contributions.
   */
  lemma ActionMovesChips(s: State, action: GameAction)
    requires ValidState(s)
    ensures var (t, o) := ApplyAction(s, action);
            var cur := s.current;
            && |t.players| == |s.players| && |t.contributions| == |s.contributions|
            && o.paid <= s.players[cur].chips
            && t.players[cur].chips + o.paid == s.players[cur].chips
            && t.pot == s.pot + o.paid
            && t.contributions[cur] == s.contributions[cur] + o.paid
            && (forall i :: 0 <= i < |s.players| && i != cur ==>
                  t.players[i] == s.players[i] && t.contributions[i] == s.contributions[i])
            && TotalChips(t.players) + t.pot == TotalChips(s.players) + s.pot
            && t.pot + Sum(s.contributions) == s.pot + Sum(t.contributions)
  {
    var (t, o) := ApplyAction(s, action);
    var cur := s.current;
    TotalChipsUpdate(s.players, cur, t.players[cur]);
    SumUpdate(s.contributions, cur, s.contributions[cur] + o.paid);
  }

  /**
   * Every action counts once and records the actor in the acted list at most
   * once; only a successful bet or raise makes the actor the aggressor and
   * resets the acted list to exactly the actor. The state stays well formed.
   */
  lemma ActionBookkeeping(s: State, action: GameAction)
    requires ValidState(s)
    ensures var (t, o) := ApplyAction(s, action);
            var cur := s.current;
            && ValidState(t)
            && t.actionCount == s.actionCount + 1
            && cur in t.acted
            && (o.aggression ==> t.acted == [cur] && t.aggressor == Some(cur))
            && (!o.aggression ==>
                  t.aggressor == s.aggressor && (forall k :: k in t.acted <==> k in s.acted || k == cur))
            && t.round == s.round && t.board == s.board && t.deck == s.deck && t.current == s.current
  {
    var (t, o) := ApplyAction(s, action);
    var cur := s.current;
    var p := s.players[cur];
    ResolveActionCases(action, p.currentBet, p.chips, HighestBet(s.players), s.minBet);
    if !o.aggression && cur !in s.acted {
      assert t.acted == s.acted + [cur];
      forall i, j | 0 <= i < j < |t.acted| ensures t.acted[i] != t.acted[j] {
        if j == |s.acted| {
          assert t.acted[i] in s.acted;
        }
      }
    }
  }

  /**
   * What the actor ends with: a fold only folds, a check moves nothing, a
   * call leaves the actor matching the highest bet or all-in, and the
   * reported figure is the actor's new total bet.
   */
  lemma ActionResult(s: State, action: GameAction)
    requires ValidState(s)
    ensures var (t, o) := ApplyAction(s, action);
            var p := s.players[s.current];
            var q := t.players[s.current];
            && (o.taken.Fold? <==> action.Fold?)
            && (o.taken.Fold? ==> q == p.(folded := true) && o.reported == None)
            && (o.taken.Check? ==> q == p && p.currentBet == HighestBet(s.players))
            && (o.taken.Call? ==> q.currentBet == HighestBet(s.players) || q.chips == 0)
            && (!o.taken.Fold? ==> o.reported == Some(q.currentBet) && !q.folded == !p.folded)
  {
    var p := s.players[s.current];
    ResolveActionCases(action, p.currentBet, p.chips, HighestBet(s.players), s.minBet);
  }

  /**
   * The action that is really taken, for each request (src/game.rs:697-833):
   * a call or a check becomes a call exactly when something is owed; an
   * opening bet below the minimum becomes a check and reports 0; a raise
   * below the highest bet plus the minimum becomes a call if something is
   * owed and a check otherwise; any other bet or raise is capped at the stack.
   */
  lemma ActionDowngrades(s: State, action: GameAction)
    requires ValidState(s)
    ensures var (t, o) := ApplyAction(s, action);
            var p := s.players[s.current];
            var highest := HighestBet(s.players);
            var owed := highest - p.currentBet;
            && (action.Call? || action.Check? ==>
                  o.taken == (if owed > 0 then Call else Check)
                  && o.paid == (if owed > 0 then Min(owed, p.chips) else 0))
            && (action.Raise? && highest == 0 && Min(action.amount, p.chips) < s.minBet ==>
                  o.taken == Check && o.reported == Some(0) && t.players[s.current] == p)
            && (action.Raise? && highest == 0 && Min(action.amount, p.chips) >= s.minBet ==>
                  o.taken == Raise(Min(action.amount, p.chips)) && t.players[s.current].currentBet == o.paid)
            && (action.Raise? && highest > 0 && p.currentBet + action.amount < highest + s.minBet ==>
                  o.taken == (if owed > 0 then Call else Check))
            && (action.Raise? && highest > 0 && p.currentBet + action.amount >= highest + s.minBet ==>
                  o.taken == Raise(Min(action.amount, p.chips)))
  {
    var p := s.players[s.current];
    ResolveActionCases(action, p.currentBet, p.chips, HighestBet(s.players), s.minBet);
  }

  // ---------------------------------------------------------------------
  // A betting round as a sequence of actions

  /** One action of a betting round: the seat `next_player` gave the turn to, and what it did. */
  datatype Move = Move(seat: nat, action: GameAction)

  /**
   * The state after the moves in order, each made by its seat; `next_player`
   * moves the turn between them without touching chips, pot or contributions.
   */
  function Replay(s: State, moves: seq<Move>): (t: State)
    requires ValidState(s)
    requires forall k :: 0 <= k < |moves| ==> moves[k].seat < |s.players|
    ensures ValidState(t) && |t.players| == |s.players|
    decreases |moves|
  {
    if |moves| == 0 then s
    else
      var turn := s.(current := moves[0].seat);
      ActionBookkeeping(turn, moves[0].action);
      ActionMovesChips(turn, moves[0].action);
      Replay(ApplyAction(turn, moves[0].action).0, moves[1..])
  }

  /**
   * However many moves are made, stacks plus pot stay the same and the pot
   * grows by exactly the growth of the contributions. After `next_round`,
   * which zeroes the contributions, the pot is the round's starting pot plus
   * the round's contributions; after `deal_cards`, which leaves the pot equal
   * to the contributions, it stays equal to them.
   */
  lemma {:induction false} ReplayKeepsPot(s: State, moves: seq<Move>)
    requires ValidState(s)
    requires forall k :: 0 <= k < |moves| ==> moves[k].seat < |s.players|
    ensures var t := Replay(s, moves);
            && TotalChips(t.players) + t.pot == TotalChips(s.players) + s.pot
            && t.pot + Sum(s.contributions) == s.pot + Sum(t.contributions)
            && (Sum(s.contributions) == 0 ==> t.pot == s.pot + Sum(t.contributions))
            && (s.pot == Sum(s.contributions) ==> t.pot == Sum(t.contributions))
    decreases |moves|
  {
    if |moves| > 0 {
      var turn := s.(current := moves[0].seat);
      ActionMovesChips(turn, moves[0].action);
      ActionBookkeeping(turn, moves[0].action);
      ReplayKeepsPot(ApplyAction(turn, moves[0].action).0, moves[1..]);
    }
  }
}
