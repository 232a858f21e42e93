/**
 * Winner selection of `determine_winner` (src/game.rs:850-1029). The hand
 * evaluator of the rs_poker library is not part of this model: it enters as a
 * function parameter `eval` that maps a card sequence to a hand category
 * (0 = high card .. 8 = straight flush) and a value that orders hands within
 * the category.
 */
module Showdown {
  import opened Wrappers
  import opened Cards
  import opened Betting

  /** The category numbers of src/game.rs:959-969. */
  type Category = c: nat | c < 9

  /** What the evaluator says about a hand: its category and its rank within the category. */
  datatype Ranking = Ranking(category: Category, value: int)

  /** The library's strict order on ranked hands: category first, then the value. */
  predicate Beats(a: Ranking, b: Ranking)
  {
    a.category > b.category || (a.category == b.category && a.value > b.value)
  }

  predicate Unfolded(players: seq<Player>, i: nat)
  {
    i < |players| && !players[i].folded
  }

  /** A player whose hand goes to the evaluator: unfolded, holding cards, with a board on the table. */
  predicate Evaluated(players: seq<Player>, board: seq<Card>, i: nat)
  {
    Unfolded(players, i) && |players[i].hand| > 0 && |board| > 0
  }

  /** Hole cards followed by the board, as handed to the evaluator. */
  function Strength(players: seq<Player>, board: seq<Card>, eval: seq<Card> -> Ranking, i: nat): Ranking
    requires i < |players|
  {
    eval(players[i].hand + board)
  }

  /** Unfolded with at least two hole cards (the fallback used when there is no board). */
  predicate HoldsTwo(players: seq<Player>, i: nat)
  {
    Unfolded(players, i) && |players[i].hand| >= 2
  }

  predicate PocketPair(players: seq<Player>, i: nat)
  {
    HoldsTwo(players, i) && players[i].hand[0].rank == players[i].hand[1].rank
  }

  /**
   * Who takes the pot. With a board: the best evaluated hand, ties to the
   * lowest seat. Without a board: the first pocket pair; failing that the
   * LAST unfolded player holding two cards. When nobody qualifies, the first
   * unfolded player.
   */
  ghost predicate IsShowdownWinner(players: seq<Player>, board: seq<Card>, eval: seq<Card> -> Ranking, w: nat)
  {
    && Unfolded(players, w)
    && if |board| > 0 then
         if exists i: nat :: Evaluated(players, board, i) then
           && Evaluated(players, board, w)
           && (forall i: nat :: Evaluated(players, board, i) ==>
                 !Beats(Strength(players, board, eval, i), Strength(players, board, eval, w)))
           && (forall i: nat :: i < w && Evaluated(players, board, i) ==>
                 Beats(Strength(players, board, eval, w), Strength(players, board, eval, i)))
         else forall i: nat :: i < w ==> !Unfolded(players, i)
       else if exists i: nat :: PocketPair(players, i) then
         PocketPair(players, w) && forall i: nat :: i < w ==> !PocketPair(players, i)
       else if exists i: nat :: HoldsTwo(players, i) then
         HoldsTwo(players, w) && forall i: nat :: w < i ==> !HoldsTwo(players, i)
       else forall i: nat :: i < w ==> !Unfolded(players, i)
  }

  /** `players.iter().enumerate().filter(|(_, p)| !p.folded).map(|(idx, _)| idx).collect()`. */
  function UnfoldedSeats(players: seq<Player>): (seats: seq<nat>)
    ensures forall k :: 0 <= k < |seats| ==> Unfolded(players, seats[k])
    ensures forall i: nat :: Unfolded(players, i) ==> i in seats
    ensures forall k, l :: 0 <= k < l < |seats| ==> seats[k] < seats[l]
  {
    if |players| == 0 then []
    else
      var m := |players| - 1;
      var rest := UnfoldedSeats(players[..m]);
      assert forall k :: 0 <= k < |rest| ==> Unfolded(players, rest[k]) by {
        forall k | 0 <= k < |rest| ensures Unfolded(players, rest[k]) {
          assert Unfolded(players[..m], rest[k]);
        }
      }
      assert forall i: nat :: Unfolded(players, i) && i < m ==> i in rest by {
        forall i: nat | Unfolded(players, i) && i < m ensures i in rest {
          assert Unfolded(players[..m], i);
        }
      }
      rest + if players[m].folded then [] else [m]
  }

  /** The first seat of `UnfoldedSeats` is the lowest unfolded seat. */
  lemma FirstUnfolded(players: seq<Player>)
    requires |UnfoldedSeats(players)| > 0
    ensures var w := UnfoldedSeats(players)[0];
            Unfolded(players, w) && forall i: nat :: i < w ==> !Unfolded(players, i)
  {
    var seats := UnfoldedSeats(players);
    forall i: nat | i < seats[0] ensures !Unfolded(players, i) {
    }
  }

  /** Exactly one unfolded seat: it is the only entry. */
  lemma LoneUnfolded(players: seq<Player>)
    requires |UnfoldedSeats(players)| == 1
    ensures forall i: nat :: Unfolded(players, i) ==> i == UnfoldedSeats(players)[0]
  {
  }

  /**
   * The selection loop of src/game.rs:851-1029. `determine_winner` indexes
   * `active_players[0]`, so at least one player must still be in the hand.
   */
  method SelectWinner(players: seq<Player>, board: seq<Card>, eval: seq<Card> -> Ranking) returns (winner: nat)
    requires exists i: nat :: Unfolded(players, i)
    ensures IsShowdownWinner(players, board, eval, winner)
  {
    var active := UnfoldedSeats(players);
    var i0 :| Unfolded(players, i0);
    assert i0 in active;
    FirstUnfolded(players);
    if |active| == 1 {
      // the lone survivor takes the pot without any evaluation
      LoneUnfolded(players);
      winner := active[0];
      LoneWinner(players, board, eval, winner);
      return;
    }
    var first := active[0];
    var bestRankValue: nat := 0;
    var bestHand: Option<Ranking> := None;
    winner := first;
    var i := 0;
    while i < |players|
      invariant i <= |players|
      invariant Unfolded(players, winner)
      invariant |board| > 0 ==> BestEvaluatedSoFar(players, board, eval, i, first, bestRankValue, bestHand, winner)
      invariant |board| == 0 ==> BestFallbackSoFar(players, i, first, bestRankValue, bestHand, winner)
    {
      if !players[i].folded {
        var cards := players[i].hand;
        if |cards| > 0 && |board| > 0 {
          var handRank := eval(cards + board);
          if handRank.category > bestRankValue || bestHand.None? {
            EvaluatedTake(players, board, eval, i, first, bestRankValue, bestHand, winner);
            bestRankValue := handRank.category;
            bestHand := Some(handRank);
            winner := i;
          } else if handRank.category == bestRankValue && bestHand.Some? {
            if Beats(handRank, bestHand.value) {
              EvaluatedTake(players, board, eval, i, first, bestRankValue, bestHand, winner);
              bestHand := Some(handRank);
              winner := i;
            } else {
              EvaluatedKeep(players, board, eval, i, first, bestRankValue, bestHand, winner);
            }
          } else {
            EvaluatedKeep(players, board, eval, i, first, bestRankValue, bestHand, winner);
          }
        } else if |cards| >= 2 {
          if cards[0].rank == cards[1].rank {
            if bestRankValue < 1 {
              FallbackTake(players, i, first, bestRankValue, bestHand, winner);
              bestRankValue := 1;
              winner := i;
            } else {
              FallbackKeep(players, i, first, bestRankValue, bestHand, winner);
            }
          } else {
            if bestRankValue == 0 && bestHand.None? {
              FallbackTake(players, i, first, bestRankValue, bestHand, winner);
              winner := i;
            } else {
              FallbackKeep(players, i, first, bestRankValue, bestHand, winner);
            }
          }
        } else {
          SkipSeat(players, board, eval, i, first, bestRankValue, bestHand, winner);
        }
      } else {
        SkipSeat(players, board, eval, i, first, bestRankValue, bestHand, winner);
      }
      i := i + 1;
    }
    if |board| > 0 {
      EvaluatedWinner(players, board, eval, first, bestRankValue, bestHand, winner);
    } else {
      FallbackWinner(players, board, eval, first, bestRankValue, bestHand, winner);
    }
  }

  lemma EvaluatedWinner(players: seq<Player>, board: seq<Card>, eval: seq<Card> -> Ranking,
                        first: nat, bestRankValue: nat, bestHand: Option<Ranking>, winner: nat)
    requires |board| > 0 && Unfolded(players, winner)
    requires forall j: nat :: j < first ==> !Unfolded(players, j)
    requires BestEvaluatedSoFar(players, board, eval, |players|, first, bestRankValue, bestHand, winner)
    ensures IsShowdownWinner(players, board, eval, winner)
  {
    if bestHand.None? {
      forall j: nat ensures !Evaluated(players, board, j) {
        if j < |players| {
          assert !Evaluated(players, board, j);
        }
      }
    }
  }

  lemma FallbackWinner(players: seq<Player>, board: seq<Card>, eval: seq<Card> -> Ranking,
                       first: nat, bestRankValue: nat, bestHand: Option<Ranking>, winner: nat)
    requires |board| == 0 && Unfolded(players, winner)
    requires forall j: nat :: j < first ==> !Unfolded(players, j)
    requires BestFallbackSoFar(players, |players|, first, bestRankValue, bestHand, winner)
    ensures IsShowdownWinner(players, board, eval, winner)
  {
    if bestRankValue == 0 {
      assert forall j: nat :: !PocketPair(players, j) by {
        forall j: nat ensures !PocketPair(players, j) {
          if j < |players| {
            assert !PocketPair(players, j);
          }
        }
      }
    }
  }

  /** Loop invariant with a board: the best evaluated hand among seats below `i`, first seat on ties. */
  ghost predicate BestEvaluatedSoFar(players: seq<Player>, board: seq<Card>, eval: seq<Card> -> Ranking,
                                     i: nat, first: nat, bestRankValue: nat, bestHand: Option<Ranking>, winner: nat)
  {
    && (bestHand.None? <==> forall j: nat :: j < i ==> !Evaluated(players, board, j))
    && (bestHand.None? ==> winner == first && bestRankValue == 0)
    && (bestHand.Some? ==>
          && winner < i && Evaluated(players, board, winner)
          && bestHand.value == Strength(players, board, eval, winner)
          && bestRankValue == bestHand.value.category
          && (forall j: nat :: j < i && Evaluated(players, board, j) ==>
                !Beats(Strength(players, board, eval, j), bestHand.value))
          && (forall j: nat :: j < winner && Evaluated(players, board, j) ==>
                Beats(bestHand.value, Strength(players, board, eval, j))))
  }

  /** Loop invariant without a board: the first pocket pair below `i`, else the last two-card holder. */
  ghost predicate BestFallbackSoFar(players: seq<Player>, i: nat, first: nat, bestRankValue: nat,
                                    bestHand: Option<Ranking>, winner: nat)
  {
    && bestHand.None? && bestRankValue <= 1
    && (bestRankValue == 1 ==>
          winner < i && PocketPair(players, winner) && forall j: nat :: j < winner ==> !PocketPair(players, j))
    && (bestRankValue == 0 ==>
          && (forall j: nat :: j < i ==> !PocketPair(players, j))
          && ((winner == first && forall j: nat :: j < i ==> !HoldsTwo(players, j))
              || (winner < i && HoldsTwo(players, winner) && forall j: nat :: winner < j < i ==> !HoldsTwo(players, j))))
  }

  /** A seat that neither the evaluator nor the fallback looks at changes nothing. */
  lemma SkipSeat(players: seq<Player>, board: seq<Card>, eval: seq<Card> -> Ranking,
                 i: nat, first: nat, bestRankValue: nat, bestHand: Option<Ranking>, winner: nat)
    requires !Evaluated(players, board, i) && !HoldsTwo(players, i)
    requires |board| > 0 ==> BestEvaluatedSoFar(players, board, eval, i, first, bestRankValue, bestHand, winner)
    requires |board| == 0 ==> BestFallbackSoFar(players, i, first, bestRankValue, bestHand, winner)
    ensures |board| > 0 ==> BestEvaluatedSoFar(players, board, eval, i + 1, first, bestRankValue, bestHand, winner)
    ensures |board| == 0 ==> BestFallbackSoFar(players, i + 1, first, bestRankValue, bestHand, winner)
  {
  }

  /** Seat `i` holds a strictly better hand than the best so far and becomes the leader. */
  lemma EvaluatedTake(players: seq<Player>, board: seq<Card>, eval: seq<Card> -> Ranking,
                      i: nat, first: nat, bestRankValue: nat, bestHand: Option<Ranking>, winner: nat)
    requires Evaluated(players, board, i)
    requires bestHand.None? || Beats(Strength(players, board, eval, i), bestHand.value)
    requires BestEvaluatedSoFar(players, board, eval, i, first, bestRankValue, bestHand, winner)
    ensures var r := Strength(players, board, eval, i);
            BestEvaluatedSoFar(players, board, eval, i + 1, first, r.category, Some(r), i)
  {
  }

  /** Seat `i` does not beat the leader, who stays. */
  lemma EvaluatedKeep(players: seq<Player>, board: seq<Card>, eval: seq<Card> -> Ranking,
                      i: nat, first: nat, bestRankValue: nat, bestHand: Option<Ranking>, winner: nat)
    requires Evaluated(players, board, i)
    requires bestHand.Some? && !Beats(Strength(players, board, eval, i), bestHand.value)
    requires BestEvaluatedSoFar(players, board, eval, i, first, bestRankValue, bestHand, winner)
    ensures BestEvaluatedSoFar(players, board, eval, i + 1, first, bestRankValue, bestHand, winner)
  {
  }

  /** Without a board: the first pocket pair, or a two-card holder while no pair is known, leads. */
  lemma FallbackTake(players: seq<Player>, i: nat, first: nat, bestRankValue: nat,
                     bestHand: Option<Ranking>, winner: nat)
    requires HoldsTwo(players, i) && bestRankValue == 0
    requires BestFallbackSoFar(players, i, first, bestRankValue, bestHand, winner)
    ensures BestFallbackSoFar(players, i + 1, first, if PocketPair(players, i) then 1 else 0, bestHand, i)
  {
  }

  /** Without a board: once a pocket pair leads, later two-card holders change nothing. */
  lemma FallbackKeep(players: seq<Player>, i: nat, first: nat, bestRankValue: nat,
                     bestHand: Option<Ranking>, winner: nat)
    requires HoldsTwo(players, i) && bestRankValue == 1
    requires BestFallbackSoFar(players, i, first, bestRankValue, bestHand, winner)
    ensures BestFallbackSoFar(players, i + 1, first, bestRankValue, bestHand, winner)
  {
  }

  /** A lone unfolded player wins whatever the evaluator says. */
  lemma LoneWinner(players: seq<Player>, board: seq<Card>, eval: seq<Card> -> Ranking, w: nat)
    requires Unfolded(players, w)
    requires forall i: nat :: Unfolded(players, i) ==> i == w
    ensures IsShowdownWinner(players, board, eval, w)
  {
  }

  /** Ties and all, the winner is determined: two winners are the same seat. */
  lemma WinnerUnique(players: seq<Player>, board: seq<Card>, eval: seq<Card> -> Ranking, w1: nat, w2: nat)
    requires IsShowdownWinner(players, board, eval, w1)
    requires IsShowdownWinner(players, board, eval, w2)
    ensures w1 == w2
  {
  }
}
