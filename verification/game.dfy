/**
 * `struct Game` (src/game.rs:112-132) and its methods. Every method that
 * changes the game is proved to move `Snapshot()` as the state functions of
 * `Table`, `Turns` and `Actions` say; the loops over the players and the
 * deck are proved against those functions with their invariants.
 *
 * The random choices of the source are parameters: `dealer` is the dealer
 * seat `Game::new` draws, and `shuffled` the order `shuffle_deck` puts a
 * fresh deck in. The evaluator of `determine_winner` is `eval`.
 */
module PokerGame {
  import opened Wrappers
  import opened Cards
  import opened Decimal
  import opened Betting
  import opened Table
  import opened Turns
  import opened Actions
  import opened Showdown

  // ---------------------------------------------------------------------
  // The seats Game::new creates

  /** Human seat `i`: the given name for the first, "Player i+1" for the others. */
  function HumanSeat(i: nat, playerName: string, chips: nat): Player
  {
    Player(if i == 0 then playerName else "Player " + ToDecimal(i + 1), [], chips, 0, false, false, Easy)
  }

  /** Bot seat `i`: "Bot i+1", with the table's difficulty. */
  function BotSeat(i: nat, difficulty: BotDifficulty, chips: nat): Player
  {
    Player("Bot " + ToDecimal(i + 1), [], chips, 0, false, true, difficulty)
  }

  /** The humans first, then the bots, every stack at `chips`. */
  function Seats(humans: nat, bots: nat, difficulty: BotDifficulty, chips: nat, playerName: string): (r: seq<Player>)
    ensures |r| == humans + bots
    ensures forall i :: 0 <= i < |r| ==> r[i].isBot == (i >= humans) && r[i].chips == chips && r[i].hand == []
  {
    seq(humans, i requires 0 <= i => HumanSeat(i, playerName, chips))
    + seq(bots, i requires 0 <= i => BotSeat(i, difficulty, chips))
  }

  /** A generated name is its prefix followed by the seat number, so its digits give the number back. */
  lemma GeneratedName(prefix: string, k: nat, name: string)
    requires name == prefix + ToDecimal(k)
    ensures name[..|prefix|] == prefix
    ensures AllDigits(name[|prefix|..]) && DigitsValue(name[|prefix|..]) == k
  {
    assert name[|prefix|..] == ToDecimal(k);
    ToDecimalRoundTrip(k);
  }

  /**
   * No two seats share a name, provided the human's chosen name is not
   * itself one of the generated "Player k" or "Bot k" names.
   */
  lemma SeatNamesDistinct(humans: nat, bots: nat, difficulty: BotDifficulty, chips: nat, playerName: string)
    requires forall k: nat :: playerName != "Player " + ToDecimal(k) && playerName != "Bot " + ToDecimal(k)
    ensures var r := Seats(humans, bots, difficulty, chips, playerName);
            forall i, j :: 0 <= i < j < |r| ==> r[i].name != r[j].name
  {
    var r := Seats(humans, bots, difficulty, chips, playerName);
    forall i, j | 0 <= i < j < |r| ensures r[i].name != r[j].name {
      SeatKind(humans, bots, difficulty, chips, playerName, i);
      SeatKind(humans, bots, difficulty, chips, playerName, j);
      if j < humans {
        if i > 0 {
          NumbersDiffer("Player ", i + 1, j + 1);
        }
      } else if i < humans {
        if i > 0 {
          PrefixesDiffer(i + 1, j - humans + 1);
        }
      } else {
        NumbersDiffer("Bot ", i - humans + 1, j - humans + 1);
      }
    }
  }

  /** Seat `i` of `Seats`: a human seat below `humans`, a bot seat from there on. */
  lemma SeatKind(humans: nat, bots: nat, difficulty: BotDifficulty, chips: nat, playerName: string, i: nat)
    requires i < humans + bots
    ensures var r := Seats(humans, bots, difficulty, chips, playerName);
            r[i] == if i < humans then HumanSeat(i, playerName, chips) else BotSeat(i - humans, difficulty, chips)
  {
  }

  /** Two generated names with the same prefix and different numbers differ. */
  lemma NumbersDiffer(prefix: string, a: nat, b: nat)
    requires a != b
    ensures prefix + ToDecimal(a) != prefix + ToDecimal(b)
  {
    GeneratedName(prefix, a, prefix + ToDecimal(a));
    GeneratedName(prefix, b, prefix + ToDecimal(b));
  }

  /** A "Player k" name is never a "Bot m" name. */
  lemma PrefixesDiffer(a: nat, b: nat)
    ensures "Player " + ToDecimal(a) != "Bot " + ToDecimal(b)
  {
    assert ("Player " + ToDecimal(a))[0] == 'P';
    assert ("Bot " + ToDecimal(b))[0] == 'B';
  }

  // ---------------------------------------------------------------------
  // The loops over the seats and the deck

  /** The two seating loops of src/game.rs:178-202. */
  method BuildSeats(humans: nat, bots: nat, difficulty: BotDifficulty, chips: nat, playerName: string)
    returns (seats: seq<Player>)
    ensures seats == Seats(humans, bots, difficulty, chips, playerName)
  {
    var people := HumanSeats(humans, playerName, chips);
    var machines := BotSeats(bots, difficulty, chips);
    seats := people + machines;
  }

  /** The human loop of src/game.rs:179-189. */
  method HumanSeats(humans: nat, playerName: string, chips: nat) returns (seats: seq<Player>)
    ensures seats == seq(humans, k requires 0 <= k => HumanSeat(k, playerName, chips))
  {
    seats := [];
    for i := 0 to humans
      invariant seats == seq(i, k requires 0 <= k => HumanSeat(k, playerName, chips))
    {
      seats := seats + [HumanSeat(i, playerName, chips)];
    }
  }

  /** The bot loop of src/game.rs:192-202. */
  method BotSeats(bots: nat, difficulty: BotDifficulty, chips: nat) returns (seats: seq<Player>)
    ensures seats == seq(bots, k requires 0 <= k => BotSeat(k, difficulty, chips))
  {
    seats := [];
    for i := 0 to bots
      invariant seats == seq(i, k requires 0 <= k => BotSeat(k, difficulty, chips))
    {
      seats := seats + [BotSeat(i, difficulty, chips)];
    }
  }

  /** The reset loop of src/game.rs:281-285: every hand emptied, every fold flag and bet cleared. */
  method ClearSeats(players: seq<Player>) returns (r: seq<Player>)
    ensures |r| == |players|
    ensures forall k :: 0 <= k < |players| ==> r[k] == players[k].(hand := [], folded := false, currentBet := 0)
  {
    r := players;
    for i := 0 to |players|
      invariant |r| == |players|
      invariant forall k :: 0 <= k < i ==> r[k] == players[k].(hand := [], folded := false, currentBet := 0)
      invariant forall k :: i <= k < |players| ==> r[k] == players[k]
    {
      r := r[i := r[i].(hand := [], folded := false, currentBet := 0)];
    }
  }

  /**
   * The deal of src/game.rs:295-302: two passes round the table, each seat
   * in turn taking the card popped from the end of the deck while cards last.
   * Seat `k` ends holding its `HoleCards` after what it held before.
   */
  method DealHoleCards(players: seq<Player>, deck: seq<Card>) returns (r: seq<Player>, rest: seq<Card>)
    ensures |r| == |players|
    ensures forall k :: 0 <= k < |players| ==> r[k] == players[k].(hand := players[k].hand + HoleCards(deck, |players|, k))
    ensures rest == deck[..|deck| - Min(2 * |players|, |deck|)]
  {
    var n := |players|;
    r, rest := players, deck;
    ghost var c := 0;
    for pass := 0 to 2
      invariant |r| == n
      invariant c == pass * n
      invariant rest == deck[..|deck| - Min(c, |deck|)]
      invariant forall k :: 0 <= k < n ==> r[k] == players[k].(hand := players[k].hand + DealtHand(deck, n, k, c))
    {
      for i := 0 to n
        invariant |r| == n
        invariant c == pass * n + i
        invariant rest == deck[..|deck| - Min(c, |deck|)]
        invariant forall k :: 0 <= k < n ==> r[k] == players[k].(hand := players[k].hand + DealtHand(deck, n, k, c))
      {
        DealStep(deck, n, i, pass, c);
        if |rest| > 0 {
          var card := rest[|rest| - 1];
          rest := rest[..|rest| - 1];
          r := r[i := r[i].(hand := r[i].hand + [card])];
        }
        c := c + 1;
      }
    }
  }

  /** Pop number `c` of the deal goes to seat `i`, and it leaves every other seat's cards alone. */
  lemma DealStep(deck: seq<Card>, n: nat, i: nat, pass: nat, c: nat)
    requires i < n && pass < 2 && c == pass * n + i
    ensures c < |deck| ==> DealtHand(deck, n, i, c + 1) == DealtHand(deck, n, i, c) + [deck[|deck| - 1 - c]]
    ensures c >= |deck| ==> DealtHand(deck, n, i, c + 1) == DealtHand(deck, n, i, c)
    ensures forall k :: 0 <= k < n && k != i ==> DealtHand(deck, n, k, c + 1) == DealtHand(deck, n, k, c)
  {
    if pass == 0 {
      assert c == i;
    } else {
      assert c == n + i;
    }
  }

  /** The ante loop of src/game.rs:304-313: one chip (or nothing, if broke) from every stack, one chip per seat recorded. */
  method CollectAntes(players: seq<Player>, contributions: seq<nat>) returns (r: seq<Player>, paid: nat, c: seq<nat>)
    requires |contributions| == |players|
    ensures |r| == |players| && |c| == |players| && paid == |players|
    ensures forall k :: 0 <= k < |players| ==>
              r[k] == players[k].(chips := SaturatingSub(players[k].chips, 1)) && c[k] == contributions[k] + 1
  {
    r, paid, c := players, 0, contributions;
    for idx := 0 to |players|
      invariant |r| == |players| && |c| == |players| && paid == idx
      invariant forall k :: 0 <= k < idx ==>
                  r[k] == players[k].(chips := SaturatingSub(players[k].chips, 1)) && c[k] == contributions[k] + 1
      invariant forall k :: idx <= k < |players| ==> r[k] == players[k] && c[k] == contributions[k]
    {
      r := r[idx := r[idx].(chips := SaturatingSub(r[idx].chips, 1))];
      paid := paid + 1;
      c := c[idx := c[idx] + 1];
    }
  }

  /** The bet reset of src/game.rs:437-439. */
  method ClearBets(players: seq<Player>) returns (r: seq<Player>)
    ensures r == ZeroBets(players)
  {
    r := players;
    for i := 0 to |players|
      invariant |r| == |players|
      invariant forall k :: 0 <= k < i ==> r[k] == players[k].(currentBet := 0)
      invariant forall k :: i <= k < |players| ==> r[k] == players[k]
    {
      r := r[i := r[i].(currentBet := 0)];
    }
  }

  /** Up to `k` pops from the deck, each pushed onto the board; a pop from an empty deck deals nothing. */
  method Draw(deck: seq<Card>, board: seq<Card>, k: nat) returns (d: seq<Card>, b: seq<Card>)
    ensures (d, b) == DrawOnto(deck, board, k)
  {
    d, b := deck, board;
    for j := 0 to k
      invariant DrawOnto(d, b, k - j) == DrawOnto(deck, board, k)
    {
      if |d| > 0 {
        var card := d[|d| - 1];
        d := d[..|d| - 1];
        b := b + [card];
      }
    }
  }

  /** The phases of `deal_cards` before the blinds, put together, give `DealtState`. */
  lemma DealPhases(s: State, reset: State, cleared: State, dealt: State, shuffled: seq<Card>)
    requires ValidState(s)
    requires var n := |s.players|;
             var dealer := (s.dealer + 1) % n;
             var sb := (dealer + 1) % n;
             reset == s.(actionCount := 0, bbActed := false, acted := [], aggressor := None, complete := false,
                         contributions := Zeros(n), dealer := dealer, smallBlind := sb, bigBlind := (sb + 1) % n)
    requires |cleared.players| == |s.players|
    requires forall k :: 0 <= k < |s.players| ==> cleared.players[k] == s.players[k].(hand := [], folded := false, currentBet := 0)
    requires cleared == reset.(players := cleared.players, board := [], pot := 0, round := PreFlop, deck := shuffled)
    requires var n := |s.players|;
             && |dealt.players| == n && |dealt.contributions| == n
             && (forall k :: 0 <= k < n ==>
                   dealt.players[k] == cleared.players[k].(hand := cleared.players[k].hand + HoleCards(shuffled, n, k),
                                                           chips := SaturatingSub(cleared.players[k].chips, 1))
                   && dealt.contributions[k] == cleared.contributions[k] + 1)
             && dealt == cleared.(players := dealt.players, deck := shuffled[..|shuffled| - Min(2 * n, |shuffled|)],
                                  pot := cleared.pot + n, contributions := dealt.contributions)
    ensures dealt == DealtState(s, shuffled)
  {
    var n := |s.players|;
    forall k | 0 <= k < n ensures dealt.players[k] == DealtPlayers(s.players, shuffled)[k] {
      assert [] + HoleCards(shuffled, n, k) == HoleCards(shuffled, n, k);
    }
    assert dealt.players == DealtPlayers(s.players, shuffled);
    assert dealt.contributions == seq(n, i => 1);
  }

  /** The phases of `next_round` within a hand, put together, give `EnterRound`. */
  lemma EnterPhases(s: State, advanced: State, dealt: State, reset: State, deck: seq<Card>)
    requires s.round != Showdown
    requires advanced == s.(deck := deck, round := RoundAfter(s.round), players := ZeroBets(s.players))
    requires var d := BoardOnEntry(advanced.round, advanced.deck, advanced.board);
             dealt == advanced.(deck := d.0, board := d.1)
    requires reset == dealt.(actionCount := 0, acted := [], aggressor := None, complete := false,
                             contributions := Zeros(|dealt.players|))
    ensures reset == EnterRound(s, deck)
  {
  }

  /**
   * The `u32` addition of src/game.rs:1076 does not overflow: the stack of
   * whoever wins the showdown, plus the pot, fits in a `u32`. Losing seats
   * are not constrained.
   */
  ghost predicate PotFitsWinner(players: seq<Player>, board: seq<Card>, eval: seq<Card> -> Ranking, pot: nat)
  {
    forall w: nat {:trigger IsShowdownWinner(players, board, eval, w)} :: IsShowdownWinner(players, board, eval, w) ==>
      w < |players| && players[w].chips + pot < U32_LIMIT
  }

  /**
   * The payout cannot overflow at a table whose chips, stacks and pot
   * together, fit in a `u32`: whoever wins holds at most all the stacks.
   * Since every action keeps stacks plus pot fixed
   * (`Actions.ActionMovesChips`), this holds at every showdown of a game
   * that started within the bound.
   */
  lemma PayoutFits(players: seq<Player>, board: seq<Card>, eval: seq<Card> -> Ranking, pot: nat)
    requires TotalChips(players) + pot < U32_LIMIT
    ensures PotFitsWinner(players, board, eval, pot)
  {
    forall w: nat | IsShowdownWinner(players, board, eval, w)
      ensures w < |players| && players[w].chips + pot < U32_LIMIT
    {
      StackWithinTotal(players, w);
    }
  }

  // ---------------------------------------------------------------------
  // The game

  class Game {
    var players: seq<Player>
    var deck: seq<Card>
    var communityCards: seq<Card>
    var pot: nat
    var currentPlayerIdx: nat
    var minBet: nat
    var round: Round
    var dealerIdx: nat
    var smallBlindIdx: nat
    var bigBlindIdx: nat
    var lastActionCount: nat
    var bbHasActedPreflop: bool
    var playersActedThisRound: seq<nat>
    var lastAggressor: Option<nat>
    var roundActionComplete: bool
    var playerContributionsThisRound: seq<nat>

    /** The modelled fields as one value. */
    function Snapshot(): State
      reads this
    {
      State(players, deck, communityCards, pot, currentPlayerIdx, minBet, round, dealerIdx, smallBlindIdx,
            bigBlindIdx, lastActionCount, bbHasActedPreflop, playersActedThisRound, lastAggressor,
            roundActionComplete, playerContributionsThisRound)
    }

    predicate Valid()
      reads this
    {
      ValidState(Snapshot())
    }

    /**
     * `Game::new` (src/game.rs:175-233): the humans, then the bots, all with
     * the starting stack; the blinds follow the dealer seat; a fresh unshuffled
     * deck, an empty pot and board, a minimum bet of 10 and the first seat to act.
     * `gen_range(0..0)` panics, so the table must not be empty.
     */
    constructor (humans: nat, bots: nat, difficulty: BotDifficulty, startingChips: nat, playerName: string, dealer: nat)
      requires 1 <= humans + bots && dealer < humans + bots
      ensures Valid()
      ensures players == Seats(humans, bots, difficulty, startingChips, playerName)
      ensures deck == CreateDeck() && communityCards == [] && pot == 0 && currentPlayerIdx == 0
      ensures minBet == 10 && round == PreFlop
      ensures dealerIdx == dealer && smallBlindIdx == (dealer + 1) % (humans + bots)
      ensures bigBlindIdx == (smallBlindIdx + 1) % (humans + bots)
      ensures lastActionCount == 0 && !bbHasActedPreflop && playersActedThisRound == []
      ensures lastAggressor == None && !roundActionComplete
      ensures playerContributionsThisRound == Zeros(humans + bots)
    {
      var seats := BuildSeats(humans, bots, difficulty, startingChips, playerName);
      var n := |seats|;
      players, deck, communityCards, pot, currentPlayerIdx, minBet, round := seats, CreateDeck(), [], 0, 0, 10, PreFlop;
      dealerIdx, smallBlindIdx, bigBlindIdx := dealer, (dealer + 1) % n, ((dealer + 1) % n + 1) % n;
      lastActionCount, bbHasActedPreflop, playersActedThisRound := 0, false, [];
      lastAggressor, roundActionComplete, playerContributionsThisRound := None, false, Zeros(n);
    }

    /** `shuffle_deck` (src/game.rs:255-258): the deck takes the order `shuffled`, a rearrangement of its cards. */
    method ShuffleDeck(shuffled: seq<Card>)
      requires multiset(shuffled) == multiset(deck)
      modifies this
      ensures Snapshot() == old(Snapshot()).(deck := shuffled)
    {
      deck := shuffled;
    }

    /** `deal_cards` (src/game.rs:260-335). */
    method DealCards(shuffled: seq<Card>)
      requires Valid() && IsShuffledDeck(shuffled)
      modifies this
      ensures Valid()
      ensures Snapshot() == NewHand(old(Snapshot()), shuffled)
    {
      ghost var s := Snapshot();
      ResetForHand();
      ghost var reset := Snapshot();
      ClearTable(shuffled);
      ghost var cleared := Snapshot();
      DealAndAnte();
      DealPhases(s, reset, cleared, Snapshot(), shuffled);
      if |players| >= 2 {
        PostTheBlinds();
      }
      NewHandValid(s, shuffled);
    }

    /** The resets and the position rotation of src/game.rs:261-279. */
    method ResetForHand()
      requires |players| >= 1
      modifies this
      ensures var n := |old(players)|;
              var dealer := (old(dealerIdx) + 1) % n;
              var sb := (dealer + 1) % n;
              Snapshot() == old(Snapshot()).(actionCount := 0, bbActed := false, acted := [], aggressor := None,
                                             complete := false, contributions := Zeros(n),
                                             dealer := dealer, smallBlind := sb, bigBlind := (sb + 1) % n)
    {
      var n := |players|;
      var dealer := (dealerIdx + 1) % n;
      var sb := (dealer + 1) % n;
      lastActionCount, bbHasActedPreflop := 0, false;
      playersActedThisRound, lastAggressor, roundActionComplete := [], None, false;
      playerContributionsThisRound := Zeros(n);
      dealerIdx, smallBlindIdx, bigBlindIdx := dealer, sb, (sb + 1) % n;
    }

    /** src/game.rs:281-293: the seats cleared, the board and the pot emptied, back to PreFlop, a fresh deck shuffled. */
    method ClearTable(shuffled: seq<Card>)
      requires IsShuffledDeck(shuffled)
      modifies this
      ensures |players| == |old(players)|
      ensures forall k :: 0 <= k < |players| ==> players[k] == old(players)[k].(hand := [], folded := false, currentBet := 0)
      ensures Snapshot() == old(Snapshot()).(players := players, board := [], pot := 0, round := PreFlop, deck := shuffled)
    {
      var seats := ClearSeats(players);
      players, communityCards, pot, round := seats, [], 0, PreFlop;
      deck := CreateDeck();
      ShuffleDeck(shuffled);
    }

    /** src/game.rs:295-313: the hole cards dealt from the deck, then the ante taken from every seat. */
    method DealAndAnte()
      requires |playerContributionsThisRound| == |players|
      modifies this
      ensures var n := |old(players)|;
              && |players| == n && |playerContributionsThisRound| == n
              && (forall k :: 0 <= k < n ==>
                    players[k] == old(players)[k].(hand := old(players)[k].hand + HoleCards(old(deck), n, k),
                                                   chips := SaturatingSub(old(players)[k].chips, 1))
                    && playerContributionsThisRound[k] == old(playerContributionsThisRound)[k] + 1)
              && Snapshot() == old(Snapshot()).(players := players, deck := old(deck)[..|old(deck)| - Min(2 * n, |old(deck)|)],
                                                pot := old(pot) + n, contributions := playerContributionsThisRound)
    {
      var dealt, rest := DealHoleCards(players, deck);
      deck := rest;
      var anted, paid, contributions := CollectAntes(dealt, playerContributionsThisRound);
      players := anted;
      pot := pot + paid;
      playerContributionsThisRound := contributions;
    }

    /** The blinds of src/game.rs:315-334: half the minimum bet from the small blind, the minimum from the big blind. */
    method PostTheBlinds()
      requires smallBlindIdx < |players| && bigBlindIdx < |players| && |playerContributionsThisRound| == |players|
      modifies this
      ensures Snapshot() == PostBlinds(old(Snapshot()))
    {
      PostBlindAt(smallBlindIdx, minBet / 2);
      PostBlindAt(bigBlindIdx, minBet);
      currentPlayerIdx := (bigBlindIdx + 1) % |players|;
    }

    /** One blind: the stack pays what it can, the bet, the pot and the contribution record the whole blind. */
    method PostBlindAt(seat: nat, amount: nat)
      requires seat < |players| && |playerContributionsThisRound| == |players|
      modifies this
      ensures Snapshot() == PostBlind(old(Snapshot()), seat, amount)
    {
      var p := players[seat];
      var seats := players[seat := p.(chips := SaturatingSub(p.chips, amount), currentBet := amount)];
      var contributions := playerContributionsThisRound[seat := playerContributionsThisRound[seat] + amount];
      players, pot, playerContributionsThisRound := seats, pot + amount, contributions;
    }

    /** `deal_community_cards` (src/game.rs:337-392). */
    method DealCommunityCards(shuffled: seq<Card>)
      requires IsShuffledDeck(shuffled)
      modifies this
      ensures Snapshot() == DealBoard(old(Snapshot()), shuffled)
    {
      RefillDeck(shuffled);
      var d, b := deck, communityCards;
      match round {
        case Flop =>
          d, b := Draw(d, b, 3);
        case Turn =>
          d, b := Draw(d, b, 1);
        case River =>
          d, b := Draw(d, b, 1);
        case _ =>
      }
      if round != PreFlop {
        var expected := ExpectedBoard(round);
        if |b| != expected {
          d, b := Draw(d, [], expected);
        }
      }
      deck, communityCards := d, b;
    }

    /** The refill at the head of `next_round` and `deal_community_cards`: a fresh shuffled deck when fewer than 5 cards remain. */
    method RefillDeck(shuffled: seq<Card>)
      requires IsShuffledDeck(shuffled)
      modifies this
      ensures Snapshot() == old(Snapshot()).(deck := Refilled(old(deck), shuffled))
    {
      if |deck| < 5 {
        deck := CreateDeck();
        ShuffleDeck(shuffled);
      }
    }

    /** `next_round` (src/game.rs:394-523). */
    method NextRound(shuffled: seq<Card>)
      requires Valid() && IsShuffledDeck(shuffled)
      modifies this
      ensures Valid()
      ensures Snapshot() == NextRoundState(old(Snapshot()), shuffled)
    {
      ghost var s := Snapshot();
      RefillDeck(shuffled);
      if round == Showdown {
        DealCards(shuffled);
        return;
      }
      EnterNextRound();
      if round != Showdown {
        currentPlayerIdx := FindNextActivePlayer(smallBlindIdx % |players|);
      }
      NextRoundTurn(s, shuffled);
    }

    /** The round advanced, the bets cleared, the board dealt and the round's records reset (src/game.rs:412-509). */
    method EnterNextRound()
      requires round != Showdown
      modifies this
      ensures Snapshot() == EnterRound(old(Snapshot()), old(deck))
    {
      ghost var s := Snapshot();
      match round {
        case PreFlop => round := Flop;
        case Flop => round := Turn;
        case Turn => round := River;
        case River => round := Showdown;
      }
      players := ClearBets(players);
      ghost var advanced := Snapshot();
      DealBoardOnEntry();
      ghost var dealt := Snapshot();
      ResetRoundRecords();
      EnterPhases(s, advanced, dealt, Snapshot(), s.deck);
    }

    /** The board dealing of src/game.rs:442-496 for the round just entered. */
    method DealBoardOnEntry()
      modifies this
      ensures var dealt := BoardOnEntry(old(round), old(deck), old(communityCards));
              Snapshot() == old(Snapshot()).(deck := dealt.0, board := dealt.1)
    {
      var d, b := deck, communityCards;
      match round {
        case Flop =>
          d, b := Draw(d, [], 3);
        case Turn =>
          if |b| < 3 {
            d, b := Draw(d, [], 3);
          }
          d, b := Draw(d, b, 1);
        case River =>
          if |b| < 4 {
            d, b := Draw(d, b, 4 - |b|);
          }
          d, b := Draw(d, b, 1);
        case Showdown =>
          if |b| < 5 {
            d, b := Draw(d, b, 5 - |b|);
          }
        case PreFlop =>
      }
      deck, communityCards := d, b;
    }

    /** The per-round resets of src/game.rs:498-509. */
    method ResetRoundRecords()
      modifies this
      ensures Snapshot() == old(Snapshot()).(actionCount := 0, acted := [], aggressor := None, complete := false,
                                             contributions := Zeros(|old(players)|))
    {
      lastActionCount, playersActedThisRound, lastAggressor, roundActionComplete := 0, [], None, false;
      playerContributionsThisRound := Zeros(|players|);
    }

    /** `find_next_active_player` (src/game.rs:525-543). */
    method FindNextActivePlayer(currentIdx: nat) returns (idx: nat)
      requires |players| >= 1
      ensures idx == NextActive(players, currentIdx)
    {
      var n := |players|;
      idx := (currentIdx + 1) % n;
      var startIdx := idx;
      ghost var seen: nat := 0;
      while true
        invariant idx < n && seen < n
        invariant idx == if startIdx + seen < n then startIdx + seen else startIdx + seen - n
        invariant ScanActive(players, idx, n - seen, currentIdx) == NextActive(players, currentIdx)
        decreases n - seen
      {
        if !players[idx].folded && players[idx].chips > 0 {
          return;
        }
        SuccIsMod(idx, n);
        idx := (idx + 1) % n;
        seen := seen + 1;
        if idx == startIdx {
          return currentIdx;
        }
      }
    }

    /**
     * The walk of src/game.rs:584-599 from the seat after the aggressor,
     * cut off where it wraps past an aggressor who can no longer act:
     * whether every active seat but the aggressor has acted since.
     */
    method AllActedAfterAggressor(aggressor: nat) returns (allActed: bool)
      requires Valid() && aggressor < |players|
      ensures allActed == AllActedSince(players, playersActedThisRound, aggressor)
    {
      var n := |players|;
      var idx: nat := FindNextActivePlayer(aggressor);
      ActedBeforeStart(players, playersActedThisRound, aggressor);
      allActed := true;
      while idx != aggressor
        invariant idx < n
        invariant idx != aggressor ==> IsActive(players[idx])
        invariant ActedBefore(players, playersActedThisRound, aggressor, idx)
        decreases n - Dist(aggressor, idx, n)
      {
        if idx !in playersActedThisRound && !players[idx].folded && players[idx].chips > 0 {
          allActed := false;
          return;
        }
        var next: nat := FindNextActivePlayer(idx);
        ActedStep(players, playersActedThisRound, aggressor, idx);
        if Dist(aggressor, next, n) <= Dist(aggressor, idx, n) {
          // wrapped past an aggressor who is folded or all-in: every active seat has been seen
          return;
        }
        idx := next;
      }
      ActedEnd(players, playersActedThisRound, aggressor);
    }

    /**
     * The walk of src/game.rs:635-657, cut off in the same way: the first
     * seat after the aggressor that still needs to act, None when the walk
     * comes back round without finding one.
     */
    method FirstToActAfter(aggressor: nat, highestBet: nat) returns (found: Option<nat>)
      requires Valid() && aggressor < |players| && CountActive(players) >= 2
      ensures found == FirstToAct(players, playersActedThisRound, highestBet, aggressor, 1)
    {
      var n := |players|;
      var idx: nat := FindNextActivePlayer(aggressor);
      NeedStart(players, playersActedThisRound, highestBet, aggressor);
      while players[idx].folded || players[idx].chips == 0
            || (idx in playersActedThisRound && players[idx].currentBet == highestBet)
        invariant idx < n && idx != aggressor && IsActive(players[idx])
        invariant NoneNeedBefore(players, playersActedThisRound, highestBet, aggressor, idx)
        decreases n - Dist(aggressor, idx, n)
      {
        var next: nat := FindNextActivePlayer(idx);
        NeedStep(players, playersActedThisRound, highestBet, aggressor, idx);
        if next == aggressor || Dist(aggressor, next, n) <= Dist(aggressor, idx, n) {
          // back at the aggressor, or wrapped past one who can no longer act
          return None;
        }
        idx := next;
      }
      NeedFound(players, playersActedThisRound, highestBet, aggressor, idx);
      return Some(idx);
    }

    /** `next_player` (src/game.rs:545-664): false when the hand is over. */
    method NextPlayer(shuffled: seq<Card>) returns (continues: bool)
      requires Valid() && IsShuffledDeck(shuffled)
      modifies this
      ensures Valid()
      ensures (Snapshot(), continues) == NextPlayerState(old(Snapshot()), shuffled)
    {
      ghost var s := Snapshot();
      NextPlayerValid(s, shuffled);
      var activePlayers := CountActive(players);
      if activePlayers <= 1 {
        if round == Showdown {
          return false;
        }
        round := Showdown;
        return true;
      }
      var roundComplete := IsRoundComplete();
      if roundComplete {
        continues := FinishRound(shuffled);
        return;
      }
      continues := MoveTurn(shuffled);
    }

    /** Step 2 of `next_player` (src/game.rs:563-612): whether the betting round is over. */
    method IsRoundComplete() returns (complete: bool)
      requires Valid()
      ensures complete == RoundComplete(Snapshot())
    {
      var activePlayers := CountActive(players);
      var highestBet := HighestBet(players);
      var betsMatched := BetsMatched(players, highestBet);
      var forceAdvancement := lastActionCount >= activePlayers * 3;
      var bbRuleSatisfied := if round == PreFlop then bbHasActedPreflop || players[bigBlindIdx].folded else true;
      var allActed;
      match lastAggressor {
        case Some(a) =>
          allActed := AllActedAfterAggressor(a);
        case None =>
          allActed := AllActiveActed(players, playersActedThisRound);
      }
      complete := (betsMatched && bbRuleSatisfied && allActed) || forceAdvancement;
    }

    /** Step 3 of `next_player` (src/game.rs:624-660): the turn passed on within a round that is not over. */
    method MoveTurn(shuffled: seq<Card>) returns (continues: bool)
      requires Valid() && IsShuffledDeck(shuffled) && CountActive(players) >= 2
      modifies this
      ensures Valid()
      ensures (Snapshot(), continues) == AdvanceTurn(old(Snapshot()), shuffled)
    {
      ghost var s := Snapshot();
      if round == PreFlop && currentPlayerIdx == bigBlindIdx {
        bbHasActedPreflop := true;
      }
      match lastAggressor {
        case Some(a) =>
          continues := PassAfterAggressor(a, shuffled);
        case None =>
          currentPlayerIdx := FindNextActivePlayer(currentPlayerIdx);
          continues := true;
      }
      AdvanceTurnValid(s, shuffled);
    }

    /** The turn after a bet or raise by `aggressor`: the first seat that still owes an action, or the round is over. */
    method PassAfterAggressor(aggressor: nat, shuffled: seq<Card>) returns (continues: bool)
      requires Valid() && IsShuffledDeck(shuffled) && CountActive(players) >= 2 && aggressor < |players|
      modifies this
      ensures Valid()
      ensures (Snapshot(), continues) ==
              match FirstToAct(old(players), old(playersActedThisRound), HighestBet(old(players)), aggressor, 1)
              case Some(j) => (old(Snapshot()).(current := j), true)
              case None => Finish(old(Snapshot()).(current := aggressor), shuffled)
    {
      var found := FirstToActAfter(aggressor, HighestBet(players));
      match found {
        case Some(j) =>
          currentPlayerIdx := j;
          continues := true;
        case None =>
          currentPlayerIdx := aggressor;
          continues := FinishRound(shuffled);
      }
    }

    /** A finished round: false in Showdown, otherwise `next_round` and true. */
    method FinishRound(shuffled: seq<Card>) returns (continues: bool)
      requires Valid() && IsShuffledDeck(shuffled)
      modifies this
      ensures Valid()
      ensures (Snapshot(), continues) == Finish(old(Snapshot()), shuffled)
    {
      if round == Showdown {
        return false;
      }
      NextRound(shuffled);
      return true;
    }

    /**
     * `perform_action` (src/game.rs:666-848): the current seat acts; returns
     * the action actually taken and the reported total bet.
     */
    method PerformAction(action: GameAction) returns (taken: GameAction, reported: Option<nat>)
      requires Valid() && RaiseInRange(Snapshot(), action)
      modifies this
      ensures Valid()
      ensures Snapshot() == ApplyAction(old(Snapshot()), action).0
      ensures taken == ApplyAction(old(Snapshot()), action).1.taken
      ensures reported == ApplyAction(old(Snapshot()), action).1.reported
    {
      ghost var s := Snapshot();
      var cur := currentPlayerIdx;
      var p := players[cur];
      var highestBet := HighestBet(players);
      RecordActor(cur);
      var o := ResolveAction(action, p.currentBet, p.chips, highestBet, minBet);
      Settle(cur, o);
      taken, reported := o.taken, o.reported;
      ActionBookkeeping(s, action);
    }

    /** The bookkeeping at the head of `perform_action` (src/game.rs:683-690): one more action, the actor recorded once. */
    method RecordActor(cur: nat)
      modifies this
      ensures Snapshot() == old(Snapshot()).(actionCount := old(lastActionCount) + 1,
                                             acted := ActedAfter(old(playersActedThisRound), cur, false))
    {
      lastActionCount := lastActionCount + 1;
      if cur !in playersActedThisRound {
        playersActedThisRound := playersActedThisRound + [cur];
      }
    }

    /**
     * The transfer of an outcome for seat `cur` (src/game.rs:697-833): the
     * chips from the stack to the pot and the seat's contribution, and after
     * a bet or raise the seat as the aggressor and the only one to have acted.
     */
    method Settle(cur: nat, o: Outcome)
      requires cur < |players| && cur < |playerContributionsThisRound| && o.paid <= players[cur].chips
      modifies this
      ensures Snapshot() == old(Snapshot()).(
                players := old(players)[cur := Settled(old(players)[cur], o)],
                pot := old(pot) + o.paid,
                contributions := old(playerContributionsThisRound)[cur := old(playerContributionsThisRound)[cur] + o.paid],
                acted := if o.aggression then [cur] else old(playersActedThisRound),
                aggressor := if o.aggression then Some(cur) else old(lastAggressor))
    {
      players := players[cur := Settled(players[cur], o)];
      pot := pot + o.paid;
      playerContributionsThisRound := playerContributionsThisRound[cur := playerContributionsThisRound[cur] + o.paid];
      if o.aggression {
        lastAggressor := Some(cur);
        playersActedThisRound := [cur];
      }
    }

    /**
     * `determine_winner` (src/game.rs:850-1080): picks the winner as
     * `Showdown.SelectWinner` does, pays the whole pot to them and empties it;
     * returns the winner and the winnings. The `u32` addition to the
     * winner's stack must not overflow.
     */
    method DetermineWinner(eval: seq<Card> -> Ranking) returns (winner: nat, winnings: nat)
      requires exists i: nat :: Unfolded(players, i)
      requires PotFitsWinner(players, communityCards, eval, pot)
      modifies this
      ensures IsShowdownWinner(old(players), old(communityCards), eval, winner)
      ensures winnings == old(pot)
      ensures winner < |old(players)|
      ensures players == old(players)[winner := old(players)[winner].(chips := old(players)[winner].chips + winnings)]
      ensures Snapshot() == old(Snapshot()).(players := players, pot := 0)
      ensures players[winner].chips < U32_LIMIT
    {
      winner := SelectWinner(players, communityCards, eval);
      winnings := pot;
      PayPot(winner);
    }

    /** Adds the whole pot to the stack of seat `winner` and empties the pot. */
    method PayPot(winner: nat)
      requires winner < |players|
      modifies this
      ensures players == old(players)[winner := old(players)[winner].(chips := old(players)[winner].chips + old(pot))]
      ensures Snapshot() == old(Snapshot()).(players := players, pot := 0)
    {
      players := players[winner := players[winner].(chips := players[winner].chips + pot)];
      pot := 0;
    }
  }
}
