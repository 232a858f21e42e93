/**
 * The state of a `Game` (src/game.rs:112-132) as a value, and the effect of
 * the dealing operations on it: `deal_cards` (a new hand), `next_round` and
 * `deal_community_cards`. The methods of `PokerGame.Game` are proved to move
 * their object from one of these states to the next; the lemmas below say
 * what those steps do.
 */
module Table {
  import opened Wrappers
  import opened Cards
  import opened Betting

  /** A snapshot of every modelled field of `struct Game`. */
  datatype State = State(
    players: seq<Player>,
    deck: seq<Card>,
    board: seq<Card>,
    pot: nat,
    current: nat,
    minBet: nat,
    round: Round,
    dealer: nat,
    smallBlind: nat,
    bigBlind: nat,
    actionCount: nat,
    bbActed: bool,
    acted: seq<nat>,
    aggressor: Option<nat>,
    complete: bool,
    contributions: seq<nat>)

  predicate NoDuplicates(s: seq<nat>)
  {
    forall i, j :: 0 <= i < j < |s| ==> s[i] != s[j]
  }

  /**
   * What every operation keeps: a nonempty table, every index a seat, one
   * contribution per player, each seat recorded as having acted at most once.
   */
  predicate ValidState(s: State)
  {
    var n := |s.players|;
    && n >= 1
    && s.dealer < n && s.smallBlind < n && s.bigBlind < n && s.current < n
    && |s.contributions| == n
    && (forall k :: 0 <= k < |s.acted| ==> s.acted[k] < n)
    && NoDuplicates(s.acted)
    && (s.aggressor.Some? ==> s.aggressor.value < n)
  }

  // ---------------------------------------------------------------------
  // Drawing from the deck

  /** The cards of `s` in the order successive pops from its end return them. */
  function PopOrder(s: seq<Card>): (r: seq<Card>)
    ensures |r| == |s|
    ensures forall j :: 0 <= j < |s| ==> r[j] == s[|s| - 1 - j]
  {
    if |s| == 0 then [] else [s[|s| - 1]] + PopOrder(s[..|s| - 1])
  }

  /** Popping a whole sequence returns each of its cards once. */
  lemma {:induction false} PopOrderCards(s: seq<Card>)
    ensures multiset(PopOrder(s)) == multiset(s)
  {
    if |s| > 0 {
      assert s == s[..|s| - 1] + [s[|s| - 1]];
      PopOrderCards(s[..|s| - 1]);
    }
  }

  /**
   * Up to `k` pops from the end of the deck, each card pushed onto `board`;
   * stops early when the deck runs out.
   */
  function DrawOnto(deck: seq<Card>, board: seq<Card>, k: nat): (r: (seq<Card>, seq<Card>))
    decreases k
  {
    if k == 0 || |deck| == 0 then (deck, board)
    else DrawOnto(deck[..|deck| - 1], board + [deck[|deck| - 1]], k - 1)
  }

  /** The draw takes the last `min(k, |deck|)` cards and lays them on the board in pop order. */
  lemma {:induction false} DrawnCards(deck: seq<Card>, board: seq<Card>, k: nat)
    ensures var m := Min(k, |deck|);
            DrawOnto(deck, board, k) == (deck[..|deck| - m], board + PopOrder(deck[|deck| - m..]))
    decreases k
  {
    if k == 0 || |deck| == 0 {
      assert deck[..|deck|] == deck && deck[|deck|..] == [];
      assert board + PopOrder([]) == board;
    } else {
      var last := |deck| - 1;
      var m := Min(k, |deck|);
      var rest := deck[..last];
      DrawnCards(rest, board + [deck[last]], k - 1);
      assert Min(k - 1, |rest|) == m - 1;
      assert rest[..|rest| - (m - 1)] == deck[..|deck| - m];
      var taken := deck[|deck| - m..];
      assert taken[..|taken| - 1] == rest[|rest| - (m - 1)..];
      assert taken[|taken| - 1] == deck[last];
      var popped := PopOrder(rest[|rest| - (m - 1)..]);
      assert PopOrder(taken) == [deck[last]] + popped;
      Associative(board, [deck[last]], popped);
    }
  }

  lemma Associative(a: seq<Card>, b: seq<Card>, c: seq<Card>)
    ensures a + (b + c) == (a + b) + c
  {
  }

  /** Drawing moves cards from the deck to the board and creates or loses none. */
  lemma DrawKeepsCards(deck: seq<Card>, board: seq<Card>, k: nat)
    ensures var r := DrawOnto(deck, board, k);
            multiset(r.0) + multiset(r.1) == multiset(deck) + multiset(board)
            && |r.1| == |board| + Min(k, |deck|)
  {
    var m := Min(k, |deck|);
    DrawnCards(deck, board, k);
    PopOrderCards(deck[|deck| - m..]);
    assert deck == deck[..|deck| - m] + deck[|deck| - m..];
  }

  /** The deck `next_round` and `deal_community_cards` work with: a fresh shuffled deck when fewer than 5 cards remain. */
  function Refilled(deck: seq<Card>, shuffled: seq<Card>): seq<Card>
  {
    if |deck| < 5 then shuffled else deck
  }

  // ---------------------------------------------------------------------
  // deal_cards

  /** Player `i`'s cards once the first `c` pops of the deal are done: pop `t` goes to seat `t % n`. */
  function DealtHand(deck: seq<Card>, n: nat, i: nat, c: nat): seq<Card>
  {
    (if i < c && i < |deck| then [deck[|deck| - 1 - i]] else [])
    + (if n + i < c && n + i < |deck| then [deck[|deck| - 1 - (n + i)]] else [])
  }

  /** The hole cards of seat `i` after two rounds dealt round-robin from the end of `deck`. */
  function HoleCards(deck: seq<Card>, n: nat, i: nat): seq<Card>
  {
    DealtHand(deck, n, i, 2 * n)
  }

  /** A seat with its hand, fold flag and bet cleared, its two cards dealt and the ante of 1 taken. */
  function Anted(p: Player, cards: seq<Card>): Player
  {
    p.(hand := cards, folded := false, currentBet := 0, chips := SaturatingSub(p.chips, 1))
  }

  /** Every seat cleared, dealt its hole cards and anted (src/game.rs:281-313). */
  function DealtPlayers(players: seq<Player>, shuffled: seq<Card>): (r: seq<Player>)
    ensures |r| == |players|
    ensures forall i :: 0 <= i < |players| ==>
              && r[i].name == players[i].name && r[i].isBot == players[i].isBot
              && r[i].difficulty == players[i].difficulty
              && !r[i].folded && r[i].currentBet == 0
              && (players[i].chips >= 1 ==> r[i].chips == players[i].chips - 1)
              && (players[i].chips == 0 ==> r[i].chips == 0)
              && (2 * |players| <= |shuffled| ==>
                    r[i].hand == [shuffled[|shuffled| - 1 - i], shuffled[|shuffled| - 1 - (|players| + i)]])
  {
    seq(|players|, i requires 0 <= i < |players| => Anted(players[i], HoleCards(shuffled, |players|, i)))
  }

  /** A blind posted by `seat`: the stack pays what it can, the bet and the pot record the full blind. */
  function PostBlind(s: State, seat: nat, amount: nat): (t: State)
    requires seat < |s.players| && |s.contributions| == |s.players|
    ensures |t.players| == |s.players| && |t.contributions| == |s.contributions|
  {
    var p := s.players[seat];
    s.(players := s.players[seat := p.(chips := SaturatingSub(p.chips, amount), currentBet := amount)],
       pot := s.pot + amount,
       contributions := s.contributions[seat := s.contributions[seat] + amount])
  }

  /** The blinds of src/game.rs:315-334 and the turn moved to the seat after the big blind. */
  function PostBlinds(s: State): (t: State)
    requires s.smallBlind < |s.players| && s.bigBlind < |s.players| && |s.contributions| == |s.players|
  {
    var blinds := PostBlind(PostBlind(s, s.smallBlind, s.minBet / 2), s.bigBlind, s.minBet);
    blinds.(current := (s.bigBlind + 1) % |s.players|)
  }

  /** The state once positions are rotated, the deck is dealt from and the antes are in (src/game.rs:260-313). */
  function DealtState(s: State, shuffled: seq<Card>): (t: State)
    requires ValidState(s)
    ensures |t.players| == |t.contributions| == |s.players|
    ensures t.smallBlind < |s.players| && t.bigBlind < |s.players|
  {
    var n := |s.players|;
    var dealer := (s.dealer + 1) % n;
    var sb := (dealer + 1) % n;
    var bb := (sb + 1) % n;
    var deck := shuffled[..|shuffled| - Min(2 * n, |shuffled|)];
    State(DealtPlayers(s.players, shuffled), deck, [], n, s.current, s.minBet, PreFlop,
          dealer, sb, bb, 0, false, [], None, false, seq(n, i => 1))
  }

  /**
   * The state `deal_cards` (src/game.rs:260-335) leaves, `shuffled` being
   * the order `shuffle_deck` put the fresh deck in.
   */
  function NewHand(s: State, shuffled: seq<Card>): State
    requires ValidState(s)
  {
    var dealt := DealtState(s, shuffled);
    if |s.players| >= 2 then PostBlinds(dealt) else dealt
  }

  /** A new hand is well formed, whatever the deck holds. */
  lemma NewHandValid(s: State, shuffled: seq<Card>)
    requires ValidState(s)
    ensures ValidState(NewHand(s, shuffled))
  {
  }

  /** The blinds touch only stacks, bets, the pot, the contributions and the turn. */
  lemma NewHandFrame(s: State, shuffled: seq<Card>)
    requires ValidState(s)
    ensures var d := DealtState(s, shuffled);
            var t := NewHand(s, shuffled);
            && t == d.(players := t.players, pot := t.pot, contributions := t.contributions, current := t.current)
            && |t.players| == |s.players|
            && forall i :: 0 <= i < |s.players| ==>
                 t.players[i] == d.players[i].(chips := t.players[i].chips, currentBet := t.players[i].currentBet)
  {
  }

  /** What a seat is charged when a hand starts: the ante, plus a blind on the blind seats. */
  function Charge(t: State, i: nat): nat
  {
    1 + (if |t.players| >= 2 && i == t.smallBlind then t.minBet / 2 else 0)
      + (if |t.players| >= 2 && i == t.bigBlind then t.minBet else 0)
  }

  lemma ModSucc(i: nat, n: nat)
    requires i < n
    ensures (i + 1) % n == if i + 1 < n then i + 1 else 0
  {
    SuccIsMod(i, n);
  }

  /**
   * A new hand rotates the button, the small blind and the big blind one
   * seat on, gives every player exactly the two cards dealt to it
   * round-robin from the end of the shuffled deck, leaves 52 - 2n cards in
   * the deck and clears every per-round record.
   */
  lemma NewHandDeal(s: State, shuffled: seq<Card>)
    requires ValidState(s) && IsShuffledDeck(shuffled) && |s.players| <= 26
    ensures var t := NewHand(s, shuffled);
            var n := |s.players|;
            && |shuffled| == 52
            && ValidState(t)
            && |t.players| == n
            && t.dealer == (s.dealer + 1) % n
            && t.smallBlind == (t.dealer + 1) % n
            && t.bigBlind == (t.smallBlind + 1) % n
            && (forall i :: 0 <= i < n ==>
                  && t.players[i].hand == [shuffled[51 - i], shuffled[51 - (n + i)]]
                  && !t.players[i].folded
                  && t.players[i].name == s.players[i].name)
            && t.deck == shuffled[..52 - 2 * n]
            && t.board == [] && t.round == PreFlop
            && t.acted == [] && t.aggressor == None && t.actionCount == 0 && !t.bbActed && !t.complete
            && t.minBet == s.minBet
  {
    ShuffledDeckSize(shuffled);
    NewHandFrame(s, shuffled);
    var n := |s.players|;
    var d := DealtState(s, shuffled);
    forall i | 0 <= i < n
      ensures d.players[i].hand == [shuffled[51 - i], shuffled[51 - (n + i)]]
    {
    }
  }

  /**
   * The ante and the blinds. Every seat is charged its `Charge`; the stack
   * pays what it can (`saturating_sub`), while the contribution and the pot
   * record the full charge.
   */
  lemma NewHandCharges(s: State, shuffled: seq<Card>)
    requires ValidState(s)
    ensures var t := NewHand(s, shuffled);
            && |t.players| == |t.contributions| == |s.players|
            && (forall i :: 0 <= i < |s.players| ==>
                  && t.contributions[i] == Charge(t, i)
                  && t.players[i].chips == SaturatingSub(s.players[i].chips, Charge(t, i)))
            && t.pot == Sum(t.contributions)
  {
    OnesSum(|s.players|);
    if |s.players| >= 2 {
      BlindSums(s, shuffled);
      BlindStacks(s, shuffled);
    }
  }

  lemma BlindSums(s: State, shuffled: seq<Card>)
    requires ValidState(s) && |s.players| >= 2
    ensures var t := NewHand(s, shuffled);
            && (forall i :: 0 <= i < |s.players| ==> t.contributions[i] == Charge(t, i))
            && t.pot == Sum(t.contributions)
  {
    var d := DealtState(s, shuffled);
    ModSucc(d.smallBlind, |s.players|);
    OnesSum(|s.players|);
    PostBlindsSum(d);
  }

  /** Blinds posted on top of the antes: contributions still sum to the pot. */
  lemma PostBlindsSum(d: State)
    requires |d.players| >= 2 && |d.contributions| == |d.players|
    requires d.smallBlind < |d.players| && d.bigBlind < |d.players| && d.smallBlind != d.bigBlind
    requires d.contributions == seq(|d.players|, i => 1) && d.pot == Sum(d.contributions)
    ensures var t := PostBlinds(d);
            && (forall i :: 0 <= i < |d.players| ==> t.contributions[i] == Charge(t, i))
            && t.pot == Sum(t.contributions)
  {
    var small := PostBlind(d, d.smallBlind, d.minBet / 2);
    SumUpdate(d.contributions, d.smallBlind, 1 + d.minBet / 2);
    SumUpdate(small.contributions, d.bigBlind, 1 + d.minBet);
  }

  lemma BlindStacks(s: State, shuffled: seq<Card>)
    requires ValidState(s) && |s.players| >= 2
    ensures var t := NewHand(s, shuffled);
            forall i :: 0 <= i < |s.players| ==> t.players[i].chips == SaturatingSub(s.players[i].chips, Charge(t, i))
  {
    var n := |s.players|;
    var d := DealtState(s, shuffled);
    var sb := d.smallBlind;
    var bb := d.bigBlind;
    ModSucc(sb, n);
    var small := PostBlind(d, sb, s.minBet / 2);
    var t := NewHand(s, shuffled);
    forall i | 0 <= i < n
      ensures t.players[i].chips == SaturatingSub(s.players[i].chips, Charge(t, i))
    {
      assert d.players[i].chips == SaturatingSub(s.players[i].chips, 1);
      if i == sb {
        SaturatingSubChain(s.players[i].chips, 1, s.minBet / 2);
      } else if i == bb {
        SaturatingSubChain(s.players[i].chips, 1, s.minBet);
      }
    }
  }

  /**
   * With two or more players the small blind bets half the minimum bet, the
   * big blind the minimum bet, nobody else has a bet, the pot is
   * n + minBet/2 + minBet and the turn is at the seat after the big blind.
   * Alone at the table a player only antes and the turn stays.
   */
  lemma NewHandBlindBets(s: State, shuffled: seq<Card>)
    requires ValidState(s)
    ensures var t := NewHand(s, shuffled);
            var n := |s.players|;
            && |t.players| == n
            && (n >= 2 ==>
                  && t.pot == n + s.minBet / 2 + s.minBet
                  && t.players[t.smallBlind].currentBet == s.minBet / 2
                  && t.players[t.bigBlind].currentBet == s.minBet
                  && (forall i :: 0 <= i < n && i != t.smallBlind && i != t.bigBlind ==> t.players[i].currentBet == 0)
                  && t.current == (t.bigBlind + 1) % n)
            && (n == 1 ==> t.pot == 1 && t.current == s.current)
  {
    var n := |s.players|;
    if n >= 2 {
      ModSucc(DealtState(s, shuffled).smallBlind, n);
    }
  }

  lemma {:induction false} OnesSum(n: nat)
    ensures Sum(seq(n, i => 1)) == n
  {
    if n > 0 {
      assert seq(n, i => 1)[..n - 1] == seq(n - 1, i => 1);
      OnesSum(n - 1);
    }
  }

  /**
   * When every stack covers its charge, starting a hand only moves chips
   * from the stacks into the (emptied) pot. A short stack pays less than the
   * pot is credited, so the total then grows by the shortfall.
   */
  lemma NewHandChips(s: State, shuffled: seq<Card>)
    requires ValidState(s)
    ensures var t := NewHand(s, shuffled);
            TotalChips(t.players) + t.pot >= TotalChips(s.players)
    ensures var t := NewHand(s, shuffled);
            (forall i :: 0 <= i < |s.players| ==> s.players[i].chips >= Charge(t, i)) ==>
              TotalChips(t.players) + t.pot == TotalChips(s.players)
  {
    var t := NewHand(s, shuffled);
    NewHandCharges(s, shuffled);
    ChargedTotal(s.players, t.players, t.contributions);
  }

  /** Seat by seat, each new stack is the old one less at most the charge. */
  lemma {:induction false} ChargedTotal(before: seq<Player>, after: seq<Player>, charges: seq<nat>)
    requires |before| == |after| == |charges|
    requires forall i :: 0 <= i < |before| ==> after[i].chips == SaturatingSub(before[i].chips, charges[i])
    ensures TotalChips(after) + Sum(charges) >= TotalChips(before)
    ensures (forall i :: 0 <= i < |before| ==> before[i].chips >= charges[i]) ==>
              TotalChips(after) + Sum(charges) == TotalChips(before)
    decreases |before|
  {
    if |before| > 0 {
      var m := |before| - 1;
      ChargedTotal(before[..m], after[..m], charges[..m]);
    }
  }

  // ---------------------------------------------------------------------
  // next_round

  /** Every `current_bet` zeroed (src/game.rs:437-439). */
  function ZeroBets(players: seq<Player>): (r: seq<Player>)
    ensures |r| == |players|
  {
    seq(|players|, i requires 0 <= i < |players| => players[i].(currentBet := 0))
  }

  /** The board dealing of src/game.rs:442-496 for the round just entered, on deck `deck`. */
  function BoardOnEntry(round: Round, deck: seq<Card>, board: seq<Card>): (seq<Card>, seq<Card>)
  {
    match round
    case Flop => DrawOnto(deck, [], 3)
    case Turn =>
      var flop := if |board| < 3 then DrawOnto(deck, [], 3) else (deck, board);
      DrawOnto(flop.0, flop.1, 1)
    case River =>
      var turn := if |board| < 4 then DrawOnto(deck, board, 4 - |board|) else (deck, board);
      DrawOnto(turn.0, turn.1, 1)
    case Showdown =>
      if |board| < 5 then DrawOnto(deck, board, 5 - |board|) else (deck, board)
    case PreFlop => (deck, board)
  }

  /** The round after `s.round` entered on `deck`: bets zeroed, board dealt, per-round records reset. */
  function EnterRound(s: State, deck: seq<Card>): (t: State)
    ensures |t.players| == |s.players|
  {
    var round := RoundAfter(s.round);
    var dealt := BoardOnEntry(round, deck, s.board);
    s.(players := ZeroBets(s.players), deck := dealt.0, board := dealt.1, round := round,
       actionCount := 0, acted := [], aggressor := None, complete := false,
       contributions := Zeros(|s.players|))
  }

  /**
   * `next_round` (src/game.rs:394-523). From Showdown it starts a new hand;
   * otherwise it moves one round on, zeroes the bets, deals the board and
   * resets the per-round records. `shuffled` is the order of any fresh deck.
   */
  function NextRoundState(s: State, shuffled: seq<Card>): State
    requires ValidState(s)
  {
    var deck := Refilled(s.deck, shuffled);
    if s.round == Showdown then NewHand(s.(deck := deck), shuffled)
    else
      var t := EnterRound(s, deck);
      if t.round != Showdown then t.(current := NextActive(t.players, s.smallBlind % |t.players|)) else t
  }

  /**
   * Within a hand `next_round` advances exactly one round, keeps the pot,
   * every stack, hand and fold flag, zeroes every bet and contribution and
   * clears the acted list, the aggressor and the action counter.
   */
  lemma NextRoundResets(s: State, shuffled: seq<Card>)
    requires ValidState(s) && s.round != Showdown
    ensures var t := NextRoundState(s, shuffled);
            var n := |s.players|;
            && t.round == RoundAfter(s.round) && RoundIndex(t.round) == RoundIndex(s.round) + 1
            && |t.players| == n
            && (forall i :: 0 <= i < n ==>
                  && t.players[i].currentBet == 0
                  && t.players[i].chips == s.players[i].chips
                  && t.players[i].folded == s.players[i].folded
                  && t.players[i].hand == s.players[i].hand)
            && t.pot == s.pot && TotalChips(t.players) == TotalChips(s.players)
            && t.contributions == Zeros(n) && Sum(t.contributions) == 0
            && t.acted == [] && t.aggressor == None && t.actionCount == 0 && !t.complete
            && t.bbActed == s.bbActed && t.minBet == s.minBet
            && t.dealer == s.dealer && t.smallBlind == s.smallBlind && t.bigBlind == s.bigBlind
  {
    var t := NextRoundState(s, shuffled);
    TotalChipsSame(t.players, s.players);
    SumZeros(|s.players|);
    RoundOrder(s.round);
  }

  /**
   * After `next_round` within a hand the state is still well formed, and the
   * turn is at the first active seat after the small blind, except on
   * entering Showdown, where it stays.
   */
  lemma NextRoundTurn(s: State, shuffled: seq<Card>)
    requires ValidState(s) && s.round != Showdown
    ensures var t := NextRoundState(s, shuffled);
            && ValidState(t) && t.round == RoundAfter(s.round)
            && (t.round != Showdown ==> t.current == NextActive(s.players, s.smallBlind))
            && (t.round == Showdown ==> t.current == s.current)
  {
    var n := |s.players|;
    var e := EnterRound(s, Refilled(s.deck, shuffled));
    assert s.smallBlind % n == s.smallBlind;
    NextActiveSameActivity(e.players, s.players, s.smallBlind);
  }

  /** `find_next_active_player` depends only on who is active. */
  lemma NextActiveSameActivity(a: seq<Player>, b: seq<Player>, current: nat)
    requires |a| == |b| >= 1 && current < |a|
    requires forall i :: 0 <= i < |a| ==> (IsActive(a[i]) <==> IsActive(b[i]))
    ensures NextActive(a, current) == NextActive(b, current)
  {
    SuccIsMod(current, |a|);
    ScanSameActivity(a, b, Succ(current, |a|), |a|, current);
  }

  lemma {:induction false} ScanSameActivity(a: seq<Player>, b: seq<Player>, idx: nat, remaining: nat, fallback: nat)
    requires |a| == |b| && idx < |a| && remaining <= |a|
    requires forall i :: 0 <= i < |a| ==> (IsActive(a[i]) <==> IsActive(b[i]))
    ensures ScanActive(a, idx, remaining, fallback) == ScanActive(b, idx, remaining, fallback)
    decreases remaining
  {
    if !IsActive(a[idx]) && remaining > 1 {
      ScanSameActivity(a, b, Succ(idx, |a|), remaining - 1, fallback);
    }
  }

  /**
   * The board a round is entered with: 3 cards on the flop, one more than
   * the (completed) flop on the turn, one more than the (completed) turn on
   * the river, topped up to 5 on the showdown, when the deck holds at least
   * five cards. Cards already on a completed flop stay.
   */
  lemma BoardOnEntrySize(round: Round, deck: seq<Card>, board: seq<Card>)
    requires |deck| >= 5
    ensures var r := BoardOnEntry(round, deck, board).1;
            var b := |board|;
            && (round == Flop ==> |r| == 3)
            && (round == Turn ==> |r| == (if b < 3 then 3 else b) + 1)
            && (round == River ==> |r| == (if b < 4 then 4 else b) + 1)
            && (round == Showdown ==> |r| == if b < 5 then 5 else b)
            && (round != Flop && b >= 3 ==> r[..b] == board)
  {
    var b := |board|;
    match round
    case Flop =>
      DrawnCards(deck, [], 3);
    case Turn =>
      var flop := if b < 3 then DrawOnto(deck, [], 3) else (deck, board);
      DrawnCards(deck, [], 3);
      DrawnCards(flop.0, flop.1, 1);
      assert |flop.0| >= 2;
    case River =>
      var turn := if b < 4 then DrawOnto(deck, board, 4 - b) else (deck, board);
      if b < 4 {
        DrawnCards(deck, board, 4 - b);
      }
      assert |turn.0| >= 1 && |turn.1| >= b && turn.1[..b] == board;
      DrawnCards(turn.0, turn.1, 1);
      var r := DrawOnto(turn.0, turn.1, 1).1;
      assert r[..|turn.1|] == turn.1;
      assert r[..b] == turn.1[..b];
    case Showdown =>
      if b < 5 {
        DrawnCards(deck, board, 5 - b);
      }
    case PreFlop =>
  }

  /** `next_round` within a hand: the board sizes of `BoardOnEntrySize`, since the refill leaves five cards or more. */
  lemma NextRoundBoard(s: State, shuffled: seq<Card>)
    requires ValidState(s) && s.round != Showdown && IsShuffledDeck(shuffled)
    ensures var t := NextRoundState(s, shuffled);
            var b := |s.board|;
            && (t.round == Flop ==> |t.board| == 3)
            && (t.round == Turn ==> |t.board| == (if b < 3 then 3 else b) + 1)
            && (t.round == River ==> |t.board| == (if b < 4 then 4 else b) + 1)
            && (t.round == Showdown ==> |t.board| == if b < 5 then 5 else b)
            && (t.round != Flop && b >= 3 ==> t.board[..b] == s.board)
  {
    ShuffledDeckSize(shuffled);
    BoardOnEntrySize(RoundAfter(s.round), Refilled(s.deck, shuffled), s.board);
  }

  /** From Showdown, `next_round` is a new hand. */
  lemma NextRoundFromShowdown(s: State, shuffled: seq<Card>)
    requires ValidState(s) && s.round == Showdown
    ensures NextRoundState(s, shuffled) == NewHand(s, shuffled)
    ensures NextRoundState(s, shuffled).round == PreFlop
  {
  }

  /** Four calls of `next_round` from a new hand: a board of 3, 4, 5, then still 5 cards. */
  lemma BoardThroughHand(s: State, shuffled: seq<Card>)
    requires ValidState(s) && s.round == PreFlop && s.board == [] && IsShuffledDeck(shuffled)
    ensures var flop := NextRoundState(s, shuffled);
            var turn := NextRoundState(flop, shuffled);
            var river := NextRoundState(turn, shuffled);
            var showdown := NextRoundState(river, shuffled);
            && flop.round == Flop && |flop.board| == 3
            && turn.round == Turn && |turn.board| == 4
            && river.round == River && |river.board| == 5
            && showdown.round == Showdown && |showdown.board| == 5
  {
    var flop := NextRoundState(s, shuffled);
    NextRoundTurn(s, shuffled);
    NextRoundBoard(s, shuffled);
    var turn := NextRoundState(flop, shuffled);
    NextRoundTurn(flop, shuffled);
    NextRoundBoard(flop, shuffled);
    var river := NextRoundState(turn, shuffled);
    NextRoundTurn(turn, shuffled);
    NextRoundBoard(turn, shuffled);
    NextRoundBoard(river, shuffled);
  }

  // ---------------------------------------------------------------------
  // deal_community_cards

  /** `deal_community_cards` (src/game.rs:337-392). */
  function DealBoard(s: State, shuffled: seq<Card>): State
  {
    var deck := Refilled(s.deck, shuffled);
    var dealt := match s.round
      case Flop => DrawOnto(deck, s.board, 3)
      case Turn => DrawOnto(deck, s.board, 1)
      case River => DrawOnto(deck, s.board, 1)
      case _ => (deck, s.board);
    var expected := ExpectedBoard(s.round);
    var forced := if s.round != PreFlop && |dealt.1| != expected then DrawOnto(dealt.0, [], expected) else dealt;
    s.(deck := forced.0, board := forced.1)
  }

  /**
   * `deal_community_cards` changes only the deck and the board. In Showdown it
   * always leaves the board empty; on the flop, turn and river it leaves
   * exactly 3, 4 or 5 cards once the (refilled) deck holds at least six;
   * pre-flop it deals nothing.
   */
  lemma DealBoardSizes(s: State, shuffled: seq<Card>)
    ensures var t := DealBoard(s, shuffled);
            && t == s.(deck := t.deck, board := t.board)
            && (s.round == Showdown ==> t.board == [])
            && (s.round == PreFlop ==> t.board == s.board)
            && (s.round in {Flop, Turn, River} && |Refilled(s.deck, shuffled)| >= 6 ==>
                  |t.board| == ExpectedBoard(s.round))
  {
    var deck := Refilled(s.deck, shuffled);
    var k := match s.round case Flop => 3 case Turn => 1 case River => 1 case _ => 0;
    DrawnCards(deck, s.board, k);
    var dealt := DrawOnto(deck, s.board, k);
    DrawnCards(dealt.0, [], ExpectedBoard(s.round));
  }

  /** A board already at its expected size only grows by the round's cards: no reshuffle of the board. */
  lemma DealBoardOnTrack(s: State, shuffled: seq<Card>)
    requires s.round == Turn && |s.board| == 3 && |s.deck| >= 5
    ensures var t := DealBoard(s, shuffled);
            t.board == s.board + [s.deck[|s.deck| - 1]] && t.deck == s.deck[..|s.deck| - 1]
  {
    var t := DealBoard(s, shuffled);
    var d := DrawOnto(s.deck, s.board, 1);
    assert d.1 == d.1[..3] + [d.1[3]];
  }
}
