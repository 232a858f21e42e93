/**
 * The value-level vocabulary of the betting engine in src/game.rs: players,
 * rounds and actions, the table-wide quantities `perform_action` and
 * `next_player` compute from the players (highest bet, active players), the
 * circular seat scan `find_next_active_player`, and the pure decision part of
 * `perform_action` (which action is really taken and how many chips move).
 */
module Betting {
  import opened Wrappers
  import opened Cards

  datatype BotDifficulty = Easy | Medium | Hard

  /** `struct Player` (src/game.rs:93-101); `u32` fields are naturals. */
  datatype Player = Player(
    name: string,
    hand: seq<Card>,
    chips: nat,
    currentBet: nat,
    folded: bool,
    isBot: bool,
    difficulty: BotDifficulty)

  datatype Round = PreFlop | Flop | Turn | River | Showdown

  datatype GameAction = Fold | Call | Raise(amount: nat) | Check

  /** A player who can still act: not folded and not all-in. */
  predicate IsActive(p: Player)
  {
    !p.folded && p.chips > 0
  }

  function Min(a: nat, b: nat): nat
  {
    if a <= b then a else b
  }

  /** `chips.saturating_sub(x)` on `u32`. */
  function SaturatingSub(a: nat, b: nat): nat
  {
    if a >= b then a - b else 0
  }

  /**
   * Two saturating charges on one stack take what one charge of their total
   * would: a blind taken from an anted stack leaves what charging ante and
   * blind together leaves.
   */
  lemma SaturatingSubChain(c: nat, x: nat, y: nat)
    ensures SaturatingSub(SaturatingSub(c, x), y) == SaturatingSub(c, x + y)
    ensures SaturatingSub(c, x + y) <= SaturatingSub(c, x) <= c
  {
  }

  /** `players.iter().map(|p| p.current_bet).max().unwrap_or(0)`. */
  function HighestBet(players: seq<Player>): (h: nat)
    ensures forall i :: 0 <= i < |players| ==> players[i].currentBet <= h
    ensures |players| == 0 ==> h == 0
    ensures |players| > 0 ==> exists i :: 0 <= i < |players| && players[i].currentBet == h
  {
    if |players| == 0 then 0
    else
      var rest := HighestBet(players[..|players| - 1]);
      var last := players[|players| - 1].currentBet;
      if rest >= last then rest else last
  }

  /** Indices of the active players. */
  ghost function ActiveSeats(players: seq<Player>): set<nat>
  {
    set i | 0 <= i < |players| && IsActive(players[i])
  }

  /** `players.iter().filter(|p| !p.folded && p.chips > 0).count()`. */
  function CountActive(players: seq<Player>): (c: nat)
    ensures c == |ActiveSeats(players)|
    ensures c <= |players|
  {
    if |players| == 0 then
      assert ActiveSeats(players) == {};
      0
    else
      var m := |players| - 1;
      var rest := CountActive(players[..m]);
      assert ActiveSeats(players) == ActiveSeats(players[..m]) + (if IsActive(players[m]) then {m} else {});
      assert m !in ActiveSeats(players[..m]);
      rest + (if IsActive(players[m]) then 1 else 0)
  }

  /** With at least two active players, every seat has an active player other than itself. */
  lemma AnotherActive(players: seq<Player>, k: nat) returns (j: nat)
    requires CountActive(players) >= 2
    ensures j < |players| && j != k && IsActive(players[j])
  {
    var s := ActiveSeats(players);
    assert |s - {k}| >= 1;
    var x :| x in s - {k};
    j := x;
  }

  /** Sum of a sequence of naturals. */
  function Sum(s: seq<nat>): nat
  {
    if |s| == 0 then 0 else Sum(s[..|s| - 1]) + s[|s| - 1]
  }

  /** `vec![0; n]`. */
  function Zeros(n: nat): (z: seq<nat>)
    ensures |z| == n && forall i :: 0 <= i < n ==> z[i] == 0
  {
    seq(n, i => 0)
  }

  lemma {:induction false} SumZeros(n: nat)
    ensures Sum(Zeros(n)) == 0
  {
    if n > 0 {
      assert Zeros(n)[..n - 1] == Zeros(n - 1);
      SumZeros(n - 1);
    }
  }

  /** Replacing one entry changes the sum by exactly the difference. */
  lemma {:induction false} SumUpdate(s: seq<nat>, i: nat, v: nat)
    requires i < |s|
    ensures Sum(s[i := v]) + s[i] == Sum(s) + v
    decreases |s|
  {
    var m := |s| - 1;
    var t := s[i := v];
    if i < m {
      assert t[..m] == s[..m][i := v];
      SumUpdate(s[..m], i, v);
    } else {
      assert t[..m] == s[..m];
    }
  }

  /** The chips the players hold, all stacks together. */
  function TotalChips(players: seq<Player>): nat
  {
    if |players| == 0 then 0
    else TotalChips(players[..|players| - 1]) + players[|players| - 1].chips
  }

  /** Replacing one player changes the total stack by the change in that player's stack. */
  lemma {:induction false} TotalChipsUpdate(players: seq<Player>, i: nat, p: Player)
    requires i < |players|
    ensures TotalChips(players[i := p]) + players[i].chips == TotalChips(players) + p.chips
    decreases |players|
  {
    var m := |players| - 1;
    var t := players[i := p];
    if i < m {
      assert t[..m] == players[..m][i := p];
      TotalChipsUpdate(players[..m], i, p);
    } else {
      assert t[..m] == players[..m];
    }
  }

  /** No single stack exceeds the table's total. */
  lemma {:induction false} StackWithinTotal(players: seq<Player>, i: nat)
    requires i < |players|
    ensures players[i].chips <= TotalChips(players)
    decreases |players|
  {
    var m := |players| - 1;
    if i < m {
      assert players[..m][i] == players[i];
      StackWithinTotal(players[..m], i);
    }
  }

  /** Stacks that agree seat by seat have the same total. */
  lemma {:induction false} TotalChipsSame(a: seq<Player>, b: seq<Player>)
    requires |a| == |b|
    requires forall i :: 0 <= i < |a| ==> a[i].chips == b[i].chips
    ensures TotalChips(a) == TotalChips(b)
    decreases |a|
  {
    if |a| > 0 {
      TotalChipsSame(a[..|a| - 1], b[..|b| - 1]);
    }
  }

  /** Taking `k` chips from every stack that holds at least `k` lowers the total by `k` per seat. */
  lemma {:induction false} TotalChipsEach(a: seq<Player>, b: seq<Player>, k: nat)
    requires |a| == |b|
    requires forall i :: 0 <= i < |a| ==> a[i].chips == b[i].chips + k
    ensures TotalChips(a) == TotalChips(b) + k * |a|
    decreases |a|
  {
    if |a| > 0 {
      TotalChipsEach(a[..|a| - 1], b[..|b| - 1], k);
    }
  }

  // ---------------------------------------------------------------------
  // Circular seats

  /** `(i + 1) % n` for a seat `i < n`. */
  function Succ(i: nat, n: nat): (j: nat)
    requires i < n
    ensures j < n
  {
    if i + 1 < n then i + 1 else 0
  }

  lemma SuccIsMod(i: nat, n: nat)
    requires i < n
    ensures (i + 1) % n == Succ(i, n)
  {
    if i + 1 == n {
      assert (i + 1) % n == 0;
    }
  }

  /** How many steps forward from seat `c` reach seat `i`, going round the table (1..n; `c` itself is n). */
  function Dist(c: nat, i: nat, n: nat): (d: nat)
    requires c < n && i < n
    ensures 1 <= d <= n
  {
    if i > c then i - c else i + n - c
  }

  /** The scan loop of `find_next_active_player`: examines `remaining` seats from `idx` on. */
  function ScanActive(players: seq<Player>, idx: nat, remaining: nat, fallback: nat): (r: nat)
    requires idx < |players| && remaining <= |players|
    ensures r == fallback || (r < |players| && IsActive(players[r]))
    decreases remaining
  {
    if IsActive(players[idx]) then idx
    else if remaining <= 1 then fallback
    else ScanActive(players, Succ(idx, |players|), remaining - 1, fallback)
  }

  /**
   * `find_next_active_player(current_idx)`: the first active seat after
   * `current_idx` going round the table, `current_idx` itself examined last;
   * `current_idx` when no seat is active.
   */
  function NextActive(players: seq<Player>, current: nat): (r: nat)
    requires |players| >= 1
    ensures r == current || (r < |players| && IsActive(players[r]))
    ensures current < |players| ==> r < |players|
    ensures current < |players| ==> forall i :: 0 <= i < |players| && IsActive(players[i]) ==>
              IsActive(players[r]) && Dist(current, r, |players|) <= Dist(current, i, |players|)
  {
    var n := |players|;
    var start := (current + 1) % n;
    if current < n then
      SuccIsMod(current, n);
      ScanFinds(players, current, 1);
      ScanActive(players, start, n, current)
    else
      ScanActive(players, start, n, current)
  }

  /**
   * Scanning from the seat `k` steps after `c`, with every seat closer than
   * `k` inactive, finds the closest active seat.
   */
  lemma {:induction false} ScanFinds(players: seq<Player>, c: nat, k: nat)
    requires c < |players| && 1 <= k <= |players|
    requires forall i :: 0 <= i < |players| && Dist(c, i, |players|) < k ==> !IsActive(players[i])
    ensures var n := |players|;
            var idx := if c + k < n then c + k else c + k - n;
            var r := ScanActive(players, idx, n - k + 1, c);
            r < n &&
            forall i :: 0 <= i < n && IsActive(players[i]) ==> IsActive(players[r]) && Dist(c, r, n) <= Dist(c, i, n)
    decreases |players| - k
  {
    var n := |players|;
    var idx := if c + k < n then c + k else c + k - n;
    assert Dist(c, idx, n) == k;
    if !IsActive(players[idx]) && n - k + 1 > 1 {
      assert Succ(idx, n) == if c + k + 1 < n then c + k + 1 else c + k + 1 - n;
      ScanFinds(players, c, k + 1);
    }
  }

  /** With at least one active seat, `find_next_active_player` lands on one. */
  lemma NextActiveIsActive(players: seq<Player>, current: nat, j: nat)
    requires current < |players| && j < |players| && IsActive(players[j])
    ensures IsActive(players[NextActive(players, current)])
  {
  }

  // ---------------------------------------------------------------------
  // The decision part of `perform_action`

  /**
   * What `perform_action` really does for a requested action: the action taken,
   * the reported total bet, the chips moved from the actor to the pot, and
   * whether the action re-opens the betting (a successful bet or raise).
   */
  datatype Outcome = Outcome(taken: GameAction, reported: Option<nat>, paid: nat, aggression: bool)

  /**
   * The match of src/game.rs:697-833 for an actor whose round bet is `bet`
   * and stack `chips`, facing the table's highest bet `highest`.
   */
  function ResolveAction(action: GameAction, bet: nat, chips: nat, highest: nat, minBet: nat): (o: Outcome)
    requires bet <= highest
    // every transfer is capped at the actor's stack
    ensures o.paid <= chips
  {
    match action
    case Fold => Outcome(Fold, None, 0, false)
    case Call =>
      if highest <= bet then Outcome(Check, Some(bet), 0, false)
      else
        var paid := Min(highest - bet, chips);
        Outcome(Call, Some(bet + paid), paid, false)
    case Raise(amount) =>
      if highest == 0 then
        var actualBet := Min(amount, chips);
        if actualBet < minBet then Outcome(Check, Some(0), 0, false)
        else Outcome(Raise(actualBet), Some(actualBet), actualBet, true)
      else if bet + amount < highest + minBet then
        if highest > bet then
          var paid := Min(highest - bet, chips);
          Outcome(Call, Some(bet + paid), paid, false)
        else Outcome(Check, Some(bet), 0, false)
      else
        var actualRaise := Min(amount, chips);
        Outcome(Raise(actualRaise), Some(bet + actualRaise), actualRaise, true)
    case Check =>
      if highest > bet then
        var paid := Min(highest - bet, chips);
        Outcome(Call, Some(bet + paid), paid, false)
      else Outcome(Check, Some(bet), 0, false)
  }

  /**
   * What `ResolveAction` decides: every request but a fold is answered by
   * the actor's new total bet; only a successful bet or raise is aggression;
   * a check moves nothing and happens only when nothing is owed; a call pays
   * what is owed, capped at the stack; and the legality downgrades of each
   * request.
   */
  lemma ResolveActionCases(action: GameAction, bet: nat, chips: nat, highest: nat, minBet: nat)
    requires bet <= highest
    ensures var o := ResolveAction(action, bet, chips, highest, minBet);
            && (o.taken.Fold? <==> action.Fold?)
            && (o.taken.Fold? ==> o.paid == 0 && o.reported == None)
            && (!o.taken.Fold? ==> o.reported == Some(bet + o.paid))
            && (o.aggression <==> o.taken.Raise?)
            && (o.taken.Raise? ==> o.taken.amount == o.paid)
            && (o.taken.Check? ==> o.paid == 0 && bet == highest)
            && (o.taken.Call? ==> bet < highest && o.paid == Min(highest - bet, chips))
            && (o.taken.Call? ==> bet + o.paid == highest || o.paid == chips)
            && (action.Call? || action.Check? ==> o.taken == if bet < highest then Call else Check)
            && (action.Raise? && highest == 0 ==>
                  o.taken == if Min(action.amount, chips) < minBet then Check else Raise(Min(action.amount, chips)))
            && (action.Raise? && highest > 0 && bet + action.amount < highest + minBet ==>
                  o.taken == if bet < highest then Call else Check)
            && (action.Raise? && highest > 0 && bet + action.amount >= highest + minBet ==>
                  o.taken == Raise(Min(action.amount, chips)))
  {
  }

  // ---------------------------------------------------------------------
  // Rounds

  /** The round `next_round` moves to; from Showdown a new hand starts at PreFlop. */
  function RoundAfter(r: Round): Round
  {
    match r
    case PreFlop => Flop
    case Flop => Turn
    case Turn => River
    case River => Showdown
    case Showdown => PreFlop
  }

  /** Position of a round in the fixed order PreFlop, Flop, Turn, River, Showdown. */
  function RoundIndex(r: Round): (k: nat)
    ensures k < 5
  {
    match r
    case PreFlop => 0 case Flop => 1 case Turn => 2 case River => 3 case Showdown => 4
  }

  /** Each betting round advances exactly one step in the fixed order. */
  lemma RoundOrder(r: Round)
    ensures r != Showdown ==> RoundIndex(RoundAfter(r)) == RoundIndex(r) + 1
    ensures r == Showdown ==> RoundAfter(r) == PreFlop
  {
  }

  /** Community cards the board must hold once a round is dealt (`expected_count`, src/game.rs:372-377). */
  function ExpectedBoard(r: Round): nat
  {
    match r
    case Flop => 3
    case Turn => 4
    case River => 5
    case _ => 0
  }
}
