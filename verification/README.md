# Texas Hold'em table engine (p_kr) in Dafny

This project models the game engine of a terminal Texas Hold'em game: the
`Game` struct of `src/game.rs` with its hand lifecycle, and the seat labels
of `src/util.rs`. The engine covers these steps:

- it seats humans and bots;
- it builds the 52-card deck;
- it starts a hand (position rotation, hole cards, an ante of one chip from every seat, the blinds);
- it moves through pre-flop, flop, turn, river and showdown, dealing the board;
- it decides whose turn it is and when a betting round is over;
- it applies fold, call, check and raise with their legality downgrades;
- it picks the showdown winner and pays them the pot.

Layout:

- `Game` is a class holding the source's fields. `Snapshot()` collects them into the value `Table.State`.
- Each method that changes the game is proved to move `Snapshot()` exactly as a state function says (`Table.NewHand`, `Table.NextRoundState`, `Table.DealBoard`, `Turns.NextPlayerState`, `Actions.ApplyAction`). The lemmas beside those functions state what the source promises.
- The loops over seats and cards are methods with loop invariants: the two-pass deal, the ante, the bet reset, the deck pops, the circular seat scan, the two walks after the last aggressor, and the showdown selection.

Randomness and other inputs:

- The random dealer seat of `Game::new` is a constructor parameter.
- The order `shuffle_deck` gives a fresh deck is the parameter `shuffled`. It must be a rearrangement of the 52 cards.
- The hand evaluator of the rs_poker library is the function parameter `eval`.
- The action string a bot produces is an input to `BotParse.ParseBotAction`.

Modules, one per file:

| file | module | models |
|---|---|---|
| wrappers.dfy | Wrappers | Option and Result |
| cards.dfy | Cards | cards and `create_deck` |
| decimal.dfy | Decimal | the decimal rendering `format!` gives seat numbers and amounts |
| betting.dfy | Betting | players, rounds, actions, the seat scan, the decision part of `perform_action` |
| state.dfy | Table | the game as a value; `deal_cards`, `next_round`, `deal_community_cards` |
| turns.dfy | Turns | `next_player` |
| actions.dfy | Actions | `perform_action` on a state; a betting round as a sequence of moves |
| showdown.dfy | Showdown | the winner selection of `determine_winner` |
| botparse.dfy | BotParse | the parse half of `get_bot_action` |
| positions.dfy | Positions | `get_player_position` |
| game.dfy | PokerGame | `struct Game` and its methods |
| findings.dfy | Findings | the `next_player` walk as written, which can fail to stop |

## Model

| member | source | states |
|---|---|---|
| Cards.DeckLayout | src/game.rs:235-253 | The fresh deck has 52 cards, suit-major: the card of suit index s and rank index r sits at 13·s + r. Suits run Hearts, Diamonds, Clubs, Spades; ranks run Two to Ace. |
| Cards.DeckIndexInverse | src/game.rs:235-253 | Every card occurs in the fresh deck exactly at `DeckIndex(c)`, and each of the 52 positions holds the card whose index is that position. |
| Cards.DeckDistinct | src/game.rs:235-253 | The 52 cards of a fresh deck are pairwise distinct. |
| Cards.ShuffledDeckSize | src/game.rs:255-258 | A deck that is a rearrangement of the fresh deck still has 52 cards. |
| Cards.CreateDeckIsShuffled | src/game.rs:255-258 | The fresh deck itself is one of the orders a shuffle may produce, so the shuffle constraint can be met. |
| Decimal.ToDecimal | src/game.rs:181 | `format!("{}", x)` is a nonempty string of decimal digits with no leading zero. |
| Decimal.ToDecimalRoundTrip | src/game.rs:181 | Reading the rendered digits back gives the number. |
| Betting.SaturatingSubChain | src/game.rs:309-327 | A blind taken with `saturating_sub` from an anted stack leaves what one charge of ante plus blind would leave, and each charge can only lower the stack. |
| Betting.HighestBet | src/game.rs:671 | The highest `current_bet` at the table bounds every bet and is some player's bet; it is 0 for an empty table. |
| Betting.CountActive | src/game.rs:547 | The number of players neither folded nor all-in is the size of the set of active seats. |
| Betting.NextActive | src/game.rs:525-543 | `find_next_active_player` returns an active seat nearest after `current` going round the table; when no seat is active it returns `current`. |
| Betting.NextActiveIsActive | src/game.rs:525-543 | When some seat is active, `find_next_active_player` returns an active seat. |
| Betting.ScanFinds | src/game.rs:530-541 | The scan, started k seats on with every nearer seat inactive, finds the nearest active seat. |
| Betting.ResolveAction | src/game.rs:697-833 | A requested action never moves more chips than the actor holds. |
| Betting.ResolveActionCases | src/game.rs:697-833 | A fold folds and reports nothing. Anything else reports the new total bet. Only a successful bet or raise is aggression, and it pays exactly its amount. A check pays nothing and happens only when nothing is owed. A call pays what is owed, capped at the stack, so it matches or goes all-in. Also states each downgrade: call/check by what is owed, a short opening bet to a check, a short raise to a call or check, anything else a raise capped at the stack. |
| Betting.RoundOrder | src/game.rs:402-412 | `next_round` advances PreFlop, Flop, Turn, River, Showdown one step at a time; from Showdown it starts a new hand at PreFlop. |
| Table.PopOrderCards | src/game.rs:297-301 | Popping every card of a deck returns each card once. |
| Table.DrawnCards | src/game.rs:448-452 | Up to k pops lay the last min(k, \|deck\|) cards on the board, in pop order, and leave the rest of the deck. |
| Table.DrawKeepsCards | src/game.rs:448-452 | Drawing creates and loses no card: the deck and the board together keep their multiset. |
| Table.DealtPlayers | src/game.rs:281-313 | After the deal and the ante, every seat keeps its name, kind and difficulty, is unfolded with a zero bet, and has one chip less, or stays at 0 when it had none. When the deck holds at least 2n cards, seat i holds the (i+1)-th and (n+i+1)-th cards from the end of the deck. |
| Table.NewHandValid | src/game.rs:260-335 | `deal_cards` leaves the game well formed: every index is a seat, there is one contribution per seat, and the acted list has no duplicates. |
| Table.NewHandFrame | src/game.rs:315-334 | The blinds change only stacks, bets, the pot, the contributions and the turn. |
| Table.NewHandDeal | src/game.rs:260-302 | A new hand rotates the button, the small blind and the big blind one seat on. Seat i holds exactly `[shuffled[51-i], shuffled[51-(n+i)]]`, unfolded, with its name kept. 52 − 2n cards stay in the deck. The board is empty, the round is PreFlop, and every per-round record is cleared. |
| Table.NewHandCharges | src/game.rs:304-334 | Every seat is charged the ante plus any blind. The stack pays what it can; the contribution and the pot record the full charge, so the pot equals the sum of the contributions. |
| Table.NewHandBlindBets | src/game.rs:315-334 | With two or more players, the small blind bets minBet/2 and the big blind minBet; nobody else has a bet; the pot is n + minBet/2 + minBet; the turn is at the seat after the big blind. A lone player only antes. |
| Table.NewHandChips | src/game.rs:304-334 | The new stacks plus the new pot are at least the old stacks; any old pot not yet paid out is discarded, since `deal_cards` empties the pot first. When every stack covers its charge, the new stacks plus the new pot equal the old stacks; a short stack pays less than the pot is credited. |
| Table.NextRoundResets | src/game.rs:394-509 | Within a hand, `next_round` advances exactly one round. It keeps the pot and every stack, hand and fold flag. It zeroes every bet and contribution and clears the acted list, the aggressor and the action counter. |
| Table.NextRoundTurn | src/game.rs:516-522 | After `next_round` within a hand the game is well formed. The turn is at the first active seat after the small blind, except on entering Showdown, where it stays. |
| Table.NextActiveSameActivity | src/game.rs:525-543 | `find_next_active_player` depends only on which seats are active. |
| Table.BoardOnEntrySize | src/game.rs:442-496 | On entering a round the board holds 3 cards on the flop, one more than the completed flop on the turn, one more than the completed turn on the river, and at least 5 on the showdown. Cards already on a completed flop stay. |
| Table.NextRoundBoard | src/game.rs:394-496 | `next_round` within a hand gives those board sizes, because the refill leaves at least five cards. |
| Table.NextRoundFromShowdown | src/game.rs:407-411 | From Showdown, `next_round` is `deal_cards`: a new hand at PreFlop. |
| Table.BoardThroughHand | src/game.rs:394-523 | Four calls of `next_round` from a fresh hand leave a board of 3, 4, 5 and 5 cards. |
| Table.DealBoardSizes | src/game.rs:337-392 | `deal_community_cards` changes only the deck and the board. In Showdown it leaves the board empty; pre-flop it deals nothing; on the flop, turn and river it leaves exactly 3, 4 or 5 cards once the refilled deck holds at least six. |
| Table.DealBoardOnTrack | src/game.rs:353-358 | On the turn, with the flop on the board, it only adds the turn card on top of the flop. |
| Turns.FirstToAct | src/game.rs:633-657 | The seat the walk after the aggressor is meant to find: the nearest seat after the aggressor that still needs to act, or None when nobody but the aggressor does. |
| Turns.FirstToActUnique | src/game.rs:633-657 | That seat is unique: the characterisation determines the result. |
| Turns.WalkStep | src/game.rs:584-597 | A step of `find_next_active_player` measured from the aggressor either moves further on without skipping an active seat, or wraps round when no active seat lies further on. |
| Turns.NextPlayerValid | src/game.rs:545-664 | `next_player` keeps the game well formed. |
| Turns.NextPlayerFalseOnlyInShowdown | src/game.rs:545-664 | `next_player` answers false only in Showdown, and then changes nothing but possibly the turn. |
| Turns.NextPlayerLoneActive | src/game.rs:546-560 | With at most one active player, the round jumps to Showdown, or the hand ends if it is already there. |
| Turns.NextPlayerForced | src/game.rs:571-622 | After three actions per active player the round is over, whatever else holds. |
| Turns.NextPlayerNoAggressor | src/game.rs:657-660 | With no aggressor and the round not over, the turn passes to the next active seat and nothing else changes but the big blind's flag. |
| Turns.NextPlayerAfterAggression | src/game.rs:633-657 | After a bet or raise, with the round not over, the turn goes to the nearest seat after the aggressor that still needs to act. When there is none, the round finishes with the turn at the aggressor. |
| Turns.BigBlindFlagAfterCheck | src/game.rs:573-630 | Pre-flop, with no raise and the big blind not yet recorded, the call that records the big blind cannot end the round, so one more turn is played. |
| Actions.ActionMovesChips | src/game.rs:697-833 | An action moves chips only from the actor to the pot and the actor's contribution, never more than the stack; every other seat stays. Stacks plus pot are conserved. |
| Actions.ActionBookkeeping | src/game.rs:683-812 | Every action counts once and records the actor at most once. Only a successful bet or raise makes the actor the aggressor and resets the acted list to that actor. The game stays well formed. |
| Actions.ActionResult | src/game.rs:697-833 | A fold only folds. A check moves nothing and needs a matched bet. A call leaves the actor matching the highest bet or all-in. The reported figure is the actor's new total bet. |
| Actions.ActionDowngrades | src/game.rs:697-833 | For each request, the action really taken and the chips paid, at the table level. |
| Actions.Replay | src/game.rs:666-848 | Any sequence of actions keeps the game well formed and keeps the number of seats. |
| Actions.ReplayKeepsPot | src/game.rs:666-848 | However many actions are made, stacks plus pot stay the same, and the pot grows by exactly the growth of the contributions. |
| Showdown.UnfoldedSeats | src/game.rs:852-856 | The unfolded seats, exactly and in increasing order. |
| Showdown.SelectWinner | src/game.rs:851-1029 | The winner is unfolded. With a board, it is the best evaluated hand, ties going to the lowest seat. Without a board, it is the first pocket pair, else the last unfolded player holding two cards. Failing those it is the first unfolded player, and a lone survivor wins without evaluation. |
| Showdown.WinnerUnique | src/game.rs:851-1029 | That description names exactly one seat. |
| Showdown.LoneWinner | src/game.rs:858-875 | A lone unfolded player wins whatever the evaluator says. |
| BotParse.SplitWhitespace | src/game.rs:1095 | `split_whitespace` returns nonempty words without whitespace. |
| BotParse.SplitKeepsText | src/game.rs:1095 | The words hold exactly the non-whitespace characters of the input, in order. |
| BotParse.ParseU32 | src/game.rs:1097 | `parse::<u32>` accepts only values below 2^32. |
| BotParse.ParseFormatted | src/game.rs:1097 | Every u32 rendered in decimal parses back to itself. |
| BotParse.ParseBotAction | src/game.rs:1087-1110 | The parse never errs. Prefixes "fold", "call" and "check" win in that order. It is a raise exactly when none of those matches and the text starts with "raise"; the amount is the second word when that parses as a u32, else the minimum bet. Anything else is a check. |
| BotParse.SplitRaise | src/game.rs:1095 | "raise N" splits into "raise" and the digits of N. |
| BotParse.GeneratedActionsParse | src/game.rs:1171-1219 | The strings the bot policy produces ("fold", "call", "check", "raise N") parse to the intended actions with amount N. |
| Positions.GetPlayerPosition | src/util.rs:4-50 | The label is one of eleven. The button takes priority over the blinds. A seat is unlabelled exactly when it is none of the three special seats on a table of three or fewer. The three special labels go only to the special seats. |
| Positions.RotatedTableLabels | src/util.rs:15-49 | With the blinds right after the button, as `deal_cards` seats them, the seat k places after the button gets the reference label `RingLabel(k, n)`. So the Hijack fall-backs for distances 4 and 5 on small tables are never reached. |
| PokerGame.Seats | src/game.rs:176-202 | The humans come first, then the bots, every stack at the starting chips with an empty hand. |
| PokerGame.BuildSeats | src/game.rs:178-202 | The two seating loops build exactly `Seats`. |
| PokerGame.SeatNamesDistinct | src/game.rs:179-202 | No two seats share a name, provided the chosen human name is not itself a generated "Player k" or "Bot k" name. |
| PokerGame.ClearSeats | src/game.rs:281-285 | Every hand is emptied and every fold flag and bet cleared; nothing else changes. |
| PokerGame.DealHoleCards | src/game.rs:295-302 | After the two passes, seat k holds its round-robin hole cards after what it held, and the deck has lost its last min(2n, \|deck\|) cards. |
| PokerGame.CollectAntes | src/game.rs:304-313 | Every stack pays one chip (saturating), the pot gains one per seat, and every contribution rises by one. |
| PokerGame.ClearBets | src/game.rs:437-439 | Every bet is zeroed. |
| PokerGame.Draw | src/game.rs:448-452 | The pop loop computes `DrawOnto`. |
| PokerGame.Game.constructor | src/game.rs:175-233 | Humans then bots with the starting stack; the blinds follow the dealer; a fresh deck; an empty pot and board; a minimum bet of 10; PreFlop; every record cleared. |
| PokerGame.Game.ShuffleDeck | src/game.rs:255-258 | The deck takes the given rearrangement, and nothing else changes. |
| PokerGame.Game.DealCards | src/game.rs:260-335 | The game moves to `Table.NewHand` and stays well formed. |
| PokerGame.Game.DealCommunityCards | src/game.rs:337-392 | The game moves to `Table.DealBoard`. |
| PokerGame.Game.NextRound | src/game.rs:394-523 | The game moves to `Table.NextRoundState` and stays well formed. |
| PokerGame.Game.FindNextActivePlayer | src/game.rs:525-543 | The scan loop returns `Betting.NextActive`. |
| PokerGame.Game.AllActedAfterAggressor | src/game.rs:582-599 | The walk after the aggressor, stopped when it wraps past them, answers whether every active seat but the aggressor has acted. |
| PokerGame.Game.FirstToActAfter | src/game.rs:633-657 | The second walk, stopped in the same way, returns `Turns.FirstToAct`. |
| PokerGame.Game.IsRoundComplete | src/game.rs:562-612 | Computes `Turns.RoundComplete` and changes nothing. |
| PokerGame.Game.NextPlayer | src/game.rs:545-664 | The game and the answer are `Turns.NextPlayerState`, and the game stays well formed. |
| PokerGame.Game.PerformAction | src/game.rs:666-848 | The game, the action taken and the reported bet are those of `Actions.ApplyAction`, and the game stays well formed. |
| PokerGame.Game.DetermineWinner | src/game.rs:850-1080 | The winner is `Showdown.SelectWinner`'s; the whole pot goes to their stack and the pot is emptied; nothing else changes; the winner's new stack fits in a `u32`. |
| PokerGame.Game.PayPot | src/game.rs:1075-1077 | The pot is added to the winner's stack and the pot becomes 0; nothing else changes. |
| PokerGame.PayoutFits | src/game.rs:1075-1076 | When all stacks plus the pot fit in a `u32`, the pot fits on top of the showdown winner's stack, whoever wins: the payout cannot overflow. |
| Findings.WalkAsWrittenDiverges | src/game.rs:582-599 | For a well-formed state in which the round is over, the walk as written runs out of any fuel, while the corrected check says everyone has acted. |

## Left out

- Terminal I/O, the `println!` diagnostic in `perform_action`, and the unused debug block of `next_round` are not modelled.
- The random number generator is not modelled. The dealer seat and the shuffle order are parameters.
- A shuffle is modelled as one rearrangement `shuffled` of the fresh deck. The model does not track which deck `shuffle_deck` was called on: every fresh deck in one call gets the same order.
- The rs_poker evaluator is not modelled: `eval` stands for it.
- The mapping of the evaluator's ranks to category names and the winner-description strings of `determine_winner` (src/game.rs:959-1072) are not modelled. Only the winner and the winnings are.
- `Card::to_string`, `Rank::to_string` and `Suit::to_string` are formatting only.
- `ai_client`, `api_key` and `make_openai_api_call` are not modelled, since they are network calls.
- `generate_random_bot_action` is not modelled because it draws at random. The parse of what it produces is modelled, and `BotParse.GeneratedActionsParse` covers its output strings.
- `bot_difficulty` does not affect any modelled operation; it only steers that random draw.
- `u32` and `usize` values are unbounded naturals. A pot at `u32::MAX` would panic on its next `+=` in a debug build; here it keeps growing.
- PokerGame.Game.PerformAction: requires, through `Actions.RaiseInRange`, that the unchecked additions of src/game.rs:758-762 fit in a `u32`, because the overflow panic is not modelled.
- PokerGame.Game.DetermineWinner: requires, through `PokerGame.PotFitsWinner`, that the showdown winner's stack plus the pot fits in a `u32`, for the same reason. The stacks of losing seats are not constrained.
- `round_action_complete` is only ever reset, never set to true, so it is carried as a field with no behaviour.
- The seat loops work on `seq` values that are then assigned back to the field, not on the vector in place. No aliasing is involved.
- PokerGame.Game.AllActedAfterAggressor: this walk and the one of `PokerGame.Game.FirstToActAfter` stop where the source's walks do not: when a step of `find_next_active_player` wraps past the aggressor. This is the correction of the finding below. Whenever the aggressor can still act, the walk lands on them, and the two behave the same.

## Findings

| source | as written | input that shows it | evidently intended | confidence | as-written member | corrected member |
|---|---|---|---|---|---|---|
| src/game.rs:582-599 | The walk after the last aggressor steps with `find_next_active_player` until it is back at the aggressor. An aggressor who went all-in is no longer active and is never landed on again, so when every other active seat has acted the loop never ends and `next_player` hangs. The second walk (src/game.rs:633-657) has the same shape. | 3 seats, flop. Seat 0 bet its last 10 chips. Seats 1 and 2 called and hold 90 each. The acted list is [0, 1, 2] and the aggressor is seat 0. The walk alternates 1, 2, 1, … | Stop once the walk has gone round the table. Here that answers "everyone has acted", and the round is complete. | high (not executed) | Findings.WalkAsWrittenDiverges | PokerGame.Game.AllActedAfterAggressor |
