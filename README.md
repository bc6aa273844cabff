# Memory game — a verified model of its game logic

The program is a single-screen memory (concentration) game. A board of
sixteen face-down cards holds eight symbols, each on two cards, drawn from a
pool of twenty. The player turns cards over two at a time. Two cards with one
symbol are marked matched a moment later. Two different cards stay visible
for a moment, during which the board is locked, and then turn face down
again. The game counts turns, shows the number of matched pairs and says
when every card is matched.

This project models that game logic in Dafny:

- `deck.dfy`, module `Deck`: the symbol pool, the shuffle, the deal of a
  board and the counting over the cards' matched flags. These are pure
  functions with lemmas about them.
- `game.dfy`, module `Game`: the game state as the program keeps it.
  - A `Card` class whose `isFlipped` and `isMatched` fields change in place.
  - A `Game` class whose board, opened cards, turn counter, lock flag and
    pending timers are updated by `SetupGame`, `FlipCard` and `Fire`.
  - The invariant `Valid()` that every operation keeps. It says:
    - the board is a well-formed deal;
    - the two cards of a symbol are matched together or not at all;
    - the opened cards are distinct, face-up cards of the board;
    - a pending `Hide` names two cards of one symbol.
- `scenarios.dfy`, module `Scenarios`: short plays starting from a fresh
  game that pin down what the player sees after each step. They include the
  plays behind the finding below.

How the model represents the program's runtime:

- The browser's timers become a list of pending actions, `Hide(first, second)`
  or `Close(first, second)`. `Fire(k)` runs entry `k`, so the timers may run
  in any order. An entry holds card objects, as the program's callbacks do.
  A timer that outlives a new deal still changes those old cards, and still
  empties the current opened cards; a stale `Close` also clears the current
  lock (main.js:42-43, 54). No timer is ever cancelled.
- `Math.random` is replaced by sequences of choices handed to the shuffle.
  Every choice sequence yields a permutation of the input
  (`Deck.Shuffle`). Every permutation is reached by some choice sequence
  (`Deck.ShuffleReachesEvery`).
- The symbols are the numbers 0 to 19: code k stands for the k-th picture of
  the program's pool.

A constant `lockDuringMatch` of the game selects between the program as
written (`false`) and the corrected behaviour of the finding (`true`).

The board is locked only for a mismatched pair (main.js:74). A matching pair
leaves it unlocked while its 220 ms timer is pending (main.js:69-71), so a
third pick in that window passes the guard (main.js:59-66): it opens a third
card and counts one more turn. That card then stays face up and out of play;
the finding below records this.

## Model

| member | source | states |
|---|---|---|
| Deck.SymbolPool | main.js:5-8 | the pool has twenty symbols |
| Deck.PoolHasNoDup | main.js:5-8 | the twenty symbols of the pool are all different |
| Deck.Shuffle | main.js:17-20 | a shuffle returns a permutation of its input: same length and same multiset of elements, whatever the random choices |
| Deck.ShuffleReachesEvery | main.js:17-20 | every permutation of the input is the result of the shuffle for some choices |
| Deck.ChosenSymbols | main.js:23 | the symbols for a game are eight entries of the shuffled pool |
| Deck.Deal | main.js:23-24 | a dealt board has sixteen symbols |
| Deck.ShuffledPrefix | main.js:23 | the symbols taken from the front of a shuffled pool of distinct symbols are distinct members of the pool |
| Deck.DoubledCounts | main.js:24 | shuffling the chosen symbols followed by a copy of them puts each chosen symbol on exactly two cards and no other symbol anywhere |
| Deck.DealWellFormed | main.js:22-24 | every deal gives sixteen cards carrying eight different pool symbols, each symbol exactly twice |
| Deck.DealPairs | main.js:22-24 | on a dealt board each symbol occurs exactly twice if it was chosen and otherwise not at all |
| Deck.DealReachesEvery | main.js:22-24 | every well-formed board, with every choice of its eight symbols, is the deal for some random choices |
| Deck.CountTrue | main.js:78 | the number of matched flags is at most the number of cards |
| Deck.CountTrueFull | main.js:78-79 | the count of matched flags equals the number of cards exactly when every flag is set |
| Deck.MatchedCountIsPairs | main.js:78 | on a well-dealt board where pairs are matched together, the matched count is twice the number of matched symbols |
| Deck.OnlyTwo | main.js:24 | on a well-dealt board no third card carries the symbol of a pair |
| Deck.MarkPairKeepsPaired | main.js:52-53 | marking both cards of one symbol matched keeps every pair matched together or not at all |
| Game.NewCards | main.js:24-29 | the new board has one fresh card per dealt symbol, the card at position i has id i and that symbol, and every card is face down and unmatched |
| Game.Game.constructor | main.js:81 | the game starts with a first board dealt: the new-board state below, no pending timers and the twenty-symbol pool |
| Game.Game.SetupGame | main.js:22-33 | a new, well-dealt board of sixteen fresh face-down unmatched cards with ids 0 to 15; no opened cards, zero turns, board unlocked; pending timers kept; the invariant holds |
| Game.Game.FlipCard | main.js:58-76 | a pick of a locked board, a matched card or a face-up card changes nothing; otherwise only that card turns face up and is appended to the opened cards; with two or more open, one turn is counted and the first two are compared: equal symbols schedule a `Hide` and leave the lock as it was, different symbols lock the board and schedule a `Close`; matched flags never change; the invariant holds |
| Game.Game.HideMatchedCards | main.js:47-56 | with two or more cards open, a `Hide` of the first two is scheduled; with fewer, nothing happens |
| Game.Game.CloseOpenedCards | main.js:35-45 | with two or more cards open, a `Close` of the first two is scheduled; with fewer, nothing happens |
| Game.Game.HideTimer | main.js:51-55 | both cards of a found pair become matched, the opened cards are emptied, the lock is left as it was (cleared under `lockDuringMatch`), and the invariant holds also for a stale pair of an earlier board |
| Game.Game.CloseTimer | main.js:39-44 | both cards turn face down, the opened cards are emptied and the board is unlocked; the invariant holds |
| Game.Game.Fire | main.js:35-56 | running any pending timer removes just that entry and performs its action: a `Hide` marks its cards matched and leaves them face up, a `Close` turns its cards face down and keeps their matched flags; turns and the board are unchanged |
| Game.Card.constructor | main.js:24-29 | a new card has the given id and symbol, which never change, and starts face down and unmatched |
| Game.Game.GameWon | main.js:79 | a won game has at least sixteen cards, and on a board of sixteen the game is won exactly when every card is matched |
| Game.Game.MatchedCount | main.js:78 | the matched count is at most the number of cards |
| Game.Game.GameWonIffAllMatched | main.js:78-79 | the game is won exactly when every card of the board is matched |
| Game.Game.MatchedCountIsTwicePairs | main.js:78-79 | the matched count is even and is twice the number of matched symbols, so half of it, the pair count the view shows, is at most eight |
| Scenarios.OpenPair | main.js:58-76 | from a fresh game, two picks leave both cards face up and open, count one turn, and schedule a `Hide` or a `Close` as the symbols agree or differ |
| Scenarios.FoundPair | main.js:47-76 | two picks of one symbol count a turn with the board unlocked; when the timer runs both cards are matched and face up and nothing is open |
| Scenarios.MissedPair | main.js:35-76 | two picks of different symbols count a turn and lock the board, so a third pick is ignored; when the timer runs both cards are face down and the board is unlocked |
| Scenarios.PickDuringMatch | main.js:47-76 | as written, a third pick while a found pair waits for its timer is accepted and counts a second turn; after the first timer the pair is matched, nothing is open and a stale `Hide` of the pair is still pending |
| Scenarios.ThirdPickDuringMatch | main.js:47-76 | as written, after the third pick and the first timer the third card is face up, unmatched and not open; a further pick of it changes nothing, and after the stale timer it is still face up and unmatched |
| Scenarios.ThirdPickRefused | main.js:47-76 | with the corrected lock, the third pick is ignored while the pair waits; after the timer the board is unlocked and the same card can be picked |

## Left out

- The Vue wiring is not modelled: the reactive references, the computed values' caching, mounting and the template (main.js:1, 10-16, 83-119). The template only calls `flipCard` on cards of the current board and `setupGame` from the reset button. So `Game.Game.FlipCard` requires its card to be on the board.
- The shuffle's mechanism is not modelled: pairing each element with `Math.random()` and sorting by that key. The model picks elements by supplied choices instead. Both yield permutations, and every permutation is reachable in the model. The uniformity of the distribution is not modelled.
- Timer durations (850 ms and 220 ms) are not modelled. `Fire` may run pending timers in orders the browser never produces, since the browser runs them by deadline; every contract holds for all orders.
- The picture strings are not modelled. Symbols are the numbers 0 to 19, and only their equality matters.
- The callbacks' guard `if (!first || !second)` checks whether the first two opened entries exist. It is modelled as "fewer than two cards are open". The opened list never holds a missing entry.
- `Game.Game.HideTimer` requires that its two cards are both on the current board or both off it. Every `Hide` the game schedules satisfies this, and `Valid()` keeps it.

## Findings

| source | as written | input that shows it | evidently intended | confidence | as-written member | corrected member |
|---|---|---|---|---|---|---|
| main.js:69-71 | a matching pair does not lock the board while its match timer is pending, so a third pick in that window is accepted, counts a second turn and schedules the same pair again; when the timer empties the opened cards, the third card stays face up but unmatched and not open, so every later pick of it is ignored and the game cannot be won until a new board is dealt | pick the two cards of one symbol, then any third card before the 220 ms timer runs | the board stays locked until the match timer runs, so the third pick is ignored, at most two cards are open, and the third card can be picked afterwards | not executed | Scenarios.ThirdPickDuringMatch | Scenarios.ThirdPickRefused |

The corrected behaviour is the game with `lockDuringMatch` set. For it, the
invariant `Valid()` that every operation keeps also states that at most two
cards are open and that two open cards lock the board.
