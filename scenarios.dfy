/**
  Short plays of the game, each starting from a fresh game whose deal is
  fixed by the random choices, and reporting what the player then sees.
  They exercise the operations' contracts on the paths the program takes:
  a found pair, a missed pair, and a third pick while a found pair is
  still waiting for its timer.
 */
module Scenarios {
  import opened Deck
  import opened Game

  /** What the player sees of two cards and the game after a few moves. */
  datatype View = View(turns: nat, firstFlipped: bool, firstMatched: bool,
                       secondFlipped: bool, secondMatched: bool,
                       openCount: nat, locked: bool, pending: nat)

  /** What the player sees of cards `a` and `b` and of `game`. */
  function Look(game: Game, a: Card, b: Card): View
    reads game, a, b
  {
    View(game.turns, a.isFlipped, a.isMatched, b.isFlipped, b.isMatched,
         |game.openedCards|, game.lockBoard, |game.pending|)
  }

  /**
    A fresh game in which the player has picked the cards at positions i
    and j: one turn is counted, the pair is face up and opened, and the
    timer matching the picks is pending.
   */
  method OpenPair(lockDuringMatch: bool, poolChoices: seq<nat>, deckChoices: seq<nat>, i: nat, j: nat, k: nat)
    returns (game: Game, a: Card, b: Card, c: Card)
    requires i < BoardSize && j < BoardSize && k < BoardSize && i != j && k != i && k != j
    ensures fresh(game) && fresh(a) && fresh(b) && fresh(c)
    ensures game.Valid() && game.lockDuringMatch == lockDuringMatch
    ensures game.symbols == Deal(SymbolPool(), poolChoices, deckChoices)
    ensures a == game.cards[i] && b == game.cards[j] && c == game.cards[k]
    ensures a.isFlipped && b.isFlipped && !c.isFlipped
    ensures !a.isMatched && !b.isMatched && !c.isMatched
    ensures game.openedCards == [a, b] && game.turns == 1
    ensures a.symbol == b.symbol ==> game.pending == [Hide(a, b)] && game.lockBoard == lockDuringMatch
    ensures a.symbol != b.symbol ==> game.pending == [Close(a, b)] && game.lockBoard
  {
    game := new Game(lockDuringMatch, poolChoices, deckChoices);
    a, b, c := game.cards[i], game.cards[j], game.cards[k];
    assert a.id == i && b.id == j && c.id == k;
    game.FlipCard(a);
    game.FlipCard(b);
  }

  /**
    Picking the two cards of one symbol counts a turn and leaves them face
    up; once the timer runs they are matched and the turn state is clear.
   */
  method FoundPair(poolChoices: seq<nat>, deckChoices: seq<nat>, i: nat, j: nat, k: nat)
    returns (before: View, after: View)
    requires i < BoardSize && j < BoardSize && k < BoardSize && i != j && k != i && k != j
    requires Deal(SymbolPool(), poolChoices, deckChoices)[i] == Deal(SymbolPool(), poolChoices, deckChoices)[j]
    ensures before == View(1, true, false, true, false, 2, false, 1)
    ensures after == View(1, true, true, true, true, 0, false, 0)
  {
    var game, a, b, c := OpenPair(false, poolChoices, deckChoices, i, j, k);
    before := Look(game, a, b);
    game.Fire(0);
    after := Look(game, a, b);
  }

  /**
    Picking two cards of different symbols counts a turn and locks the
    board, so a third pick is ignored; once the timer runs both cards are
    face down again and the board is unlocked.
   */
  method MissedPair(poolChoices: seq<nat>, deckChoices: seq<nat>, i: nat, j: nat, k: nat)
    returns (before: View, thirdFlipped: bool, after: View)
    requires i < BoardSize && j < BoardSize && k < BoardSize && i != j && k != i && k != j
    requires Deal(SymbolPool(), poolChoices, deckChoices)[i] != Deal(SymbolPool(), poolChoices, deckChoices)[j]
    ensures before == View(1, true, false, true, false, 2, true, 1)
    ensures !thirdFlipped
    ensures after == View(1, false, false, false, false, 0, false, 0)
  {
    var game, a, b, c := OpenPair(false, poolChoices, deckChoices, i, j, k);
    game.FlipCard(c);
    assert game.openedCards == [a, b] && game.pending == [Close(a, b)];
    before := Look(game, a, b);
    thirdFlipped := c.isFlipped;
    game.Fire(0);
    after := Look(game, a, b);
  }

  /**
    The program as written, up to the first timer: from a fresh game the
    player picks the pair at i and j and then the card at k before the
    pair's timer runs. The third pick is accepted, and once the first timer
    has run the pair is matched, the opened cards are empty and a second,
    stale `Hide` of the pair is still pending.
   */
  method PickDuringMatch(poolChoices: seq<nat>, deckChoices: seq<nat>, i: nat, j: nat, k: nat)
    returns (game: Game, a: Card, b: Card, c: Card, during: View)
    requires i < BoardSize && j < BoardSize && k < BoardSize && i != j && k != i && k != j
    requires Deal(SymbolPool(), poolChoices, deckChoices)[i] == Deal(SymbolPool(), poolChoices, deckChoices)[j]
    ensures fresh(game) && fresh(a) && fresh(b) && fresh(c)
    ensures game.Valid() && !game.lockDuringMatch
    ensures a == game.cards[i] && b == game.cards[j] && c == game.cards[k]
    ensures during == View(2, true, false, true, false, 3, false, 2)
    ensures a.isFlipped && a.isMatched && b.isFlipped && b.isMatched && c.isFlipped && !c.isMatched
    ensures game.openedCards == [] && game.turns == 2 && !game.lockBoard && game.pending == [Hide(a, b)]
  {
    game, a, b, c := OpenPair(false, poolChoices, deckChoices, i, j, k);
    game.FlipCard(c);
    assert game.openedCards == [a, b, c];
    assert game.openedCards[0] == a && game.openedCards[1] == b;
    during := Look(game, a, b);
    game.Fire(0);
  }

  /**
    The program as written: a third pick while a found pair waits for its
    timer is accepted, counts another turn and schedules the same pair
    again. When the first timer has run, the third card is face up, neither
    matched nor opened. A later pick of it is ignored, and once the stale
    timer has run too the card is still face up and unmatched: nothing can
    reach it.
   */
  method ThirdPickDuringMatch(poolChoices: seq<nat>, deckChoices: seq<nat>, i: nat, j: nat, k: nat)
    returns (during: View, after: View, thirdFlipped: bool, thirdMatched: bool, thirdOpen: bool,
             repicked: View, final: View, finalFlipped: bool, finalMatched: bool)
    requires i < BoardSize && j < BoardSize && k < BoardSize && i != j && k != i && k != j
    requires Deal(SymbolPool(), poolChoices, deckChoices)[i] == Deal(SymbolPool(), poolChoices, deckChoices)[j]
    ensures during == View(2, true, false, true, false, 3, false, 2)
    ensures after == View(2, true, true, true, true, 0, false, 1)
    ensures thirdFlipped && !thirdMatched && !thirdOpen
    ensures repicked == after
    ensures final == View(2, true, true, true, true, 0, false, 0)
    ensures finalFlipped && !finalMatched
  {
    var game, a, b, c;
    game, a, b, c, during := PickDuringMatch(poolChoices, deckChoices, i, j, k);
    after := Look(game, a, b);
    thirdFlipped, thirdMatched, thirdOpen := c.isFlipped, c.isMatched, c in game.openedCards;
    game.FlipCard(c);
    assert game.pending == [Hide(a, b)] && game.openedCards == [];
    repicked := Look(game, a, b);
    game.Fire(0);
    final := Look(game, a, b);
    finalFlipped, finalMatched := c.isFlipped, c.isMatched;
  }

  /**
    The corrected behaviour: a found pair also locks the board until its
    timer runs, so the third pick is ignored, and the same card can be
    picked normally afterwards.
   */
  method ThirdPickRefused(poolChoices: seq<nat>, deckChoices: seq<nat>, i: nat, j: nat, k: nat)
    returns (during: View, thirdFlippedDuring: bool, after: View, thirdFlippedAfter: bool)
    requires i < BoardSize && j < BoardSize && k < BoardSize && i != j && k != i && k != j
    requires Deal(SymbolPool(), poolChoices, deckChoices)[i] == Deal(SymbolPool(), poolChoices, deckChoices)[j]
    ensures during == View(1, true, false, true, false, 2, true, 1)
    ensures !thirdFlippedDuring
    ensures after == View(1, true, true, true, true, 1, false, 0)
    ensures thirdFlippedAfter
  {
    var game, a, b, c := OpenPair(true, poolChoices, deckChoices, i, j, k);
    game.FlipCard(c);
    assert game.openedCards == [a, b] && game.pending == [Hide(a, b)];
    during := Look(game, a, b);
    thirdFlippedDuring := c.isFlipped;
    game.Fire(0);
    assert game.openedCards == [] && game.pending == [] && !game.lockBoard;
    assert !c.isFlipped && !c.isMatched;
    game.FlipCard(c);
    assert |game.openedCards| == 1;
    after := Look(game, a, b);
    thirdFlippedAfter := c.isFlipped;
  }
}
