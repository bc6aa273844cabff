/**
  The game's state machine: the board of cards, the cards opened in the
  current turn, the turn counter, the input lock and the delayed actions
  that the program schedules with timers.

  A timer is kept as a pending `Timer` entry holding references to the two
  card objects it was scheduled for; `Fire` runs one pending entry, in any
  order. Entries are never cancelled: one scheduled before a new game still
  runs afterwards, changes the old (no longer shown) cards, and clears the
  current opened cards (and, for `Close`, the current lock).
 */
module Game {
  import opened Deck

  /** One card of the board; the flags change in place. */
  class Card {
    const id: nat
    const symbol: Symbol
    var isFlipped: bool
    var isMatched: bool

    constructor (id: nat, symbol: Symbol)
      ensures this.id == id && this.symbol == symbol
      ensures !isFlipped && !isMatched
    {
      this.id := id;
      this.symbol := symbol;
      isFlipped := false;
      isMatched := false;
    }
  }

  /** Which cards of `cs` are matched, in order. */
  function MatchedOf(cs: seq<Card>): (f: seq<bool>)
    reads cs`isMatched
    ensures |f| == |cs|
    ensures forall i {:trigger f[i]} :: 0 <= i < |cs| ==> f[i] == cs[i].isMatched
  {
    if cs == [] then [] else [cs[0].isMatched] + MatchedOf(cs[1..])
  }

  /** Fresh face-down, unmatched cards for `deck`, the card at position i with id i. */
  method NewCards(deck: seq<Symbol>) returns (board: seq<Card>)
    ensures |board| == |deck|
    ensures forall i :: 0 <= i < |board| ==> fresh(board[i])
    ensures forall i :: 0 <= i < |board| ==> board[i].id == i && board[i].symbol == deck[i]
    ensures forall i :: 0 <= i < |board| ==> !board[i].isFlipped && !board[i].isMatched
  {
    board := [];
    var index := 0;
    while index < |deck|
      invariant index <= |deck| && |board| == index
      invariant forall i :: 0 <= i < index ==> fresh(board[i])
      invariant forall i :: 0 <= i < index ==> board[i].id == i && board[i].symbol == deck[i]
      invariant forall i :: 0 <= i < index ==> !board[i].isFlipped && !board[i].isMatched
    {
      var card := new Card(index, deck[index]);
      board := board + [card];
      index := index + 1;
    }
  }

  /** A delayed action waiting for its timer: mark a pair matched, or turn a pair back over. */
  datatype Timer = Hide(first: Card, second: Card) | Close(first: Card, second: Card)

  class Game {
    var cards: seq<Card>
    var openedCards: seq<Card>
    var turns: nat
    var lockBoard: bool
    /** Actions scheduled and not yet run. */
    var pending: seq<Timer>
    /** The symbols on the board, left to right. */
    ghost var symbols: seq<Symbol>
    /** The distinct symbols dealt on the current board. */
    ghost var chosen: seq<Symbol>
    /**
      Whether a matching pair also locks the board until its `Hide` runs.
      False is the program as written; true is the corrected behaviour.
     */
    const lockDuringMatch: bool
    /** The candidate symbols the game deals from. */
    const pool: seq<Symbol>

    /** Which cards of the board are matched, left to right. */
    function MatchedFlags(): (f: seq<bool>)
      reads this`cards, cards`isMatched
    {
      MatchedOf(cards)
    }

    /** `c` is the card at position `c.id` of the board. */
    predicate OnBoard(c: Card)
      reads this`cards
    {
      c.id < |cards| && cards[c.id] == c
    }

    /** The pool has twenty different symbols. */
    ghost predicate PoolValid()
    {
      NoDup(pool) && |pool| == PoolSize
    }

    /** Every pending `Hide` names two different cards with one symbol. */
    ghost predicate HidesWellFormed()
      reads this`pending
    {
      forall i :: 0 <= i < |pending| && pending[i].Hide? ==>
        pending[i].first != pending[i].second && pending[i].first.symbol == pending[i].second.symbol
    }

    /**
      The board: sixteen cards with their positions as ids, dealt as eight
      pairs of pool symbols, and each pair matched as a whole or not at all.
     */
    ghost predicate BoardValid()
      reads this`cards, this`symbols, this`chosen, cards`isMatched
    {
      && |cards| == BoardSize && |symbols| == |cards|
      && (forall i :: 0 <= i < |cards| ==> cards[i].id == i && cards[i].symbol == symbols[i])
      && WellDealt(pool, symbols, chosen)
      && Paired(symbols, MatchedFlags())
    }

    /** The opened cards are different face-up cards of the board. */
    ghost predicate OpenedValid()
      reads this`cards, this`openedCards, openedCards`isFlipped
    {
      && (forall i :: 0 <= i < |openedCards| ==> OnBoard(openedCards[i]) && openedCards[i].isFlipped)
      && (forall i, j :: 0 <= i < j < |openedCards| ==> openedCards[i] != openedCards[j])
    }

    /** A pending `Hide` names two cards of the board or two cards of an earlier board. */
    ghost predicate TimersValid()
      reads this`cards, this`pending
    {
      && HidesWellFormed()
      && (forall i :: 0 <= i < |pending| && pending[i].Hide? ==>
            (OnBoard(pending[i].first) <==> OnBoard(pending[i].second)))
    }

    /** With the corrected lock, at most two cards are open and two open cards lock the board. */
    ghost predicate LockValid()
      reads this`openedCards, this`lockBoard
    {
      lockDuringMatch ==> |openedCards| <= 2 && (|openedCards| == 2 ==> lockBoard)
    }

    /** The invariant that the game's operations keep. */
    ghost predicate Valid()
      reads this, cards, openedCards
    {
      PoolValid() && BoardValid() && OpenedValid() && TimersValid() && LockValid()
    }

    /** The game as the program starts it: a first board is dealt at once. */
    constructor (lockDuringMatch: bool, poolChoices: seq<nat>, deckChoices: seq<nat>)
      ensures Valid() && this.lockDuringMatch == lockDuringMatch && pool == SymbolPool()
      ensures symbols == Deal(pool, poolChoices, deckChoices)
      ensures forall i :: 0 <= i < |cards| ==> fresh(cards[i])
      ensures forall c :: c in cards ==> !c.isFlipped && !c.isMatched
      ensures openedCards == [] && turns == 0 && !lockBoard && pending == []
    {
      this.lockDuringMatch := lockDuringMatch;
      pool := SymbolPool();
      cards, openedCards, turns, lockBoard, pending := [], [], 0, false, [];
      symbols, chosen := [], [];
      new;
      PoolHasNoDup();
      SetupGame(poolChoices, deckChoices);
    }

    /**
      Deal a new board of fresh cards and reset the turn state. The random
      choices of the two shuffles are parameters. Pending timers are kept.
     */
    method SetupGame(poolChoices: seq<nat>, deckChoices: seq<nat>)
      requires PoolValid() && HidesWellFormed()
      modifies this
      ensures Valid()
      ensures symbols == Deal(pool, poolChoices, deckChoices)
      ensures chosen == ChosenSymbols(pool, poolChoices)
      ensures forall i :: 0 <= i < |cards| ==> fresh(cards[i]) && cards[i].id == i
      ensures forall c :: c in cards ==> !c.isFlipped && !c.isMatched
      ensures openedCards == [] && turns == 0 && !lockBoard && pending == old(pending)
    {
      var picked := ChosenSymbols(pool, poolChoices);
      var deck := Deal(pool, poolChoices, deckChoices);
      var board := NewCards(deck);
      cards := board;
      openedCards := [];
      turns := 0;
      lockBoard := false;
      symbols, chosen := deck, picked;
      DealWellFormed(pool, poolChoices, deckChoices);
      assert Paired(symbols, MatchedFlags());
      forall i | 0 <= i < |pending| && pending[i].Hide?
        ensures !OnBoard(pending[i].first) && !OnBoard(pending[i].second)
      {
        assert old(allocated(pending[i]));
      }
    }

    /** How many cards of the board are matched. */
    function MatchedCount(): (n: nat)
      reads this`cards, cards`isMatched
      ensures n <= |cards|
    {
      CountTrue(MatchedFlags())
    }

    /** The game is won when every card of a full board is matched. */
    function GameWon(): (won: bool)
      reads this`cards, cards`isMatched
      ensures won ==> |cards| >= BoardSize
      ensures |cards| == BoardSize ==> (won <==> forall i :: 0 <= i < |cards| ==> cards[i].isMatched)
    {
      CountTrueFull(MatchedFlags());
      assert forall i :: 0 <= i < |cards| ==> MatchedFlags()[i] == cards[i].isMatched;
      MatchedCount() == BoardSize
    }

    /**
      The player picks `card`. Ignored while the board is locked and for a
      matched or face-up card; otherwise the card turns face up and joins the
      opened cards, and once two or more are open a turn is counted and the
      first two are compared: equal symbols schedule a `Hide`, different ones
      lock the board and schedule a `Close`.
     */
    method FlipCard(card: Card)
      requires Valid() && card in cards
      modifies this`openedCards, this`turns, this`lockBoard, this`pending, card`isFlipped
      ensures cards == old(cards) && symbols == old(symbols) && chosen == old(chosen)
      ensures MatchedFlags() == old(MatchedFlags())
      ensures Valid()
      ensures old(lockBoard || card.isMatched || card.isFlipped) ==>
                && card.isFlipped == old(card.isFlipped)
                && openedCards == old(openedCards) && turns == old(turns)
                && lockBoard == old(lockBoard) && pending == old(pending)
      ensures !old(lockBoard || card.isMatched || card.isFlipped) ==>
                && card.isFlipped
                && openedCards == old(openedCards) + [card]
      ensures !old(lockBoard || card.isMatched || card.isFlipped) && |openedCards| < 2 ==>
                turns == old(turns) && lockBoard == old(lockBoard) && pending == old(pending)
      ensures !old(lockBoard || card.isMatched || card.isFlipped) && |openedCards| >= 2 ==>
                && turns == old(turns) + 1
                && (openedCards[0].symbol == openedCards[1].symbol ==>
                      lockBoard == lockDuringMatch
                      && pending == old(pending) + [Hide(openedCards[0], openedCards[1])])
                && (openedCards[0].symbol != openedCards[1].symbol ==>
                      lockBoard
                      && pending == old(pending) + [Close(openedCards[0], openedCards[1])])
    {
      if lockBoard || card.isMatched || card.isFlipped {
        return;
      }
      card.isFlipped := true;
      openedCards := openedCards + [card];
      if |openedCards| < 2 {
        return;
      }
      turns := turns + 1;
      var first, second := openedCards[0], openedCards[1];
      if first.symbol == second.symbol {
        if lockDuringMatch {
          lockBoard := true;
        }
        HideMatchedCards();
        return;
      }
      lockBoard := true;
      CloseOpenedCards();
    }

    /**
      Schedules the first two opened cards to be marked matched. Does nothing while fewer than two cards are open.
     */
    method HideMatchedCards()
      modifies this`pending
      ensures |openedCards| >= 2 ==> pending == old(pending) + [Hide(openedCards[0], openedCards[1])]
      ensures |openedCards| < 2 ==> pending == old(pending)
    {
      if |openedCards| < 2 {
        return;
      }
      var first, second := openedCards[0], openedCards[1];
      pending := pending + [Hide(first, second)];
    }

    /**
      Schedules the first two opened cards to be turned back face down.
      Does nothing while fewer than two cards are open.
     */
    method CloseOpenedCards()
      modifies this`pending
      ensures |openedCards| >= 2 ==> pending == old(pending) + [Close(openedCards[0], openedCards[1])]
      ensures |openedCards| < 2 ==> pending == old(pending)
    {
      if |openedCards| < 2 {
        return;
      }
      var first, second := openedCards[0], openedCards[1];
      pending := pending + [Close(first, second)];
    }

    /**
      The timer of a matched pair runs: both cards are marked matched and
      the opened cards are emptied. With the corrected lock the board is
      unlocked as well.
     */
    method HideTimer(first: Card, second: Card)
      requires Valid()
      requires first != second && first.symbol == second.symbol
      requires OnBoard(first) <==> OnBoard(second)
      modifies this`openedCards, this`lockBoard, first`isMatched, second`isMatched
      ensures Valid()
      ensures first.isMatched && second.isMatched
      ensures openedCards == [] && lockBoard == (old(lockBoard) && !lockDuringMatch)
    {
      ghost var flags := MatchedFlags();
      openedCards := [];
      if lockDuringMatch {
        lockBoard := false;
      }
      ghost var marked := flags;
      if OnBoard(first) {
        MarkPairKeepsPaired(pool, symbols, flags, chosen, first.id, second.id);
        marked := flags[first.id := true][second.id := true];
      }
      first.isMatched := true;
      second.isMatched := true;
      forall i | 0 <= i < |cards| ensures MatchedFlags()[i] == marked[i] {
        assert cards[i].id == i;
      }
      assert MatchedFlags() == marked;
    }

    /**
      The timer of a mismatched pair runs: both cards turn face down, the
      opened cards are emptied and the board is unlocked.
     */
    method CloseTimer(first: Card, second: Card)
      requires Valid()
      modifies this`openedCards, this`lockBoard, first`isFlipped, second`isFlipped
      ensures Valid()
      ensures !first.isFlipped && !second.isFlipped
      ensures openedCards == [] && !lockBoard
    {
      openedCards := [];
      lockBoard := false;
      first.isFlipped := false;
      second.isFlipped := false;
    }

    /**
      The timer of pending entry `k` runs, in whatever order the timers
      expire: the entry leaves the pending list and its action is performed.
     */
    method Fire(k: nat)
      requires Valid() && k < |pending|
      modifies this, pending[k].first, pending[k].second
      ensures Valid()
      ensures pending == old(pending[..k] + pending[k+1..])
      ensures cards == old(cards) && symbols == old(symbols) && chosen == old(chosen) && turns == old(turns)
      ensures openedCards == []
      ensures old(pending[k]).Hide? ==>
                && old(pending[k]).first.isMatched && old(pending[k]).second.isMatched
                && old(pending[k]).first.isFlipped == old(pending[k].first.isFlipped)
                && old(pending[k]).second.isFlipped == old(pending[k].second.isFlipped)
                && lockBoard == (old(lockBoard) && !lockDuringMatch)
      ensures old(pending[k]).Close? ==>
                && !old(pending[k]).first.isFlipped && !old(pending[k]).second.isFlipped
                && old(pending[k]).first.isMatched == old(pending[k].first.isMatched)
                && old(pending[k]).second.isMatched == old(pending[k].second.isMatched)
                && !lockBoard
    {
      var timer := pending[k];
      pending := pending[..k] + pending[k+1..];
      assert forall i :: 0 <= i < |pending| ==> pending[i] == old(pending)[if i < k then i else i + 1];
      match timer
      case Hide(first, second) =>
        HideTimer(first, second);
      case Close(first, second) =>
        CloseTimer(first, second);
    }

    /** The game is won exactly when every card on the board is matched. */
    lemma GameWonIffAllMatched()
      requires Valid()
      ensures GameWon() <==> forall c :: c in cards ==> c.isMatched
    {
      CountTrueFull(MatchedFlags());
      if forall c :: c in cards ==> c.isMatched {
        assert forall i :: 0 <= i < |cards| ==> cards[i] in cards;
      }
      if GameWon() {
        forall c | c in cards ensures c.isMatched {
          var i :| 0 <= i < |cards| && cards[i] == c;
          assert MatchedFlags()[i];
        }
      }
    }

    /**
      The matched cards are whole pairs: their number is twice the number of
      symbols whose cards are matched, the pair count the view shows.
     */
    lemma MatchedCountIsTwicePairs()
      requires Valid()
      ensures MatchedCount() == 2 * |MatchedSymbols(symbols, MatchedFlags())|
      ensures MatchedCount() % 2 == 0 && MatchedCount() / 2 <= PairsCount
    {
      MatchedCountIsPairs(pool, symbols, MatchedFlags(), chosen);
    }
  }
}
