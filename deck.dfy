/**
  The pure part of the memory game: the symbol pool, the shuffle, the deal
  of a board, and counting over the cards' flags.

  Symbols are small numbers: code k stands for the k-th of the twenty
  pictures in the game's symbol pool, in the order the program lists them.
 */
module Deck {

  type Symbol = nat

  /** Number of cards on a board. */
  const BoardSize: nat := 16
  /** Number of distinct symbols on a board, each used for two cards. */
  const PairsCount: nat := BoardSize / 2
  /** Number of candidate symbols. */
  const PoolSize: nat := 20
  /** The twenty candidate symbols, all different. */
  function SymbolPool(): (pool: seq<Symbol>)
    ensures |pool| == PoolSize
  {
    seq(PoolSize, i => i)
  }

  /** No element occurs twice in `s`. */
  predicate NoDup<T(==)>(s: seq<T>)
  {
    forall i, j :: 0 <= i < j < |s| ==> s[i] != s[j]
  }

  /**
    Same as NoDup, stated on the multiset of `s` (NoDupIffAtMostOnce). The
    board invariant uses this form because facts about a deal are multiset
    facts, which the verifier handles more cheaply than pairwise index
    comparisons; NoDup is the form in which the pool is checked.
   */
  ghost predicate AtMostOnce<T(!new)>(s: seq<T>)
  {
    forall x :: multiset(s)[x] <= 1
  }

  // ---------------------------------------------------------------------
  // Shuffle
  // ---------------------------------------------------------------------

  /** The random choice to use for a sequence of length `n`: an index below `n`. */
  function Pick(choices: seq<nat>, n: nat): (k: nat)
    requires n > 0
    ensures k < n
  {
    (if choices == [] then 0 else choices[0]) % n
  }

  /**
    A choice below `n` is used as it is. Kept as a lemma of its own: proved
    inline, the modulo fact is tried against the whole shuffle step and the
    proof of ShuffleStep runs out of resources.
   */
  lemma PickBelow(choices: seq<nat>, n: nat)
    requires choices != [] && choices[0] < n
    ensures Pick(choices, n) == choices[0]
  {
  }

  /** `s` without its element at index `k`. */
  function RemoveAt<T>(s: seq<T>, k: nat): (r: seq<T>)
    requires k < |s|
    ensures |r| == |s| - 1
    ensures multiset(r) + multiset{s[k]} == multiset(s)
  {
    assert s == s[..k] + [s[k]] + s[k+1..];
    s[..k] + s[k+1..]
  }

  /**
    Shuffle with the randomness made a parameter: repeatedly take the element
    that the next choice selects among those not yet taken. Whatever the
    choices, the result is a rearrangement of `s`.
   */
  function Shuffle<T>(s: seq<T>, choices: seq<nat>): (r: seq<T>)
    ensures |r| == |s|
    ensures multiset(r) == multiset(s)
    decreases |s|
  {
    if s == [] then []
    else
      var k := Pick(choices, |s|);
      [s[k]] + Shuffle(RemoveAt(s, k), if choices == [] then [] else choices[1..])
  }

  /** An index at which `x` occurs in `s`. */
  function IndexOf<T(==)>(s: seq<T>, x: T): (k: nat)
    requires x in s
    ensures k < |s| && s[k] == x
  {
    if s[0] == x then 0 else 1 + IndexOf(s[1..], x)
  }

  /** Choices under which Shuffle turns `s` into its rearrangement `t`. */
  function ChoicesFor<T(==)>(s: seq<T>, t: seq<T>): (choices: seq<nat>)
    requires multiset(s) == multiset(t)
    ensures |choices| == |s|
    decreases |s|
  {
    if s == [] then []
    else
      SameLength(s, t);
      assert t[0] in multiset(s);
      var k := IndexOf(s, t[0]);
      RemoveFirstOfBoth(s, t, k);
      [k] + ChoicesFor(RemoveAt(s, k), t[1..])
  }

  lemma SameLength<T>(s: seq<T>, t: seq<T>)
    requires multiset(s) == multiset(t)
    ensures |s| == |t|
  {
    assert |s| == |multiset(s)|;
  }

  lemma RemoveFirstOfBoth<T>(s: seq<T>, t: seq<T>, k: nat)
    requires multiset(s) == multiset(t) && k < |s| && |t| > 0 && s[k] == t[0]
    ensures multiset(RemoveAt(s, k)) == multiset(t[1..])
  {
    var r := RemoveAt(s, k);
    assert t == [t[0]] + t[1..];
    assert multiset(t) == multiset{t[0]} + multiset(t[1..]);
    assert multiset(r) + multiset{t[0]} == multiset(t[1..]) + multiset{t[0]};
    forall x ensures multiset(r)[x] == multiset(t[1..])[x] {
      assert (multiset(r) + multiset{t[0]})[x] == (multiset(t[1..]) + multiset{t[0]})[x];
    }
  }

  /** One step of the shuffle: a first choice in range picks the first element. */
  lemma ShuffleStep<T>(s: seq<T>, k: nat, rest: seq<nat>)
    requires k < |s|
    ensures Shuffle(s, [k] + rest) == [s[k]] + Shuffle(RemoveAt(s, k), rest)
  {
    PickBelow([k] + rest, |s|);
    assert ([k] + rest)[1..] == rest;
  }

  /**
    A non-empty sequence is its head followed by its tail. Kept as a lemma
    of its own so that this sequence equality is proved apart from the
    induction of ShuffleReachesEvery, which it otherwise slows down.
   */
  lemma HeadTail<T>(t: seq<T>)
    requires t != []
    ensures [t[0]] + t[1..] == t
  {
  }

  /** Every rearrangement of `s` is a possible outcome of the shuffle. */
  lemma {:induction false} ShuffleReachesEvery<T>(s: seq<T>, t: seq<T>)
    requires multiset(s) == multiset(t)
    ensures Shuffle(s, ChoicesFor(s, t)) == t
    decreases |s|
  {
    SameLength(s, t);
    if s != [] {
      assert t[0] in multiset(s);
      var k := IndexOf(s, t[0]);
      RemoveFirstOfBoth(s, t, k);
      var rest := ChoicesFor(RemoveAt(s, k), t[1..]);
      assert ChoicesFor(s, t) == [k] + rest;
      ShuffleStep(s, k, rest);
      ShuffleReachesEvery(RemoveAt(s, k), t[1..]);
      HeadTail(t);
    }
  }

  // ---------------------------------------------------------------------
  // Distinctness
  // ---------------------------------------------------------------------

  lemma {:induction false} NoDupIffAtMostOnce<T(!new)>(s: seq<T>)
    ensures NoDup(s) <==> AtMostOnce(s)
  {
    if s != [] {
      NoDupIffAtMostOnce(s[1..]);
      assert s == [s[0]] + s[1..];
      assert multiset(s) == multiset{s[0]} + multiset(s[1..]);
      if NoDup(s) {
        assert NoDup(s[1..]) by {
          forall i, j | 0 <= i < j < |s[1..]| ensures s[1..][i] != s[1..][j] {
            assert s[1..][i] == s[i+1] && s[1..][j] == s[j+1];
          }
        }
        assert s[0] !in s[1..] by {
          forall j | 0 <= j < |s[1..]| ensures s[1..][j] != s[0] {
            assert s[1..][j] == s[j+1];
          }
        }
      }
      if AtMostOnce(s) {
        assert multiset(s[1..])[s[0]] == 0 by {
          assert multiset(s)[s[0]] <= 1;
        }
        assert AtMostOnce(s[1..]) by {
          forall x ensures multiset(s[1..])[x] <= 1 {
            assert multiset(s)[x] <= 1;
          }
        }
        forall i, j | 0 <= i < j < |s| ensures s[i] != s[j] {
          assert s[j] == s[1..][j-1];
          if i > 0 {
            assert s[i] == s[1..][i-1];
          }
        }
      }
    }
  }

  lemma {:induction false} PrefixKeepsAtMostOnce<T(!new)>(s: seq<T>, n: nat)
    requires n <= |s| && AtMostOnce(s)
    ensures AtMostOnce(s[..n])
  {
    assert s == s[..n] + s[n..];
    forall x ensures multiset(s[..n])[x] <= 1 {
      assert multiset(s)[x] == multiset(s[..n])[x] + multiset(s[n..])[x];
    }
  }

  lemma {:induction false} TwoOccurrences<T>(s: seq<T>, a: nat, b: nat)
    requires a < b < |s| && s[a] == s[b]
    ensures multiset(s)[s[a]] >= 2
  {
    assert s == [s[0]] + s[1..];
    assert multiset(s) == multiset{s[0]} + multiset(s[1..]);
    if a == 0 {
      assert s[1..][b-1] == s[b];
      assert s[b] in multiset(s[1..]);
    } else {
      assert s[1..][a-1] == s[a] && s[1..][b-1] == s[b];
      TwoOccurrences(s[1..], a - 1, b - 1);
    }
  }

  lemma {:induction false} ThreeOccurrences<T>(s: seq<T>, a: nat, b: nat, c: nat)
    requires a < b < c < |s| && s[a] == s[b] == s[c]
    ensures multiset(s)[s[a]] >= 3
  {
    assert s == [s[0]] + s[1..];
    assert multiset(s) == multiset{s[0]} + multiset(s[1..]);
    assert s[1..][b-1] == s[b] && s[1..][c-1] == s[c];
    if a == 0 {
      TwoOccurrences(s[1..], b - 1, c - 1);
    } else {
      assert s[1..][a-1] == s[a];
      ThreeOccurrences(s[1..], a - 1, b - 1, c - 1);
    }
  }

  // ---------------------------------------------------------------------
  // Dealing a board
  // ---------------------------------------------------------------------

  /**
    A board's symbols, left to right, dealt from `chosen`: `PairsCount`
    different symbols of `pool`, each of them on exactly two cards.
   */
  ghost predicate WellDealt(pool: seq<Symbol>, syms: seq<Symbol>, chosen: seq<Symbol>)
  {
    && |syms| == BoardSize
    && |chosen| == PairsCount
    && AtMostOnce(chosen)
    && (forall x :: x in chosen ==> x in pool)
    && multiset(syms) == multiset(chosen) + multiset(chosen)
  }

  /** The symbols picked for a game: the first `PairsCount` of a shuffled pool. */
  function ChosenSymbols(pool: seq<Symbol>, poolChoices: seq<nat>): (r: seq<Symbol>)
    requires PairsCount <= |pool|
    ensures |r| == PairsCount
  {
    Shuffle(pool, poolChoices)[..PairsCount]
  }

  /** The board's symbols: the chosen ones twice over, shuffled. */
  function Deal(pool: seq<Symbol>, poolChoices: seq<nat>, deckChoices: seq<nat>): (r: seq<Symbol>)
    requires PairsCount <= |pool|
    ensures |r| == BoardSize
  {
    var chosen := ChosenSymbols(pool, poolChoices);
    Shuffle(chosen + chosen, deckChoices)
  }

  /** The first `n` of any shuffle of a pool without repeats: `n` different pool symbols. */
  lemma {:induction false} ShuffledPrefix(pool: seq<Symbol>, choices: seq<nat>, n: nat)
    requires NoDup(pool) && n <= |pool|
    ensures AtMostOnce(Shuffle(pool, choices)[..n])
    ensures forall x :: x in Shuffle(pool, choices)[..n] ==> x in pool
  {
    var shuffled := Shuffle(pool, choices);
    NoDupIffAtMostOnce(pool);
    assert AtMostOnce(shuffled) by {
      forall x ensures multiset(shuffled)[x] <= 1 {
        assert multiset(pool)[x] <= 1;
      }
    }
    PrefixKeepsAtMostOnce(shuffled, n);
    assert shuffled == shuffled[..n] + shuffled[n..];
    forall x | x in shuffled[..n] ensures x in pool {
      assert x in multiset(shuffled);
    }
  }

  /** A sequence of distinct symbols, doubled and shuffled, has each of them exactly twice. */
  lemma DoubledCounts(chosen: seq<Symbol>, choices: seq<nat>)
    requires AtMostOnce(chosen)
    ensures forall x :: multiset(Shuffle(chosen + chosen, choices))[x] == if x in chosen then 2 else 0
  {
    forall x ensures multiset(Shuffle(chosen + chosen, choices))[x] == if x in chosen then 2 else 0 {
      assert multiset(chosen)[x] <= 1;
    }
  }

  /** The game's pool has twenty different symbols. */
  lemma PoolHasNoDup()
    ensures NoDup(SymbolPool()) && |SymbolPool()| == PoolSize
  {
  }

  /**
    Every deal from a pool without repeats, whatever the random choices, is
    a well-formed board: eight different pool symbols, each on two cards.
   */
  lemma DealWellFormed(pool: seq<Symbol>, poolChoices: seq<nat>, deckChoices: seq<nat>)
    requires NoDup(pool) && PairsCount <= |pool|
    ensures WellDealt(pool, Deal(pool, poolChoices, deckChoices), ChosenSymbols(pool, poolChoices))
  {
    ShuffledPrefix(pool, poolChoices, PairsCount);
  }

  /** On a dealt board each chosen symbol is on exactly two cards and no other symbol appears. */
  lemma DealPairs(pool: seq<Symbol>, poolChoices: seq<nat>, deckChoices: seq<nat>)
    requires NoDup(pool) && PairsCount <= |pool|
    ensures forall x :: multiset(Deal(pool, poolChoices, deckChoices))[x]
                          == if x in ChosenSymbols(pool, poolChoices) then 2 else 0
  {
    ShuffledPrefix(pool, poolChoices, PairsCount);
    DoubledCounts(ChosenSymbols(pool, poolChoices), deckChoices);
  }

  /**
    Every well-formed board can be dealt: for each board there are random
    choices that make the setup produce it.
   */
  lemma DealReachesEvery(pool: seq<Symbol>, syms: seq<Symbol>, chosen: seq<Symbol>)
    requires NoDup(pool) && PairsCount <= |pool|
    requires WellDealt(pool, syms, chosen)
    ensures exists pc: seq<nat>, dc: seq<nat> ::
              Deal(pool, pc, dc) == syms && ChosenSymbols(pool, pc) == chosen
  {
    var order := chosen + Without(pool, chosen);
    assert multiset(order) == multiset(pool) by {
      WithoutSplits(pool, chosen);
    }
    var pc := ChoicesFor(pool, order);
    ShuffleReachesEvery(pool, order);
    assert order[..PairsCount] == chosen;
    assert ChosenSymbols(pool, pc) == chosen;
    var dc := ChoicesFor(chosen + chosen, syms);
    ShuffleReachesEvery(chosen + chosen, syms);
    assert Deal(pool, pc, dc) == syms;
  }

  /** The elements of `s` that do not occur in `drop`, in order. */
  function Without(s: seq<Symbol>, drop: seq<Symbol>): (r: seq<Symbol>)
    ensures forall x :: x in r ==> x in s && x !in drop
  {
    if s == [] then []
    else if s[0] in drop then Without(s[1..], drop)
    else [s[0]] + Without(s[1..], drop)
  }

  lemma {:induction false} WithoutSplits(s: seq<Symbol>, part: seq<Symbol>)
    requires NoDup(s) && AtMostOnce(part) && (forall x :: x in part ==> x in s)
    ensures multiset(part) + multiset(Without(s, part)) == multiset(s)
  {
    NoDupIffAtMostOnce(s);
    WithoutCounts(s, part);
    forall x ensures multiset(part)[x] + multiset(Without(s, part))[x] == multiset(s)[x] {
      assert multiset(s)[x] <= 1 && multiset(part)[x] <= 1;
      if x in part {
        assert x in multiset(s);
      }
    }
  }

  lemma {:induction false} WithoutCounts(s: seq<Symbol>, drop: seq<Symbol>)
    ensures forall x :: multiset(Without(s, drop))[x] == if x in drop then 0 else multiset(s)[x]
  {
    if s != [] {
      WithoutCounts(s[1..], drop);
      assert s == [s[0]] + s[1..];
    }
  }

  // ---------------------------------------------------------------------
  // Counting matched cards
  // ---------------------------------------------------------------------

  /** How many of the flags are set: the length of the filtered list. */
  function CountTrue(flags: seq<bool>): (n: nat)
    ensures n <= |flags|
  {
    if flags == [] then 0
    else (if flags[0] then 1 else 0) + CountTrue(flags[1..])
  }

  /** All flags are set exactly when the count reaches the length. */
  lemma {:induction false} CountTrueFull(flags: seq<bool>)
    ensures CountTrue(flags) == |flags| <==> forall i :: 0 <= i < |flags| ==> flags[i]
  {
    if flags != [] {
      CountTrueFull(flags[1..]);
      if forall i :: 0 <= i < |flags| ==> flags[i] {
        forall i | 0 <= i < |flags[1..]| ensures flags[1..][i] {
          assert flags[1..][i] == flags[i+1];
        }
      }
      if CountTrue(flags) == |flags| {
        forall i | 0 <= i < |flags| ensures flags[i] {
          if i > 0 {
            assert flags[i] == flags[1..][i-1];
          }
        }
      }
    }
  }

  /**
    Cards with the same symbol agree on being matched: the pair of a symbol
    is matched as a whole or not at all.
   */
  ghost predicate Paired(syms: seq<Symbol>, flags: seq<bool>)
  {
    && |syms| == |flags|
    && forall i, j :: 0 <= i < |syms| && 0 <= j < |syms| && syms[i] == syms[j] ==> flags[i] == flags[j]
  }

  /** The symbols of the matched cards. */
  ghost function MatchedSymbols(syms: seq<Symbol>, flags: seq<bool>): set<Symbol>
    requires |syms| == |flags|
  {
    set i | 0 <= i < |syms| && flags[i] :: syms[i]
  }

  /** The symbols of the matched cards, counted with repetition. */
  ghost function MatchedBag(syms: seq<Symbol>, flags: seq<bool>): (m: multiset<Symbol>)
    requires |syms| == |flags|
    ensures |m| == CountTrue(flags)
  {
    if syms == [] then multiset{}
    else (if flags[0] then multiset{syms[0]} else multiset{}) + MatchedBag(syms[1..], flags[1..])
  }

  lemma {:induction false} MatchedBagAt(syms: seq<Symbol>, flags: seq<bool>, x: Symbol)
    requires |syms| == |flags|
    ensures (forall i :: 0 <= i < |syms| && syms[i] == x ==> flags[i])
              ==> MatchedBag(syms, flags)[x] == multiset(syms)[x]
    ensures (forall i :: 0 <= i < |syms| && syms[i] == x ==> !flags[i])
              ==> MatchedBag(syms, flags)[x] == 0
  {
    if syms != [] {
      MatchedBagAt(syms[1..], flags[1..], x);
      assert syms == [syms[0]] + syms[1..];
      assert forall i :: 0 <= i < |syms[1..]| ==> syms[1..][i] == syms[i+1] && flags[1..][i] == flags[i+1];
    }
  }

  lemma {:induction false} SetMultisetSize(s: set<Symbol>)
    ensures |multiset(s)| == |s|
  {
    if s != {} {
      var x :| x in s;
      SetMultisetSize(s - {x});
      assert multiset(s) == multiset(s - {x}) + multiset{x};
    }
  }

  /**
    On a well-dealt board whose pairs are matched as wholes, the number of
    matched cards is twice the number of matched pairs.
   */
  lemma MatchedCountIsPairs(pool: seq<Symbol>, syms: seq<Symbol>, flags: seq<bool>, chosen: seq<Symbol>)
    requires WellDealt(pool, syms, chosen) && Paired(syms, flags)
    ensures CountTrue(flags) == 2 * |MatchedSymbols(syms, flags)|
  {
    var s := MatchedSymbols(syms, flags);
    var bag := MatchedBag(syms, flags);
    forall x ensures bag[x] == (multiset(s) + multiset(s))[x] {
      MatchedBagAt(syms, flags, x);
      if x in s {
        var k :| 0 <= k < |syms| && flags[k] && syms[k] == x;
        assert x in multiset(syms);
        assert multiset(chosen)[x] == 1;
      }
    }
    assert bag == multiset(s) + multiset(s);
    SetMultisetSize(s);
  }

  /** On a well-dealt board, only two cards carry any one symbol. */
  lemma OnlyTwo(pool: seq<Symbol>, syms: seq<Symbol>, chosen: seq<Symbol>, a: nat, b: nat, i: nat)
    requires WellDealt(pool, syms, chosen)
    requires a < |syms| && b < |syms| && i < |syms| && a != b
    requires syms[a] == syms[b] == syms[i]
    ensures i == a || i == b
  {
    assert multiset(chosen)[syms[a]] <= 1;
    if i != a && i != b {
      if a < b {
        if i < a { ThreeOccurrences(syms, i, a, b); }
        else if i < b { ThreeOccurrences(syms, a, i, b); }
        else { ThreeOccurrences(syms, a, b, i); }
      } else {
        if i < b { ThreeOccurrences(syms, i, b, a); }
        else if i < a { ThreeOccurrences(syms, b, i, a); }
        else { ThreeOccurrences(syms, b, a, i); }
      }
    }
  }

  /** Marking the two cards of one symbol as matched keeps pairs whole. */
  lemma MarkPairKeepsPaired(pool: seq<Symbol>, syms: seq<Symbol>, flags: seq<bool>, chosen: seq<Symbol>, a: nat, b: nat)
    requires WellDealt(pool, syms, chosen) && Paired(syms, flags)
    requires a < |syms| && b < |syms| && a != b && syms[a] == syms[b]
    ensures Paired(syms, flags[a := true][b := true])
  {
    var marked := flags[a := true][b := true];
    forall i, j | 0 <= i < |syms| && 0 <= j < |syms| && syms[i] == syms[j]
      ensures marked[i] == marked[j]
    {
      if syms[i] == syms[a] {
        OnlyTwo(pool, syms, chosen, a, b, i);
        OnlyTwo(pool, syms, chosen, a, b, j);
      }
    }
  }
}
