/** The logical deck: the card values it holds, the 52-card order in which
    `initDeck` builds it, and the swap sequence its Fisher-Yates shuffle
    performs.  Everything here is a value; the deck field that these
    functions describe lives in the `Game` class. */
module Deck {

  /** The `{ rank, suit }` record the deck holds. */
  datatype CardData = CardData(rank: string, suit: string)

  /** The suits and ranks in the order `initDeck` iterates them. */
  const Suits: seq<string> := ["♠", "♥", "♣", "♦"]
  const Ranks: seq<string> := ["2", "3", "4", "5", "6", "7", "8", "9", "10", "J", "Q", "K", "A"]

  ghost predicate Distinct<T>(s: seq<T>)
  {
    forall i, j :: 0 <= i < j < |s| ==> s[i] != s[j]
  }

  /** The deck as the nested loops of `initDeck` push it: suit by suit,
      each suit with its ranks in ascending order. */
  function FullDeck(): (d: seq<CardData>)
  {
    seq(52, i requires 0 <= i < 52 => CardData(Ranks[i % 13], Suits[i / 13]))
  }

  lemma RanksDistinct()
    ensures Distinct(Ranks)
  {
    forall i, j | 0 <= i < j < |Ranks| ensures Ranks[i] != Ranks[j] {
      assert i == 0 || i == 1 || i == 2 || i == 3 || i == 4 || i == 5 || i == 6 || i == 7
          || i == 8 || i == 9 || i == 10 || i == 11;
      assert j == 1 || j == 2 || j == 3 || j == 4 || j == 5 || j == 6 || j == 7 || j == 8
          || j == 9 || j == 10 || j == 11 || j == 12;
    }
  }

  lemma SuitsDistinct()
    ensures Distinct(Suits)
  {
    forall i, j | 0 <= i < j < |Suits| ensures Suits[i] != Suits[j] {
      assert i == 0 || i == 1 || i == 2;
      assert j == 1 || j == 2 || j == 3;
    }
  }

  /** No (rank, suit) pair occurs twice in the freshly built deck. */
  lemma FullDeckDistinct()
    ensures |FullDeck()| == 52 && Distinct(FullDeck())
  {
    RanksDistinct();
    SuitsDistinct();
    var d := FullDeck();
    forall i, j | 0 <= i < j < 52 ensures d[i] != d[j] {
      assert i == 13 * (i / 13) + i % 13;
      assert j == 13 * (j / 13) + j % 13;
      assert i % 13 != j % 13 || i / 13 != j / 13;
    }
  }

  /** The card at position `13 * s + r` is rank number `r` of suit number `s`. */
  lemma FullDeckAt(r: nat, s: nat)
    requires r < 13 && s < 4
    ensures 13 * s + r < |FullDeck()| && FullDeck()[13 * s + r] == CardData(Ranks[r], Suits[s])
  {
    var i := 13 * s + r;
    assert i % 13 == r && i / 13 == s;
  }

  /** The full deck holds exactly the standard cards: every rank of every suit. */
  lemma FullDeckMembers(c: CardData)
    ensures c in FullDeck() <==> c.rank in Ranks && c.suit in Suits
  {
    if c.rank in Ranks && c.suit in Suits {
      var r :| 0 <= r < 13 && Ranks[r] == c.rank;
      var s :| 0 <= s < 4 && Suits[s] == c.suit;
      FullDeckAt(r, s);
    }
  }

  /** In a duplicate-free sequence every value occurs at most once. */
  lemma {:induction false} DistinctCount<T>(s: seq<T>, x: T)
    requires Distinct(s)
    ensures multiset(s)[x] == if x in s then 1 else 0
  {
    if s != [] {
      assert s == [s[0]] + s[1..];
      assert Distinct(s[1..]) by {
        forall i, j | 0 <= i < j < |s[1..]| ensures s[1..][i] != s[1..][j] {
          assert s[1..][i] == s[i + 1] && s[1..][j] == s[j + 1];
        }
      }
      DistinctCount(s[1..], x);
      forall j | 0 <= j < |s[1..]| ensures s[1..][j] != s[0] {
        assert s[1..][j] == s[j + 1];
      }
    }
  }

  /** Building a sequence one entry at a time extends its prefix. */
  lemma PrefixSnoc<T>(s: seq<T>, n: nat)
    requires n < |s|
    ensures s[..n + 1] == s[..n] + [s[n]]
  {
  }

  /** Each of the 52 (rank, suit) pairs occurs exactly once in the full deck. */
  lemma FullDeckHasEachCardOnce(r: nat, s: nat)
    requires r < 13 && s < 4
    ensures multiset(FullDeck())[CardData(Ranks[r], Suits[s])] == 1
  {
    FullDeckDistinct();
    FullDeckAt(r, s);
    DistinctCount(FullDeck(), CardData(Ranks[r], Suits[s]));
  }

  lemma TwiceCountsTwice<T>(s: seq<T>, i: nat, j: nat)
    requires i < j < |s|
    ensures s[i] == s[j] ==> multiset(s)[s[j]] >= 2
  {
    assert s == s[..j] + s[j..];
    assert s[i] == s[..j][i];
    assert s[j] == s[j..][0];
  }

  /** Any arrangement of cards with the full deck's multiset has 52 cards and
      no duplicates: conservation of the full deck rules out duplicates. */
  lemma ConservedMeansDistinct(cards: seq<CardData>)
    requires multiset(cards) == multiset(FullDeck())
    ensures |cards| == 52 && Distinct(cards)
  {
    assert |cards| == |multiset(cards)| == |multiset(FullDeck())| == 52;
    FullDeckDistinct();
    forall i, j | 0 <= i < j < |cards| ensures cards[i] != cards[j] {
      TwiceCountsTwice(cards, i, j);
      DistinctCount(FullDeck(), cards[j]);
    }
  }

  /** Exchanging two entries, as one step of the shuffle does. */
  function Swap<T>(s: seq<T>, i: nat, j: nat): (r: seq<T>)
    requires i < |s| && j < |s|
    ensures |r| == |s|
  {
    seq(|s|, k requires 0 <= k < |s| => if k == j then s[i] else if k == i then s[j] else s[k])
  }

  /** A swap keeps the multiset. */
  lemma SwapPermutes<T>(s: seq<T>, i: nat, j: nat)
    requires i < |s| && j < |s|
    ensures multiset(Swap(s, i, j)) == multiset(s)
  {
    assert Swap(s, i, j) == s[i := s[j]][j := s[i]];
  }

  /** `picks[t]` is the index chosen at step `t` of the shuffle of an
      `n`-card deck, where the loop index is `i == n - 1 - t`: it lies in
      `[0, i]`, and the loop stops before `i` reaches 0. */
  ghost predicate FisherYatesPicks(n: nat, picks: seq<nat>)
  {
    (picks == [] || |picks| < n) &&
    forall t :: 0 <= t < |picks| ==> picks[t] <= n - 1 - t
  }

  /** The deck after the first `t` steps of the shuffle, whose choices are
      `picks`: step `t - 1` swaps entry `|s| - t` with entry `picks[t - 1]`. */
  function SwapsUpTo<T>(s: seq<T>, picks: seq<nat>, t: nat): (r: seq<T>)
    requires FisherYatesPicks(|s|, picks) && t <= |picks|
    ensures |r| == |s|
    decreases t
  {
    if t == 0 then s
    else Swap(SwapsUpTo(s, picks, t - 1), |s| - t, picks[t - 1])
  }

  /** The deck after the shuffle has performed every swap chosen in `picks`. */
  function Swaps<T>(s: seq<T>, picks: seq<nat>): (r: seq<T>)
    requires FisherYatesPicks(|s|, picks)
    ensures |r| == |s|
  {
    SwapsUpTo(s, picks, |picks|)
  }

  /** A valid choice for the next step extends valid choices. */
  lemma PicksSnoc(n: nat, picks: seq<nat>, j: nat)
    requires FisherYatesPicks(n, picks)
    requires |picks| + 1 < n && j <= n - 1 - |picks|
    ensures FisherYatesPicks(n, picks + [j])
  {
    var longer := picks + [j];
    forall u | 0 <= u < |longer| ensures longer[u] <= n - 1 - u {
      if u < |picks| {
        assert longer[u] == picks[u];
      }
    }
  }

  /** A later choice does not change what the earlier steps did. */
  lemma {:induction false} SwapsUpToExtend<T>(s: seq<T>, picks: seq<nat>, j: nat, t: nat)
    requires FisherYatesPicks(|s|, picks) && FisherYatesPicks(|s|, picks + [j]) && t <= |picks|
    ensures SwapsUpTo(s, picks + [j], t) == SwapsUpTo(s, picks, t)
    decreases t
  {
    if t > 0 {
      SwapsUpToExtend(s, picks, j, t - 1);
      assert (picks + [j])[t - 1] == picks[t - 1];
    }
  }

  /** One more loop step appends one more swap. */
  lemma SwapsSnoc<T>(s: seq<T>, picks: seq<nat>, j: nat)
    requires FisherYatesPicks(|s|, picks) && FisherYatesPicks(|s|, picks + [j])
    requires |picks| + 1 < |s| && j <= |s| - 1 - |picks|
    ensures Swaps(s, picks + [j]) == Swap(Swaps(s, picks), |s| - 1 - |picks|, j)
  {
    SwapsUpToExtend(s, picks, j, |picks|);
    assert (picks + [j])[|picks|] == j;
  }

  /** However the indices were chosen, each step only rearranges the deck. */
  lemma {:induction false} SwapsUpToPermutes<T>(s: seq<T>, picks: seq<nat>, t: nat)
    requires FisherYatesPicks(|s|, picks) && t <= |picks|
    ensures multiset(SwapsUpTo(s, picks, t)) == multiset(s)
    decreases t
  {
    if t > 0 {
      var before := SwapsUpTo(s, picks, t - 1);
      SwapsUpToPermutes(s, picks, t - 1);
      SwapPermutes(before, |s| - t, picks[t - 1]);
      assert multiset(SwapsUpTo(s, picks, t)) == multiset(before);
    }
  }

  /** However the indices were chosen, the shuffle only rearranges the deck. */
  lemma SwapsPermutes<T>(s: seq<T>, picks: seq<nat>)
    requires FisherYatesPicks(|s|, picks)
    ensures multiset(Swaps(s, picks)) == multiset(s)
  {
    SwapsUpToPermutes(s, picks, |picks|);
  }

  /** Moving the top card of `deck` onto the end of `drawn` keeps their
      joint multiset. */
  lemma PopConserves(deck: seq<CardData>, drawn: seq<CardData>)
    requires deck != []
    ensures multiset(deck[..|deck| - 1] + (drawn + [deck[|deck| - 1]])) == multiset(deck + drawn)
  {
    var n := |deck| - 1;
    assert deck == deck[..n] + [deck[n]];
  }

  /** `s` read from its last entry to its first: the order in which
      repeated pops from the top of a deck take its records. */
  function Reverse<T>(s: seq<T>): (r: seq<T>)
    ensures |r| == |s|
  {
    seq(|s|, i requires 0 <= i < |s| => s[|s| - 1 - i])
  }

  /** Moving the top card of `deck` onto the end of `drawn` keeps the deck
      followed by the drawn cards, latest first: nothing drawn is lost or
      reordered. */
  lemma PopKeepsOrder(deck: seq<CardData>, drawn: seq<CardData>)
    requires deck != []
    ensures deck[..|deck| - 1] + Reverse(drawn + [deck[|deck| - 1]]) == deck + Reverse(drawn)
  {
    var n := |deck| - 1;
    assert Reverse(drawn + [deck[n]]) == [deck[n]] + Reverse(drawn);
    assert deck == deck[..n] + [deck[n]];
  }
}
