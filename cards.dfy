/**
 * Cards and the deck of the lookup-table generator
 * (generate-lookup-tables/generate-lookup-table.py, lines 16-17, 69, 72-73).
 * A card is a (rank, suit) pair of indices into the rank and suit tables; the
 * evaluator library's integer encoding of cards is not part of this model.
 */
module Cards {
  import opened Results

  /** The table order of ranks, weakest first: `ranks` in both scripts. */
  const RankChars: string := "23456789TJQKA"

  /** The suit symbols, in the order the deck is built: `suits`. */
  const SuitChars: string := "sdch"

  /** A rank, as its index into `RankChars`. */
  type Rank = i: int | 0 <= i < 13

  /** A suit, as its index into `SuitChars`. */
  type Suit = i: int | 0 <= i < 4

  /** The two suits the table generator deals the hero: "s" and "c". */
  const Spades: Suit := 0
  const Clubs: Suit := 2

  datatype Card = Card(rank: Rank, suit: Suit)

  /** Different ranks have different symbols, so a symbol identifies its rank. */
  lemma RankCharsDistinct()
    ensures NoDuplicates(RankChars)
  {
  }

  /** No element of `s` occurs twice. */
  predicate NoDuplicates<T(==)>(s: seq<T>) {
    forall i, j :: 0 <= i < j < |s| ==> s[i] != s[j]
  }

  /** Having no duplicates is the same as every multiplicity being at most one. */
  lemma {:induction false} NoDuplicatesByMultiplicity<T>(s: seq<T>)
    ensures NoDuplicates(s) <==> forall x :: multiset(s)[x] <= 1
  {
    if s != [] {
      var t := s[1..];
      NoDuplicatesByMultiplicity(t);
      assert s == [s[0]] + t;
      assert multiset(s) == multiset{s[0]} + multiset(t);
      if NoDuplicates(s) {
        assert NoDuplicates(t) by {
          forall i, j | 0 <= i < j < |t| ensures t[i] != t[j] {
            assert t[i] == s[i + 1] && t[j] == s[j + 1];
          }
        }
        forall x ensures multiset(s)[x] <= 1 {
          assert multiset(s)[x] == (if x == s[0] then 1 else 0) + multiset(t)[x];
        }
      } else {
        var i, j :| 0 <= i < j < |s| && s[i] == s[j];
        if i == 0 {
          assert t[j - 1] == s[0];
          assert multiset(s)[s[0]] >= 2;
        } else {
          assert t[i - 1] == t[j - 1];
          var x :| multiset(t)[x] > 1;
          assert multiset(s)[x] >= multiset(t)[x];
        }
      }
    }
  }

  /**
   * The 52-card deck as `product(suits, ranks)` builds it: suit-major, ranks
   * ascending within each suit.
   */
  function NewDeck(): seq<Card> {
    seq(52, i requires 0 <= i < 52 => Card(i % 13, i / 13))
  }

  /** The deck holds 52 pairwise-distinct cards and every card occurs in it exactly once. */
  lemma NewDeckFacts()
    ensures |NewDeck()| == 52
    ensures NoDuplicates(NewDeck())
    ensures forall c: Card :: multiset(NewDeck())[c] == 1
  {
    var deck := NewDeck();
    forall i, j | 0 <= i < j < 52 ensures deck[i] != deck[j] {
      assert i == 13 * (i / 13) + i % 13 && j == 13 * (j / 13) + j % 13;
    }
    NoDuplicatesByMultiplicity(deck);
    forall c: Card ensures multiset(deck)[c] == 1 {
      assert deck[13 * c.suit + c.rank] == c;
    }
  }

  /**
   * Python's `list.remove(x)`: drops the first occurrence of `x`; `None`
   * stands for the `ValueError` raised when `x` is absent.
   */
  function Remove(s: seq<Card>, x: Card): (r: Option<seq<Card>>)
    ensures r.Some? <==> x in s
    ensures r.Some? ==> |r.value| == |s| - 1
    ensures r.Some? ==> multiset(r.value) == multiset(s) - multiset{x}
  {
    if s == [] then None
    else if s[0] == x then
      assert s == [x] + s[1..];
      Some(s[1..])
    else match Remove(s[1..], x)
      case None => None
      case Some(rest) =>
        assert s == [s[0]] + s[1..];
        Some([s[0]] + rest)
  }

  /**
   * The generator's deck once `deck.remove(card_1)` and `deck.remove(card_2)`
   * have run; `None` when either removal raises.
   */
  function HeroDeck(c1: Card, c2: Card): Option<seq<Card>> {
    match Remove(NewDeck(), c1)
    case None => None
    case Some(d) => Remove(d, c2)
  }

  /**
   * Removing the two hero cards fails exactly when they are the same card;
   * otherwise 50 distinct cards remain: all but the two hero cards.
   */
  lemma HeroDeckFacts(c1: Card, c2: Card)
    ensures HeroDeck(c1, c2).Some? <==> c1 != c2
    ensures c1 != c2 ==> |HeroDeck(c1, c2).value| == 50
    ensures c1 != c2 ==> NoDuplicates(HeroDeck(c1, c2).value)
    ensures c1 != c2 ==> multiset(HeroDeck(c1, c2).value) == multiset(NewDeck()) - multiset{c1, c2}
    ensures c1 != c2 ==> forall c :: c in HeroDeck(c1, c2).value <==> c != c1 && c != c2
  {
    NewDeckFacts();
    var full := NewDeck();
    assert c1 in multiset(full);
    var d1 := Remove(full, c1).value;
    assert multiset(d1)[c2] == if c2 == c1 then 0 else 1;
    if c1 != c2 {
      var d2 := Remove(d1, c2).value;
      assert multiset(d2) == multiset(full) - multiset{c1, c2};
      forall x ensures multiset(d2)[x] <= 1 {
        assert multiset(d2)[x] <= multiset(full)[x];
      }
      NoDuplicatesByMultiplicity(d2);
      forall c ensures c in d2 <==> c != c1 && c != c2 {
        assert multiset(d2)[c] == if c == c1 || c == c2 then 0 else 1;
      }
    }
  }

  /** Two distinct hero cards can both be removed. */
  lemma HeroDeckDefined(c1: Card, c2: Card)
    requires c1 != c2
    ensures HeroDeck(c1, c2).Some?
  {
    HeroDeckFacts(c1, c2);
  }

  /** The first removal always succeeds; the second fails exactly on a repeated card; together they give the hero deck. */
  lemma HeroDeckByRemovals(c1: Card, c2: Card)
    ensures Remove(NewDeck(), c1).Some?
    ensures Remove(Remove(NewDeck(), c1).value, c2).Some? <==> c1 != c2
    ensures HeroDeck(c1, c2) == Remove(Remove(NewDeck(), c1).value, c2)
  {
    NewDeckFacts();
    assert c1 in multiset(NewDeck());
    HeroDeckFacts(c1, c2);
  }
}
