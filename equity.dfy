/**
 * The Monte-Carlo equity engine of the lookup-table generator
 * (generate-lookup-tables/generate-lookup-table.py): the outcome classifier
 * `eval_table`, the trial sampler, the aggregator `get_probabilities`, the
 * payoff formula `expected_gain` and the range check on the opponent count.
 *
 * The hand evaluator is a function parameter: lower scores are stronger, and
 * the evaluator library promises scores in [1, 7462]. The random shuffle is a
 * function parameter too: given the deck and the number of the trial, it
 * returns the reordered deck.
 */
module Equity {
  import opened Results
  import opened Cards

  datatype Outcome = Win | Tie | Lose

  datatype Error = CardNotFound | DivisionByZero | TooFewPlayers | TooManyPlayers

  /** Probabilities of winning and of tying, as `get_probabilities` returns them. */
  datatype Probabilities = Probabilities(wins: real, ties: real)

  /** `evaluator.evaluate(board, hole)`: lower is stronger. */
  type Scorer = (seq<Card>, seq<Card>) -> int

  /** `shuffle(deck)` at trial `t`: the reordered deck. */
  type Shuffler = (seq<Card>, nat) -> seq<Card>

  /** The strongest and the weakest score the evaluator library returns. */
  const BestScore: int := 1
  const WorstScore: int := 7462

  /** The initial value of the running best opponent score in `eval_table`. */
  const Sentinel: int := 9999

  /** Most opponents the entry point accepts. */
  const MaxOpponents: int := 22

  /** The evaluator's promise: every score lies in [1, 7462]. */
  ghost predicate InScoreRange(score: Scorer) {
    forall board, hole :: BestScore <= score(board, hole) <= WorstScore
  }

  /** What `random.shuffle` promises: it only reorders the deck. */
  ghost predicate Permutes(shuffle: Shuffler) {
    forall deck, t :: multiset(shuffle(deck, t)) == multiset(deck)
  }

  /** What one unit bet per player pays the hero for each outcome: every opponent's unit, nothing, the own unit. */
  function Payoff(o: Outcome, otherPlayers: nat): real {
    match o
    case Win => otherPlayers as real
    case Tie => 0.0
    case Lose => -1.0
  }

  /**
   * `expected_gain(wins, ties)`: a one-unit bet per player, the opponents
   * pooled; a win collects one unit from each opponent, a loss forfeits the
   * stake and a tie returns it. The result is the expected payoff when the
   * hero wins with probability `wins`, ties with probability `ties` and loses
   * otherwise.
   */
  function ExpectedGain(wins: real, ties: real, otherPlayers: nat): (g: real)
    ensures g == wins * Payoff(Win, otherPlayers) + ties * Payoff(Tie, otherPlayers)
                 + (1.0 - wins - ties) * Payoff(Lose, otherPlayers)
  {
    wins * otherPlayers as real - (1.0 - wins - ties) * 1.0
  }

  /** A sure win is worth `otherPlayers`, a sure tie nothing and a sure loss one unit. */
  lemma ExpectedGainCorners(otherPlayers: nat)
    ensures ExpectedGain(1.0, 0.0, otherPlayers) == otherPlayers as real
    ensures ExpectedGain(0.0, 1.0, otherPlayers) == 0.0
    ensures ExpectedGain(0.0, 0.0, otherPlayers) == -1.0
  {
  }

  /** The gain grows strictly with the chance of winning and with the chance of tying. */
  lemma ExpectedGainMonotone(w1: real, t1: real, w2: real, t2: real, otherPlayers: nat)
    requires w1 <= w2 && t1 <= t2 && (w1 < w2 || t1 < t2)
    ensures ExpectedGain(w1, t1, otherPlayers) < ExpectedGain(w2, t2, otherPlayers)
  {
    assert w1 * otherPlayers as real <= w2 * otherPlayers as real;
  }

  /** For probabilities (each in [0, 1], sum at most 1) the gain lies in [-1, otherPlayers]. */
  lemma ExpectedGainBounds(wins: real, ties: real, otherPlayers: nat)
    requires 0.0 <= wins && 0.0 <= ties && wins + ties <= 1.0
    ensures -1.0 <= ExpectedGain(wins, ties, otherPlayers) <= otherPlayers as real
  {
    assert wins * otherPlayers as real <= 1.0 * otherPlayers as real;
    assert 0.0 <= wins * otherPlayers as real;
  }

  function Min(a: int, b: int): int {
    if a <= b then a else b
  }

  /**
   * The reference outcome "best hand wins, ties shared", seen from the hero:
   * LOSE when some opponent is strictly stronger, TIE when none is but one is
   * as strong, WIN when every opponent is strictly weaker.
   */
  function Showdown(hero: int, opponents: seq<int>): Outcome {
    if exists i :: 0 <= i < |opponents| && opponents[i] < hero then Lose
    else if exists i :: 0 <= i < |opponents| && opponents[i] == hero then Tie
    else Win
  }

  /** `max_other` after scanning `scores`: the lowest of them, or 9999 when that is lower. */
  function SentinelBest(scores: seq<int>): int {
    if scores == [] then Sentinel else Min(SentinelBest(scores[..|scores| - 1]), scores[|scores| - 1])
  }

  /**
   * When no opponent beats the hero and the hero's score is below the
   * sentinel, the running minimum equals the hero's score exactly when some
   * opponent ties the hero.
   */
  lemma {:induction false} SentinelBestDetectsTie(hero: int, opponents: seq<int>)
    requires hero < Sentinel
    requires forall i :: 0 <= i < |opponents| ==> hero <= opponents[i]
    ensures hero <= SentinelBest(opponents)
    ensures SentinelBest(opponents) == hero <==> exists i :: 0 <= i < |opponents| && opponents[i] == hero
  {
    if opponents != [] {
      var n := |opponents| - 1;
      var front := opponents[..n];
      SentinelBestDetectsTie(hero, front);
      if SentinelBest(opponents) == hero && opponents[n] != hero {
        var i :| 0 <= i < |front| && front[i] == hero;
        assert opponents[i] == hero;
      }
    }
  }

  /** The score of every opponent hand against the board. */
  function Scores(score: Scorer, board: seq<Card>, hands: seq<seq<Card>>): (r: seq<int>)
    ensures |r| == |hands|
    ensures forall i :: 0 <= i < |hands| ==> r[i] == score(board, hands[i])
  {
    seq(|hands|, i requires 0 <= i < |hands| => score(board, hands[i]))
  }

  /**
   * `eval_table`: scores the hero and then each opponent, returning LOSE at the
   * first opponent who scores lower than the hero and otherwise comparing the
   * hero's score with the best opponent score, tracked from the sentinel 9999.
   */
  method EvalTable(score: Scorer, myHand: seq<Card>, sharedCards: seq<Card>, otherHands: seq<seq<Card>>)
    returns (r: Outcome)
    ensures var my := score(sharedCards, myHand);
      r == Lose <==> exists i :: 0 <= i < |otherHands| && score(sharedCards, otherHands[i]) < my
    ensures var my := score(sharedCards, myHand);
      r == Tie <==> (forall i :: 0 <= i < |otherHands| ==> my <= score(sharedCards, otherHands[i]))
                    && SentinelBest(Scores(score, sharedCards, otherHands)) == my
    ensures score(sharedCards, myHand) < Sentinel ==>
      r == Showdown(score(sharedCards, myHand), Scores(score, sharedCards, otherHands))
  {
    var myScore := score(sharedCards, myHand);
    ghost var scores := Scores(score, sharedCards, otherHands);
    var maxOther := Sentinel;
    for i := 0 to |otherHands|
      invariant forall j :: 0 <= j < i ==> myScore <= scores[j]
      invariant maxOther == SentinelBest(scores[..i])
    {
      var opponentResult := score(sharedCards, otherHands[i]);
      if opponentResult < myScore {
        return Lose;
      }
      assert scores[..i + 1][..i] == scores[..i];
      maxOther := Min(maxOther, opponentResult);
    }
    assert scores[..|otherHands|] == scores;
    if myScore < Sentinel {
      SentinelBestDetectsTie(myScore, scores);
    }
    if maxOther == myScore {
      return Tie;
    } else {
      return Win;
    }
  }

  /** Python's slice `s[lo:hi]` for 0 <= lo <= hi: bounds past the end are clamped. */
  function Slice(s: seq<Card>, lo: nat, hi: nat): (r: seq<Card>)
    requires lo <= hi
    ensures hi <= |s| ==> r == s[lo..hi]
    ensures hi > |s| ==> r == if lo <= |s| then s[lo..] else []
    ensures |r| <= hi - lo
  {
    var l := if lo <= |s| then lo else |s|;
    var h := if hi <= |s| then hi else |s|;
    s[l..h]
  }

  /** One trial's deal from the shuffled deck: the board and each opponent's hole cards. */
  datatype Deal = Deal(board: seq<Card>, hands: seq<seq<Card>>)

  /**
   * The sampler: the board is `deck[:5]` and opponent `x` holds
   * `deck[5+2x : 7+2x]`.
   */
  function DealFrom(deck: seq<Card>, otherPlayers: nat): (d: Deal)
    ensures |d.hands| == otherPlayers
  {
    Deal(Slice(deck, 0, 5), seq(otherPlayers, x requires 0 <= x < otherPlayers => Slice(deck, 5 + 2 * x, 7 + 2 * x)))
  }

  /** No card of `a` is a card of `b`. */
  predicate Disjoint(a: seq<Card>, b: seq<Card>) {
    forall i, j :: 0 <= i < |a| && 0 <= j < |b| ==> a[i] != b[j]
  }

  /** A proper deal: 5 board cards, 2 cards per opponent, no card dealt twice or taken from the hero. */
  predicate ProperDeal(hero: seq<Card>, d: Deal) {
    && |d.board| == 5
    && NoDuplicates(d.board)
    && Disjoint(hero, d.board)
    && (forall x :: 0 <= x < |d.hands| ==> |d.hands[x]| == 2 && NoDuplicates(d.hands[x]))
    && (forall x :: 0 <= x < |d.hands| ==> Disjoint(hero, d.hands[x]) && Disjoint(d.board, d.hands[x]))
    && (forall x, y :: 0 <= x < y < |d.hands| ==> Disjoint(d.hands[x], d.hands[y]))
  }

  /**
   * A deck without duplicates and without the hero's cards, holding at least
   * `5 + 2 * otherPlayers` cards, yields a proper deal: board at positions
   * 0..4, opponent `x` at positions 5+2x and 6+2x.
   */
  lemma DealIsProper(hero: seq<Card>, deck: seq<Card>, otherPlayers: nat)
    requires NoDuplicates(deck)
    requires forall c :: c in hero ==> c !in deck
    requires 5 + 2 * otherPlayers <= |deck|
    ensures DealFrom(deck, otherPlayers).board == deck[..5]
    ensures forall x :: 0 <= x < otherPlayers ==>
      DealFrom(deck, otherPlayers).hands[x] == [deck[5 + 2 * x], deck[6 + 2 * x]]
    ensures ProperDeal(hero, DealFrom(deck, otherPlayers))
  {
    var d := DealFrom(deck, otherPlayers);
    DealLayout(deck, otherPlayers);
    LaidOutCardsDistinct(deck, d);
    LaidOutAvoidsHero(hero, deck, d);
  }

  /** The deal takes the board from positions 0..4 and opponent `x`'s cards from 5+2x and 6+2x. */
  predicate LaidOut(deck: seq<Card>, d: Deal) {
    && 5 + 2 * |d.hands| <= |deck|
    && d.board == deck[..5]
    && forall x :: 0 <= x < |d.hands| ==> d.hands[x] == [deck[5 + 2 * x], deck[6 + 2 * x]]
  }

  /** With enough cards, the board is the first five and opponent `x` holds positions 5+2x and 6+2x. */
  lemma DealLayout(deck: seq<Card>, otherPlayers: nat)
    requires 5 + 2 * otherPlayers <= |deck|
    ensures LaidOut(deck, DealFrom(deck, otherPlayers))
  {
    var d := DealFrom(deck, otherPlayers);
    forall x | 0 <= x < otherPlayers
      ensures d.hands[x] == deck[5 + 2 * x .. 7 + 2 * x] == [deck[5 + 2 * x], deck[6 + 2 * x]]
    {
    }
  }

  /** Cards laid out from distinct positions of a duplicate-free deck are distinct. */
  lemma LaidOutCardsDistinct(deck: seq<Card>, d: Deal)
    requires NoDuplicates(deck) && LaidOut(deck, d)
    ensures |d.board| == 5 && NoDuplicates(d.board)
    ensures forall x :: 0 <= x < |d.hands| ==> |d.hands[x]| == 2 && NoDuplicates(d.hands[x])
    ensures forall x :: 0 <= x < |d.hands| ==> Disjoint(d.board, d.hands[x])
    ensures forall x, y :: 0 <= x < y < |d.hands| ==> Disjoint(d.hands[x], d.hands[y])
  {
    forall x, i, j | 0 <= x < |d.hands| && 0 <= i < 5 && 0 <= j < 2
      ensures d.board[i] != d.hands[x][j]
    {
      assert d.board[i] == deck[i] && d.hands[x][j] == deck[5 + 2 * x + j];
    }
    forall x, y, i, j | 0 <= x < y < |d.hands| && 0 <= i < 2 && 0 <= j < 2
      ensures d.hands[x][i] != d.hands[y][j]
    {
      assert d.hands[x][i] == deck[5 + 2 * x + i] && d.hands[y][j] == deck[5 + 2 * y + j];
    }
  }

  /** Cards laid out from a deck that lacks the hero's cards are none of the hero's cards. */
  lemma LaidOutAvoidsHero(hero: seq<Card>, deck: seq<Card>, d: Deal)
    requires (forall c :: c in hero ==> c !in deck) && LaidOut(deck, d)
    ensures Disjoint(hero, d.board)
    ensures forall x :: 0 <= x < |d.hands| ==> Disjoint(hero, d.hands[x])
  {
    forall i, j | 0 <= i < |hero| && 0 <= j < 5 ensures hero[i] != d.board[j] {
      assert d.board[j] in deck;
    }
    forall x, i, j | 0 <= x < |d.hands| && 0 <= i < |hero| && 0 <= j < 2
      ensures hero[i] != d.hands[x][j]
    {
      assert d.hands[x][j] in deck;
    }
  }

  /** The deck after the first `k` in-place shuffles. */
  function DeckAfter(deck: seq<Card>, shuffle: Shuffler, k: nat): seq<Card> {
    if k == 0 then deck else shuffle(DeckAfter(deck, shuffle, k - 1), k - 1)
  }

  /** Repeated shuffling keeps the cards of the deck. */
  lemma {:induction false} DeckAfterKeepsCards(deck: seq<Card>, shuffle: Shuffler, k: nat)
    requires Permutes(shuffle)
    ensures multiset(DeckAfter(deck, shuffle, k)) == multiset(deck)
  {
    if k > 0 {
      DeckAfterKeepsCards(deck, shuffle, k - 1);
    }
  }

  /** The two hero cards the aggregator is given, as the hand `eval_table` scores. */
  function HeroHand(card1: Card, card2: Card): seq<Card> {
    [card1, card2]
  }

  /**
   * Every trial of `get_probabilities` with two distinct hero cards and
   * 1..22 opponents deals properly: the board, the opponents' hands and the
   * hero's cards are pairwise disjoint, and each hand holds two cards.
   */
  lemma TrialDealIsProper(card1: Card, card2: Card, shuffle: Shuffler, trial: nat, otherPlayers: nat)
    requires card1 != card2
    requires Permutes(shuffle)
    requires otherPlayers <= MaxOpponents
    ensures HeroDeck(card1, card2).Some?
    ensures ProperDeal(HeroHand(card1, card2),
                       DealFrom(DeckAfter(HeroDeck(card1, card2).value, shuffle, trial + 1), otherPlayers))
  {
    HeroDeckFacts(card1, card2);
    var start := HeroDeck(card1, card2).value;
    var deck := DeckAfter(start, shuffle, trial + 1);
    ShuffledDeckFacts(start, shuffle, trial + 1, card1, card2);
    DealIsProper(HeroHand(card1, card2), deck, otherPlayers);
  }

  /** A reshuffled deck keeps its size, its lack of duplicates and its lack of the hero's cards. */
  lemma ShuffledDeckFacts(start: seq<Card>, shuffle: Shuffler, k: nat, card1: Card, card2: Card)
    requires Permutes(shuffle)
    requires NoDuplicates(start) && card1 !in start && card2 !in start
    ensures |DeckAfter(start, shuffle, k)| == |start|
    ensures NoDuplicates(DeckAfter(start, shuffle, k))
    ensures card1 !in DeckAfter(start, shuffle, k) && card2 !in DeckAfter(start, shuffle, k)
  {
    var deck := DeckAfter(start, shuffle, k);
    DeckAfterKeepsCards(start, shuffle, k);
    assert |deck| == |multiset(deck)| == |multiset(start)| == |start|;
    NoDuplicatesByMultiplicity(start);
    NoDuplicatesByMultiplicity(deck);
    assert card1 !in multiset(start) && card2 !in multiset(start);
  }

  /** The outcome of one trial dealt from `deck`, by the reference definition. */
  function TrialOutcome(score: Scorer, hero: seq<Card>, deck: seq<Card>, otherPlayers: nat): Outcome {
    var d := DealFrom(deck, otherPlayers);
    Showdown(score(d.board, hero), Scores(score, d.board, d.hands))
  }

  /** How many of the first `k` trials end with outcome `o`. */
  function Tally(o: Outcome, score: Scorer, hero: seq<Card>, deck: seq<Card>, shuffle: Shuffler,
                 otherPlayers: nat, k: nat): nat
  {
    if k == 0 then 0
    else
      Tally(o, score, hero, deck, shuffle, otherPlayers, k - 1)
      + (if TrialOutcome(score, hero, DeckAfter(deck, shuffle, k), otherPlayers) == o then 1 else 0)
  }

  /** Trial `k + 1` reshuffles the deck of trial `k` and adds its outcome to the wins or the ties. */
  lemma TallyStep(score: Scorer, hero: seq<Card>, deck: seq<Card>, shuffle: Shuffler, otherPlayers: nat, k: nat)
    ensures DeckAfter(deck, shuffle, k + 1) == shuffle(DeckAfter(deck, shuffle, k), k)
    ensures var o := TrialOutcome(score, hero, DeckAfter(deck, shuffle, k + 1), otherPlayers);
      && Tally(Win, score, hero, deck, shuffle, otherPlayers, k + 1)
         == Tally(Win, score, hero, deck, shuffle, otherPlayers, k) + (if o == Win then 1 else 0)
      && Tally(Tie, score, hero, deck, shuffle, otherPlayers, k + 1)
         == Tally(Tie, score, hero, deck, shuffle, otherPlayers, k) + (if o == Tie then 1 else 0)
  {
  }

  /** Every trial ends in exactly one outcome: wins, ties and losses add up to the trials. */
  lemma {:induction false} TallyPartitionsTrials(score: Scorer, hero: seq<Card>, deck: seq<Card>,
                                                 shuffle: Shuffler, otherPlayers: nat, k: nat)
    ensures Tally(Win, score, hero, deck, shuffle, otherPlayers, k)
          + Tally(Tie, score, hero, deck, shuffle, otherPlayers, k)
          + Tally(Lose, score, hero, deck, shuffle, otherPlayers, k) == k
  {
    if k > 0 {
      TallyPartitionsTrials(score, hero, deck, shuffle, otherPlayers, k - 1);
    }
  }

  /** How many times `for i in range(trials)` runs: never for a negative count. */
  function Runs(trials: int): nat {
    if trials < 0 then 0 else trials
  }

  /**
   * The two ratios `get_probabilities` returns when it succeeds: the wins and
   * ties of the trials that ran, each divided by `trials`. A negative count
   * runs no trial, so both ratios are zero.
   */
  function Estimate(card1: Card, card2: Card, otherPlayers: nat, trials: int, score: Scorer, shuffle: Shuffler)
    : (p: Probabilities)
    requires card1 != card2 && trials != 0
  {
    HeroDeckDefined(card1, card2);
    var deck := HeroDeck(card1, card2).value;
    var hero := HeroHand(card1, card2);
    Probabilities(Tally(Win, score, hero, deck, shuffle, otherPlayers, Runs(trials)) as real / trials as real,
                  Tally(Tie, score, hero, deck, shuffle, otherPlayers, Runs(trials)) as real / trials as real)
  }

  /** The estimated probabilities each lie in [0, 1] and add up to at most 1; both are zero for a negative count. */
  lemma EstimateIsProbability(card1: Card, card2: Card, otherPlayers: nat, trials: int,
                              score: Scorer, shuffle: Shuffler)
    requires card1 != card2 && trials != 0
    ensures var p := Estimate(card1, card2, otherPlayers, trials, score, shuffle);
      0.0 <= p.wins && 0.0 <= p.ties && p.wins + p.ties <= 1.0
    ensures trials < 0 ==> Estimate(card1, card2, otherPlayers, trials, score, shuffle) == Probabilities(0.0, 0.0)
  {
    if trials > 0 {
      EstimateOfRunTrials(card1, card2, otherPlayers, trials, score, shuffle);
    } else {
      EstimateOfNoTrials(card1, card2, otherPlayers, trials, score, shuffle);
    }
  }

  /** With a positive count, wins plus ties are at most the trials, so the ratios are probabilities. */
  lemma EstimateOfRunTrials(card1: Card, card2: Card, otherPlayers: nat, trials: int,
                            score: Scorer, shuffle: Shuffler)
    requires card1 != card2 && trials > 0
    ensures var p := Estimate(card1, card2, otherPlayers, trials, score, shuffle);
      0.0 <= p.wins && 0.0 <= p.ties && p.wins + p.ties <= 1.0
  {
    HeroDeckDefined(card1, card2);
    var deck := HeroDeck(card1, card2).value;
    var hero := HeroHand(card1, card2);
    var w := Tally(Win, score, hero, deck, shuffle, otherPlayers, trials);
    var t := Tally(Tie, score, hero, deck, shuffle, otherPlayers, trials);
    TallyPartitionsTrials(score, hero, deck, shuffle, otherPlayers, trials);
    RatiosAreProbabilities(w, t, trials);
  }

  /** With a negative count no trial runs, so both ratios are zero. */
  lemma EstimateOfNoTrials(card1: Card, card2: Card, otherPlayers: nat, trials: int,
                           score: Scorer, shuffle: Shuffler)
    requires card1 != card2 && trials < 0
    ensures Estimate(card1, card2, otherPlayers, trials, score, shuffle) == Probabilities(0.0, 0.0)
  {
    assert Runs(trials) == 0;
  }

  /** Two counts whose sum is at most `n` give ratios in [0, 1] whose sum is at most 1. */
  lemma RatiosAreProbabilities(w: nat, t: nat, n: nat)
    requires n > 0 && w + t <= n
    ensures 0.0 <= w as real / n as real && 0.0 <= t as real / n as real
    ensures w as real / n as real + t as real / n as real <= 1.0
  {
    var d := n as real;
    assert w as real / d + t as real / d == (w + t) as real / d;
    assert (w + t) as real <= d;
  }

  /**
   * `get_probabilities(card_1, card_2, other_players, trials)`: builds the
   * deck, removes the hero's cards, then per trial reshuffles the deck in
   * place, deals, classifies with `eval_table` and counts wins and ties.
   * Fails like `list.remove` on a repeated hero card and like the final
   * division when `trials` is zero; a negative count runs no trial.
   */
  method GetProbabilities(card1: Card, card2: Card, otherPlayers: nat, trials: int,
                          score: Scorer, shuffle: Shuffler)
    returns (r: Result<Probabilities, Error>)
    requires InScoreRange(score)
    ensures r.Failure? <==> card1 == card2 || trials == 0
    ensures r.Failure? ==> r.error == (if card1 == card2 then CardNotFound else DivisionByZero)
    ensures r.Success? ==> r.value == Estimate(card1, card2, otherPlayers, trials, score, shuffle)
    ensures r.Success? ==> 0.0 <= r.value.wins && 0.0 <= r.value.ties && r.value.wins + r.value.ties <= 1.0
  {
    HeroDeckByRemovals(card1, card2);
    var deck := NewDeck();
    var wins, ties := 0, 0;
    var removed := Remove(deck, card1);
    if removed.None? {
      return Failure(CardNotFound);
    }
    deck := removed.value;
    removed := Remove(deck, card2);
    if removed.None? {
      return Failure(CardNotFound);
    }
    deck := removed.value;
    ghost var start := deck;
    var hero := HeroHand(card1, card2);
    for i := 0 to Runs(trials)
      invariant deck == DeckAfter(start, shuffle, i)
      invariant wins == Tally(Win, score, hero, start, shuffle, otherPlayers, i)
      invariant ties == Tally(Tie, score, hero, start, shuffle, otherPlayers, i)
    {
      TallyStep(score, hero, start, shuffle, otherPlayers, i);
      deck := shuffle(deck, i);
      var dealt := DealFrom(deck, otherPlayers);
      var result := EvalTable(score, hero, dealt.board, dealt.hands);
      assert score(dealt.board, hero) < Sentinel;
      assert result == TrialOutcome(score, hero, deck, otherPlayers);
      if result == Win {
        wins := wins + 1;
      } else if result == Tie {
        ties := ties + 1;
      }
    }
    if trials == 0 {
      return Failure(DivisionByZero);
    }
    EstimateIsProbability(card1, card2, otherPlayers, trials, score, shuffle);
    return Success(Probabilities(wins as real / trials as real, ties as real / trials as real));
  }

  /**
   * The entry point's check on `other_players` (at least one opponent, at
   * most 22); an accepted count always leaves enough of the 50 remaining
   * cards for the board and every opponent.
   */
  function CheckOpponents(otherPlayers: int): (r: Result<nat, Error>)
    ensures r.Success? <==> 1 <= otherPlayers <= MaxOpponents
    ensures r.Success? ==> r.value == otherPlayers && 5 + 2 * r.value <= 50
    ensures otherPlayers < 1 ==> r == Failure(TooFewPlayers)
    ensures otherPlayers > MaxOpponents ==> r == Failure(TooManyPlayers)
  {
    if otherPlayers < 1 then Failure(TooFewPlayers)
    else if otherPlayers > MaxOpponents then Failure(TooManyPlayers)
    else Success(otherPlayers)
  }
}
