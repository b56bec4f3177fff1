/**
 * The table generator of generate-lookup-tables/generate-lookup-table.py:
 * `main` enumerates the 169 starting-hand classes in a fixed order, runs
 * `get_probabilities` for each, and `write_to_file` writes one tab-separated
 * row per class.
 */
module LookupTable {
  import opened Results
  import opened Cards
  import opened Text
  import opened Equity

  /** A starting-hand class: two ranks in table order and whether the cards share a suit. */
  datatype HandClass = HandClass(lo: Rank, hi: Rank, suited: bool)

  /** A class the table can hold: ranks in table order, and a pair is never suited. */
  predicate ValidClass(c: HandClass) {
    c.lo <= c.hi && (c.lo == c.hi ==> !c.suited)
  }

  /** The suiting field of a row. */
  function SuitingName(suited: bool): (s: string)
    ensures |s| > 0 && (s[0] == 's' <==> suited) && (s[0] == 'o' <==> !suited)
  {
    if suited then "suited" else "offsuit"
  }

  /** What one pass of the inner loop body emits for `c1`, `c2`: a pair once, other ranks offsuit then suited. */
  function ClassesAt(c1: Rank, c2: Rank): seq<HandClass> {
    if c1 == c2 then [HandClass(c1, c2, false)]
    else [HandClass(c1, c2, false), HandClass(c1, c2, true)]
  }

  /** What the inner loop `for c2 in range(c1, 13)` has emitted before reaching `c2`. */
  function InnerClasses(c1: Rank, c2: int): seq<HandClass>
    requires c1 <= c2 <= 13
    decreases c2 - c1
  {
    if c2 == c1 then [] else InnerClasses(c1, c2 - 1) + ClassesAt(c1, c2 - 1)
  }

  /** What the outer loop has emitted once `c1` reaches `k`. */
  function OuterClasses(k: int): seq<HandClass>
    requires 0 <= k <= 13
  {
    if k == 0 then [] else OuterClasses(k - 1) + InnerClasses(k - 1, 13)
  }

  /** The classes of the table, in the order `main` emits them. */
  function ClassList(): seq<HandClass> {
    OuterClasses(13)
  }

  /** How many rows have a first rank below `k`: rank `i` heads `25 - 2 * i` rows. */
  function RowsBelow(k: int): int
    requires 0 <= k <= 13
  {
    if k == 0 then 0 else RowsBelow(k - 1) + 25 - 2 * (k - 1)
  }

  /** The position of a class in the table: the rows of lower first ranks come before it. */
  function ClassIndex(c: HandClass): int {
    RowsBelow(c.lo) + (if c.lo == c.hi then 0 else 2 * (c.hi - c.lo) - 1) + (if c.suited then 1 else 0)
  }

  /** The inner loop emits valid classes of first rank `c1`, each at its own position. */
  lemma {:induction false} InnerClassesFacts(c1: Rank, c2: int)
    requires c1 <= c2 <= 13
    ensures |InnerClasses(c1, c2)| == if c2 == c1 then 0 else 2 * (c2 - c1) - 1
    ensures AllValid(InnerClasses(c1, c2))
    ensures forall i :: 0 <= i < |InnerClasses(c1, c2)| ==>
      var c := InnerClasses(c1, c2)[i];
      ValidClass(c) && c.lo == c1 && c.hi < c2 && ClassIndex(c) == RowsBelow(c1) + i
  {
    if c2 > c1 {
      InnerClassesFacts(c1, c2 - 1);
      var prev, at := InnerClasses(c1, c2 - 1), ClassesAt(c1, c2 - 1);
      forall i | 0 <= i < |prev + at|
        ensures var c := (prev + at)[i];
          ValidClass(c) && c.lo == c1 && c.hi < c2 && ClassIndex(c) == RowsBelow(c1) + i
      {
        if i < |prev| {
          assert (prev + at)[i] == prev[i];
        } else {
          assert (prev + at)[i] == at[i - |prev|];
        }
      }
    }
  }

  /** The inner loop emits only valid classes. */
  lemma InnerClassesValid(c1: Rank, c2: int)
    requires c1 <= c2 <= 13
    ensures AllValid(InnerClasses(c1, c2))
  {
    InnerClassesFacts(c1, c2);
  }

  /** The outer loop emits valid classes of first rank below `k`, each at its own position. */
  lemma {:induction false} OuterClassesFacts(k: int)
    requires 0 <= k <= 13
    ensures |OuterClasses(k)| == RowsBelow(k)
    ensures AllValid(OuterClasses(k))
    ensures forall i :: 0 <= i < |OuterClasses(k)| ==>
      var c := OuterClasses(k)[i];
      ValidClass(c) && c.lo < k && ClassIndex(c) == i
  {
    if k > 0 {
      OuterClassesFacts(k - 1);
      InnerClassesFacts(k - 1, 13);
    }
  }

  /** How many classes the inner loop has emitted before reaching `c2`. */
  lemma InnerLength(c1: Rank, c2: int)
    requires c1 <= c2 <= 13
    ensures |InnerClasses(c1, c2)| == if c2 == c1 then 0 else 2 * (c2 - c1) - 1
  {
    InnerClassesFacts(c1, c2);
  }

  /** How many classes the outer loop has emitted once `c1` reaches `k`. */
  lemma OuterLength(k: int)
    requires 0 <= k <= 13
    ensures |OuterClasses(k)| == RowsBelow(k)
  {
    OuterClassesFacts(k);
  }

  /** Every valid class of first rank `c1` and second rank below `c2` is emitted by the inner loop, at its position. */
  lemma {:induction false} InnerClassesComplete(c: HandClass, c2: int)
    requires ValidClass(c) && c.hi < c2 <= 13
    ensures 0 <= ClassIndex(c) - RowsBelow(c.lo) < |InnerClasses(c.lo, c2)|
    ensures InnerClasses(c.lo, c2)[ClassIndex(c) - RowsBelow(c.lo)] == c
  {
    InnerLength(c.lo, c2 - 1);
    if c.hi < c2 - 1 {
      InnerClassesComplete(c, c2 - 1);
    }
  }

  /** Every valid class of first rank below `k` is emitted by the outer loop, at its position. */
  lemma {:induction false} OuterClassesComplete(c: HandClass, k: int)
    requires ValidClass(c) && c.lo < k <= 13
    ensures 0 <= ClassIndex(c) < |OuterClasses(k)|
    ensures OuterClasses(k)[ClassIndex(c)] == c
  {
    if c.lo < k - 1 {
      OuterClassesComplete(c, k - 1);
      var prev := OuterClasses(k - 1);
      assert OuterClasses(k) == prev + InnerClasses(k - 1, 13);
      assert OuterClasses(k)[ClassIndex(c)] == prev[ClassIndex(c)];
    } else {
      ClassInItsOuterPass(c);
    }
  }

  /** A valid class is emitted during the outer pass of its first rank, at its position. */
  lemma ClassInItsOuterPass(c: HandClass)
    requires ValidClass(c)
    ensures 0 <= ClassIndex(c) < |OuterClasses(c.lo + 1)|
    ensures OuterClasses(c.lo + 1)[ClassIndex(c)] == c
  {
    OuterLength(c.lo);
    InnerClassesComplete(c, 13);
    var prev, inner := OuterClasses(c.lo), InnerClasses(c.lo, 13);
    assert OuterClasses(c.lo + 1) == prev + inner;
    assert (prev + inner)[ClassIndex(c)] == inner[ClassIndex(c) - |prev|];
  }

  /** The table has 169 rows. */
  lemma ClassCount()
    ensures |ClassList()| == 169
  {
    OuterClassesFacts(13);
    RowsBelowAll();
  }

  lemma RowsBelowAll()
    ensures RowsBelow(13) == 169
  {
  }

  /** Every row holds a valid class, and the class in row `i` has position `i`. */
  lemma ClassPositions()
    ensures forall i :: 0 <= i < |ClassList()| ==> ValidClass(ClassList()[i]) && ClassIndex(ClassList()[i]) == i
  {
    OuterPositions(13);
  }

  lemma OuterPositions(k: int)
    requires 0 <= k <= 13
    ensures forall i :: 0 <= i < |OuterClasses(k)| ==>
      ValidClass(OuterClasses(k)[i]) && ClassIndex(OuterClasses(k)[i]) == i
  {
    OuterClassesFacts(k);
  }

  /** Every class of the table is valid. */
  lemma ClassesValid()
    ensures AllValid(ClassList())
  {
    OuterClassesFacts(13);
  }

  /** No class is emitted twice. */
  lemma ClassesDistinct()
    ensures forall i, j :: 0 <= i < j < |ClassList()| ==> ClassList()[i] != ClassList()[j]
  {
    ClassPositions();
  }

  /** Every valid class is emitted, at its position `ClassIndex`. */
  lemma ClassesComplete()
    ensures forall c :: ValidClass(c) ==> 0 <= ClassIndex(c) < |ClassList()| && ClassList()[ClassIndex(c)] == c
  {
    forall c | ValidClass(c) ensures 0 <= ClassIndex(c) < |ClassList()| && ClassList()[ClassIndex(c)] == c {
      ClassAtItsIndex(c);
    }
  }

  lemma ClassAtItsIndex(c: HandClass)
    requires ValidClass(c)
    ensures 0 <= ClassIndex(c) < |ClassList()| && ClassList()[ClassIndex(c)] == c
  {
    OuterClassesComplete(c, 13);
  }

  /** For two different ranks the suited row comes immediately after the offsuit row. */
  lemma SuitedFollowsOffsuit(c: HandClass)
    requires ValidClass(c) && c.suited
    ensures 1 <= ClassIndex(c) < |ClassList()|
    ensures ClassList()[ClassIndex(c)] == c
    ensures ClassList()[ClassIndex(c) - 1] == c.(suited := false)
  {
    var offsuit := c.(suited := false);
    assert ClassIndex(offsuit) == ClassIndex(c) - 1;
    ClassAtItsIndex(c);
    ClassAtItsIndex(offsuit);
  }

  /** `cs` lists every valid class exactly at its position `ClassIndex`, and nothing else. */
  ghost predicate IndexedClasses(cs: seq<HandClass>) {
    && AllValid(cs)
    && (forall i :: 0 <= i < |cs| ==> ClassIndex(cs[i]) == i)
    && (forall c :: ValidClass(c) ==> 0 <= ClassIndex(c) < |cs| && cs[ClassIndex(c)] == c)
  }

  /** The table's class list is indexed by `ClassIndex`. */
  lemma ClassListIndexed()
    ensures IndexedClasses(ClassList())
  {
    ClassesValid();
    ClassPositions();
    ClassesComplete();
  }

  /** The number of equal-rank classes in `cs`. */
  function PairCount(cs: seq<HandClass>): nat {
    if cs == [] then 0 else PairCount(cs[..|cs| - 1]) + (if cs[|cs| - 1].lo == cs[|cs| - 1].hi then 1 else 0)
  }

  lemma {:induction false} PairCountAppend(a: seq<HandClass>, b: seq<HandClass>)
    ensures PairCount(a + b) == PairCount(a) + PairCount(b)
  {
    if b != [] {
      assert (a + b)[..|a + b| - 1] == a + b[..|b| - 1];
      PairCountAppend(a, b[..|b| - 1]);
    } else {
      assert a + b == a;
    }
  }

  /** Exactly 13 rows have equal ranks (one per rank), and none of them is suited. */
  lemma PairRows()
    ensures PairCount(ClassList()) == 13
    ensures forall i :: 0 <= i < |ClassList()| && ClassList()[i].lo == ClassList()[i].hi ==>
      !ClassList()[i].suited
  {
    ClassPositions();
    OuterPairCount(13);
  }

  lemma {:induction false} OuterPairCount(k: int)
    requires 0 <= k <= 13
    ensures PairCount(OuterClasses(k)) == k
  {
    if k > 0 {
      OuterPairCount(k - 1);
      InnerPairCount(k - 1, 13);
      PairCountAppend(OuterClasses(k - 1), InnerClasses(k - 1, 13));
    }
  }

  lemma {:induction false} InnerPairCount(c1: Rank, c2: int)
    requires c1 <= c2 <= 13
    ensures PairCount(InnerClasses(c1, c2)) == if c2 == c1 then 0 else 1
  {
    if c2 > c1 {
      InnerPairCount(c1, c2 - 1);
      PairCountAppend(InnerClasses(c1, c2 - 1), ClassesAt(c1, c2 - 1));
      var offsuit := HandClass(c1, c2 - 1, false);
      assert [offsuit][..0] == [];
      assert PairCount([offsuit]) == if c2 - 1 == c1 then 1 else 0;
      if c2 - 1 != c1 {
        var both := [offsuit, HandClass(c1, c2 - 1, true)];
        assert both[..1] == [offsuit];
        assert PairCount(both) == 0;
      }
    }
  }

  /**
   * The hero's two cards for a class: the first rank in spades, the second
   * in spades when suited and in clubs otherwise.
   */
  function HeroCards(c: HandClass): (cards: (Card, Card))
    requires ValidClass(c)
    ensures cards.0 != cards.1
    ensures cards.0.rank == c.lo && cards.1.rank == c.hi
    ensures cards.0.suit == cards.1.suit <==> c.suited
  {
    (Card(c.lo, Spades), Card(c.hi, if c.suited then Spades else Clubs))
  }

  /** One row of the table: the class and its estimated statistics. */
  datatype Row = Row(hand: HandClass, wins: real, ties: real, gain: real)

  /** The row `main` writes for class `c`. */
  function MakeRow(c: HandClass, otherPlayers: nat, trials: int, score: Scorer, shuffle: Shuffler): Row
    requires ValidClass(c) && trials != 0
  {
    var (card1, card2) := HeroCards(c);
    var p := Estimate(card1, card2, otherPlayers, trials, score, shuffle);
    Row(c, p.wins, p.ties, ExpectedGain(p.wins, p.ties, otherPlayers))
  }

  /** Every class of `cs` is valid. */
  predicate AllValid(cs: seq<HandClass>) {
    forall i :: 0 <= i < |cs| ==> ValidClass(cs[i])
  }

  /** The rows `main` writes for the classes `cs`, in order. */
  function RowsFor(cs: seq<HandClass>, otherPlayers: nat, trials: int, score: Scorer, shuffle: Shuffler)
    : (rows: seq<Row>)
    requires trials != 0 && AllValid(cs)
    ensures |rows| == |cs|
  {
    seq(|cs|, k requires 0 <= k < |cs| => MakeRow(cs[k], otherPlayers, trials, score, shuffle))
  }

  /** A row holds two probabilities, the expected gain they give, and that gain lies in [-1, otherPlayers]. */
  predicate RowConsistent(row: Row, otherPlayers: nat) {
    && 0.0 <= row.wins && 0.0 <= row.ties && row.wins + row.ties <= 1.0
    && row.gain == ExpectedGain(row.wins, row.ties, otherPlayers)
    && -1.0 <= row.gain <= otherPlayers as real
  }

  /** Every row written for valid classes is consistent. */
  lemma RowsConsistentFor(cs: seq<HandClass>, otherPlayers: nat, trials: int, score: Scorer, shuffle: Shuffler)
    requires trials != 0 && AllValid(cs)
    ensures var rows := RowsFor(cs, otherPlayers, trials, score, shuffle);
      forall k :: 0 <= k < |rows| ==> RowConsistent(rows[k], otherPlayers)
  {
    var rows := RowsFor(cs, otherPlayers, trials, score, shuffle);
    forall k | 0 <= k < |rows| ensures RowConsistent(rows[k], otherPlayers) {
      var (card1, card2) := HeroCards(cs[k]);
      EstimateIsProbability(card1, card2, otherPlayers, trials, score, shuffle);
      ExpectedGainBounds(rows[k].wins, rows[k].ties, otherPlayers);
    }
  }

  /** Every row of the table holds probabilities and the expected gain they give. */
  lemma RowsAreConsistent(otherPlayers: nat, trials: int, score: Scorer, shuffle: Shuffler)
    requires trials != 0
    ensures AllValid(ClassList())
    ensures var rows := RowsFor(ClassList(), otherPlayers, trials, score, shuffle);
      forall k :: 0 <= k < |rows| ==> RowConsistent(rows[k], otherPlayers)
  {
    ClassesValid();
    RowsConsistentFor(ClassList(), otherPlayers, trials, score, shuffle);
  }

  /**
   * `main(other_players, trials)`: for `c1` in 0..12 and `c2` in `c1`..12,
   * one offsuit row for a pair, otherwise an offsuit row and then a suited
   * row, each from one call of `get_probabilities`. Fails with the first
   * failing call, which happens only when the trial count is zero.
   */
  method GenerateTable(otherPlayers: nat, trials: int, score: Scorer, shuffle: Shuffler)
    returns (r: Result<seq<Row>, Error>)
    requires InScoreRange(score)
    ensures r.Failure? <==> trials == 0
    ensures r.Failure? ==> r.error == DivisionByZero
    ensures r.Success? ==> trials != 0 && AllValid(ClassList()) && r.value == RowsFor(ClassList(), otherPlayers, trials, score, shuffle)
  {
    var rows: seq<Row> := [];
    for c1 := 0 to 13
      invariant c1 > 0 ==> trials != 0
      invariant trials != 0 ==> AllValid(OuterClasses(c1))
                                && rows == RowsFor(OuterClasses(c1), otherPlayers, trials, score, shuffle)
    {
      var emitted := RowsFrom(c1, otherPlayers, trials, score, shuffle);
      if emitted.Failure? {
        return Failure(emitted.error);
      }
      OuterStep(c1, otherPlayers, trials, score, shuffle);
      rows := rows + emitted.value;
    }
    ClassesValid();
    return Success(rows);
  }

  /** The rows of the outer loop up to `c1 + 1` are those up to `c1` followed by those of the inner loop at `c1`. */
  lemma OuterStep(c1: Rank, otherPlayers: nat, trials: int, score: Scorer, shuffle: Shuffler)
    requires trials != 0
    ensures AllValid(OuterClasses(c1)) && AllValid(InnerClasses(c1, 13)) && AllValid(OuterClasses(c1 + 1))
    ensures RowsFor(OuterClasses(c1 + 1), otherPlayers, trials, score, shuffle)
         == RowsFor(OuterClasses(c1), otherPlayers, trials, score, shuffle)
          + RowsFor(InnerClasses(c1, 13), otherPlayers, trials, score, shuffle)
  {
    OuterClassesFacts(c1);
    InnerClassesFacts(c1, 13);
    RowsForAppend(OuterClasses(c1), InnerClasses(c1, 13), otherPlayers, trials, score, shuffle);
  }

  /** The rows of the inner loop up to `c2 + 1` are those up to `c2` followed by those emitted at `c2`. */
  lemma InnerStep(c1: Rank, c2: Rank, otherPlayers: nat, trials: int, score: Scorer, shuffle: Shuffler)
    requires c1 <= c2 && trials != 0
    ensures AllValid(InnerClasses(c1, c2)) && AllValid(ClassesAt(c1, c2)) && AllValid(InnerClasses(c1, c2 + 1))
    ensures RowsFor(InnerClasses(c1, c2 + 1), otherPlayers, trials, score, shuffle)
         == RowsFor(InnerClasses(c1, c2), otherPlayers, trials, score, shuffle)
          + RowsFor(ClassesAt(c1, c2), otherPlayers, trials, score, shuffle)
  {
    InnerClassesValid(c1, c2);
    InnerClassesValid(c1, c2 + 1);
    RowsForAppend(InnerClasses(c1, c2), ClassesAt(c1, c2), otherPlayers, trials, score, shuffle);
  }

  /** The inner loop of `main` for first rank `c1`: `c2` runs from `c1` to 12. */
  method RowsFrom(c1: Rank, otherPlayers: nat, trials: int, score: Scorer, shuffle: Shuffler)
    returns (r: Result<seq<Row>, Error>)
    requires InScoreRange(score)
    ensures AllValid(InnerClasses(c1, 13))
    ensures r.Failure? <==> trials == 0
    ensures r.Failure? ==> r.error == DivisionByZero
    ensures r.Success? ==> trials != 0 && r.value == RowsFor(InnerClasses(c1, 13), otherPlayers, trials, score, shuffle)
  {
    InnerClassesValid(c1, 13);
    var rows: seq<Row> := [];
    for c2 := c1 to 13
      invariant c2 > c1 ==> trials != 0
      invariant trials != 0 ==> AllValid(InnerClasses(c1, c2))
                                && rows == RowsFor(InnerClasses(c1, c2), otherPlayers, trials, score, shuffle)
    {
      var emitted := RowsAt(c1, c2, otherPlayers, trials, score, shuffle);
      if emitted.Failure? {
        return Failure(emitted.error);
      }
      InnerStep(c1, c2, otherPlayers, trials, score, shuffle);
      rows := rows + emitted.value;
    }
    return Success(rows);
  }

  /**
   * One pass of the inner loop body: a pair gets its offsuit row (hero in
   * spades and clubs), two different ranks an offsuit row and then a suited
   * row (hero in spades twice).
   */
  method RowsAt(c1: Rank, c2: Rank, otherPlayers: nat, trials: int, score: Scorer, shuffle: Shuffler)
    returns (r: Result<seq<Row>, Error>)
    requires c1 <= c2 && InScoreRange(score)
    ensures AllValid(ClassesAt(c1, c2))
    ensures r.Failure? <==> trials == 0
    ensures r.Failure? ==> r.error == DivisionByZero
    ensures r.Success? ==> trials != 0 && r.value == RowsFor(ClassesAt(c1, c2), otherPlayers, trials, score, shuffle)
  {
    var offsuit := HandClass(c1, c2, false);
    var p := GetProbabilities(Card(c1, Spades), Card(c2, Clubs), otherPlayers, trials, score, shuffle);
    if p.Failure? {
      return Failure(p.error);
    }
    var rows := [Row(offsuit, p.value.wins, p.value.ties, ExpectedGain(p.value.wins, p.value.ties, otherPlayers))];
    if c1 != c2 {
      var suited := HandClass(c1, c2, true);
      p := GetProbabilities(Card(c1, Spades), Card(c2, Spades), otherPlayers, trials, score, shuffle);
      rows := rows + [Row(suited, p.value.wins, p.value.ties, ExpectedGain(p.value.wins, p.value.ties, otherPlayers))];
      assert [offsuit, suited][..1] == [offsuit];
    } else {
      assert [offsuit][..0] == [];
    }
    return Success(rows);
  }

  lemma RowsForAppend(a: seq<HandClass>, b: seq<HandClass>, otherPlayers: nat, trials: int,
                      score: Scorer, shuffle: Shuffler)
    requires trials != 0 && AllValid(a) && AllValid(b)
    ensures AllValid(a + b)
    ensures RowsFor(a + b, otherPlayers, trials, score, shuffle)
         == RowsFor(a, otherPlayers, trials, score, shuffle) + RowsFor(b, otherPlayers, trials, score, shuffle)
  {
    forall i | 0 <= i < |a + b| ensures (a + b)[i] == if i < |a| then a[i] else b[i - |a|] {
    }
    var whole := RowsFor(a + b, otherPlayers, trials, score, shuffle);
    var parts := RowsFor(a, otherPlayers, trials, score, shuffle) + RowsFor(b, otherPlayers, trials, score, shuffle);
    forall k | 0 <= k < |whole| ensures whole[k] == parts[k] {
    }
  }

  /**
   * The entry point: rejects an opponent count outside 1..22 before any
   * simulation, then runs `main`; it succeeds exactly for 1..22 opponents and
   * a non-zero trial count.
   */
  method Generate(otherPlayers: int, trials: int, score: Scorer, shuffle: Shuffler)
    returns (r: Result<seq<Row>, Error>)
    requires InScoreRange(score)
    ensures r.Success? <==> 1 <= otherPlayers <= MaxOpponents && trials != 0
    ensures otherPlayers < 1 ==> r == Failure(TooFewPlayers)
    ensures otherPlayers > MaxOpponents ==> r == Failure(TooManyPlayers)
    ensures 1 <= otherPlayers <= MaxOpponents && trials == 0 ==> r == Failure(DivisionByZero)
    ensures r.Success? ==>
      AllValid(ClassList()) && r.value == RowsFor(ClassList(), otherPlayers, trials, score, shuffle)
  {
    var checked := CheckOpponents(otherPlayers);
    if checked.Failure? {
      return Failure(checked.error);
    }
    r := GenerateTable(checked.value, trials, score, shuffle);
  }

  /** The text of `str(float)` is assumed non-empty and free of whitespace. */
  ghost predicate PlainNumbers(fmt: real -> string) {
    forall x :: fmt(x) != "" && NoSpace(fmt(x))
  }

  /** `write_to_file`: rank, rank, suiting, win rate, tie rate and expected gain, tab-separated. */
  function RowLine(row: Row, fmt: real -> string): (line: string)
    ensures |line| > 0 && line[|line| - 1] == '\n'
  {
    [RankChars[row.hand.lo]] + "\t" + [RankChars[row.hand.hi]] + "\t" + SuitingName(row.hand.suited)
    + "\t" + fmt(row.wins) + "\t" + fmt(row.ties) + "\t" + fmt(row.gain) + "\n"
  }

  /** The lines of the table file, one per row. */
  function TableFile(rows: seq<Row>, fmt: real -> string): (lines: seq<string>)
    ensures |lines| == |rows|
    ensures forall k :: 0 <= k < |rows| ==> lines[k] == RowLine(rows[k], fmt)
  {
    seq(|rows|, k requires 0 <= k < |rows| => RowLine(rows[k], fmt))
  }

  /** Text free of whitespace holds no tab. */
  lemma NoSpaceNoTab(s: string)
    requires NoSpace(s)
    ensures '\t' !in s
  {
  }

  /** A text that starts and ends with a non-space character, followed by a newline, strips to itself. */
  lemma StripLine(body: string)
    requires body != [] && !IsSpace(body[0]) && !IsSpace(body[|body| - 1])
    ensures Strip(body + "\n") == body
  {
    var line := body + "\n";
    assert TrimLeft(line) == line;
    assert line[..|line| - 1] == body;
    assert TrimRight(line) == TrimRight(body) == body;
  }

  /** The six fields written tab-separated are the `Join` of those fields. */
  lemma JoinSix(a: string, b: string, c: string, d: string, e: string, f: string)
    ensures a + "\t" + b + "\t" + c + "\t" + d + "\t" + e + "\t" + f == Join([a, b, c, d, e, f], '\t')
  {
    var fields := [a, b, c, d, e, f];
    assert fields[1..][1..][1..][1..][1..] == [f];
    assert Join(fields[1..][1..][1..][1..], '\t') == e + "\t" + f;
    assert Join(fields[1..][1..][1..], '\t') == d + "\t" + e + "\t" + f;
    assert Join(fields[1..][1..], '\t') == c + "\t" + d + "\t" + e + "\t" + f;
    assert Join(fields[1..], '\t') == b + "\t" + c + "\t" + d + "\t" + e + "\t" + f;
  }

  /** Six tab-free fields joined by tabs split back into those fields. */
  lemma SplitJoinSix(a: string, b: string, c: string, d: string, e: string, f: string)
    requires '\t' !in a && '\t' !in b && '\t' !in c && '\t' !in d && '\t' !in e && '\t' !in f
    ensures Split(Join([a, b, c, d, e, f], '\t'), '\t') == [a, b, c, d, e, f]
  {
    SplitJoin([a, b, c, d, e, f], '\t');
  }

  /** Six tab-free fields written tab-separated with a newline are given back by strip and split. */
  lemma SixFieldsRoundTrip(a: string, b: string, c: string, d: string, e: string, f: string)
    requires a != [] && !IsSpace(a[0]) && f != [] && !IsSpace(f[|f| - 1])
    requires '\t' !in a && '\t' !in b && '\t' !in c && '\t' !in d && '\t' !in e && '\t' !in f
    ensures Split(Strip(a + "\t" + b + "\t" + c + "\t" + d + "\t" + e + "\t" + f + "\n"), '\t') == [a, b, c, d, e, f]
  {
    var body := a + "\t" + b + "\t" + c + "\t" + d + "\t" + e + "\t" + f;
    assert body[0] == a[0];
    assert body[|body| - 1] == f[|f| - 1];
    StripLine(body);
    JoinSix(a, b, c, d, e, f);
    SplitJoinSix(a, b, c, d, e, f);
  }

  /** In a line that starts with two one-character fields, those fields sit at 0 and 2 and the third starts at 4. */
  lemma LeadingFields(r1: char, r2: char, c: string, rest: string)
    requires c != []
    ensures var line := [r1] + "\t" + [r2] + "\t" + c + rest;
      |line| == 4 + |c| + |rest| && line[0] == r1 && line[2] == r2 && line[4] == c[0]
  {
    var head := [r1] + "\t" + [r2] + "\t";
    assert head == [r1, '\t', r2, '\t'];
    assert (head + c + rest)[4] == (head + c)[4] == c[0];
  }

  /**
   * A written row puts the first rank at position 0, the second at 2 and the
   * first letter of the suiting at 4; stripped and split on tabs it gives back
   * the six fields, the statistics at 3, 4 and 5.
   */
  lemma RowLineLayout(row: Row, fmt: real -> string)
    requires PlainNumbers(fmt)
    ensures var line := RowLine(row, fmt);
      && |line| > 5
      && line[0] == RankChars[row.hand.lo]
      && line[2] == RankChars[row.hand.hi]
      && line[4] == SuitingName(row.hand.suited)[0]
      && Split(Strip(line), '\t')
         == [[RankChars[row.hand.lo]], [RankChars[row.hand.hi]], SuitingName(row.hand.suited),
             fmt(row.wins), fmt(row.ties), fmt(row.gain)]
  {
    var r1, r2, suiting := RankChars[row.hand.lo], RankChars[row.hand.hi], SuitingName(row.hand.suited);
    var w, t, g := fmt(row.wins), fmt(row.ties), fmt(row.gain);
    assert RowLine(row, fmt) == [r1] + "\t" + [r2] + "\t" + suiting + ("\t" + w + "\t" + t + "\t" + g + "\n");
    LeadingFields(r1, r2, suiting, "\t" + w + "\t" + t + "\t" + g + "\n");
    NoSpaceNoTab(w);
    NoSpaceNoTab(t);
    NoSpaceNoTab(g);
    SixFieldsRoundTrip([r1], [r2], suiting, w, t, g);
  }
}
