/**
 * The request handler of run-pokertexter.py: an incoming text such as
 * "seven eight suited one" is normalised, split into four tokens, parsed into
 * two ranks, a suiting and an opponent count, checked, and answered with the
 * matching row of the lookup table for that opponent count.
 */
module Texter {
  import opened Results
  import opened Text
  import opened Cards
  import opened Equity
  import opened LookupTable

  /** The reply to `example` requests: two sample messages separated by a blank line. */
  const Examples: string := "SEVEN EIGHT SUITED one" + "\n\n" + "7 ace offsuit 9"

  /** The reply to input that cannot be parsed. */
  const StandardErrorMsg: string :=
    "Error! Could not parse input. "
    + "Send text in form RANK RANK SUITING OTHER_PLAYERS. "
    + "Respond with `examples` if you need examples."

  const PlayersErrorMsg: string := "Error! Only 1-9 other players are currently supported."

  const SuitedPairErrorMsg: string := "Error! It is impossible to have a suited pair. Did you mean offsuit?"

  /**
   * What the handler sends back: a text message, the three statistics fields
   * of the matching row, nothing (no row matched, so the handler falls off its
   * end), or an index error raised while reading a short line.
   */
  datatype Reply =
    | Message(text: string)
    | Stats(win: string, tie: string, gain: string)
    | NoMatch
    | IndexError

  /** `get_rank`: the first rank whose name occurs in the token or whose symbol is the token. */
  function GetRank(s: string): (r: Option<char>)
    ensures r.Some? ==> r.value in RankChars
  {
    if Contains(s, "ace") || s == "a" then Some('A')
    else if Contains(s, "king") || s == "k" then Some('K')
    else if Contains(s, "queen") || s == "q" then Some('Q')
    else if Contains(s, "jack") || s == "j" then Some('J')
    else if Contains(s, "ten") || s == "10" || s == "t" then Some('T')
    else if Contains(s, "nine") || s == "9" then Some('9')
    else if Contains(s, "eight") || s == "8" then Some('8')
    else if Contains(s, "seven") || s == "7" then Some('7')
    else if Contains(s, "six") || s == "6" then Some('6')
    else if Contains(s, "five") || s == "5" then Some('5')
    else if Contains(s, "four") || s == "4" then Some('4')
    else if Contains(s, "three") || s == "3" then Some('3')
    else if Contains(s, "two") || s == "2" then Some('2')
    else None
  }

  /** `get_suiting`: "of" or "un" anywhere means offsuit, even next to "suit"; otherwise "suit" means suited. */
  function GetSuiting(s: string): (r: Option<string>)
    ensures r.Some? ==> r.value == SuitingName(r.value == "suited")
    ensures r == Some("offsuit") <==> Contains(s, "of") || Contains(s, "un")
    ensures r == Some("suited") <==> !Contains(s, "of") && !Contains(s, "un") && Contains(s, "suit")
  {
    if Contains(s, "of") || Contains(s, "un") then Some("offsuit")
    else if Contains(s, "suit") then Some("suited")
    else None
  }

  /** `get_players`: one to nine other players, as the digit that names the table file. */
  function GetPlayers(s: string): (r: Option<char>)
    ensures r.Some? ==> '1' <= r.value <= '9'
  {
    if Contains(s, "nine") || s == "9" then Some('9')
    else if Contains(s, "eight") || s == "8" then Some('8')
    else if Contains(s, "seven") || s == "7" then Some('7')
    else if Contains(s, "six") || s == "6" then Some('6')
    else if Contains(s, "five") || s == "5" then Some('5')
    else if Contains(s, "four") || s == "4" then Some('4')
    else if Contains(s, "three") || s == "3" then Some('3')
    else if Contains(s, "two") || s == "2" then Some('2')
    else if Contains(s, "one") || s == "1" then Some('1')
    else None
  }

  /** The one-letter symbols, lower-cased as the handler sees them, and "10" name their ranks. */
  lemma RankLetters()
    ensures GetRank("a") == Some('A') && GetRank("k") == Some('K') && GetRank("q") == Some('Q')
    ensures GetRank("j") == Some('J') && GetRank("t") == Some('T') && GetRank("10") == Some('T')
  {
  }

  /** Each digit 2 to 9 names its rank: a one-character token holds none of the rank words. */
  lemma RankDigit(d: char)
    requires '2' <= d <= '9'
    ensures GetRank([d]) == Some(d)
  {
  }

  /** The words "ace" to "ten" name their ranks. */
  lemma RankWordsAceToTen()
    ensures GetRank("ace") == Some('A') && GetRank("king") == Some('K') && GetRank("queen") == Some('Q')
    ensures GetRank("jack") == Some('J') && GetRank("ten") == Some('T')
  {
  }

  /** The words "nine" and "eight" name their ranks. */
  lemma RankWordsNineEight()
    ensures GetRank("nine") == Some('9') && GetRank("eight") == Some('8')
  {
  }

  /** The word "seven" names its rank. */
  lemma RankWordSeven()
    ensures GetRank("seven") == Some('7')
  {
  }

  /** The word "six" names its rank. */
  lemma RankWordSix()
    ensures GetRank("six") == Some('6')
  {
  }

  /** The word "five" names its rank. */
  lemma RankWordFive()
    ensures GetRank("five") == Some('5')
  {
  }

  /** The word "two" names its rank. */
  lemma RankWordTwo()
    ensures GetRank("two") == Some('2')
  {
  }

  /** The word "four" names its rank. */
  lemma RankWordFour()
    ensures GetRank("four") == Some('4')
  {
  }

  /** The word "three" names its rank. */
  lemma RankWordThree()
    ensures GetRank("three") == Some('3')
  {
  }

  /** Each digit 1 to 9 names its opponent count. */
  lemma PlayerDigit(d: char)
    requires '1' <= d <= '9'
    ensures GetPlayers([d]) == Some(d)
  {
  }

  /** The words "one" to "three" name their opponent counts. */
  lemma PlayerWordsOneToThree()
    ensures GetPlayers("one") == Some('1') && GetPlayers("two") == Some('2') && GetPlayers("three") == Some('3')
  {
  }

  /** The words "four" to "six" name their opponent counts. */
  lemma PlayerWordsFourToSix()
    ensures GetPlayers("four") == Some('4') && GetPlayers("five") == Some('5') && GetPlayers("six") == Some('6')
  {
  }

  /** The words "seven" to "nine" name their opponent counts. */
  lemma PlayerWordsSevenToNine()
    ensures GetPlayers("seven") == Some('7') && GetPlayers("eight") == Some('8') && GetPlayers("nine") == Some('9')
  {
  }

  /** The message as the handler reads it: stripped, then lower-cased. */
  function Normalize(body: string): string {
    Lower(Strip(body))
  }

  /** The tokens of a normalised message: split on single spaces, empty strings dropped. */
  function Tokens(msg: string): (tokens: seq<string>)
    ensures forall t :: t in tokens ==> t != "" && ' ' !in t
  {
    SplitFieldsOmitSeparator(msg, ' ');
    DropEmpty(Split(msg, ' '))
  }

  /** `ranks.index(c)`: the position of a rank symbol in the table order. */
  function IndexOf(c: char): (i: nat)
    requires c in RankChars
    ensures i < |RankChars| && RankChars[i] == c
  {
    FirstIndex(RankChars, c)
  }

  /** The position of the first occurrence of `c` in `s`. */
  function FirstIndex(s: string, c: char): (i: nat)
    requires c in s
    ensures i < |s| && s[i] == c && c !in s[..i]
  {
    if s[0] == c then 0
    else
      assert c in s[1..] by { var k :| 0 <= k < |s| && s[k] == c; assert s[1..][k - 1] == c; }
      var i := 1 + FirstIndex(s[1..], c);
      assert s[..i] == [s[0]] + s[1..][..i - 1];
      i
  }

  /** The lower and the higher of two ranks in table order: `lower, higher`. */
  function Order(r1: char, r2: char): (p: (char, char))
    requires r1 in RankChars && r2 in RankChars
    ensures p == (r1, r2) || p == (r2, r1)
    ensures p.0 in RankChars && p.1 in RankChars && IndexOf(p.0) <= IndexOf(p.1)
  {
    if IndexOf(r1) <= IndexOf(r2) then (r1, r2) else (r2, r1)
  }

  /** The order of the two rank tokens does not matter. */
  lemma OrderSymmetric(r1: char, r2: char)
    requires r1 in RankChars && r2 in RankChars
    ensures Order(r1, r2) == Order(r2, r1)
  {
    if IndexOf(r1) == IndexOf(r2) {
      assert r1 == RankChars[IndexOf(r1)] == r2;
    }
  }

  /**
   * The match test of the scan: position 0 holds the lower rank, 2 the
   * higher and 4 the suiting letter. `None` is the index error a too-short
   * line raises; the tests stop at the first that fails.
   */
  function LineMatches(line: string, lower: char, higher: char, letter: char): (m: Option<bool>)
    ensures m == Some(true) <==> |line| > 4 && line[0] == lower && line[2] == higher && line[4] == letter
    ensures m.None? <==> |line| < 1 || (line[0] == lower && (|line| < 3 || (line[2] == higher && |line| < 5)))
  {
    if |line| < 1 then None
    else if line[0] != lower then Some(false)
    else if |line| < 3 then None
    else if line[2] != higher then Some(false)
    else if |line| < 5 then None
    else Some(line[4] == letter)
  }

  /** The reply for the matching line: fields 3, 4 and 5 of the stripped line split on tabs. */
  function StatsFrom(line: string): (r: Reply)
    ensures r.Stats? || r == IndexError
    ensures r.Stats? <==> |Split(Strip(line), '\t')| >= 6
    ensures r.Stats? ==> var fields := Split(Strip(line), '\t');
      r == Stats(fields[3], fields[4], fields[5])
  {
    var fields := Split(Strip(line), '\t');
    if |fields| < 6 then IndexError else Stats(fields[3], fields[4], fields[5])
  }

  /** The scan over the table's lines: the first matching line answers. */
  function Scan(lines: seq<string>, lower: char, higher: char, letter: char): (r: Reply)
    ensures !r.Message?
  {
    if lines == [] then NoMatch
    else
      match LineMatches(lines[0], lower, higher, letter)
      case None => IndexError
      case Some(true) => StatsFrom(lines[0])
      case Some(false) => Scan(lines[1..], lower, higher, letter)
  }

  /** The scan ends without a reply exactly when every line fails the test without an index error. */
  lemma {:induction false} ScanNoMatch(lines: seq<string>, lower: char, higher: char, letter: char)
    ensures Scan(lines, lower, higher, letter) == NoMatch
        <==> forall k :: 0 <= k < |lines| ==> LineMatches(lines[k], lower, higher, letter) == Some(false)
  {
    if lines != [] {
      ScanNoMatch(lines[1..], lower, higher, letter);
      assert forall k :: 1 <= k < |lines| ==> lines[k] == lines[1..][k - 1];
    }
  }

  /** When line `k` is the first to match and no earlier line is too short, it answers. */
  lemma {:induction false} ScanFirstMatch(lines: seq<string>, lower: char, higher: char, letter: char, k: nat)
    requires k < |lines|
    requires forall j :: 0 <= j < k ==> LineMatches(lines[j], lower, higher, letter) == Some(false)
    requires LineMatches(lines[k], lower, higher, letter) == Some(true)
    ensures Scan(lines, lower, higher, letter) == StatsFrom(lines[k])
  {
    if k > 0 {
      assert forall j :: 0 <= j < k - 1 ==> lines[1..][j] == lines[j + 1];
      ScanFirstMatch(lines[1..], lower, higher, letter, k - 1);
    }
  }

  /** When line `k` is the first that neither fails cleanly nor matches, the scan ends with its index error. */
  lemma {:induction false} ScanFirstError(lines: seq<string>, lower: char, higher: char, letter: char, k: nat)
    requires k < |lines|
    requires forall j :: 0 <= j < k ==> LineMatches(lines[j], lower, higher, letter) == Some(false)
    requires LineMatches(lines[k], lower, higher, letter).None?
    ensures Scan(lines, lower, higher, letter) == IndexError
  {
    if k > 0 {
      assert forall j :: 0 <= j < k - 1 ==> lines[1..][j] == lines[j + 1];
      ScanFirstError(lines[1..], lower, higher, letter, k - 1);
    }
  }

  /** The four tokens as parsed: two ranks, a suiting and a player count, each possibly missing. */
  datatype Request = Request(rank1: Option<char>, rank2: Option<char>, suiting: Option<string>, players: Option<char>)

  /** The four parsers applied to the four tokens, in the order the handler calls them. */
  function Parse(tokens: seq<string>): (q: Request)
    requires |tokens| == 4
    ensures Parsed(q)
  {
    Request(GetRank(tokens[0]), GetRank(tokens[1]), GetSuiting(tokens[2]), GetPlayers(tokens[3]))
  }

  /** Each present part of a request is a value its parser can return. */
  predicate Parsed(q: Request) {
    && (q.rank1.Some? ==> q.rank1.value in RankChars)
    && (q.rank2.Some? ==> q.rank2.value in RankChars)
    && (q.suiting.Some? ==> q.suiting.value in {"suited", "offsuit"})
    && (q.players.Some? ==> '1' <= q.players.value <= '9')
  }

  /** A request every check accepts: all four parts present and not a suited pair. */
  predicate WellFormed(q: Request) {
    q.players.Some? && q.rank1.Some? && q.rank2.Some? && q.suiting.Some?
    && !(q.rank1 == q.rank2 && q.suiting == Some("suited"))
  }

  /**
   * The checks on a parsed request, each an early return, in this order: a
   * player count (reported first, even when a rank is also bad), two ranks
   * and a suiting, not a suited pair; then the scan of the table for that
   * player count.
   */
  function Check(q: Request, tables: char -> seq<string>): (r: Reply)
    requires Parsed(q)
    ensures q.players.None? ==> r == Message(PlayersErrorMsg)
    ensures q.players.Some? && (q.rank1.None? || q.rank2.None? || q.suiting.None?) ==> r == Message(StandardErrorMsg)
    ensures r == Message(SuitedPairErrorMsg) <==>
            q.players.Some? && q.rank1.Some? && q.rank1 == q.rank2 && q.suiting == Some("suited")
    ensures !r.Message? <==> WellFormed(q)
  {
    if q.players.None? then Message(PlayersErrorMsg)
    else if q.rank1.None? || q.rank2.None? || q.suiting.None? then Message(StandardErrorMsg)
    else if q.rank1.value == q.rank2.value && q.suiting.value == "suited" then Message(SuitedPairErrorMsg)
    else
      var (lower, higher) := Order(q.rank1.value, q.rank2.value);
      Scan(tables(q.players.value), lower, higher, q.suiting.value[0])
  }

  /** Swapping the two ranks of a request does not change the reply. */
  lemma CheckSymmetric(q: Request, tables: char -> seq<string>)
    requires Parsed(q)
    ensures Check(q, tables) == Check(q.(rank1 := q.rank2, rank2 := q.rank1), tables)
  {
    if q.rank1.Some? && q.rank2.Some? {
      OrderSymmetric(q.rank1.value, q.rank2.value);
    }
  }

  /** The reply to a tokenised message: anything but four tokens is refused before parsing. */
  function Answer(tokens: seq<string>, tables: char -> seq<string>): (r: Reply)
    ensures |tokens| != 4 ==> r == Message(StandardErrorMsg)
    ensures |tokens| == 4 ==> r == Check(Parse(tokens), tables)
  {
    if |tokens| != 4 then Message(StandardErrorMsg)
    else Check(Parse(tokens), tables)
  }

  /** `respond`: an `example` request anywhere in the message is answered first. */
  function Respond(body: string, tables: char -> seq<string>): (r: Reply)
    ensures Contains(Normalize(body), "example") ==> r == Message(Examples)
    ensures !Contains(Normalize(body), "example") ==> r == Answer(Tokens(Normalize(body)), tables)
  {
    var msg := Normalize(body);
    if Contains(msg, "example") then Message(Examples)
    else Answer(Tokens(msg), tables)
  }

  /** Swapping the two rank tokens does not change the reply. */
  lemma AnswerSymmetric(t0: string, t1: string, t2: string, t3: string, tables: char -> seq<string>)
    ensures Answer([t0, t1, t2, t3], tables) == Answer([t1, t0, t2, t3], tables)
  {
    var q := Parse([t0, t1, t2, t3]);
    assert Parse([t1, t0, t2, t3]) == q.(rank1 := q.rank2, rank2 := q.rank1);
    CheckSymmetric(q, tables);
  }

  /**
   * A row the generator writes matches the scan's test exactly when its two
   * ranks are the requested lower and higher rank and its suiting letter is
   * the requested one.
   */
  lemma RowLineMatches(row: Row, fmt: real -> string, lower: char, higher: char, letter: char)
    requires PlainNumbers(fmt)
    ensures LineMatches(RowLine(row, fmt), lower, higher, letter)
         == Some(RankChars[row.hand.lo] == lower && RankChars[row.hand.hi] == higher
                 && SuitingName(row.hand.suited)[0] == letter)
  {
    RowLineLayout(row, fmt);
  }

  /** "offsuit" and "suited" differ in their first letter, so the letter decides the suiting. */
  lemma SuitingLetterDecides(a: bool, b: bool)
    ensures SuitingName(a)[0] == SuitingName(b)[0] <==> a == b
  {
  }

  /** The row of another valid class does not match the request for class `c`. */
  lemma OtherRowMisses(row: Row, fmt: real -> string, c: HandClass)
    requires PlainNumbers(fmt) && ValidClass(row.hand) && ValidClass(c) && row.hand != c
    ensures LineMatches(RowLine(row, fmt), RankChars[c.lo], RankChars[c.hi], SuitingName(c.suited)[0]) == Some(false)
  {
    RankCharsDistinct();
    RowLineMatches(row, fmt, RankChars[c.lo], RankChars[c.hi], SuitingName(c.suited)[0]);
    SuitingLetterDecides(row.hand.suited, c.suited);
  }

  /**
   * In a table whose row `i` holds the class with position `i`, the scan for
   * a class stops at that class's row and reads its statistics.
   */
  lemma ScanFindsIndexedRow(rows: seq<Row>, fmt: real -> string, c: HandClass)
    requires PlainNumbers(fmt) && ValidClass(c)
    requires forall i :: 0 <= i < |rows| ==> ValidClass(rows[i].hand) && ClassIndex(rows[i].hand) == i
    requires 0 <= ClassIndex(c) < |rows| && rows[ClassIndex(c)].hand == c
    ensures var row := rows[ClassIndex(c)];
      Scan(TableFile(rows, fmt), RankChars[c.lo], RankChars[c.hi], SuitingName(c.suited)[0])
      == Stats(fmt(row.wins), fmt(row.ties), fmt(row.gain))
  {
    var lines := TableFile(rows, fmt);
    var lower, higher, letter := RankChars[c.lo], RankChars[c.hi], SuitingName(c.suited)[0];
    var k := ClassIndex(c);
    forall j | 0 <= j < k ensures LineMatches(lines[j], lower, higher, letter) == Some(false) {
      OtherRowMisses(rows[j], fmt, c);
    }
    RowLineMatches(rows[k], fmt, lower, higher, letter);
    ScanFirstMatch(lines, lower, higher, letter, k);
    RowLineLayout(rows[k], fmt);
  }

  /** The table class a request that passes every check asks about: its lower rank, its higher rank, suited or not. */
  function ClassOf(q: Request): (c: HandClass)
    requires Parsed(q) && WellFormed(q)
    ensures ValidClass(c)
    ensures RankChars[c.lo] == Order(q.rank1.value, q.rank2.value).0
    ensures RankChars[c.hi] == Order(q.rank1.value, q.rank2.value).1
    ensures c.suited <==> q.suiting == Some("suited")
  {
    var (lower, higher) := Order(q.rank1.value, q.rank2.value);
    assert IndexOf(lower) == IndexOf(higher) ==> lower == higher;
    HandClass(IndexOf(lower), IndexOf(higher), q.suiting == Some("suited"))
  }

  /** A request that passes every check is answered by the scan of its table for the row of its class. */
  lemma CheckScans(q: Request, tables: char -> seq<string>)
    requires Parsed(q) && WellFormed(q)
    ensures var c := ClassOf(q);
      Check(q, tables) == Scan(tables(q.players.value), RankChars[c.lo], RankChars[c.hi], SuitingName(c.suited)[0])
  {
  }

  /** The rows of a table, in order, are the rows of the classes at those indices. */
  ghost predicate IndexedRows(rows: seq<Row>) {
    (forall i :: 0 <= i < |rows| ==> ValidClass(rows[i].hand) && ClassIndex(rows[i].hand) == i)
    && (forall c :: ValidClass(c) ==> 0 <= ClassIndex(c) < |rows| && rows[ClassIndex(c)].hand == c)
  }

  /** The generator's rows for an indexed class list are indexed by class. */
  lemma GeneratedRowsIndexed(cs: seq<HandClass>, otherPlayers: nat, trials: int, score: Scorer, shuffle: Shuffler)
    requires IndexedClasses(cs) && trials != 0
    ensures var rows := RowsFor(cs, otherPlayers, trials, score, shuffle);
      IndexedRows(rows) && forall c :: ValidClass(c) ==> rows[ClassIndex(c)] == MakeRow(c, otherPlayers, trials, score, shuffle)
  {
  }

  /**
   * A request that passes every check, read against a table whose rows are
   * indexed by class, is answered with the statistics of the row of its class.
   */
  lemma CheckReadsTable(q: Request, tables: char -> seq<string>, rows: seq<Row>, fmt: real -> string)
    requires Parsed(q) && WellFormed(q)
    requires IndexedRows(rows) && PlainNumbers(fmt)
    requires tables(q.players.value) == TableFile(rows, fmt)
    ensures var row := rows[ClassIndex(ClassOf(q))];
      Check(q, tables) == Stats(fmt(row.wins), fmt(row.ties), fmt(row.gain))
  {
    var c := ClassOf(q);
    CheckScans(q, tables);
    ScanFindsIndexedRow(rows, fmt, c);
  }

  /**
   * End to end: a request that passes every check, read against the table
   * the generator writes for its opponent count, is answered with the
   * statistics the generator computed for its class.
   */
  lemma CheckReadsGeneratedTable(q: Request, tables: char -> seq<string>, cs: seq<HandClass>,
                                 trials: int, score: Scorer, shuffle: Shuffler, fmt: real -> string)
    requires Parsed(q) && WellFormed(q)
    requires IndexedClasses(cs) && trials != 0 && PlainNumbers(fmt)
    requires tables(q.players.value)
          == TableFile(RowsFor(cs, q.players.value as int - '0' as int, trials, score, shuffle), fmt)
    ensures var row := MakeRow(ClassOf(q), q.players.value as int - '0' as int, trials, score, shuffle);
      Check(q, tables) == Stats(fmt(row.wins), fmt(row.ties), fmt(row.gain))
  {
    var n := q.players.value as int - '0' as int;
    GeneratedRowsIndexed(cs, n, trials, score, shuffle);
    CheckReadsTable(q, tables, RowsFor(cs, n, trials, score, shuffle), fmt);
  }
}
