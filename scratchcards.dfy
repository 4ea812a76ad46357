/** solutions/day4.go: each scratchcard lists winning numbers and the numbers
    the player has; its matches score 2^(n-1) points, and a card with n
    matches wins one copy of each of the next n cards for every copy of it. */
module Scratchcards {
  import opened Wrappers
  import Strconv
  import GoStrings
  import Utils
  import Collections

  // ---------------------------------------------------------------------
  // Integer sets (Go's map[int]bool; only keys mapped to true are set)
  // ---------------------------------------------------------------------

  /** What `newSetFromStrSlice` builds: the values of the non-empty strings,
      or an error when one of them is not an integer. */
  function SetOf(slice: seq<string>): Option<set<int>> {
    if |slice| == 0 then Some({})
    else
      var front :- SetOf(slice[..|slice| - 1]);
      var last := slice[|slice| - 1];
      if last == "" then Some(front)
      else
        var i :- Strconv.Atoi(last);
        Some(front + {i})
  }

  /** The set exists exactly when every non-empty string is an integer, and
      then holds exactly their values. */
  lemma {:induction false} SetOfMeaning(slice: seq<string>)
    ensures SetOf(slice).Some? <==> forall j :: 0 <= j < |slice| && slice[j] != "" ==> Strconv.Atoi(slice[j]).Some?
    ensures SetOf(slice).Some? ==> forall k :: k in SetOf(slice).value <==>
      exists j :: 0 <= j < |slice| && slice[j] != "" && Strconv.Atoi(slice[j]) == Some(k)
  {
    if |slice| > 0 {
      var front := slice[..|slice| - 1];
      SetOfMeaning(front);
      assert forall j :: 0 <= j < |front| ==> front[j] == slice[j];
    }
  }

  /** `newSetFromStrSlice`: skips empty strings, collapses duplicates, and
      fails on a string that is not an integer. */
  method NewSetFromStrSlice(slice: seq<string>) returns (s: set<int>, ok: bool)
    ensures ok <==> SetOf(slice).Some?
    ensures ok ==> s == SetOf(slice).value
  {
    s := {};
    for j := 0 to |slice|
      invariant SetOf(slice[..j]) == Some(s)
    {
      assert slice[..j + 1][..j] == slice[..j];
      var element := slice[j];
      if element == "" {
        continue;
      }
      var i := Strconv.Atoi(element);
      if i.None? {
        SetOfFails(slice, j);
        return s, false;
      }
      s := s + {i.value};
    }
    assert slice[..|slice|] == slice;
    ok := true;
  }

  /** One string that is neither empty nor an integer makes the set fail. */
  lemma SetOfFails(slice: seq<string>, j: nat)
    requires j < |slice| && slice[j] != "" && Strconv.Atoi(slice[j]).None?
    ensures SetOf(slice).None?
  {
    SetOfMeaning(slice);
  }

  /** The renderings of integers are read back as the set of those integers. */
  lemma SetOfFormat(ns: seq<int>)
    ensures SetOf(Utils.FormatInts(ns)) == Some(set i | 0 <= i < |ns| :: ns[i])
  {
    var ss := Utils.FormatInts(ns);
    forall j | 0 <= j < |ss|
      ensures ss[j] != "" && Strconv.Atoi(ss[j]) == Some(ns[j])
    {
      Strconv.AtoiFormatInt(ns[j]);
    }
    SetOfMeaning(ss);
    var r := SetOf(ss);
    assert r.Some?;
    var expected := set i | 0 <= i < |ns| :: ns[i];
    forall k
      ensures k in r.value <==> k in expected
    {
      if k in expected {
        var i :| 0 <= i < |ns| && ns[i] == k;
        assert ss[i] != "" && Strconv.Atoi(ss[i]) == Some(k);
      }
      if k in r.value {
        var j :| 0 <= j < |ss| && ss[j] != "" && Strconv.Atoi(ss[j]) == Some(k);
        assert ns[j] == k;
      }
    }
    assert r.value == expected;
  }

  /** `Union`: copies the keys of both sets into a fresh set. */
  method Union(receiver: set<int>, other: set<int>) returns (union: set<int>)
    ensures union == receiver + other
  {
    union := {};
    var rest := receiver;
    while rest != {}
      invariant rest <= receiver
      invariant forall k :: k in union <==> k in receiver && k !in rest
      decreases |rest|
    {
      ghost var some := Collections.Element(rest);
      var k :| k in rest;
      union := union + {k};
      rest := rest - {k};
    }
    rest := other;
    while rest != {}
      invariant rest <= other
      invariant forall k :: k in union <==> k in receiver || (k in other && k !in rest)
      decreases |rest|
    {
      ghost var some := Collections.Element(rest);
      var k :| k in rest;
      union := union + {k};
      rest := rest - {k};
    }
    assert forall k :: k in union <==> k in receiver + other;
  }

  /** `Intersect`: the keys of the receiver that the other set holds. */
  method Intersect(receiver: set<int>, other: set<int>) returns (intersection: set<int>)
    ensures intersection == receiver * other
  {
    intersection := {};
    var rest := receiver;
    while rest != {}
      invariant rest <= receiver
      invariant forall k :: k in intersection <==> k in receiver && k in other && k !in rest
      decreases |rest|
    {
      ghost var some := Collections.Element(rest);
      var k :| k in rest;
      if k in other {
        intersection := intersection + {k};
      }
      rest := rest - {k};
    }
    assert forall k :: k in intersection <==> k in receiver * other;
  }

  // ---------------------------------------------------------------------
  // Parsing a card
  // ---------------------------------------------------------------------

  /** The delimiters the parser splits on: the header delimiter (`:`) and
      the delimiter between the two lists of numbers (`|`). */
  datatype GameParser = GameParser(headerDelim: string, gameDelim: string)

  datatype ScratchGame = ScratchGame(raw: string, winningNums: set<int>, playerNums: set<int>, matches: set<int>)

  /** `parseRaw` and `parseGame`: a split that does not give exactly two
      parts is fatal. */
  function SplitTwo(s: string, delim: string): (r: Option<(string, string)>)
    requires |delim| > 0
    ensures r.Some? <==> |GoStrings.Split(s, delim)| == 2
    ensures r.Some? ==> r.value.0 + delim + r.value.1 == s
  {
    var parsed := GoStrings.Split(s, delim);
    if |parsed| != 2 then None
    else
      GoStrings.JoinSplit(s, delim);
      Some((parsed[0], parsed[1]))
  }

  /** The card a line describes: the header is dropped, the two lists are
      read as sets, and the matches are their intersection. */
  function GameOf(p: GameParser, raw: string): Option<ScratchGame>
    requires |p.headerDelim| > 0 && |p.gameDelim| > 0
  {
    var (_, gameData) :- SplitTwo(raw, p.headerDelim);
    var (winning, player) :- SplitTwo(gameData, p.gameDelim);
    var w :- SetOf(GoStrings.Fields(winning));
    var pl :- SetOf(GoStrings.Fields(player));
    Some(ScratchGame(raw, w, pl, w * pl))
  }

  /** `ParseGame`: the winning numbers and the player's numbers of the line,
      with `matches` their intersection; a line that does not split in two
      on either delimiter, or holds a word that is not a number, is fatal. */
  method ParseGame(p: GameParser, raw: string) returns (game: ScratchGame, ok: bool)
    requires |p.headerDelim| > 0 && |p.gameDelim| > 0
    ensures ok <==> GameOf(p, raw).Some?
    ensures ok ==> game == GameOf(p, raw).value
    ensures ok ==> forall k :: k in game.matches <==> k in game.winningNums && k in game.playerNums
  {
    var header := SplitTwo(raw, p.headerDelim);
    if header.None? {
      return ScratchGame(raw, {}, {}, {}), false;
    }
    var parsed := SplitTwo(header.value.1, p.gameDelim);
    if parsed.None? {
      return ScratchGame(raw, {}, {}, {}), false;
    }
    var winners, okW := NewSetFromStrSlice(GoStrings.Fields(parsed.value.0));
    var players, okP := NewSetFromStrSlice(GoStrings.Fields(parsed.value.1));
    if !okW || !okP {
      return ScratchGame(raw, {}, {}, {}), false;
    }
    var matches := Intersect(winners, players);
    game, ok := ScratchGame(raw, winners, players, matches), true;
  }

  // ---------------------------------------------------------------------
  // Scoring
  // ---------------------------------------------------------------------

  function Pow(base: int, n: nat): int {
    if n == 0 then 1 else base * Pow(base, n - 1)
  }

  /** `ValueScoring.ScoreGame` with a positive number of matches n:
      `scoringBase` to the power n - 1. */
  function ScoreGame(scoringBase: int, numMatches: nat): (score: int)
    requires numMatches >= 1
    ensures numMatches == 1 ==> score == 1
    ensures numMatches > 1 ==> score == scoringBase * ScoreGame(scoringBase, numMatches - 1)
  {
    Pow(scoringBase, numMatches - 1)
  }

  /** `scoreGame` with base 2: no match scores 0, and the first match one
      point that every further match doubles. */
  function Score(game: ScratchGame): (score: nat)
    ensures |game.matches| == 0 <==> score == 0
    ensures |game.matches| == 1 ==> score == 1
    ensures |game.matches| > 1 ==> score == 2 * Pow(2, |game.matches| - 2)
  {
    if |game.matches| == 0 then 0 else PowTwoPositive(|game.matches| - 1); ScoreGame(2, |game.matches|)
  }

  lemma {:induction false} PowTwoPositive(n: nat)
    ensures Pow(2, n) >= 1
  {
    if n > 0 {
      PowTwoPositive(n - 1);
    }
  }

  // ---------------------------------------------------------------------
  // Copies of cards
  // ---------------------------------------------------------------------

  /** Go's lookup in a `map[int]int`: a missing key reads as 0. */
  function Get(m: map<int, int>, k: int): int {
    if k in m then m[k] else 0
  }

  /** The sum of the counts of cards 1 to `end`. */
  function SumTo(m: map<int, int>, end: int): int
    decreases end
  {
    if end < 1 then 0 else SumTo(m, end - 1) + Get(m, end)
  }

  /** `CopyMap`: the number of instances of each card, by card number. */
  class CopyMap {
    var m: map<int, int>

    constructor ()
      ensures m == map[]
    {
      m := map[];
    }

    /** `cards[i] += 1`. */
    method AddOne(i: int)
      modifies this
      ensures forall k :: k in m <==> k in old(m) || k == i
      ensures forall k :: Get(m, k) == Get(old(m), k) + (if k == i then 1 else 0)
    {
      m := m[i := Get(m, i) + 1];
    }

    /** `insertCopies`: each of the `|matches|` cards after `offset` gains as
        many copies as card `offset` has; every other card, `offset`
        included, keeps its count. */
    method InsertCopies(game: ScratchGame, offset: int)
      modifies this
      ensures forall k :: k in m <==> k in old(m) || offset < k <= offset + |game.matches|
      ensures forall k :: Get(m, k) == Get(old(m), k) + (if offset < k <= offset + |game.matches| then Get(old(m), offset) else 0)
    {
      var numMatches := |game.matches|;
      var r := Utils.MakeRange(1, numMatches + 1);
      for j := 0 to |r|
        invariant forall k :: k in m <==> k in old(m) || offset < k <= offset + j
        invariant forall k :: Get(m, k) == Get(old(m), k) + (if offset < k <= offset + j then Get(old(m), offset) else 0)
      {
        var pos := offset + r[j];
        var scaler := Get(m, offset);
        m := m[pos := Get(m, pos) + scaler];
      }
    }

    /** `sumValues(end)`: the counts of cards 1 to `end`, a missing card
        counting 0. */
    method SumValues(end: int) returns (sum: int)
      ensures sum == SumTo(m, end)
    {
      sum := 0;
      var i := 1;
      while i <= end
        invariant 1 <= i <= (if end < 1 then 1 else end + 1)
        invariant sum == SumTo(m, i - 1)
        decreases end - i
      {
        sum := sum + Get(m, i);
        i := i + 1;
      }
    }
  }

  // ---------------------------------------------------------------------
  // The total number of cards, in closed form
  // ---------------------------------------------------------------------

  /** The number of instances of card c (0-based) when the cards have `ms`
      matches: its original plus what the earlier cards send it. */
  function CardCount(ms: seq<nat>, c: nat): nat
    requires c < |ms|
    decreases c, 1
  {
    1 + Inflow(ms, c, c)
  }

  /** The copies of card c won by the cards before card n: every instance of
      an earlier card j whose matches reach c adds one. */
  function Inflow(ms: seq<nat>, n: nat, c: nat): nat
    requires n <= |ms|
    decreases n, 0
  {
    if n == 0 then 0
    else Inflow(ms, n - 1, c) + (if n - 1 < c <= n - 1 + ms[n - 1] then CardCount(ms, n - 1) else 0)
  }

  /** The total number of instances of the first n cards. */
  function CardTotal(ms: seq<nat>, n: nat): nat
    requires n <= |ms|
  {
    if n == 0 then 0 else CardTotal(ms, n - 1) + CardCount(ms, n - 1)
  }

  /** A card with no match passes nothing on; every card has at least its
      original. */
  lemma CardCountBounds(ms: seq<nat>, c: nat)
    requires c < |ms|
    ensures CardCount(ms, c) >= 1
    ensures forall d :: c < d < |ms| && ms[c] == 0 ==> Inflow(ms, c + 1, d) == Inflow(ms, c, d)
  {
  }

  /** Counts depend only on the matches of earlier cards. */
  lemma {:induction false} CardCountPrefix(ms: seq<nat>, x: nat, c: nat)
    requires c < |ms|
    ensures CardCount(ms + [x], c) == CardCount(ms, c)
    decreases c, 1
  {
    InflowPrefix(ms, x, c, c);
  }

  lemma {:induction false} InflowPrefix(ms: seq<nat>, x: nat, n: nat, c: nat)
    requires n <= |ms|
    ensures Inflow(ms + [x], n, c) == Inflow(ms, n, c)
    decreases n, 0
  {
    if n > 0 {
      InflowPrefix(ms, x, n - 1, c);
      CardCountPrefix(ms, x, n - 1);
      assert (ms + [x])[n - 1] == ms[n - 1];
    }
  }

  lemma {:induction false} CardTotalPrefix(ms: seq<nat>, x: nat, n: nat)
    requires n <= |ms|
    ensures CardTotal(ms + [x], n) == CardTotal(ms, n)
  {
    if n > 0 {
      CardTotalPrefix(ms, x, n - 1);
      CardCountPrefix(ms, x, n - 1);
    }
  }

  /** The map of the loop of `Day4` after n cards: cards up to n have their
      final count, later ones what the first n cards sent them. */
  ghost predicate CountsAfter(m: map<int, int>, ms: seq<nat>)
  {
    (forall k :: 1 <= k <= |ms| ==> Get(m, k) == CardCount(ms, k - 1)) &&
    (forall k :: |ms| < k ==> Get(m, k) == Inflow(ms, |ms|, k - 1))
  }

  /** The sum of `Get(m, 1..n)` is the total once the counts are final. */
  lemma {:induction false} SumToTotal(m: map<int, int>, ms: seq<nat>, n: nat)
    requires n <= |ms|
    requires forall k :: 1 <= k <= |ms| ==> Get(m, k) == CardCount(ms, k - 1)
    ensures SumTo(m, n) == CardTotal(ms, n)
  {
    if n > 0 {
      SumToTotal(m, ms, n - 1);
    }
  }

  /** The total points of the cards. */
  function Points(games: seq<ScratchGame>): int {
    if |games| == 0 then 0 else Points(games[..|games| - 1]) + Score(games[|games| - 1])
  }

  /** The matches of each card. */
  function MatchCounts(games: seq<ScratchGame>): (ms: seq<nat>)
    ensures |ms| == |games| && forall i :: 0 <= i < |games| ==> ms[i] == |games[i].matches|
  {
    if |games| == 0 then [] else MatchCounts(games[..|games| - 1]) + [|games[|games| - 1].matches|]
  }

  /** The cards of the lines, or an error at the first line that is not a
      card. */
  function GamesOf(p: GameParser, lines: seq<string>): Option<seq<ScratchGame>>
    requires |p.headerDelim| > 0 && |p.gameDelim| > 0
  {
    if |lines| == 0 then Some([])
    else
      var front :- GamesOf(p, lines[..|lines| - 1]);
      var last :- GameOf(p, lines[|lines| - 1]);
      Some(front + [last])
  }

  /** One line that is not a card makes the whole input fail. */
  lemma {:induction false} GamesOfFails(p: GameParser, lines: seq<string>, i: nat)
    requires |p.headerDelim| > 0 && |p.gameDelim| > 0
    requires i < |lines| && GameOf(p, lines[i]).None?
    ensures GamesOf(p, lines).None?
  {
    if i < |lines| - 1 {
      var front := lines[..|lines| - 1];
      assert front[i] == lines[i];
      GamesOfFails(p, front, i);
    }
  }

  /** Reading one more line extends the cards, their points and their
      match counts. */
  lemma GamesStep(p: GameParser, lines: seq<string>, i: nat, games: seq<ScratchGame>, game: ScratchGame)
    requires |p.headerDelim| > 0 && |p.gameDelim| > 0
    requires i < |lines| && GamesOf(p, lines[..i]) == Some(games) && GameOf(p, lines[i]) == Some(game)
    ensures GamesOf(p, lines[..i + 1]) == Some(games + [game])
    ensures Points(games + [game]) == Points(games) + Score(game)
    ensures MatchCounts(games + [game]) == MatchCounts(games) + [|game.matches|]
  {
    assert lines[..i + 1][..i] == lines[..i];
    assert (games + [game])[..|games|] == games;
  }

  /** The total number of instances of all the cards. */
  function TotalCards(ms: seq<nat>): nat {
    CardTotal(ms, |ms|)
  }

  /** One step of `Day4`: card n + 1 gets its original and then hands its
      count to the cards its matches reach. */
  lemma CountsStep(before: map<int, int>, mid: map<int, int>, after: map<int, int>, ms: seq<nat>, x: nat)
    requires CountsAfter(before, ms)
    requires forall k :: Get(mid, k) == Get(before, k) + (if k == |ms| + 1 then 1 else 0)
    requires forall k :: Get(after, k) == Get(mid, k) + (if |ms| + 1 < k <= |ms| + 1 + x then Get(mid, |ms| + 1) else 0)
    ensures CountsAfter(after, ms + [x])
  {
    var n := |ms|;
    var ms' := ms + [x];
    InflowPrefix(ms, x, n, n);
    assert Get(mid, n + 1) == CardCount(ms', n);
    forall k | 1 <= k <= n
      ensures Get(after, k) == CardCount(ms', k - 1)
    {
      CardCountPrefix(ms, x, k - 1);
    }
    forall k | n + 1 < k
      ensures Get(after, k) == Inflow(ms', n + 1, k - 1)
    {
      InflowPrefix(ms, x, n, k - 1);
    }
  }

  /** `Day4`: the points of all cards and the total number of cards once
      every card has had its original and its copies; a line that is not a
      card is fatal. */
  method Day4(lines: seq<string>) returns (points: int, total: int, ok: bool)
    ensures ok <==> GamesOf(GameParser(":", "|"), lines).Some?
    ensures ok ==> points == Points(GamesOf(GameParser(":", "|"), lines).value)
    ensures ok ==> total == TotalCards(MatchCounts(GamesOf(GameParser(":", "|"), lines).value))
  {
    var parser := GameParser(":", "|");
    var cards := new CopyMap();
    points := 0;
    var count := 0;
    ghost var games: seq<ScratchGame> := [];
    for i := 0 to |lines|
      invariant count == i && |games| == i
      invariant CountsAfter(cards.m, MatchCounts(games))
      invariant GamesOf(parser, lines[..i]) == Some(games)
      invariant points == Points(games)
    {
      ghost var before := cards.m;
      cards.AddOne(i + 1);
      ghost var mid := cards.m;
      var game, parsed := ParseGame(parser, lines[i]);
      if !parsed {
        GamesOfFails(parser, lines, i);
        return 0, 0, false;
      }
      cards.InsertCopies(game, i + 1);
      CountsStep(before, mid, cards.m, MatchCounts(games), |game.matches|);
      GamesStep(parser, lines, i, games, game);
      games := games + [game];
      points := points + Score(game);
      count := i + 1;
    }
    assert lines[..|lines|] == lines;
    SumToTotal(cards.m, MatchCounts(games), count);
    total := cards.SumValues(count);
    ok := true;
  }
}
