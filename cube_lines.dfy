/** Game lines of 2023/day2.go written out as text, `Game <id>:` followed by
    sets of counts such as ` 8 green, 6 blue` separated by `;`: what the
    lexer and the parser of `CubeConundrum` make of such a line. */
module CubeLines {
  import opened Wrappers
  import Strconv
  import opened CubeConundrum

  /** The three colour tokens. */
  type Colour = t: TokenType | t == Red || t == Green || t == Blue witness Red

  function ColourName(c: Colour): string {
    if c == Red then "red" else if c == Green then "green" else "blue"
  }

  /** One count of a set, such as `8 green`. */
  datatype Draw = Draw(count: nat, colour: Colour)

  /** The count of one colour. */
  function CountOf(rules: Rules, c: Colour): int {
    if c == Red then rules.red else if c == Green then rules.green else rules.blue
  }

  /** The counts after the draws of one set, each setting its colour in
      turn, as `parseResult` does. */
  function SetCounts(rules: Rules, ds: seq<Draw>): Rules
    decreases |ds|
  {
    if |ds| == 0 then rules else SetCounts(SetColour(rules, ds[0].colour, ds[0].count), ds[1..])
  }

  /** A colour the draws do not show keeps its count. */
  lemma {:induction false} ColourNotShown(rules: Rules, ds: seq<Draw>, c: Colour)
    requires forall k :: 0 <= k < |ds| ==> ds[k].colour != c
    ensures CountOf(SetCounts(rules, ds), c) == CountOf(rules, c)
    decreases |ds|
  {
    if |ds| > 0 {
      assert ds[0].colour != c;
      ColourNotShown(SetColour(rules, ds[0].colour, ds[0].count), ds[1..], c);
    }
  }

  /** A colour shown more than once in a set counts with its last draw: the
      earlier counts are overwritten. */
  lemma {:induction false} LastDrawCounts(rules: Rules, ds: seq<Draw>, j: nat)
    requires j < |ds| && forall k :: j < k < |ds| ==> ds[k].colour != ds[j].colour
    ensures CountOf(SetCounts(rules, ds), ds[j].colour) == ds[j].count
    decreases |ds|
  {
    var next := SetColour(rules, ds[0].colour, ds[0].count);
    if j == 0 {
      ColourNotShown(next, ds[1..], ds[0].colour);
    } else {
      LastDrawCounts(next, ds[1..], j - 1);
    }
  }

  /** The text of a draw, after the `:`, `;` or `,` before it. */
  function DrawText(d: Draw): string {
    " " + Strconv.Digits(d.count) + " " + ColourName(d.colour)
  }

  /** The text of a set: its draws separated by commas. */
  function SetText(ds: seq<Draw>): string
    requires |ds| > 0
  {
    if |ds| == 1 then DrawText(ds[0]) else DrawText(ds[0]) + "," + SetText(ds[1..])
  }

  /** Every set shows at least one draw. */
  predicate Shown(sets: seq<seq<Draw>>) {
    |sets| > 0 && forall i :: 0 <= i < |sets| ==> |sets[i]| > 0
  }

  /** The text of the sets, separated by semicolons. */
  function SetsText(sets: seq<seq<Draw>>): string
    requires Shown(sets)
  {
    if |sets| == 1 then SetText(sets[0]) else SetText(sets[0]) + ";" + SetsText(sets[1..])
  }

  /** A game line such as `Game 3: 8 green, 6 blue; 14 red`. */
  function GameText(id: nat, sets: seq<seq<Draw>>): string
    requires Shown(sets)
  {
    "Game " + Strconv.Digits(id) + ":" + SetsText(sets)
  }

  /** The counts of each set, in order. */
  function AllCounts(sets: seq<seq<Draw>>): seq<Rules>
    decreases |sets|
  {
    if |sets| == 0 then [] else [SetCounts(NoCubes, sets[0])] + AllCounts(sets[1..])
  }

  /** The tokens of a draw: its count and its colour. */
  function DrawTokens(d: Draw): seq<Token> {
    [Token(Value, Strconv.Digits(d.count)), Token(d.colour, ColourName(d.colour))]
  }

  /** The tokens of a set: its draws' tokens with commas between them. */
  function SetTokens(ds: seq<Draw>): seq<Token>
    requires |ds| > 0
  {
    if |ds| == 1 then DrawTokens(ds[0]) else DrawTokens(ds[0]) + [Token(Comma, ",")] + SetTokens(ds[1..])
  }

  /** The tokens of the sets, with semicolons between them. */
  function SetsTokens(sets: seq<seq<Draw>>): seq<Token>
    requires Shown(sets)
  {
    if |sets| == 1 then SetTokens(sets[0])
    else SetTokens(sets[0]) + [Token(Semic, ";")] + SetsTokens(sets[1..])
  }

  /** A colour name is a word of letters that the lexer looks up as that
      colour. */
  lemma {:induction false} ColourWord(c: Colour)
    ensures |ColourName(c)| > 0 && forall i :: 0 <= i < |ColourName(c)| ==> Utils.IsLetter(ColourName(c)[i])
    ensures LookupIdent(ColourName(c)) == c
  {
  }

  /** The lexer hands out the token at the start of `s` and goes on after
      it. */
  lemma {:induction false} TokensFront(s: string, t: Token, w: nat)
    requires |s| > 0 && NextTok(s) == t && Width(s) == w && w <= |s|
    ensures Tokens(s) == [t] + Tokens(s[w..])
  {
  }

  /** A blank in front of a text is passed over with the token after it. */
  lemma {:induction false} AfterBlank(y: string)
    requires |y| > 0
    ensures After([' '] + y) == After(y)
  {
    LexSkipsBlanks(' ', y);
    var s := [' '] + y;
    if Width(y) <= |y| {
      assert s[Width(s)..] == y[Width(y)..];
    }
  }

  /** A blank in front of a text changes none of its tokens. */
  lemma {:induction false} TokensBlank(y: string)
    requires |y| > 0
    ensures Tokens([' '] + y) == Tokens(y)
  {
    LexSkipsBlanks(' ', y);
    AfterBlank(y);
  }

  /** What is left after a token spanning all of `x`. */
  lemma {:induction false} AfterWord(x: string, rest: string)
    requires Width(x + rest) == |x|
    ensures After(x + rest) == rest
  {
    assert (x + rest)[|x|..] == rest;
  }

  /** A token spanning all of `x` leaves the tokens of what follows. */
  lemma {:induction false} TokensWord(x: string, rest: string, t: Token)
    requires |x| > 0 && NextTok(x + rest) == t && Width(x + rest) == |x|
    ensures Tokens(x + rest) == [t] + Tokens(rest)
  {
    AfterWord(x, rest);
  }

  /** Two elements in front of a sequence. */
  lemma {:induction false} Glue2<T>(a: T, b: T, rest: seq<T>)
    ensures [a] + ([b] + rest) == [a, b] + rest
  {
  }

  /** Three pieces in front of a sequence. */
  lemma {:induction false} Glue3<T>(a: seq<T>, b: seq<T>, c: seq<T>, rest: seq<T>)
    ensures a + (b + (c + rest)) == a + b + c + rest
  {
  }

  /** Nothing after a sequence. */
  lemma {:induction false} Glue0<T>(a: seq<T>)
    ensures a + [] == a
  {
  }

  /** Concatenation regrouped. */
  lemma {:induction false} Glue<T>(a: seq<T>, b: seq<T>, c: seq<T>)
    ensures a + (b + c) == a + b + c
  {
  }

  /** A blank in front of `x`, with `rest` after it. */
  lemma {:induction false} BlankFront(x: string, rest: string)
    ensures " " + x + rest == [' '] + (x + rest)
  {
  }

  /** Two texts joined by a byte, with `rest` after them. */
  lemma {:induction false} Joined(a: string, c: char, b: string, rest: string)
    ensures a + [c] + b + rest == a + ([c] + (b + rest))
  {
  }

  /** A draw's text as a blank and its count, and a blank and its colour. */
  lemma {:induction false} DrawTextSplit(d: Draw, rest: string)
    ensures DrawText(d) + rest == " " + Strconv.Digits(d.count) + (" " + ColourName(d.colour) + rest)
  {
  }

  /** A game line as the keyword, a blank and the number, and the sets. */
  lemma {:induction false} GameTextSplit(id: nat, sets: seq<seq<Draw>>)
    requires Shown(sets)
    ensures GameText(id, sets) == "Game" + (" " + Strconv.Digits(id) + (":" + SetsText(sets)))
  {
  }

  /** A blank and a count read as the count. */
  lemma {:induction false} LexCount(n: nat, tail: string)
    requires |tail| > 0 && tail[0] == ' '
    ensures Tokens(" " + Strconv.Digits(n) + tail) == [Token(Value, Strconv.Digits(n))] + Tokens(tail)
  {
    var digits := Strconv.Digits(n);
    BlankFront(digits, tail);
    TokensBlank(digits + tail);
    Strconv.AllDigitsEach(digits);
    LexNumber(digits, tail);
    TokensWord(digits, tail, Token(Value, digits));
  }

  /** A blank and a colour name read as the colour. */
  lemma {:induction false} LexColour(c: Colour, rest: string)
    requires |rest| == 0 || rest[0] == ',' || rest[0] == ';'
    ensures Tokens(" " + ColourName(c) + rest) == [Token(c, ColourName(c))] + Tokens(rest)
  {
    var name := ColourName(c);
    BlankFront(name, rest);
    TokensBlank(name + rest);
    ColourWord(c);
    LexWord(name, rest);
    TokensWord(name, rest, Token(c, name));
  }

  /** A draw reads as its count and its colour. */
  lemma {:induction false} LexDraw(d: Draw, rest: string)
    requires |rest| == 0 || rest[0] == ',' || rest[0] == ';'
    ensures Tokens(DrawText(d) + rest) == DrawTokens(d) + Tokens(rest)
  {
    var tail := " " + ColourName(d.colour) + rest;
    DrawTextSplit(d, rest);
    LexCount(d.count, tail);
    LexColour(d.colour, rest);
    Glue2(Token(Value, Strconv.Digits(d.count)), Token(d.colour, ColourName(d.colour)), Tokens(rest));
  }

  /** A punctuation byte is a token of its own. */
  lemma {:induction false} LexMark(c: char, rest: string)
    requires c == ',' || c == ';' || c == ':'
    ensures Tokens([c] + rest) ==
      [Token(if c == ',' then Comma else if c == ';' then Semic else Colon, [c])] + Tokens(rest)
  {
    LexPunctuation(c, rest);
    assert ([c] + rest)[1..] == rest;
    TokensFront([c] + rest, NextTok([c] + rest), 1);
  }

  /** A set reads as its draws with commas between them. */
  lemma {:induction false} LexSet(ds: seq<Draw>, rest: string)
    requires |ds| > 0 && (|rest| == 0 || rest[0] == ';')
    ensures Tokens(SetText(ds) + rest) == SetTokens(ds) + Tokens(rest)
    decreases |ds|
  {
    if |ds| == 1 {
      LexDraw(ds[0], rest);
    } else {
      var more := SetText(ds[1..]) + rest;
      Joined(DrawText(ds[0]), ',', SetText(ds[1..]), rest);
      LexDraw(ds[0], "," + more);
      LexMark(',', more);
      LexSet(ds[1..], rest);
      Glue3(DrawTokens(ds[0]), [Token(Comma, ",")], SetTokens(ds[1..]), Tokens(rest));
    }
  }

  /** The sets read as their draws with semicolons between them. */
  lemma {:induction false} LexSets(sets: seq<seq<Draw>>)
    requires Shown(sets)
    ensures Tokens(SetsText(sets)) == SetsTokens(sets)
    decreases |sets|
  {
    if |sets| == 1 {
      LexSet(sets[0], "");
      Glue0(SetText(sets[0]));
      Glue0(SetTokens(sets[0]));
    } else {
      var more := SetsText(sets[1..]);
      Glue(SetText(sets[0]), ";", more);
      LexSet(sets[0], ";" + more);
      LexMark(';', more);
      LexSets(sets[1..]);
      Glue(SetTokens(sets[0]), [Token(Semic, ";")], SetsTokens(sets[1..]));
    }
  }

  /** The tokens of a game line: the game keyword, the game's number, the
      `:` and the sets. */
  lemma {:induction false} LexGame(id: nat, sets: seq<seq<Draw>>)
    requires Shown(sets)
    ensures Tokens(GameText(id, sets)) ==
      [Token(Game, "Game"), Token(Value, Strconv.Digits(id)), Token(Colon, ":")] + SetsTokens(sets)
  {
    var more := SetsText(sets);
    var tail := " " + Strconv.Digits(id) + (":" + more);
    GameTextSplit(id, sets);
    LexKeyword(tail);
    LexNumberMark(id, more);
    LexSets(sets);
    Glue2(Token(Value, Strconv.Digits(id)), Token(Colon, ":"), SetsTokens(sets));
    Glue2(Token(Game, "Game"), Token(Value, Strconv.Digits(id)), [Token(Colon, ":")] + SetsTokens(sets));
  }

  /** `Game` followed by a blank reads as the game keyword. */
  lemma {:induction false} LexKeyword(tail: string)
    requires |tail| > 0 && tail[0] == ' '
    ensures Tokens("Game" + tail) == [Token(Game, "Game")] + Tokens(tail)
  {
    LexWord("Game", tail);
    TokensWord("Game", tail, Token(Game, "Game"));
  }

  /** The game's number and its `:`. */
  lemma {:induction false} LexNumberMark(id: nat, more: string)
    ensures Tokens(" " + Strconv.Digits(id) + (":" + more)) ==
      [Token(Value, Strconv.Digits(id)), Token(Colon, ":")] + Tokens(more)
  {
    var digits := Strconv.Digits(id);
    BlankFront(digits, ":" + more);
    TokensBlank(digits + (":" + more));
    Strconv.AllDigitsEach(digits);
    LexNumber(digits, ":" + more);
    TokensWord(digits, ":" + more, Token(Value, digits));
    LexMark(':', more);
    Glue2(Token(Value, digits), Token(Colon, ":"), Tokens(more));
  }

  /** The tokens `xs` stand in `ts` from `k` on. */
  predicate Segment(ts: seq<Token>, k: nat, xs: seq<Token>) {
    k + |xs| <= |ts| && forall i :: 0 <= i < |xs| ==> ts[k + i] == xs[i]
  }

  /** A list stands in itself from its start. */
  lemma {:induction false} SegmentWhole(ts: seq<Token>)
    ensures Segment(ts, 0, ts)
  {
  }

  /** Where `a + b` stands, `a` stands, and `b` right after it, at `m`. */
  lemma {:induction false} SegmentSplit(ts: seq<Token>, k: nat, a: seq<Token>, b: seq<Token>, m: nat)
    requires Segment(ts, k, a + b) && m == k + |a|
    ensures Segment(ts, k, a) && Segment(ts, m, b)
  {
    forall i | 0 <= i < |a|
      ensures ts[k + i] == a[i]
    {
      assert (a + b)[i] == a[i];
    }
    forall i | 0 <= i < |b|
      ensures ts[k + |a| + i] == b[i]
    {
      assert (a + b)[|a| + i] == b[i];
    }
  }

  /** Token `i` of a segment is token `j`, that is `k + i`, of the list. */
  lemma {:induction false} SegmentAt(ts: seq<Token>, k: nat, xs: seq<Token>, i: nat, j: nat)
    requires Segment(ts, k, xs) && i < |xs| && j == k + i
    ensures At(ts, j) == xs[i]
  {
  }

  /** The tokens of set `ds` stand at `k`: for each draw a count that
      reads back as its count and its colour, with commas between them. */
  predicate SetAt(ts: seq<Token>, k: nat, ds: seq<Draw>)
    decreases |ds|
  {
    |ds| > 0 &&
    At(ts, k).tokenType == Value && Strconv.Atoi(At(ts, k).literal) == Some(ds[0].count) &&
    At(ts, k + 1).tokenType == ds[0].colour &&
    (|ds| > 1 ==> At(ts, k + 2).tokenType == Comma && SetAt(ts, k + 3, ds[1..]))
  }

  /** A set's tokens are three per draw, less the comma after the last. */
  lemma {:induction false} SetTokensLength(ds: seq<Draw>)
    requires |ds| > 0
    ensures |SetTokens(ds)| == 3 * |ds| - 1
    decreases |ds|
  {
    if |ds| > 1 {
      SetTokensLength(ds[1..]);
    }
  }

  /** The digits of a count read back as the count. */
  lemma {:induction false} AtoiDigits(n: nat)
    ensures Strconv.Atoi(Strconv.Digits(n)) == Some(n)
  {
    Strconv.AtoiFormatInt(n);
  }

  /** Where the tokens of a set stand, the set stands. */
  lemma {:induction false} SetTokensAt(ts: seq<Token>, k: nat, ds: seq<Draw>)
    requires |ds| > 0 && Segment(ts, k, SetTokens(ds))
    ensures SetAt(ts, k, ds)
    decreases |ds|
  {
    var draw := DrawTokens(ds[0]);
    AtoiDigits(ds[0].count);
    if |ds| == 1 {
      SegmentAt(ts, k, draw, 0, k);
      SegmentAt(ts, k, draw, 1, k + 1);
    } else {
      var front := draw + [Token(Comma, ",")];
      SegmentSplit(ts, k, front, SetTokens(ds[1..]), k + 3);
      SegmentAt(ts, k, front, 0, k);
      SegmentAt(ts, k, front, 1, k + 1);
      SegmentAt(ts, k, front, 2, k + 2);
      SetTokensAt(ts, k + 3, ds[1..]);
    }
  }

  /** The first draw of a set sets its colour first. */
  lemma {:induction false} SetCountsFront(rules: Rules, ds: seq<Draw>)
    requires |ds| > 0
    ensures SetCounts(rules, ds) == SetCounts(SetColour(rules, ds[0].colour, ds[0].count), ds[1..])
    ensures |ds| == 1 ==> SetCounts(rules, ds) == SetColour(rules, ds[0].colour, ds[0].count)
  {
  }

  /** `parseResult`'s loop ends at a `;` or the end of the line. */
  lemma {:induction false} ResultLoopEnd(ts: seq<Token>, k: nat, rules: Rules)
    requires At(ts, k).tokenType == Semic || At(ts, k).tokenType == Eol
    ensures ResultLoop(ts, k, rules) == (Some(rules), k)
  {
  }

  /** `parseResult`'s loop over the tokens of a set reads the set's counts
      and stops at the `;` or the end of the line after it. */
  lemma {:induction false} ResultLoopSet(ts: seq<Token>, k: nat, rules: Rules, ds: seq<Draw>)
    requires SetAt(ts, k, ds)
    requires At(ts, k + 3 * |ds| - 1).tokenType == Semic || At(ts, k + 3 * |ds| - 1).tokenType == Eol
    ensures ResultLoop(ts, k, rules) == (Some(SetCounts(rules, ds)), k + 3 * |ds| - 1)
    decreases |ds|
  {
    var d := ds[0];
    var rules' := SetColour(rules, d.colour, d.count);
    SetCountsFront(rules, ds);
    if |ds| == 1 {
      ResultLoopStep(ts, k, rules, d.count, k + 2, rules');
      ResultLoopEnd(ts, k + 2, rules');
    } else {
      ResultLoopSet(ts, k + 3, rules', ds[1..]);
      ResultLoopStep(ts, k, rules, d.count, k + 3, rules');
    }
  }

  /** The sets `sets` stand after the `:` or `;` at `k`: each set's tokens,
      each followed by a `;`, the last by the end of the list. */
  predicate SetsAt(ts: seq<Token>, k: nat, sets: seq<seq<Draw>>)
    decreases |sets|
  {
    |sets| > 0 && |sets[0]| > 0 && Opens(ts, k) && SetAt(ts, k + 1, sets[0]) &&
    (|sets| == 1 ==> |ts| <= k + 3 * |sets[0]|) &&
    (|sets| > 1 ==> At(ts, k + 3 * |sets[0]|).tokenType == Semic && SetsAt(ts, k + 3 * |sets[0]|, sets[1..]))
  }

  /** A list standing from `k + 1` up to the end: `first`, a `;` at `m`
      and `rest` up to the end. */
  lemma {:induction false} SetsCons(ts: seq<Token>, k: nat, first: seq<Token>, rest: seq<Token>, m: nat)
    requires Segment(ts, k + 1, first + [Token(Semic, ";")] + rest)
    requires |ts| == k + 1 + |first| + 1 + |rest| && m == k + 1 + |first|
    ensures Segment(ts, k + 1, first) && At(ts, m).tokenType == Semic
    ensures Segment(ts, m + 1, rest) && |ts| == m + 1 + |rest|
  {
    var mark := [Token(Semic, ";")];
    SegmentSplit(ts, k + 1, first + mark, rest, m + 1);
    SegmentSplit(ts, k + 1, first, mark, m);
    SegmentAt(ts, m, mark, 0, m);
  }

  /** The tokens of the last set, standing from `k + 1` up to the end of
      the list. */
  lemma {:induction false} SetsTokensLast(ts: seq<Token>, k: nat, ds: seq<Draw>)
    requires |ds| > 0 && Segment(ts, k + 1, SetTokens(ds)) && |ts| == k + 1 + |SetTokens(ds)|
    ensures SetAt(ts, k + 1, ds) && |ts| <= k + 3 * |ds|
  {
    SetTokensLength(ds);
    SetTokensAt(ts, k + 1, ds);
  }

  /** The tokens of a set, a `;` and more sets, standing from `k + 1` up to
      the end of the list. */
  lemma {:induction false} SetsTokensMore(ts: seq<Token>, k: nat, sets: seq<seq<Draw>>)
    requires Shown(sets) && |sets| > 1
    requires Segment(ts, k + 1, SetsTokens(sets)) && |ts| == k + 1 + |SetsTokens(sets)|
    ensures SetAt(ts, k + 1, sets[0]) && At(ts, k + 3 * |sets[0]|).tokenType == Semic
    ensures Segment(ts, k + 3 * |sets[0]| + 1, SetsTokens(sets[1..]))
    ensures |ts| == k + 3 * |sets[0]| + 1 + |SetsTokens(sets[1..])|
  {
    SetTokensLength(sets[0]);
    SetsCons(ts, k, SetTokens(sets[0]), SetsTokens(sets[1..]), k + 3 * |sets[0]|);
    SetTokensAt(ts, k + 1, sets[0]);
  }

  /** Where the tokens of the sets stand, up to the end of the list, after
      a `:` or `;` at `k`, the sets stand. */
  lemma {:induction false} SetsTokensAt(ts: seq<Token>, k: nat, sets: seq<seq<Draw>>)
    requires Shown(sets) && Opens(ts, k)
    requires Segment(ts, k + 1, SetsTokens(sets)) && |ts| == k + 1 + |SetsTokens(sets)|
    ensures SetsAt(ts, k, sets)
    decreases |sets|
  {
    if |sets| == 1 {
      SetsTokensLast(ts, k, sets[0]);
    } else {
      SetsTokensMore(ts, k, sets);
      SetsTokensAt(ts, k + 3 * |sets[0]|, sets[1..]);
    }
  }

  /** No token of a set opens a set. */
  lemma {:induction false} SetAtClosed(ts: seq<Token>, k: nat, ds: seq<Draw>, i: nat)
    requires SetAt(ts, k, ds) && k <= i < k + 3 * |ds| - 1
    ensures !Opens(ts, i)
    decreases |ds|
  {
    if i >= k + 3 {
      SetAtClosed(ts, k + 3, ds[1..], i);
    }
  }

  /** From the sets at `k` on, every `;` is followed by a count. */
  lemma {:induction false} SetsAtFormed(ts: seq<Token>, k: nat, sets: seq<seq<Draw>>, i: nat)
    requires SetsAt(ts, k, sets) && k <= i && Opens(ts, i)
    ensures At(ts, i + 1).tokenType == Value
    decreases |sets|
  {
    var next := k + 3 * |sets[0]|;
    if k < i < next {
      SetAtClosed(ts, k + 1, sets[0], i);
    } else if i >= next && |sets| > 1 {
      SetsAtFormed(ts, next, sets[1..], i);
    }
  }

  /** The `parseSet` at a `:` or `;` followed by the tokens of a set reads
      that set's counts and stops on the token after them. */
  lemma {:induction false} SetReadsFirst(ts: seq<Token>, k: nat, ds: seq<Draw>)
    requires Opens(ts, k) && SetAt(ts, k + 1, ds)
    requires At(ts, k + 3 * |ds|).tokenType == Semic || At(ts, k + 3 * |ds|).tokenType == Eol
    ensures SetSpec(ts, k) == (Some(SetCounts(NoCubes, ds)), k + 3 * |ds|)
  {
    ResultLoopSet(ts, k + 1, NoCubes, ds);
    ResultSpecCases(ts, k);
  }

  /** After a `:` or `;`, `parseSets` reads the counts of each set in turn. */
  lemma {:induction false} SetsSpecSets(ts: seq<Token>, k: nat, sets: seq<seq<Draw>>)
    requires WellFormed(ts) && SetsAt(ts, k, sets)
    ensures SetsSpec(ts, k) == AllCounts(sets)
    decreases |sets|
  {
    var next := k + 3 * |sets[0]|;
    SetReadsFirst(ts, k, sets[0]);
    if |sets| > 1 {
      SetsSpecSets(ts, next, sets[1..]);
    }
    SetsSpecStep(ts, k, Some(SetCounts(NoCubes, sets[0])), next);
  }

  /** One `parseSet` of `parseSets`. */
  lemma {:induction false} SetsSpecStep(ts: seq<Token>, k: nat, r: Option<Rules>, next: nat)
    requires WellFormed(ts) && At(ts, k).tokenType != Eol && SetSpec(ts, k) == (r, next)
    ensures SetsSpec(ts, k) == (if r.Some? then [r.value] else []) + SetsSpec(ts, next)
  {
  }

  /** The tokens of a game line: the keyword, the game's number, a `:` and
      the sets, which stand after it. */
  lemma {:induction false} GameHead(ts: seq<Token>, id: nat, sets: seq<seq<Draw>>)
    requires Shown(sets)
    requires ts == [Token(Game, "Game"), Token(Value, Strconv.Digits(id)), Token(Colon, ":")] + SetsTokens(sets)
    ensures At(ts, 0).tokenType == Game && At(ts, 1).tokenType == Value
    ensures SetsAt(ts, 2, sets)
  {
    var head := [Token(Game, "Game"), Token(Value, Strconv.Digits(id)), Token(Colon, ":")];
    SegmentWhole(ts);
    SegmentSplit(ts, 0, head, SetsTokens(sets), 3);
    SegmentAt(ts, 0, head, 0, 0);
    SegmentAt(ts, 0, head, 1, 1);
    SegmentAt(ts, 0, head, 2, 2);
    SetsTokensAt(ts, 2, sets);
  }

  /** `parseSets` over the tokens of a game line passes over the keyword and
      the game's number and reads the sets after the `:`. */
  lemma {:induction false} ParseFromHead(ts: seq<Token>, id: nat, sets: seq<seq<Draw>>)
    requires Shown(sets)
    requires ts == [Token(Game, "Game"), Token(Value, Strconv.Digits(id)), Token(Colon, ":")] + SetsTokens(sets)
    ensures WellFormed(ts)
    ensures SetsSpec(ts, 0) == AllCounts(sets)
  {
    GameHead(ts, id, sets);
    forall i: nat | Opens(ts, i)
      ensures At(ts, i + 1).tokenType == Value
    {
      SetsAtFormed(ts, 2, sets, i);
    }
    SetsSpecStep(ts, 0, None, 1);
    SetsSpecStep(ts, 1, None, 2);
    SetsSpecSets(ts, 2, sets);
  }

  /** `Parse` of a game line, whose sets each show at least one count: the
      sets' counts folded with `Update`, so each colour gets its largest
      count over the sets (`UpdateAllLeast`), and within a set the last
      count of a colour (`LastDrawCounts`). */
  lemma {:induction false} ParseGameText(id: nat, sets: seq<seq<Draw>>)
    requires Shown(sets)
    ensures WellFormed(Tokens(GameText(id, sets)))
    ensures ParseLine(GameText(id, sets)) == UpdateAll(NoCubes, AllCounts(sets))
  {
    LexGame(id, sets);
    ParseFromHead(Tokens(GameText(id, sets)), id, sets);
  }
}
