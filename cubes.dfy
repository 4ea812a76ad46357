/** 2023/day2.go: a game line such as `Game 3: 8 green, 6 blue; 14 red` is
    read by a hand-written lexer and parser into the largest number of cubes
    of each colour shown in any one set. Characters stand for the bytes of
    the line; `'\0'` is the byte the lexer reads at (and past) the end. */
module CubeConundrum {
  import opened Wrappers
  import Strconv
  import Utils
  import Collections

  datatype TokenType =
    | Illegal | Eol | Game | Id | Colon | Comma | Comment | Semic
    | Red | Green | Blue | Value

  datatype Token = Token(tokenType: TokenType, literal: string)

  /** `LookupIdent`: a colour name gives its colour token, any other word
      the game keyword. */
  function LookupIdent(ident: string): (t: TokenType)
    ensures t == Red <==> ident == "red"
    ensures t == Green <==> ident == "green"
    ensures t == Blue <==> ident == "blue"
    ensures t != Red && t != Green && t != Blue ==> t == Game
  {
    if ident == "red" then Red
    else if ident == "green" then Green
    else if ident == "blue" then Blue
    else Game
  }

  // ---------------------------------------------------------------------
  // Cube counts

  /** `Rules`: a number of cubes of each colour. */
  datatype Rules = Rules(red: int, green: int, blue: int) {

    /** `Update`: raise each colour to the other's count when that is larger. */
    function Update(other: Rules): Rules {
      Rules(if other.red > red then other.red else red,
            if other.green > green then other.green else green,
            if other.blue > blue then other.blue else blue)
    }

    /** `Compare`: false as soon as `other` shows more of some colour. */
    predicate Compare(other: Rules) {
      !(other.red > red) && !(other.blue > blue) && !(other.green > green)
    }
  }

  /** `Compare` holds exactly when `other` is at most `r` in every colour, so
      it is reflexive and transitive. */
  lemma CompareMeaning(r: Rules, other: Rules, third: Rules)
    ensures r.Compare(other) <==> other.red <= r.red && other.green <= r.green && other.blue <= r.blue
    ensures r.Compare(r)
    ensures r.Compare(other) && other.Compare(third) ==> r.Compare(third)
  {
  }

  /** `Update` is the least upper bound for `Compare`: it is idempotent and
      commutative, dominates both counts, and lies below every common bound. */
  lemma UpdateLeastUpperBound(a: Rules, b: Rules, c: Rules)
    ensures a.Update(a) == a
    ensures a.Update(b) == b.Update(a)
    ensures a.Update(b).Compare(a) && a.Update(b).Compare(b)
    ensures c.Compare(a) && c.Compare(b) ==> c.Compare(a.Update(b))
    ensures a.Update(b) == a <==> a.Compare(b)
  {
  }

  /** The counts `Parse` starts from. */
  const NoCubes := Rules(0, 0, 0)

  /** `Parse`'s loop: every set folded in with `Update`, in order. */
  function UpdateAll(r: Rules, sets: seq<Rules>): Rules
    decreases |sets|
  {
    if |sets| == 0 then r else UpdateAll(r.Update(sets[0]), sets[1..])
  }

  /** The folded counts are the least counts that dominate the start and every
      set. */
  lemma {:induction false} UpdateAllLeast(r: Rules, sets: seq<Rules>, c: Rules)
    ensures UpdateAll(r, sets).Compare(r)
    ensures forall k :: 0 <= k < |sets| ==> UpdateAll(r, sets).Compare(sets[k])
    ensures c.Compare(r) && (forall k :: 0 <= k < |sets| ==> c.Compare(sets[k])) ==> c.Compare(UpdateAll(r, sets))
    decreases |sets|
  {
    if |sets| > 0 {
      UpdateAllLeast(r.Update(sets[0]), sets[1..], c);
      assert forall k :: 1 <= k < |sets| ==> sets[1..][k - 1] == sets[k];
    }
  }

  // ---------------------------------------------------------------------
  // The lexer, as functions of the text that is left to read

  predicate IsBlank(c: char) {
    c == ' ' || c == '\t'
  }

  /** The number of spaces and tabs `skipWhitespace` passes over. */
  function SpaceRun(s: string): (n: nat)
    ensures n <= |s|
    ensures forall i :: 0 <= i < n ==> IsBlank(s[i])
    ensures n < |s| ==> !IsBlank(s[n])
  {
    if |s| > 0 && IsBlank(s[0]) then 1 + SpaceRun(s[1..]) else 0
  }

  /** How many letters `readIdentifier` reads: the length of the longest
      prefix of letters. */
  function LetterCount(s: string): (n: nat)
    ensures n <= |s|
    ensures n < |s| ==> !Utils.IsLetter(s[n])
  {
    if |s| > 0 && Utils.IsLetter(s[0]) then 1 + LetterCount(s[1..]) else 0
  }

  /** How many digits `readNumber` reads: the length of the longest prefix
      of digits. */
  function DigitCount(s: string): (n: nat)
    ensures n <= |s|
    ensures n < |s| ==> !Utils.IsDigit(s[n])
  {
    if |s| > 0 && Utils.IsDigit(s[0]) then 1 + DigitCount(s[1..]) else 0
  }
  /** The token at the start of `t`, which does not start with a blank: the
      end of the text or a NUL byte reads as `Eol`. */
  function TokenAt(t: string): Token {
    var c := if |t| > 0 then t[0] else '\0';
    if c == ':' then Token(Colon, [c])
    else if c == ';' then Token(Semic, [c])
    else if c == ',' then Token(Comma, [c])
    else if c == '#' then Token(Comment, [c])
    else if c == '\0' then Token(Eol, "")
    else if Utils.IsLetter(c) then
      var w := t[..LetterCount(t)];
      Token(LookupIdent(w), w)
    else if Utils.IsDigit(c) then Token(Value, t[..DigitCount(t)])
    else Token(Illegal, [c])
  }

  /** How many bytes the token at the start of `t` spans: at least one, so
      the end of the text is read as one `Eol` after another. */
  function TokenWidth(t: string): (n: nat)
    ensures n >= 1
  {
    if |t| > 0 && Utils.IsLetter(t[0]) then LetterCount(t)
    else if |t| > 0 && Utils.IsDigit(t[0]) then DigitCount(t)
    else 1
  }

  /** The token `NextToken` hands out for the text `s` still to be read:
      spaces and tabs in front are passed over first. */
  function NextTok(s: string): Token {
    TokenAt(s[SpaceRun(s)..])
  }

  /** How far `NextToken` moves through `s`. */
  function Width(s: string): (n: nat)
    ensures n >= 1
  {
    SpaceRun(s) + TokenWidth(s[SpaceRun(s)..])
  }

  /** A token other than `Eol` lies within the text. */
  lemma WidthWithin(s: string)
    ensures NextTok(s).tokenType != Eol ==> Width(s) <= |s|
  {
  }

  /** The byte the lexer holds at `p`: NUL past the end. */
  function CharAt(input: string, p: nat): char {
    if p < |input| then input[p] else '\0'
  }

  /** The text from `p` on; nothing past the end. */
  function Rest(input: string, p: nat): string {
    input[(if p <= |input| then p else |input|)..]
  }
  /** The text left after the token at the start of `s`: a non-empty text
      always gets shorter, and nothing stays nothing. */
  function After(s: string): (t: string)
    ensures |s| > 0 ==> |t| < |s|
    ensures |s| == 0 ==> t == []
  {
    if Width(s) <= |s| then s[Width(s)..] else []
  }

  /** Moving the lexer `Width` bytes on leaves `After` of the text. */
  lemma RestAfter(input: string, p: nat, p2: nat)
    requires p2 == p + Width(Rest(input, p))
    ensures Rest(input, p2) == After(Rest(input, p))
  {
    var s, w := Rest(input, p), Width(Rest(input, p));
    if w <= |s| {
      assert Rest(input, p2) == s[w..];
    } else {
      assert Rest(input, p2) == [];
    }
  }

  /** Spaces and tabs in front of a token are skipped. */
  lemma LexSkipsBlanks(c: char, s: string)
    requires IsBlank(c)
    ensures NextTok([c] + s) == NextTok(s) && Width([c] + s) == Width(s) + 1
  {
    assert ([c] + s)[1..] == s;
    assert ([c] + s)[SpaceRun([c] + s)..] == s[SpaceRun(s)..];
  }

  /** A word of letters followed by a non-letter is one token: its colour,
      or the game keyword, with the word as its literal. */
  lemma LexWord(w: string, rest: string)
    requires |w| > 0 && forall i :: 0 <= i < |w| ==> Utils.IsLetter(w[i])
    requires |rest| == 0 || !Utils.IsLetter(rest[0])
    ensures NextTok(w + rest) == Token(LookupIdent(w), w) && Width(w + rest) == |w|
  {
    assert (w + rest)[0] == w[0];
    LetterCountOf(w, rest);
    assert (w + rest)[..|w|] == w;
  }

  lemma {:induction false} LetterCountOf(w: string, rest: string)
    requires forall i :: 0 <= i < |w| ==> Utils.IsLetter(w[i])
    requires |rest| == 0 || !Utils.IsLetter(rest[0])
    ensures LetterCount(w + rest) == |w|
  {
    if |w| > 0 {
      assert (w + rest)[1..] == w[1..] + rest;
      LetterCountOf(w[1..], rest);
    } else {
      assert w + rest == rest;
    }
  }

  /** A run of digits followed by a non-digit is one `Value` token. */
  lemma LexNumber(d: string, rest: string)
    requires |d| > 0 && forall i :: 0 <= i < |d| ==> Utils.IsDigit(d[i])
    requires |rest| == 0 || !Utils.IsDigit(rest[0])
    ensures NextTok(d + rest) == Token(Value, d) && Width(d + rest) == |d|
  {
    assert (d + rest)[0] == d[0];
    DigitCountOf(d, rest);
    assert (d + rest)[..|d|] == d;
  }

  lemma {:induction false} DigitCountOf(d: string, rest: string)
    requires forall i :: 0 <= i < |d| ==> Utils.IsDigit(d[i])
    requires |rest| == 0 || !Utils.IsDigit(rest[0])
    ensures DigitCount(d + rest) == |d|
  {
    if |d| > 0 {
      assert (d + rest)[1..] == d[1..] + rest;
      DigitCountOf(d[1..], rest);
    } else {
      assert d + rest == rest;
    }
  }

  /** Each of `:`, `;`, `,` and `#` is a token of its own. */
  lemma LexPunctuation(c: char, rest: string)
    requires c == ':' || c == ';' || c == ',' || c == '#'
    ensures NextTok([c] + rest) ==
      Token(if c == ':' then Colon else if c == ';' then Semic else if c == ',' then Comma else Comment, [c])
    ensures Width([c] + rest) == 1
  {
  }
  /** At the end of the text the lexer hands out `Eol` with an empty literal,
      and stays at the end, so it goes on doing so. */
  lemma LexAtEnd()
    ensures NextTok([]) == Token(Eol, "") && After([]) == []
  {
  }

  /** A NUL byte ends the line as well, and is passed over by one byte. */
  lemma LexNul(rest: string)
    ensures NextTok(['\0'] + rest) == Token(Eol, "") && After(['\0'] + rest) == rest
  {
    assert (['\0'] + rest)[1..] == rest;
  }
  // ---------------------------------------------------------------------
  // The lexer object

  class Lexer {
    const input: string
    var position: nat
    var readPos: nat
    var ch: char

    /** `ch` is the byte at `position`, and `readPos` the next one. */
    ghost predicate Valid()
      reads this
    {
      readPos == position + 1 && ch == CharAt(input, position)
    }

    /** `newLexer`: positioned on the first byte. */
    constructor (input: string)
      ensures Valid() && this.input == input && position == 0
    {
      this.input := input;
      position, readPos, ch := 0, 0, '\0';
      new;
      ReadChar();
    }

    /** `readChar`: step to `readPos`, holding NUL once past the end. */
    method ReadChar()
      modifies this
      ensures position == old(readPos) && readPos == old(readPos) + 1
      ensures ch == CharAt(input, old(readPos))
    {
      if readPos >= |input| {
        ch := '\0';
      } else {
        ch := input[readPos];
      }
      position := readPos;
      readPos := readPos + 1;
    }

    /** `skipWhitespace`: pass over spaces and tabs. */
    method SkipWhitespace()
      requires Valid()
      modifies this
      ensures Valid() && position == old(position) + SpaceRun(Rest(input, old(position)))
    {
      while ch == ' ' || ch == '\t'
        invariant Valid() && old(position) <= position
        invariant SpaceRun(Rest(input, old(position))) == position - old(position) + SpaceRun(Rest(input, position))
        decreases |input| - position
      {
        RestStep(input, position);
        ReadChar();
      }
      RestStep(input, position);
    }

    /** `readIdentifier`: the letters from the current byte on. */
    method ReadIdentifier() returns (lit: string)
      requires Valid() && position <= |input|
      modifies this
      ensures Valid() && lit == Rest(input, old(position))[..LetterCount(Rest(input, old(position)))]
      ensures position == old(position) + |lit|
    {
      var start := position;
      while Utils.IsLetter(ch)
        invariant Valid() && start <= position <= |input|
        invariant LetterCount(Rest(input, start)) == position - start + LetterCount(Rest(input, position))
        decreases |input| - position
      {
        LetterCountStep(input, position);
        ReadChar();
      }
      LetterCountStep(input, position);
      RestDrop(input, start, position - start);
      lit := input[start..position];
    }

    /** `readNumber`: the digits from the current byte on. */
    method ReadNumber() returns (lit: string)
      requires Valid() && position <= |input|
      modifies this
      ensures Valid() && lit == Rest(input, old(position))[..DigitCount(Rest(input, old(position)))]
      ensures position == old(position) + |lit|
    {
      var start := position;
      while Utils.IsDigit(ch)
        invariant Valid() && start <= position <= |input|
        invariant DigitCount(Rest(input, start)) == position - start + DigitCount(Rest(input, position))
        decreases |input| - position
      {
        DigitCountStep(input, position);
        ReadChar();
      }
      DigitCountStep(input, position);
      RestDrop(input, start, position - start);
      lit := input[start..position];
    }

    /** `NextToken`: the token `NextTok` describes, read from the current
        position, and the position just past it. */
    method NextToken() returns (tok: Token)
      requires Valid()
      modifies this
      ensures Valid()
      ensures tok == NextTok(Rest(input, old(position)))
      ensures position == old(position) + Width(Rest(input, old(position)))
    {
      ghost var s := Rest(input, position);
      SkipWhitespace();
      ghost var sp := SpaceRun(s);
      if old(position) <= |input| {
        RestDrop(input, old(position), sp);
      }
      assert Rest(input, position) == s[sp..];
      tok := ReadToken();
    }

    /** The `switch` of `NextToken`: the token `TokenAt` describes, read from
        the current byte, and the position just past it. */
    method ReadToken() returns (tok: Token)
      requires Valid()
      modifies this
      ensures Valid()
      ensures tok == TokenAt(Rest(input, old(position)))
      ensures position == old(position) + TokenWidth(Rest(input, old(position)))
    {
      RestStep(input, position);
      if ch == ':' {
        tok := Token(Colon, [ch]);
      } else if ch == ';' {
        tok := Token(Semic, [ch]);
      } else if ch == ',' {
        tok := Token(Comma, [ch]);
      } else if ch == '#' {
        tok := Token(Comment, [ch]);
      } else if ch == '\0' {
        tok := Token(Eol, "");
      } else if Utils.IsLetter(ch) {
        var lit := ReadIdentifier();
        return Token(LookupIdent(lit), lit);
      } else if Utils.IsDigit(ch) {
        var lit := ReadNumber();
        return Token(Value, lit);
      } else {
        tok := Token(Illegal, [ch]);
      }
      ReadChar();
    }

    /** `NextToken` seen through the token list: with `pending` the tokens
        still to read, it returns the first of them and leaves the others. */
    method Shift(ghost pending: seq<Token>) returns (tok: Token)
      requires Valid() && Tokens(Rest(input, position)) == pending
      modifies this
      ensures Valid() && tok == At(pending, 0) && Tokens(Rest(input, position)) == Drop(pending, 1)
    {
      ghost var p := position;
      tok := NextToken();
      LexerShift(input, p, position, pending, tok);
    }
  }

  /** Reading one byte moves the text that is left by one. */
  lemma RestStep(input: string, p: nat)
    ensures p < |input| ==> |Rest(input, p)| > 0 && Rest(input, p)[0] == input[p] && Rest(input, p)[1..] == Rest(input, p + 1)
    ensures p >= |input| ==> Rest(input, p) == []
  {
  }

  /** The letters from `p` on: none unless the byte there is one. */
  lemma LetterCountStep(input: string, p: nat)
    ensures LetterCount(Rest(input, p)) ==
      if Utils.IsLetter(CharAt(input, p)) then 1 + LetterCount(Rest(input, p + 1)) else 0
  {
    RestStep(input, p);
  }

  /** The digits from `p` on: none unless the byte there is one. */
  lemma DigitCountStep(input: string, p: nat)
    ensures DigitCount(Rest(input, p)) ==
      if Utils.IsDigit(CharAt(input, p)) then 1 + DigitCount(Rest(input, p + 1)) else 0
  {
    RestStep(input, p);
  }

  lemma RestDrop(input: string, p: nat, n: nat)
    requires p + n <= |input|
    ensures Rest(input, p + n) == Rest(input, p)[n..]
    ensures input[p..p + n] == Rest(input, p)[..n]
  {
  }

  /** All the tokens the lexer hands out for `s` before it stands at the end
      of the text; from there on it hands out `Eol` (`LexAtEnd`). */
  function Tokens(s: string): seq<Token>
    decreases |s|
  {
    if |s| == 0 then [] else [NextTok(s)] + Tokens(After(s))
  }

  // ---------------------------------------------------------------------
  // The parser, as functions of the token list and the index of `curr`

  /** Token `k` of a list; `Eol` past its end. */
  function At(ts: seq<Token>, k: nat): (t: Token)
    ensures t.tokenType != Eol ==> k < |ts|
  {
    if k < |ts| then ts[k] else Token(Eol, "")
  }

  /** The tokens from `k` on; none past the end. */
  function Drop(ts: seq<Token>, k: nat): seq<Token> {
    if k <= |ts| then ts[k..] else []
  }

  /** The counts after `num` cubes of the colour `colour`; any other token
      in the colour's place changes nothing. */
  function SetColour(rules: Rules, colour: TokenType, num: int): Rules {
    if colour == Red then rules.(red := num)
    else if colour == Blue then rules.(blue := num)
    else if colour == Green then rules.(green := num)
    else rules
  }

  /** `parseResult`'s loop from token `k` on, with the counts of the set so
      far: a count followed by a colour token, then an optional comma, until
      a `;` or the end of the line; a non-number where a count belongs
      abandons the set. The result is the set and the index of `curr`. */
  function ResultLoop(ts: seq<Token>, k: nat, rules: Rules): (r: (Option<Rules>, nat))
    ensures k <= r.1
    decreases |ts| + 3 - k
  {
    var t := At(ts, k);
    if t.tokenType == Semic || t.tokenType == Eol then (Some(rules), k)
    else
      match Strconv.Atoi(t.literal)
      case None => (None, k)
      case Some(num) =>
        var after := if At(ts, k + 2).tokenType == Comma then k + 3 else k + 2;
        ResultLoop(ts, after, SetColour(rules, At(ts, k + 1).tokenType, num))
  }

  /** One count and colour of `ResultLoop`. */
  lemma ResultLoopStep(ts: seq<Token>, k: nat, rules: Rules, num: int, after: nat, rules': Rules)
    requires At(ts, k).tokenType != Semic && At(ts, k).tokenType != Eol
    requires Strconv.Atoi(At(ts, k).literal) == Some(num)
    requires after == if At(ts, k + 2).tokenType == Comma then k + 3 else k + 2
    requires rules' == SetColour(rules, At(ts, k + 1).tokenType, num)
    ensures ResultLoop(ts, after, rules') == ResultLoop(ts, k, rules)
  {
  }

  /** `parseResult` at a `:` or `;`: nothing, and no token read, unless a
      number follows. */
  function ResultSpec(ts: seq<Token>, k: nat): (r: (Option<Rules>, nat))
    ensures k <= r.1
  {
    if At(ts, k + 1).tokenType != Value then (None, k) else ResultLoop(ts, k + 1, NoCubes)
  }

  /** Without a number after the `:` or `;` nothing is read; with one, the
      counts are read from it on. */
  lemma ResultSpecCases(ts: seq<Token>, k: nat)
    ensures At(ts, k + 1).tokenType != Value ==> ResultSpec(ts, k) == (None, k)
    ensures At(ts, k + 1).tokenType == Value ==> ResultSpec(ts, k) == ResultLoop(ts, k + 1, NoCubes)
  {
  }

  /** `parseSet`: the game keyword and any stray token are passed over; a
      `:` or `;` starts a set. */
  function SetSpec(ts: seq<Token>, k: nat): (r: (Option<Rules>, nat))
    ensures k <= r.1
  {
    var t := At(ts, k).tokenType;
    if t == Colon || t == Semic then ResultSpec(ts, k) else (None, k + 1)
  }

  /** Token `k` opens a set. */
  predicate Opens(ts: seq<Token>, k: nat) {
    At(ts, k).tokenType == Colon || At(ts, k).tokenType == Semic
  }

  /** The token lists `parseSets` finishes on: every `:` and `;` is followed
      by a number (otherwise `parseResult` reads nothing and the loop
      repeats). */
  ghost predicate WellFormed(ts: seq<Token>) {
    forall k: nat {:trigger Opens(ts, k)} :: Opens(ts, k) ==> At(ts, k + 1).tokenType == Value
  }

  /** On a well-formed list every `parseSet` reads a token. */
  lemma SetProgress(ts: seq<Token>, k: nat)
    requires WellFormed(ts)
    ensures SetSpec(ts, k).1 > k
  {
    if Opens(ts, k) {
      assert At(ts, k + 1).tokenType == Value;
    }
  }

  /** `parseSets` from token `k`: the sets read, in order, up to the first
      `Eol` in `curr`. */
  function SetsSpec(ts: seq<Token>, k: nat): seq<Rules>
    requires WellFormed(ts)
    decreases |ts| + 2 - k
  {
    if At(ts, k).tokenType == Eol then []
    else
      SetProgress(ts, k);
      var (r, next) := SetSpec(ts, k);
      (if r.Some? then [r.value] else []) + SetsSpec(ts, next)
  }

  /** The loop of `parseSets` from token `k`, with the sets read so far in
      `acc`. */
  ghost function ScanSets(ts: seq<Token>, k: nat, acc: seq<Rules>): seq<Rules>
    requires WellFormed(ts)
    decreases |ts| + 2 - k
  {
    if At(ts, k).tokenType == Eol then acc
    else
      SetProgress(ts, k);
      var (r, next) := SetSpec(ts, k);
      ScanSets(ts, next, acc + if r.Some? then [r.value] else [])
  }

  /** The loop appends the sets from token `k` on to what it has read. */
  lemma {:induction false} ScanSetsSpec(ts: seq<Token>, k: nat, acc: seq<Rules>)
    requires WellFormed(ts)
    ensures ScanSets(ts, k, acc) == acc + SetsSpec(ts, k)
    decreases |ts| + 2 - k
  {
    if At(ts, k).tokenType != Eol {
      SetProgress(ts, k);
      var (r, next) := SetSpec(ts, k);
      var found := if r.Some? then [r.value] else [];
      ScanSetsSpec(ts, next, acc + found);
      Collections.AppendAssoc(acc, found, SetsSpec(ts, next));
    }
  }

  /** One `parseSet` of the loop: what it reads is appended, and the loop
      goes on where it stopped. */
  lemma ScanSetsStep(ts: seq<Token>, k: nat, acc: seq<Rules>, r: Option<Rules>, next: nat, acc': seq<Rules>)
    requires WellFormed(ts) && At(ts, k).tokenType != Eol
    requires (r, next) == SetSpec(ts, k)
    requires acc' == acc + if r.Some? then [r.value] else []
    ensures ScanSets(ts, next, acc') == ScanSets(ts, k, acc)
  {
    SetProgress(ts, k);
  }

  /** `Parse` of a fresh parser over `input`: the sets of the line folded
      with `Update`, starting from no cubes. */
  ghost function ParseLine(input: string): Rules
    requires WellFormed(Tokens(input))
  {
    UpdateAll(NoCubes, SetsSpec(Tokens(input), 0))
  }

  // ---------------------------------------------------------------------
  // The parser object

  /** The lexer hands out the first token of the list, and leaves the
      others. */
  lemma LexerStep(s: string, ts: seq<Token>)
    requires Tokens(s) == ts
    ensures NextTok(s) == At(ts, 0)
    ensures Tokens(After(s)) == Drop(ts, 1)
  {
    if |s| == 0 {
      LexAtEnd();
    } else {
      assert ts[1..] == Tokens(After(s));
    }
  }

  /** One `NextToken` of the lexer, from `p` to `p2`, hands out the first
      token of the list and leaves the others. */
  lemma LexerShift(input: string, p: nat, p2: nat, ts: seq<Token>, t: Token)
    requires Tokens(Rest(input, p)) == ts
    requires t == NextTok(Rest(input, p)) && p2 == p + Width(Rest(input, p))
    ensures t == At(ts, 0) && Tokens(Rest(input, p2)) == Drop(ts, 1)
  {
    LexerStep(Rest(input, p), ts);
    RestAfter(input, p, p2);
  }

  /** Past the tokens from `k` on, the first is token `k` and the rest are
      those from `k + 1` on. */
  lemma DropNext(ts: seq<Token>, k: nat)
    ensures At(Drop(ts, k), 0) == At(ts, k) && Drop(Drop(ts, k), 1) == Drop(ts, k + 1)
  {
  }

  /** A lexer at `position` in `input` has read the tokens `ts` up to
      `k + 2`, with `curr` and `peek` the tokens at `k` and `k + 1`. */
  ghost predicate ReadUpTo(input: string, position: nat, ts: seq<Token>, k: nat, curr: Token, peek: Token) {
    curr == At(ts, k) && peek == At(ts, k + 1) &&
    Tokens(Rest(input, position)) == Drop(ts, k + 2)
  }

  /** The lexer of `newParser`, with the two tokens it reads first. */
  method OpenLexer(input: string) returns (l: Lexer, first: Token, second: Token, ghost ts: seq<Token>)
    ensures fresh(l) && l.Valid() && ts == Tokens(input) && ReadUpTo(l.input, l.position, ts, 0, first, second)
  {
    l := new Lexer(input);
    ts := Tokens(input);
    assert Rest(input, 0) == input;
    first := l.Shift(ts);
    DropNext(ts, 1);
    second := l.Shift(Drop(ts, 1));
    DropNext(ts, 2);
  }

  class Parser {
    var lexer: Lexer
    var curr: Token
    var peek: Token
    /** The tokens of the line, and the index of `curr` among them. */
    ghost const tokens: seq<Token>
    ghost var index: nat

    ghost predicate Valid()
      reads this, lexer
    {
      lexer.Valid() &&
      curr == At(tokens, index) && peek == At(tokens, index + 1) &&
      Tokens(Rest(lexer.input, lexer.position)) == Drop(tokens, index + 2)
    }

    /** `newParser`: the lexer over `input`, with its first two tokens read. */
    constructor (input: string)
      ensures Valid() && fresh(lexer) && tokens == Tokens(input) && index == 0
    {
      var l, first, second, ts := OpenLexer(input);
      lexer, curr, peek := l, first, second;
      tokens, index := ts, 0;
    }

    /** `nextToken`: shift `peek` into `curr` and read a new `peek`. */
    method NextToken()
      requires Valid()
      modifies this, lexer
      ensures Valid() && lexer == old(lexer) && index == old(index) + 1
    {
      var t := lexer.Shift(Drop(tokens, index + 2));
      DropNext(tokens, index + 2);
      curr, peek, index := peek, t, index + 1;
    }

    /** `expectPeek`: step forward exactly when `peek` has the type asked for. */
    method ExpectPeek(t: TokenType) returns (b: bool)
      requires Valid()
      modifies this, lexer
      ensures Valid() && lexer == old(lexer)
      ensures b == (old(peek).tokenType == t)
      ensures index == if b then old(index) + 1 else old(index)
    {
      if peek.tokenType == t {
        NextToken();
        return true;
      }
      return false;
    }

    /** `parseResult`: one set of counts after a `:` or `;`. */
    method ParseResult() returns (r: Option<Rules>)
      requires Valid()
      modifies this, lexer
      ensures Valid() && lexer == old(lexer)
      ensures (r, index) == ResultSpec(tokens, old(index))
    {
      ResultSpecCases(tokens, index);
      var found := ExpectPeek(Value);
      if !found {
        return None;
      }
      r := ParseCounts(NoCubes);
    }

    /** The loop of `parseResult`, from the first count on: each count and
        colour is recorded until a `;` or the end of the line. */
    method ParseCounts(start: Rules) returns (r: Option<Rules>)
      requires Valid()
      modifies this, lexer
      ensures Valid() && lexer == old(lexer)
      ensures (r, index) == ResultLoop(tokens, old(index), start)
    {
      var rules := start;
      while curr.tokenType != Semic
        invariant Valid() && lexer == old(lexer)
        invariant ResultLoop(tokens, index, rules) == ResultLoop(tokens, old(index), start)
        decreases |tokens| + 3 - index
      {
        if curr.tokenType == Eol {
          return Some(rules);
        }
        var parsed := Strconv.Atoi(curr.literal);
        if parsed.None? {
          return None;
        }
        ghost var k := index;
        var counted := ReadColour(rules, parsed.value);
        ResultLoopStep(tokens, k, rules, parsed.value, index, counted);
        rules := counted;
      }
      return Some(rules);
    }

    /** The middle of `parseResult`'s loop: the colour after the count `num`
        sets that colour's count, and a `,` after the colour is passed over. */
    method ReadColour(rules: Rules, num: int) returns (counted: Rules)
      requires Valid()
      modifies this, lexer
      ensures Valid() && lexer == old(lexer)
      ensures counted == SetColour(rules, At(tokens, old(index) + 1).tokenType, num)
      ensures index == if At(tokens, old(index) + 2).tokenType == Comma then old(index) + 3 else old(index) + 2
    {
      NextToken();
      counted := rules;
      if curr.tokenType == Red {
        counted := rules.(red := num);
      } else if curr.tokenType == Blue {
        counted := rules.(blue := num);
      } else if curr.tokenType == Green {
        counted := rules.(green := num);
      }
      NextToken();
      if curr.tokenType == Comma {
        NextToken();
      }
    }

    /** `parseSet`. */
    method ParseSet() returns (r: Option<Rules>)
      requires Valid()
      modifies this, lexer
      ensures Valid() && lexer == old(lexer)
      ensures (r, index) == SetSpec(tokens, old(index))
    {
      if curr.tokenType == Colon || curr.tokenType == Semic {
        r := ParseResult();
      } else {
        NextToken();
        r := None;
      }
    }

    /** `parseSets`: the sets of the line, in order. */
    method ParseSets() returns (results: seq<Rules>)
      requires Valid() && WellFormed(tokens)
      modifies this, lexer
      ensures Valid() && lexer == old(lexer)
      ensures results == SetsSpec(tokens, old(index))
    {
      ghost var all := ScanSets(tokens, index, []);
      results := [];
      while curr.tokenType != Eol
        invariant Valid() && lexer == old(lexer)
        invariant ScanSets(tokens, index, results) == all
        decreases |tokens| + 2 - index
      {
        ghost var k := index;
        ghost var before := results;
        SetProgress(tokens, k);
        var one := ParseSet();
        var found := if one.Some? then [one.value] else [];
        results := results + found;
        ScanSetsStep(tokens, k, before, one, index, results);
      }
      ScanSetsSpec(tokens, old(index), []);
      assert [] + SetsSpec(tokens, old(index)) == SetsSpec(tokens, old(index));
    }

    /** `Parse`: the largest count of each colour over the sets of the line. */
    method Parse() returns (rules: Rules)
      requires Valid() && WellFormed(tokens)
      modifies this, lexer
      ensures rules == UpdateAll(NoCubes, SetsSpec(tokens, old(index)))
    {
      var sets := ParseSets();
      rules := NoCubes;
      for i := 0 to |sets|
        invariant UpdateAll(rules, sets[i..]) == UpdateAll(NoCubes, sets)
      {
        assert sets[i..][1..] == sets[i + 1..];
        rules := rules.Update(sets[i]);
      }
    }
  }
}
