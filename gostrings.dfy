/** What the solvers use of Go's `strings` package: `Fields`, `Split`, `Trim`
    and `TrimSuffix`, each with the inverse that pins down its meaning. */
module GoStrings {

  /** The white space `strings.Fields` splits on (its ASCII set). */
  predicate IsSpace(c: char) {
    c == ' ' || c == '\t' || c == '\n' || c == '\U{B}' || c == '\U{C}' || c == '\r'
  }

  /** A field: non-empty and free of white space. */
  predicate IsField(w: string) {
    |w| > 0 && forall i :: 0 <= i < |w| ==> !IsSpace(w[i])
  }

  /** `s` with its leading white space removed. */
  function DropSpaces(s: string): (t: string)
    ensures |t| <= |s| && t == s[|s| - |t|..]
    ensures |t| > 0 ==> !IsSpace(t[0])
  {
    if |s| > 0 && IsSpace(s[0]) then DropSpaces(s[1..]) else s
  }

  /** The longest prefix of `s` free of white space. */
  function Word(s: string): (w: string)
    ensures w <= s
    ensures forall i :: 0 <= i < |w| ==> !IsSpace(w[i])
    ensures |w| < |s| ==> IsSpace(s[|w|])
  {
    if |s| > 0 && !IsSpace(s[0]) then [s[0]] + Word(s[1..]) else []
  }

  /** `strings.Fields`: the maximal runs of non-space characters, in order. */
  function Fields(s: string): (fs: seq<string>)
    ensures forall k :: 0 <= k < |fs| ==> IsField(fs[k])
    decreases |s|
  {
    var t := DropSpaces(s);
    if |t| == 0 then []
    else
      var w := Word(t);
      [w] + Fields(t[|w|..])
  }

  /** `strings.Join(ws, " ")`. */
  function JoinSpaced(ws: seq<string>): string {
    if |ws| == 0 then ""
    else if |ws| == 1 then ws[0]
    else ws[0] + " " + JoinSpaced(ws[1..])
  }

  lemma {:induction false} WordOfJoin(w: string, rest: string)
    requires forall i :: 0 <= i < |w| ==> !IsSpace(w[i])
    requires |rest| == 0 || IsSpace(rest[0])
    ensures Word(w + rest) == w
  {
    if |w| > 0 {
      assert (w + rest)[1..] == w[1..] + rest;
      WordOfJoin(w[1..], rest);
    }
  }

  /** A field followed by nothing or by white space is split off first. */
  lemma FieldsOfWord(w: string, rest: string)
    requires IsField(w)
    requires |rest| == 0 || IsSpace(rest[0])
    ensures Fields(w + rest) == [w] + Fields(rest)
  {
    var s := w + rest;
    assert DropSpaces(s) == s;
    WordOfJoin(w, rest);
    assert s[|w|..] == rest;
  }

  /** A field followed by a space is split off first, and the space dropped. */
  lemma FieldsOfWordSpace(w: string, tail: string)
    requires IsField(w)
    ensures Fields(w + ([' '] + tail)) == [w] + Fields(tail)
  {
    FieldsOfWord(w, [' '] + tail);
    assert DropSpaces([' '] + tail) == DropSpaces(tail) by {
      assert ([' '] + tail)[1..] == tail;
    }
  }

  lemma HeadTail<T>(s: seq<T>)
    requires |s| > 0
    ensures [s[0]] + s[1..] == s
  {
  }

  /** Leading white space does not make a field. */
  lemma FieldsLeadingSpace(s: string)
    ensures Fields(" " + s) == Fields(s)
  {
    assert DropSpaces(" " + s) == DropSpaces(s) by {
      assert (" " + s)[1..] == s;
    }
  }

  /** Joining fields with single spaces and splitting again with `Fields`
      gives back the fields. */
  lemma {:induction false} FieldsJoinSpaced(ws: seq<string>)
    requires forall k :: 0 <= k < |ws| ==> IsField(ws[k])
    ensures Fields(JoinSpaced(ws)) == ws
  {
    if |ws| == 1 {
      FieldsOfWord(ws[0], "");
      assert ws[0] + "" == ws[0];
    } else if |ws| > 1 {
      var rest := ws[1..];
      assert forall k :: 0 <= k < |rest| ==> IsField(rest[k]) by {
        forall k | 0 <= k < |rest| ensures IsField(rest[k]) {
          assert rest[k] == ws[k + 1];
        }
      }
      FieldsJoinSpaced(rest);
      FieldsJoinStep(ws, rest);
    }
  }

  /** One step of `FieldsJoinSpaced`: the first field in front of the
      others, which split back. */
  lemma FieldsJoinStep(ws: seq<string>, rest: seq<string>)
    requires |ws| > 1 && rest == ws[1..] && IsField(ws[0])
    requires Fields(JoinSpaced(rest)) == rest
    ensures Fields(JoinSpaced(ws)) == ws
  {
    var tail := JoinSpaced(rest);
    assert JoinSpaced(ws) == ws[0] + ([' '] + tail);
    FieldsOfWordSpace(ws[0], tail);
    HeadTail(ws);
  }

  /** `sep` occurs in `s` at index `i`. */
  predicate OccursAt(s: string, sep: string, i: nat) {
    i + |sep| <= |s| && s[i..i + |sep|] == sep
  }

  /** The first occurrence of `sep` in `s` at or after `from`. */
  function FindFrom(s: string, sep: string, from: nat): (r: int)
    requires |sep| > 0
    ensures r == -1 || (from <= r && OccursAt(s, sep, r))
    ensures forall j :: from <= j && (r == -1 || j < r) ==> !OccursAt(s, sep, j)
    decreases |s| - from
  {
    if from + |sep| > |s| then -1
    else if s[from..from + |sep|] == sep then from
    else FindFrom(s, sep, from + 1)
  }

  /** `strings.Split(s, sep)` for a non-empty separator: the pieces between
      the occurrences of `sep`, found from left to right. */
  function Split(s: string, sep: string): (ps: seq<string>)
    requires |sep| > 0
    ensures |ps| > 0
    decreases |s|
  {
    var i := FindFrom(s, sep, 0);
    if i < 0 then [s] else [s[..i]] + Split(s[i + |sep|..], sep)
  }

  /** `strings.Join(ps, sep)`. */
  function Join(ps: seq<string>, sep: string): string {
    if |ps| == 0 then ""
    else if |ps| == 1 then ps[0]
    else ps[0] + sep + Join(ps[1..], sep)
  }

  /** A piece in front of at least one more is joined with a separator. */
  lemma JoinCons(p: string, ps: seq<string>, sep: string)
    requires |ps| > 0
    ensures Join([p] + ps, sep) == p + sep + Join(ps, sep)
  {
    assert ([p] + ps)[1..] == ps;
  }

  /** Text is what comes before index `i`, the `n` characters there, and
      what follows them. */
  lemma Around(s: string, i: nat, n: nat)
    requires i + n <= |s|
    ensures s == s[..i] + s[i..i + n] + s[i + n..]
  {
  }

  /** Splitting and joining again gives back the text. */
  lemma {:induction false} JoinSplit(s: string, sep: string)
    requires |sep| > 0
    ensures Join(Split(s, sep), sep) == s
    decreases |s|
  {
    var i := FindFrom(s, sep, 0);
    if i >= 0 {
      var rest := s[i + |sep|..];
      JoinSplit(rest, sep);
      var ps := Split(rest, sep);
      assert Split(s, sep) == [s[..i]] + ps;
      JoinCons(s[..i], ps, sep);
      Around(s, i, |sep|);
    }
  }

  /** Text with no character of `sep` in it holds no occurrence of `sep`
      and is not split. */
  lemma SplitClean(s: string, sep: string)
    requires |sep| > 0
    requires forall k :: 0 <= k < |s| ==> s[k] != sep[0]
    ensures Split(s, sep) == [s]
  {
    forall j | 0 <= j
      ensures !OccursAt(s, sep, j)
    {
      if j + |sep| <= |s| {
        assert s[j..j + |sep|][0] == s[j];
      }
    }
  }

  /** A separator whose first character cannot occur in `a` splits
      `a + sep + b` right after `a`. */
  lemma SplitAfterClean(a: string, sep: string, b: string)
    requires |sep| > 0
    requires forall k :: 0 <= k < |a| ==> a[k] != sep[0]
    ensures Split(a + sep + b, sep) == [a] + Split(b, sep)
  {
    var s := a + sep + b;
    assert OccursAt(s, sep, |a|) by {
      assert s[|a|..|a| + |sep|] == sep;
    }
    forall j | 0 <= j < |a|
      ensures !OccursAt(s, sep, j)
    {
      assert s[j..j + |sep|][0] == s[j] == a[j];
    }
    var i := FindFrom(s, sep, 0);
    assert i == |a|;
    assert s[..i] == a;
    assert s[i + |sep|..] == b;
  }

  /** `s` without the leading characters that are in `cutset`. */
  function TrimLeft(s: string, cutset: set<char>): (t: string)
    ensures |t| <= |s| && t == s[|s| - |t|..]
    ensures |t| > 0 ==> t[0] !in cutset
    ensures forall k :: 0 <= k < |s| - |t| ==> s[k] in cutset
  {
    if |s| > 0 && s[0] in cutset then
      var t := TrimLeft(s[1..], cutset);
      assert s[1..][|s| - 1 - |t|..] == s[|s| - |t|..];
      assert forall k :: 1 <= k < |s| - |t| ==> s[k] == s[1..][k - 1];
      t
    else s
  }

  /** `s` without the trailing characters that are in `cutset`. */
  function TrimRight(s: string, cutset: set<char>): (t: string)
    ensures t <= s
    ensures |t| > 0 ==> t[|t| - 1] !in cutset
    ensures forall k :: |t| <= k < |s| ==> s[k] in cutset
  {
    if |s| > 0 && s[|s| - 1] in cutset then TrimRight(s[..|s| - 1], cutset) else s
  }

  /** `strings.Trim(s, cutset)`. */
  function Trim(s: string, cutset: set<char>): string {
    TrimRight(TrimLeft(s, cutset), cutset)
  }

  /** Trimming removes exactly the wrapping characters when the text inside
      neither starts nor ends with one. */
  lemma TrimWrapped(open: char, inner: string, close: char, cutset: set<char>)
    requires open in cutset && close in cutset
    requires |inner| > 0 && inner[0] !in cutset && inner[|inner| - 1] !in cutset
    ensures Trim([open] + inner + [close], cutset) == inner
  {
    var s := [open] + inner + [close];
    var u := inner + [close];
    assert s[0] == open && s[1..] == u;
    assert TrimLeft(s, cutset) == TrimLeft(u, cutset);
    assert u[0] == inner[0];
    assert TrimLeft(u, cutset) == u;
    assert u[|u| - 1] == close && u[..|u| - 1] == inner;
    assert TrimRight(u, cutset) == TrimRight(inner, cutset);
    assert TrimRight(inner, cutset) == inner;
  }

  /** `strings.TrimSuffix(s, [c])`. */
  function TrimSuffixChar(s: string, c: char): (t: string)
    ensures t + (if |s| > 0 && s[|s| - 1] == c then [c] else []) == s
  {
    if |s| > 0 && s[|s| - 1] == c then s[..|s| - 1] else s
  }
}
