/** The parts of Python's `str` that the coordinate pipeline relies on:
    `str.isspace`, `str.strip()`, `str.split()` (no argument: runs of
    whitespace), `str.split(c)` for a one-character separator and
    `sep.join(xs)`. */
module Strings {

  /** Python's `str.isspace` for one character. */
  predicate IsSpace(c: char) {
    ('\t' <= c <= '\r') || ('\U{1C}' <= c <= '\U{1F}') || c == ' ' ||
    c == '\U{85}' || c == '\U{A0}' || c == '\U{1680}' ||
    ('\U{2000}' <= c <= '\U{200A}') || c == '\U{2028}' || c == '\U{2029}' ||
    c == '\U{202F}' || c == '\U{205F}' || c == '\U{3000}'
  }

  /** Every character of `s` is whitespace (vacuously true of ""). */
  predicate AllSpace(s: string) {
    forall i :: 0 <= i < |s| ==> IsSpace(s[i])
  }

  /** No character of `s` is whitespace. */
  predicate NoSpace(s: string) {
    forall i :: 0 <= i < |s| ==> !IsSpace(s[i])
  }

  /** A token that `str.split()` can return: not empty, no whitespace. */
  predicate IsWord(w: string) {
    w != [] && NoSpace(w)
  }

  /** `s` with its leading whitespace removed. */
  function TrimStart(s: string): (r: string)
    ensures |r| <= |s| && r == s[|s| - |r|..]
    ensures AllSpace(s[..|s| - |r|])
    ensures r == [] || !IsSpace(r[0])
  {
    if s != [] && IsSpace(s[0]) then
      var r := TrimStart(s[1..]);
      assert s[..|s| - |r|] == [s[0]] + s[1..][..|s| - 1 - |r|];
      r
    else s
  }

  /** `s` with its trailing whitespace removed. */
  function TrimEnd(s: string): (r: string)
    ensures |r| <= |s| && r == s[..|r|]
    ensures AllSpace(s[|r|..])
    ensures r == [] || !IsSpace(r[|r| - 1])
  {
    if s != [] && IsSpace(s[|s| - 1]) then
      var init := s[..|s| - 1];
      var r := TrimEnd(init);
      assert s[|r|..] == init[|r|..] + [s[|s| - 1]];
      r
    else s
  }

  /** Python's `s.strip()`. */
  function Strip(s: string): string {
    TrimEnd(TrimStart(s))
  }

  /** `s.strip()` is blank exactly when `s` is all whitespace, and otherwise
      neither starts nor ends with whitespace. */
  lemma StripMeaning(s: string)
    ensures Strip(s) == [] <==> AllSpace(s)
    ensures Strip(s) == [] || (!IsSpace(Strip(s)[0]) && !IsSpace(Strip(s)[|Strip(s)| - 1]))
  {
    var t := TrimStart(s);
    if TrimEnd(t) == [] {
      BlankTrimmed(s, t);
    } else {
      NonBlankTrimmed(s, t);
    }
  }

  /** When something is left after trimming, it starts with the first
      non-whitespace character of `s`. */
  lemma NonBlankTrimmed(s: string, t: string)
    requires t == TrimStart(s) && TrimEnd(t) != []
    ensures !AllSpace(s) && !IsSpace(TrimEnd(t)[0])
  {
    var k := |s| - |t|;
    assert t != [] && !IsSpace(t[0]);
    assert s[k] == t[0];
    assert TrimEnd(t)[0] == t[0];
  }

  /** When nothing is left after trimming, everything was whitespace. */
  lemma BlankTrimmed(s: string, t: string)
    requires t == TrimStart(s) && TrimEnd(t) == []
    ensures AllSpace(s)
  {
    assert t[|TrimEnd(t)|..] == t;
    assert t == [];
    assert s[..|s|] == s;
  }

  /** Length of the run of non-whitespace characters at the start of `s`. */
  function WordEnd(s: string): (n: nat)
    ensures n <= |s|
    ensures forall i :: 0 <= i < n ==> !IsSpace(s[i])
    ensures n < |s| ==> IsSpace(s[n])
  {
    if s == [] || IsSpace(s[0]) then 0 else 1 + WordEnd(s[1..])
  }

  /** Python's `s.split()`: the maximal runs of non-whitespace characters,
      left to right. */
  function Words(s: string): (ws: seq<string>)
    ensures forall k :: 0 <= k < |ws| ==> IsWord(ws[k])
    decreases |s|
  {
    if s == [] then []
    else if IsSpace(s[0]) then Words(s[1..])
    else
      var n := WordEnd(s);
      [s[..n]] + Words(s[n..])
  }

  /** `str.split()` finds no token exactly when the text is blank. */
  lemma {:induction false} WordsEmptyIffBlank(s: string)
    ensures Words(s) == [] <==> AllSpace(s)
    decreases |s|
  {
    if s != [] {
      if IsSpace(s[0]) {
        WordsEmptyIffBlank(s[1..]);
        assert AllSpace(s) <==> AllSpace(s[1..]) by {
          if AllSpace(s[1..]) {
            forall i | 0 <= i < |s| ensures IsSpace(s[i]) {
              if i > 0 { assert s[i] == s[1..][i - 1]; }
            }
          }
        }
      }
    }
  }

  /** Leading whitespace never changes the tokens. */
  lemma {:induction false} WordsTrimStart(s: string)
    ensures Words(TrimStart(s)) == Words(s)
    decreases |s|
  {
    if s != [] && IsSpace(s[0]) {
      WordsTrimStart(s[1..]);
    }
  }

  /** One trailing whitespace character never changes the tokens. */
  lemma {:induction false} WordsSpaceAtEnd(s: string, c: char)
    requires IsSpace(c)
    ensures Words(s + [c]) == Words(s)
    decreases |s|
  {
    var t := s + [c];
    if s == [] {
      assert Words(t) == Words(t[1..]);
      assert t[1..] == [];
    } else if IsSpace(s[0]) {
      assert t[1..] == s[1..] + [c];
      WordsSpaceAtEnd(s[1..], c);
    } else {
      var n := WordEnd(s);
      WordEndPrefix(s, [c]);
      assert t[..n] == s[..n];
      assert t[n..] == s[n..] + [c];
      WordsSpaceAtEnd(s[n..], c);
    }
  }

  /** Appending text that starts with whitespace leaves the first run alone. */
  lemma {:induction false} WordEndPrefix(s: string, rest: string)
    requires rest != [] && IsSpace(rest[0])
    ensures WordEnd(s + rest) == WordEnd(s)
    decreases |s|
  {
    if s != [] && !IsSpace(s[0]) {
      assert (s + rest)[1..] == s[1..] + rest;
      WordEndPrefix(s[1..], rest);
    } else if s == [] {
      assert s + rest == rest;
    }
  }

  /** Trailing whitespace never changes the tokens. */
  lemma {:induction false} WordsTrimEnd(s: string)
    ensures Words(TrimEnd(s)) == Words(s)
    decreases |s|
  {
    if s != [] && IsSpace(s[|s| - 1]) {
      var init := s[..|s| - 1];
      assert s == init + [s[|s| - 1]];
      WordsSpaceAtEnd(init, s[|s| - 1]);
      WordsTrimEnd(init);
    }
  }

  /** `s.strip().split() == s.split()`: stripping first is harmless. */
  lemma WordsStrip(s: string)
    ensures Words(Strip(s)) == Words(s)
  {
    WordsTrimEnd(TrimStart(s));
    WordsTrimStart(s);
  }

  /** Whitespace at the start never yields a token. */
  lemma {:induction false} WordsAfterBlank(ws: string, b: string)
    requires AllSpace(ws)
    ensures Words(ws + b) == Words(b)
    decreases |ws|
  {
    if ws != [] {
      assert (ws + b)[1..] == ws[1..] + b;
      WordsAfterBlank(ws[1..], b);
    } else {
      assert ws + b == b;
    }
  }

  /** A run of one or more whitespace characters separates tokens: the
      tokens on either side are kept, in order, and nothing else appears. */
  lemma {:induction false} WordsSplitAtSpace(a: string, ws: string, b: string)
    requires ws != [] && AllSpace(ws)
    ensures Words(a + ws + b) == Words(a) + Words(b)
    decreases |a|
  {
    var s := a + ws + b;
    if a == [] {
      assert s == ws + b;
      WordsAfterBlank(ws, b);
    } else if IsSpace(a[0]) {
      assert s[1..] == a[1..] + ws + b;
      WordsSplitAtSpace(a[1..], ws, b);
    } else {
      var n := WordEnd(a);
      assert s == a + (ws + b);
      WordEndPrefix(a, ws + b);
      assert s[..n] == a[..n];
      assert s[n..] == a[n..] + ws + b;
      WordsSplitAtSpace(a[n..], ws, b);
    }
  }

  /** Python's `sep.join(xs)`. */
  function Join(xs: seq<string>, sep: string): string
    decreases |xs|
  {
    if |xs| == 0 then ""
    else if |xs| == 1 then xs[0]
    else xs[0] + sep + Join(xs[1..], sep)
  }

  /** `str.split()` undoes `" ".join(ws)` for proper tokens. */
  lemma {:induction false} WordsOfJoin(ws: seq<string>)
    requires forall k :: 0 <= k < |ws| ==> IsWord(ws[k])
    ensures Words(Join(ws, " ")) == ws
    decreases |ws|
  {
    if |ws| == 1 {
      var w := ws[0];
      WordEndWhole(w);
      assert w[..|w|] == w && w[|w|..] == [];
    } else if |ws| > 1 {
      var w, tail := ws[0], Join(ws[1..], " ");
      var s := w + " " + tail;
      WordEndWhole(w);
      WordEndPrefix(w, " " + tail);
      assert s == w + (" " + tail);
      assert s[..|w|] == w;
      assert s[|w|..] == " " + tail;
      assert (" " + tail)[1..] == tail;
      WordsOfJoin(ws[1..]);
      assert [w] + ws[1..] == ws;
    }
  }

  /** A whitespace-free token is one run. */
  lemma {:induction false} WordEndWhole(w: string)
    requires NoSpace(w)
    ensures WordEnd(w) == |w|
    decreases |w|
  {
    if w != [] {
      WordEndWhole(w[1..]);
    }
  }

  /** Index of the first `c` in `s`, or `|s|` when there is none. */
  function Find(s: string, c: char): (i: nat)
    ensures i <= |s|
    ensures c !in s[..i]
    ensures i < |s| <==> c in s
    ensures i < |s| ==> s[i] == c
  {
    if s == [] then 0
    else if s[0] == c then 0
    else
      assert s[..1 + Find(s[1..], c)] == [s[0]] + s[1..][..Find(s[1..], c)];
      1 + Find(s[1..], c)
  }

  /** Python's `s.split(c)`: always at least one piece, empty pieces kept. */
  function Split(s: string, c: char): (parts: seq<string>)
    ensures |parts| >= 1
    ensures forall k :: 0 <= k < |parts| ==> c !in parts[k]
    decreases |s|
  {
    var i := Find(s, c);
    if i == |s| then [s] else [s[..i]] + Split(s[i + 1..], c)
  }

  /** `c.join(s.split(c)) == s`. */
  lemma {:induction false} JoinSplit(s: string, c: char)
    ensures Join(Split(s, c), [c]) == s
    decreases |s|
  {
    var i := Find(s, c);
    if i < |s| {
      var rest := s[i + 1..];
      JoinSplit(rest, c);
      var tail := Split(rest, c);
      assert Split(s, c) == [s[..i]] + tail;
      JoinCons(s[..i], tail, [c]);
      assert s == s[..i] + [c] + rest;
    }
  }

  /** Joining one more piece in front. */
  lemma JoinCons(x: string, xs: seq<string>, sep: string)
    requires |xs| >= 1
    ensures Join([x] + xs, sep) == x + sep + Join(xs, sep)
  {
    assert ([x] + xs)[1..] == xs;
  }

  /** `c.join(xs).split(c) == xs` when no piece holds `c`. */
  lemma {:induction false} SplitJoin(xs: seq<string>, c: char)
    requires |xs| >= 1
    requires forall k :: 0 <= k < |xs| ==> c !in xs[k]
    ensures Split(Join(xs, [c]), c) == xs
    decreases |xs|
  {
    if |xs| == 1 {
      assert xs[0][..|xs[0]|] == xs[0];
    } else {
      var x, tail := xs[0], Join(xs[1..], [c]);
      var s := x + [c] + tail;
      FindAfter(x, [c] + tail, c);
      assert s == x + ([c] + tail);
      assert s[..|x|] == x;
      assert s[|x| + 1..] == tail;
      SplitJoin(xs[1..], c);
      assert [x] + xs[1..] == xs;
    }
  }

  /** The first `c` of `x + rest` is that of `rest` when `x` has none. */
  lemma {:induction false} FindAfter(x: string, rest: string, c: char)
    requires c !in x && rest != [] && rest[0] == c
    ensures Find(x + rest, c) == |x|
    decreases |x|
  {
    if x != [] {
      assert (x + rest)[1..] == x[1..] + rest;
      FindAfter(x[1..], rest, c);
    } else {
      assert x + rest == rest;
    }
  }
}
