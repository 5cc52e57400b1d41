/**
  The whitespace tokenizer of the typing-test quote bank.

  `words(text)` returns a parameterless function that, when called, splits
  `text` at every single whitespace character (the regular expression `/\s/`)
  and then drops the empty pieces.  The model follows the two halves of that
  expression: `Split` is `String.prototype.split` with a one-character
  separator class, `NonEmpty` is the `filter(e => e.length != 0)` step, and
  `Tokenize` is their composition.  `Runs` is an independent, direct
  definition of "the maximal runs of non-whitespace characters, left to
  right", and `TokenizeIsRuns` proves the two agree.
*/
module Tokenizer {

  /** The character class `\s` of ECMAScript regular expressions: the
      WhiteSpace and LineTerminator code points of ECMA-262 (tab, vertical
      tab, form feed, space, no-break space, zero width no-break space, the
      Unicode "Space_Separator" category, line feed, carriage return, line
      separator and paragraph separator). */
  predicate IsWs(c: char) {
    || c == '\t' || c == '\n' || c == '\U{000B}' || c == '\U{000C}' || c == '\r'
    || c == ' ' || c == '\U{00A0}' || c == '\U{1680}'
    || ('\U{2000}' <= c <= '\U{200A}')
    || c == '\U{2028}' || c == '\U{2029}' || c == '\U{202F}' || c == '\U{205F}'
    || c == '\U{3000}' || c == '\U{FEFF}'
  }

  /** No character of `s` is whitespace. */
  predicate NoWs(s: string) {
    forall i :: 0 <= i < |s| ==> !IsWs(s[i])
  }

  /** A token: a non-empty string without whitespace. */
  predicate IsToken(t: string) {
    t != [] && NoWs(t)
  }

  /** Every element of `ts` is a token. */
  predicate AllTokens(ts: seq<string>) {
    forall i :: 0 <= i < |ts| ==> IsToken(ts[i])
  }

  /** Every character of `s` is whitespace (vacuously true of ""). */
  predicate AllWs(s: string) {
    forall i :: 0 <= i < |s| ==> IsWs(s[i])
  }

  /** The whitespace characters of `s`, in order: the separators `split` cuts at. */
  function Separators(s: string): string {
    if s == [] then [] else (if IsWs(s[0]) then [s[0]] else []) + Separators(s[1..])
  }

  /** The non-whitespace characters of `s`, in order. */
  function RemoveWs(s: string): string {
    if s == [] then [] else (if IsWs(s[0]) then [] else [s[0]]) + RemoveWs(s[1..])
  }

  /** The concatenation of a list of strings, in order. */
  function Concat(ts: seq<string>): string {
    if ts == [] then [] else ts[0] + Concat(ts[1..])
  }

  /** `text.split(/\s/)`: the pieces of `s` between consecutive separators,
      so one piece more than there are separators; "" splits into [""]. */
  function Split(s: string): (pieces: seq<string>)
    ensures |pieces| == |Separators(s)| + 1
  {
    if s == [] then [[]]
    else if IsWs(s[0]) then [[]] + Split(s[1..])
    else
      var rest := Split(s[1..]);
      [[s[0]] + rest[0]] + rest[1..]
  }

  /** The inverse of `Split`: put the separators back between the pieces. */
  function Interleave(pieces: seq<string>, seps: string): string
    requires |pieces| == |seps| + 1
    decreases |seps|
  {
    if seps == [] then pieces[0]
    else pieces[0] + [seps[0]] + Interleave(pieces[1..], seps[1..])
  }

  /** `filter(e => e.length != 0)`: keeps the non-empty pieces, in order. */
  function NonEmpty(pieces: seq<string>): seq<string> {
    if pieces == [] then []
    else (if pieces[0] == [] then [] else [pieces[0]]) + NonEmpty(pieces[1..])
  }

  /** What the thunk returned by `words(s)` evaluates to. */
  function Tokenize(s: string): seq<string> {
    NonEmpty(Split(s))
  }

  /** The closure `() => text.split(/\s/).filter(...)`: a captured string
      and a deterministic, parameterless evaluation. */
  datatype Thunk = Thunk(text: string) {
    /** Calling the thunk: non-empty, whitespace-free tokens that spell the
        captured text with its whitespace deleted. */
    function Eval(): (tokens: seq<string>)
      ensures AllTokens(tokens)
      ensures Concat(tokens) == RemoveWs(text)
    {
      TokenizeTokens(text);
      ConcatTokenize(text);
      Tokenize(text)
    }
  }

  /** The factory `words(text)`: its thunk yields the maximal
      non-whitespace runs of `text`. */
  function Words(text: string): (thunk: Thunk)
    ensures thunk.Eval() == Runs(text)
  {
    TokenizeIsRuns(text);
    Thunk(text)
  }

  /** Length of the longest whitespace-free prefix of `s`. */
  function WordLen(s: string): (n: nat)
    ensures n <= |s|
    ensures NoWs(s[..n])
    ensures n < |s| ==> IsWs(s[n])
    ensures s != [] && !IsWs(s[0]) ==> n >= 1
  {
    if s == [] || IsWs(s[0]) then 0 else 1 + WordLen(s[1..])
  }

  /** Reference definition: skip whitespace, take a maximal run of
      non-whitespace characters, repeat. */
  function Runs(s: string): seq<string>
    decreases |s|
  {
    if s == [] then []
    else if IsWs(s[0]) then Runs(s[1..])
    else
      var n := WordLen(s);
      [s[..n]] + Runs(s[n..])
  }

  /** `Array.prototype.join(" ")`. */
  function JoinSpace(ts: seq<string>): string {
    if ts == [] then []
    else if |ts| == 1 then ts[0]
    else ts[0] + [' '] + JoinSpace(ts[1..])
  }

  // ---------------------------------------------------------------------
  // Splitting

  /** Putting the separators back between the pieces of `split` yields the
      original string. */
  lemma {:induction false} SplitInverse(s: string)
    ensures Interleave(Split(s), Separators(s)) == s
  {
    if s != [] {
      SplitInverse(s[1..]);
      var rest := Split(s[1..]);
      if IsWs(s[0]) {
        assert Separators(s) == [s[0]] + Separators(s[1..]);
        assert Split(s)[1..] == rest;
      } else {
        assert Separators(s) == Separators(s[1..]);
        InterleaveConsChar(s[0], rest, Separators(s[1..]));
      }
    }
  }

  lemma {:induction false} InterleaveConsChar(c: char, pieces: seq<string>, seps: string)
    requires |pieces| == |seps| + 1
    ensures Interleave([[c] + pieces[0]] + pieces[1..], seps) == [c] + Interleave(pieces, seps)
  {
    var moved := [[c] + pieces[0]] + pieces[1..];
    assert moved[1..] == pieces[1..];
  }

  /** Splitting at one separator splits the two sides independently. */
  lemma {:induction false} SplitAtSeparator(a: string, c: char, b: string)
    requires IsWs(c)
    ensures Split(a + [c] + b) == Split(a) + Split(b)
  {
    var s := a + [c] + b;
    if a == [] {
      assert s[1..] == b;
    } else {
      assert s[0] == a[0];
      assert s[1..] == a[1..] + [c] + b;
      SplitAtSeparator(a[1..], c, b);
      if !IsWs(a[0]) {
        var rest := Split(a[1..]);
        assert (rest + Split(b))[1..] == rest[1..] + Split(b);
      }
    }
  }

  /** A whitespace-free string is a single piece. */
  lemma {:induction false} SplitWord(w: string)
    requires NoWs(w)
    ensures Split(w) == [w]
  {
    if w != [] {
      assert NoWs(w[1..]) by {
        forall i | 0 <= i < |w[1..]| ensures !IsWs(w[1..][i]) {
          assert w[1..][i] == w[i + 1];
        }
      }
      SplitWord(w[1..]);
      assert [w[0]] + w[1..] == w;
    }
  }

  /** No piece of `split` contains a separator. */
  lemma {:induction false} SplitNoWs(s: string)
    ensures forall i :: 0 <= i < |Split(s)| ==> NoWs(Split(s)[i])
  {
    if s != [] {
      SplitNoWs(s[1..]);
      if !IsWs(s[0]) {
        var rest := Split(s[1..]);
        var first := [s[0]] + rest[0];
        assert NoWs(first) by {
          forall i | 0 <= i < |first| ensures !IsWs(first[i]) {
            if i > 0 { assert first[i] == rest[0][i - 1]; }
          }
        }
      }
    }
  }

  // ---------------------------------------------------------------------
  // Filtering and concatenation

  /** The filter keeps exactly the non-empty pieces: nothing empty survives,
      every non-empty piece is kept, and a list with no empty piece is
      returned unchanged. */
  lemma {:induction false} NonEmptyFilters(pieces: seq<string>)
    ensures |NonEmpty(pieces)| <= |pieces|
    ensures forall i :: 0 <= i < |NonEmpty(pieces)| ==> NonEmpty(pieces)[i] != []
    ensures (forall i :: 0 <= i < |pieces| ==> pieces[i] != []) ==> NonEmpty(pieces) == pieces
    ensures (forall i :: 0 <= i < |pieces| ==> pieces[i] == []) ==> NonEmpty(pieces) == []
  {
    if pieces != [] {
      NonEmptyFilters(pieces[1..]);
    }
  }

  /** A kept piece is a piece: properties of every piece hold of every
      element of the filtered list. */
  lemma {:induction false} NonEmptyKeepsTokens(pieces: seq<string>)
    requires forall i :: 0 <= i < |pieces| ==> NoWs(pieces[i])
    ensures AllTokens(NonEmpty(pieces))
  {
    if pieces != [] {
      NonEmptyKeepsTokens(pieces[1..]);
      var head := if pieces[0] == [] then [] else [pieces[0]];
      assert NonEmpty(pieces) == head + NonEmpty(pieces[1..]);
    }
  }

  lemma {:induction false} NonEmptyAppend(p: seq<string>, q: seq<string>)
    ensures NonEmpty(p + q) == NonEmpty(p) + NonEmpty(q)
  {
    if p == [] {
      assert p + q == q;
    } else {
      assert (p + q)[0] == p[0];
      assert (p + q)[1..] == p[1..] + q;
      NonEmptyAppend(p[1..], q);
    }
  }

  lemma {:induction false} ConcatNonEmpty(p: seq<string>)
    ensures Concat(NonEmpty(p)) == Concat(p)
  {
    if p != [] {
      ConcatNonEmpty(p[1..]);
      ConcatAppend(if p[0] == [] then [] else [p[0]], NonEmpty(p[1..]));
    }
  }

  lemma {:induction false} ConcatAppend(p: seq<string>, q: seq<string>)
    ensures Concat(p + q) == Concat(p) + Concat(q)
  {
    if p == [] {
      assert p + q == q;
    } else {
      assert (p + q)[0] == p[0];
      assert (p + q)[1..] == p[1..] + q;
      ConcatAppend(p[1..], q);
    }
  }

  lemma {:induction false} ConcatSplit(s: string)
    ensures Concat(Split(s)) == RemoveWs(s)
  {
    if s != [] {
      ConcatSplit(s[1..]);
      var rest := Split(s[1..]);
      if IsWs(s[0]) {
        assert Split(s)[1..] == rest;
      } else {
        var pieces := Split(s);
        assert pieces[1..] == rest[1..];
        assert Concat(rest) == rest[0] + Concat(rest[1..]);
      }
    }
  }

  // ---------------------------------------------------------------------
  // Properties of the tokenizer

  /** Every produced token is non-empty and free of whitespace. */
  lemma TokenizeTokens(s: string)
    ensures AllTokens(Tokenize(s))
  {
    SplitNoWs(s);
    NonEmptyKeepsTokens(Split(s));
  }

  /** Concatenating the tokens in order gives the input with every
      whitespace character deleted. */
  lemma ConcatTokenize(s: string)
    ensures Concat(Tokenize(s)) == RemoveWs(s)
  {
    ConcatNonEmpty(Split(s));
    ConcatSplit(s);
  }

  /** Tokenizing across one separator tokenizes the two sides independently. */
  lemma TokenizeAtSeparator(a: string, c: char, b: string)
    requires IsWs(c)
    ensures Tokenize(a + [c] + b) == Tokenize(a) + Tokenize(b)
  {
    SplitAtSeparator(a, c, b);
    NonEmptyAppend(Split(a), Split(b));
  }

  /** A leading whitespace character produces no token. */
  lemma TokenizeSkipWs(s: string)
    requires s != [] && IsWs(s[0])
    ensures Tokenize(s) == Tokenize(s[1..])
  {
    assert s == [] + [s[0]] + s[1..];
    TokenizeAtSeparator([], s[0], s[1..]);
  }

  /** A non-empty input without whitespace is one token, the whole input. */
  lemma TokenizeWord(w: string)
    requires IsToken(w)
    ensures Tokenize(w) == [w]
  {
    SplitWord(w);
    assert [w][1..] == [];
    assert NonEmpty([w]) == [w] + NonEmpty([]);
  }

  /** Exactly the non-empty whitespace-free inputs are their own single token. */
  lemma TokenizeSingleIff(s: string)
    ensures Tokenize(s) == [s] <==> IsToken(s)
  {
    if Tokenize(s) == [s] {
      TokenizeTokens(s);
      var tokens := Tokenize(s);
      assert tokens[0] == s;
    }
    if IsToken(s) {
      TokenizeWord(s);
    }
  }

  /** The split-then-filter result is the list of maximal non-whitespace
      runs: leading, trailing and repeated whitespace makes no token. */
  lemma {:induction false} TokenizeIsRuns(s: string)
    ensures Tokenize(s) == Runs(s)
    decreases |s|
  {
    if s == [] {
    } else if IsWs(s[0]) {
      TokenizeSkipWs(s);
      TokenizeIsRuns(s[1..]);
    } else {
      var n := WordLen(s);
      if n == |s| {
        assert s[..n] == s;
        TokenizeWord(s);
        assert s[n..] == [];
      } else {
        assert s == s[..n] + [s[n]] + s[n + 1..];
        TokenizeAtSeparator(s[..n], s[n], s[n + 1..]);
        TokenizeWord(s[..n]);
        TokenizeIsRuns(s[n + 1..]);
        assert s[n..][1..] == s[n + 1..];
      }
    }
  }

  lemma {:induction false} RunsEmptyIff(s: string)
    ensures Runs(s) == [] <==> AllWs(s)
    decreases |s|
  {
    if s != [] && IsWs(s[0]) {
      RunsEmptyIff(s[1..]);
      assert AllWs(s) <==> AllWs(s[1..]) by {
        if AllWs(s[1..]) {
          forall i | 0 <= i < |s| ensures IsWs(s[i]) {
            if i > 0 { assert s[i] == s[1..][i - 1]; }
          }
        }
      }
    }
  }

  /** The tokenizer yields nothing exactly when the input is empty or all
      whitespace. */
  lemma TokenizeEmptyIff(s: string)
    ensures Tokenize(s) == [] <==> AllWs(s)
  {
    TokenizeIsRuns(s);
    RunsEmptyIff(s);
  }

  /** A text holding a non-whitespace character is not blank. */
  lemma NotBlank(s: string, c: char)
    requires c in s && !IsWs(c)
    ensures !AllWs(s)
  {
  }

  /** Tokens joined by single spaces tokenize back to the same tokens. */
  lemma {:induction false} TokenizeJoinSpace(ts: seq<string>)
    requires AllTokens(ts)
    ensures Tokenize(JoinSpace(ts)) == ts
  {
    if |ts| == 1 {
      TokenizeWord(ts[0]);
    } else if |ts| > 1 {
      TokenizeAtSeparator(ts[0], ' ', JoinSpace(ts[1..]));
      TokenizeWord(ts[0]);
      TokenizeJoinSpace(ts[1..]);
    }
  }

  /** Round trip: tokenizing the single-space join of the tokens of `s`
      gives the tokens of `s` again. */
  lemma RoundTrip(s: string)
    ensures Tokenize(JoinSpace(Tokenize(s))) == Tokenize(s)
  {
    TokenizeTokens(s);
    TokenizeJoinSpace(Tokenize(s));
  }

  /** The single-space join of the tokens is a canonical whitespace form:
      two texts have the same word list exactly when their canonical forms
      agree. */
  lemma SameWordsIff(s: string, t: string)
    ensures Tokenize(s) == Tokenize(t) <==> JoinSpace(Tokenize(s)) == JoinSpace(Tokenize(t))
  {
    RoundTrip(s);
    RoundTrip(t);
  }

  /** Whitespace in front of a text changes none of its tokens. */
  lemma {:induction false} TokenizeAfterBlank(p: string, u: string)
    requires AllWs(p)
    ensures Tokenize(p + u) == Tokenize(u)
  {
    if p == [] {
      assert p + u == u;
    } else {
      var s := p + u;
      assert s[1..] == p[1..] + u;
      assert AllWs(p[1..]) by {
        forall i | 0 <= i < |p[1..]| ensures IsWs(p[1..][i]) {
          assert p[1..][i] == p[i + 1];
        }
      }
      TokenizeSkipWs(s);
      TokenizeAfterBlank(p[1..], u);
    }
  }

  /** Whitespace after a text changes none of its tokens. */
  lemma TokenizeBeforeBlank(u: string, q: string)
    requires AllWs(q)
    ensures Tokenize(u + q) == Tokenize(u)
  {
    if q == [] {
      assert u + q == u;
    } else {
      assert u + q == u + [q[0]] + q[1..];
      TokenizeAtSeparator(u, q[0], q[1..]);
      assert AllWs(q[1..]) by {
        forall i | 0 <= i < |q[1..]| ensures IsWs(q[1..][i]) {
          assert q[1..][i] == q[i + 1];
        }
      }
      TokenizeEmptyIff(q[1..]);
    }
  }

  /** The first token of a text that starts with whitespace, a word and a
      separator is that word. */
  lemma LeadingWord(p: string, w: string, c: char, rest: string)
    requires AllWs(p) && IsToken(w) && IsWs(c)
    ensures Tokenize(p + w + [c] + rest) == [w] + Tokenize(rest)
  {
    TokenizeAtSeparator(p + w, c, rest);
    TokenizeAfterBlank(p, w);
    TokenizeWord(w);
  }

  /** The last token of a text that ends with a separator, a word and
      whitespace is that word. */
  lemma TrailingWord(front: string, c: char, w: string, q: string)
    requires IsWs(c) && IsToken(w) && AllWs(q)
    ensures Tokenize(front + [c] + w + q) == Tokenize(front) + [w]
  {
    assert front + [c] + w + q == front + [c] + (w + q);
    TokenizeAtSeparator(front, c, w + q);
    TokenizeBeforeBlank(w, q);
    TokenizeWord(w);
  }
}
