/**
  Splitting an input line into whitespace-separated tokens (Rust's
  `str::split_whitespace`) and joining tokens back with a separator (`join`).
*/
module Tokens {

  /** Rust's `char::is_whitespace`: the Unicode White_Space property. */
  predicate IsWhitespace(c: char) {
    || ('\U{9}' <= c <= '\U{D}')
    || c == ' '
    || c == '\U{85}'
    || c == '\U{A0}'
    || c == '\U{1680}'
    || ('\U{2000}' <= c <= '\U{200A}')
    || c == '\U{2028}'
    || c == '\U{2029}'
    || c == '\U{202F}'
    || c == '\U{205F}'
    || c == '\U{3000}'
  }

  /** A token: a non-empty run of non-whitespace characters. */
  predicate IsWord(w: string) {
    |w| > 0 && forall i :: 0 <= i < |w| ==> !IsWhitespace(w[i])
  }

  /** The length of the longest whitespace-free prefix of `s`. */
  function WordLength(s: string): (n: nat)
    ensures n <= |s|
    ensures forall i :: 0 <= i < n ==> !IsWhitespace(s[i])
    ensures n < |s| ==> IsWhitespace(s[n])
    decreases |s|
  {
    if |s| == 0 || IsWhitespace(s[0]) then 0
    else 1 + WordLength(s[1..])
  }

  /** The tokens of `s`, in order, as `split_whitespace` yields them. */
  function Tokenize(s: string): (tokens: seq<string>)
    ensures forall i :: 0 <= i < |tokens| ==> IsWord(tokens[i])
    decreases |s|
  {
    if |s| == 0 then []
    else if IsWhitespace(s[0]) then Tokenize(s[1..])
    else
      var n := WordLength(s);
      [s[..n]] + Tokenize(s[n..])
  }

  /** The words joined with `sep` between neighbours (`[&str]::join`). */
  function Join(words: seq<string>, sep: string): string
    decreases |words|
  {
    if |words| == 0 then ""
    else if |words| == 1 then words[0]
    else words[0] + sep + Join(words[1..], sep)
  }

  /** A line holding nothing but whitespace has no tokens. */
  lemma {:induction false} TokenizeBlank(s: string)
    requires forall i :: 0 <= i < |s| ==> IsWhitespace(s[i])
    ensures Tokenize(s) == []
    decreases |s|
  {
    if |s| > 0 {
      TokenizeBlank(s[1..]);
    }
  }

  /** A leading whitespace character is skipped. */
  lemma TokenizeSkip(c: char, s: string)
    requires IsWhitespace(c)
    ensures Tokenize([c] + s) == Tokenize(s)
  {
    assert ([c] + s)[1..] == s;
  }

  /** A leading run of whitespace, however long, is skipped. */
  lemma {:induction false} TokenizeGap(gap: string, s: string)
    requires forall i :: 0 <= i < |gap| ==> IsWhitespace(gap[i])
    ensures Tokenize(gap + s) == Tokenize(s)
    decreases |gap|
  {
    if |gap| > 0 {
      TokenizeGap(gap[1..], s);
      assert gap + s == [gap[0]] + (gap[1..] + s);
      TokenizeSkip(gap[0], gap[1..] + s);
    } else {
      assert gap + s == s;
    }
  }

  lemma {:induction false} WordLengthOfWord(w: string, rest: string)
    requires IsWord(w)
    requires |rest| == 0 || IsWhitespace(rest[0])
    ensures WordLength(w + rest) == |w|
    decreases |w|
  {
    var s := w + rest;
    assert s[0] == w[0];
    if |w| > 1 {
      assert s[1..] == w[1..] + rest;
      WordLengthOfWord(w[1..], rest);
    } else {
      assert s[1..] == rest;
    }
  }

  /** A word followed by nothing or by whitespace is tokenized as that word first. */
  lemma TokenizeWord(w: string, rest: string)
    requires IsWord(w)
    requires |rest| == 0 || IsWhitespace(rest[0])
    ensures Tokenize(w + rest) == [w] + Tokenize(rest)
  {
    var s := w + rest;
    WordLengthOfWord(w, rest);
    assert s[..|w|] == w;
    assert s[|w|..] == rest;
  }

  /**
    Tokenizing words joined by single spaces gives back the words: joining is a
    right inverse of tokenizing.
  */
  lemma {:induction false} TokenizeJoin(words: seq<string>)
    requires forall i :: 0 <= i < |words| ==> IsWord(words[i])
    ensures Tokenize(Join(words, " ")) == words
    decreases |words|
  {
    if |words| == 0 {
    } else if |words| == 1 {
      TokenizeWord(words[0], "");
      assert words[0] + "" == words[0];
    } else {
      var tail := Join(words[1..], " ");
      TokenizeJoin(words[1..]);
      assert words[0] + " " + tail == words[0] + (" " + tail);
      TokenizeWord(words[0], " " + tail);
      assert (" " + tail)[1..] == tail;
    }
  }

  /**
    Two words with any non-empty run of whitespace between them are two
    tokens: the tokens are the maximal whitespace-free runs, in order.
  */
  lemma TokenizeSeparated(first: string, gap: string, second: string)
    requires IsWord(first) && IsWord(second)
    requires |gap| > 0 && forall i :: 0 <= i < |gap| ==> IsWhitespace(gap[i])
    ensures Tokenize(first + gap + second) == [first, second]
  {
    TokenizeWord(second, "");
    assert second + "" == second;
    TokenizeGap(gap, second);
    assert first + gap + second == first + (gap + second);
    TokenizeWord(first, gap + second);
  }
}
