/** The tokenizer of the licence engine, and the case folding its comparisons rest on. */
module SpdxTokens {

  /** The characters Python's str.isspace accepts. */
  predicate IsSpace(c: char) {
    || '\t' <= c <= '\r' || '\U{1c}' <= c <= ' ' || c == '\U{85}' || c == '\U{a0}'
    || c == '\U{1680}' || '\U{2000}' <= c <= '\U{200a}' || c == '\U{2028}' || c == '\U{2029}'
    || c == '\U{202f}' || c == '\U{205f}' || c == '\U{3000}'
  }

  predicate IsParen(c: char) {
    c == '(' || c == ')'
  }

  predicate IsWordChar(c: char) {
    !IsSpace(c) && !IsParen(c)
  }

  /** Length of the longest word the string starts with. */
  function WordLength(s: string): (n: nat)
    ensures n <= |s|
    ensures forall i :: 0 <= i < n ==> IsWordChar(s[i])
    ensures n < |s| ==> !IsWordChar(s[n])
  {
    if s == [] || !IsWordChar(s[0]) then 0 else 1 + WordLength(s[1..])
  }

  function Tokens(s: string): seq<string>
    decreases |s|
  {
    if s == [] then []
    else if IsSpace(s[0]) then Tokens(s[1..])
    else if IsParen(s[0]) then [[s[0]]] + Tokens(s[1..])
    else [s[..WordLength(s)]] + Tokens(s[WordLength(s)..])
  }

  predicate IsToken(t: string) {
    t == "(" || t == ")" || (t != [] && forall c :: c in t ==> IsWordChar(c))
  }

  /** One turn of the tokenizer at position i: a space skipped, or a parenthesis taken. */
  lemma CharAt(s: string, i: nat)
    requires i < |s|
    ensures IsSpace(s[i]) ==> Tokens(s[i..]) == Tokens(s[i + 1..])
    ensures IsParen(s[i]) ==> Tokens(s[i..]) == [[s[i]]] + Tokens(s[i + 1..])
  {
    assert s[i..][1..] == s[i + 1..];
  }

  /** Or the word s[i..j] taken. */
  lemma WordAt(s: string, i: nat, j: nat)
    requires i < j <= |s| && (forall k :: i <= k < j ==> IsWordChar(s[k])) && (j < |s| ==> !IsWordChar(s[j]))
    ensures Tokens(s[i..]) == [s[i..j]] + Tokens(s[j..])
  {
    hide IsSpace, IsParen;
    var t := s[i..];
    assert t[..j - i] == s[i..j] && t[j - i..] == s[j..];
    assert IsWordChar(t[0]);
    WordLengthIs(t, j - i);
  }

  /** The tokenizer's loops. */
  method Tokenize(signal: string) returns (tokens: seq<string>)
    ensures tokens == Tokens(signal)
  {
    hide Tokens, IsSpace, IsParen;
    TokensOfNothing();
    assert signal[|signal|..] == "";
    tokens := [];
    var i, n := 0, |signal|;
    while i < n
      invariant 0 <= i <= n
      invariant tokens + Tokens(signal[i..]) == Tokens(signal)
    {
      var c := signal[i];
      if IsSpace(c) {
        CharAt(signal, i);
        i := i + 1;
      } else if IsParen(c) {
        CharAt(signal, i);
        assert tokens + ([[c]] + Tokens(signal[i + 1..])) == tokens + [[c]] + Tokens(signal[i + 1..]);
        tokens := tokens + [[c]];
        i := i + 1;
      } else {
        var j := i;
        while j < n && !IsSpace(signal[j]) && !IsParen(signal[j])
          invariant i <= j <= n
          invariant forall k :: i <= k < j ==> IsWordChar(signal[k])
        {
          j := j + 1;
        }
        WordAt(signal, i, j);
        assert tokens + ([signal[i..j]] + Tokens(signal[j..])) == tokens + [signal[i..j]] + Tokens(signal[j..]);
        tokens := tokens + [signal[i..j]];
        i := j;
      }
    }
  }

  lemma {:induction false} WordLengthIs(s: string, n: nat)
    requires n <= |s| && (forall i :: 0 <= i < n ==> IsWordChar(s[i])) && (n < |s| ==> !IsWordChar(s[n]))
    ensures WordLength(s) == n
  {
    if n > 0 {
      WordLengthIs(s[1..], n - 1);
    }
  }

  /** Every token is a parenthesis or a non-empty word. */
  lemma {:induction false} TokensAreTokens(s: string)
    ensures forall t :: t in Tokens(s) ==> IsToken(t)
    decreases |s|
  {
    if s != [] {
      if IsWordChar(s[0]) {
        var n := WordLength(s);
        TokensAreTokens(s[n..]);
        assert IsToken(s[..n]);
      } else {
        TokensAreTokens(s[1..]);
      }
    }
  }

  /** A space between two texts separates their tokens and adds none. */
  lemma {:induction false} TokensSplit(a: string, c: char, b: string)
    requires IsSpace(c)
    ensures Tokens(a + [c] + b) == Tokens(a) + Tokens(b)
    decreases |a|
  {
    TokensOfNothing();
    hide Tokens, IsSpace, IsParen, WordLength;
    var s := a + [c] + b;
    assert s[0..] == s && a[0..] == a;
    if a == [] {
      CharAt(s, 0);
      assert s[1..] == b;
    } else if IsWordChar(a[0]) {
      var n := WordLength(a);
      WordAt(a, 0, n);
      WordAt(s, 0, n);
      assert s[..n] == a[..n] && s[n..] == a[n..] + [c] + b;
      TokensSplit(a[n..], c, b);
    } else {
      CharAt(s, 0);
      CharAt(a, 0);
      assert s[1..] == a[1..] + [c] + b;
      TokensSplit(a[1..], c, b);
    }
  }

  lemma TokensOfNothing()
    ensures Tokens("") == []
  {
  }

  lemma TokensOfToken(t: string)
    requires IsToken(t)
    ensures Tokens(t) == [t]
  {
    if t == "(" || t == ")" {
      assert t[1..] == "";
    } else {
      WordLengthIs(t, |t|);
      assert t[..|t|] == t && t[|t|..] == "";
    }
  }

  /** Python's sep.join(parts). */
  function Join(sep: string, parts: seq<string>): string {
    if parts == [] then ""
    else if |parts| == 1 then parts[0]
    else parts[0] + sep + Join(sep, parts[1..])
  }

  /** Tokens joined by spaces tokenize back to themselves. */
  lemma {:induction false} TokensOfJoin(ts: seq<string>)
    requires forall t :: t in ts ==> IsToken(t)
    ensures Tokens(Join(" ", ts)) == ts
    decreases |ts|
  {
    if |ts| == 1 {
      TokensOfToken(ts[0]);
    } else if |ts| > 1 {
      TokensOfToken(ts[0]);
      TokensSplit(ts[0], ' ', Join(" ", ts[1..]));
      TokensOfJoin(ts[1..]);
    }
  }

  /** So tokenizing is stable under re-joining. */
  lemma TokenizingIsStable(s: string)
    ensures Tokens(Join(" ", Tokens(s))) == Tokens(s)
  {
    TokensAreTokens(s);
    TokensOfJoin(Tokens(s));
  }

  function Concat(parts: seq<string>): string {
    if parts == [] then "" else parts[0] + Concat(parts[1..])
  }

  function WithoutSpaces(s: string): string {
    if s == [] then "" else (if IsSpace(s[0]) then "" else [s[0]]) + WithoutSpaces(s[1..])
  }

  /** Tokenizing loses white space and nothing else. */
  lemma {:induction false} TokensKeepText(s: string)
    ensures Concat(Tokens(s)) == WithoutSpaces(s)
    decreases |s|
  {
    if s != [] {
      if IsWordChar(s[0]) {
        var n := WordLength(s);
        TokensKeepText(s[n..]);
        WordKeepsText(s, n);
      } else {
        TokensKeepText(s[1..]);
      }
    }
  }

  lemma {:induction false} WordKeepsText(s: string, n: nat)
    requires n <= |s| && forall i :: 0 <= i < n ==> IsWordChar(s[i])
    ensures WithoutSpaces(s) == s[..n] + WithoutSpaces(s[n..])
  {
    if n > 0 {
      WordKeepsText(s[1..], n - 1);
      assert s[1..][n - 1..] == s[n..] && s[..n] == [s[0]] + s[1..][..n - 1];
    } else {
      assert s[0..] == s;
    }
  }

  // ---------------------------------------------------------------- trimming

  function TrimLeft(s: string): string {
    if s != [] && IsSpace(s[0]) then TrimLeft(s[1..]) else s
  }

  function TrimRight(s: string): string {
    if s != [] && IsSpace(s[|s| - 1]) then TrimRight(s[..|s| - 1]) else s
  }

  /** Python's str.strip. */
  function Strip(s: string): string {
    TrimRight(TrimLeft(s))
  }

  lemma {:induction false} TokensOfTrimLeft(s: string)
    ensures Tokens(TrimLeft(s)) == Tokens(s)
  {
    if s != [] && IsSpace(s[0]) {
      TokensOfTrimLeft(s[1..]);
    }
  }

  lemma {:induction false} TokensOfTrimRight(s: string)
    ensures Tokens(TrimRight(s)) == Tokens(s)
  {
    if s != [] && IsSpace(s[|s| - 1]) {
      var init := s[..|s| - 1];
      TokensOfTrimRight(init);
      assert s == init + [s[|s| - 1]] + "";
      TokensSplit(init, s[|s| - 1], "");
    }
  }

  /** White space around a signal does not change its tokens. */
  lemma TokensOfStrip(s: string)
    ensures Tokens(Strip(s)) == Tokens(s)
  {
    TokensOfTrimLeft(s);
    TokensOfTrimRight(TrimLeft(s));
  }

  // ---------------------------------------------------------------- case folding

  /** str.upper, character by character, as far as the result can be an ASCII letter: besides
      a..z only the dotless i and the long s have one. Expansions such as the sharp s never
      produce one of the operator words and are left alone. */
  function UpperChar(c: char): char {
    if 'a' <= c <= 'z' then (c as int - 32) as char
    else if c == '\U{131}' then 'I'
    else if c == '\U{17f}' then 'S'
    else c
  }

  /** str.lower likewise: besides A..Z only the Kelvin sign lowers to an ASCII letter. */
  function LowerChar(c: char): char {
    if 'A' <= c <= 'Z' then (c as int + 32) as char
    else if c == '\U{212a}' then 'k'
    else c
  }

  function Upper(s: string): (r: string)
    ensures |r| == |s|
  {
    seq(|s|, i requires 0 <= i < |s| => UpperChar(s[i]))
  }

  function Lower(s: string): (r: string)
    ensures |r| == |s|
  {
    seq(|s|, i requires 0 <= i < |s| => LowerChar(s[i]))
  }

  lemma UpperIs(s: string, u: string)
    requires |s| == |u| && forall i :: 0 <= i < |s| ==> UpperChar(s[i]) == u[i]
    ensures Upper(s) == u
  {
  }
}
