/**
 * The word splitting that parseInput performs with strtok(" \n")
 * (smallsh.c:325-339): the tokens of a line are its maximal runs of
 * characters other than ' ' and '\n', in order.
 */
module Tokenizer {

  /** The strtok delimiters of parseInput. */
  predicate IsSeparator(c: char) {
    c == ' ' || c == '\n'
  }

  /** A token: non-empty and free of separators. */
  predicate IsWord(w: string) {
    |w| > 0 && forall k :: 0 <= k < |w| ==> !IsSeparator(w[k])
  }

  /** Length of the run of non-separators at the start of s. */
  function WordLength(s: string): (n: nat)
    ensures n <= |s|
    ensures forall k :: 0 <= k < n ==> !IsSeparator(s[k])
    ensures n == |s| || IsSeparator(s[n])
  {
    if s == [] || IsSeparator(s[0]) then 0 else 1 + WordLength(s[1..])
  }

  /**
   * The tokens of s, in order: the reference definition of what the strtok
   * loop of parseInput stores. There are never more tokens than characters.
   */
  function Tokens(s: string): (ts: seq<string>)
    ensures |ts| <= |s|
  {
    if s == [] then []
    else if IsSeparator(s[0]) then Tokens(s[1..])
    else
      var n := WordLength(s);
      [s[..n]] + Tokens(s[n..])
  }

  /** Joins words with single spaces, the inverse of tokenising. */
  function Join(ws: seq<string>): string {
    if ws == [] then [] else if |ws| == 1 then ws[0] else ws[0] + " " + Join(ws[1..])
  }

  /** The characters of s that are not separators, in order. */
  function Letters(s: string): string {
    if s == [] then [] else (if IsSeparator(s[0]) then [] else [s[0]]) + Letters(s[1..])
  }

  /** The concatenation of a sequence of strings. */
  function Concat(ws: seq<string>): string {
    if ws == [] then [] else ws[0] + Concat(ws[1..])
  }

  /** A run of non-separators that ends at a separator or at the end is one full token. */
  lemma {:induction false} WordLengthOfRun(s: string, n: nat)
    requires n <= |s|
    requires forall k :: 0 <= k < n ==> !IsSeparator(s[k])
    requires n == |s| || IsSeparator(s[n])
    ensures WordLength(s) == n
  {
    if n > 0 {
      WordLengthOfRun(s[1..], n - 1);
    }
  }

  /** Every token is a non-empty run of non-separators. */
  lemma {:induction false} TokensAreWords(s: string)
    ensures forall i :: 0 <= i < |Tokens(s)| ==> IsWord(Tokens(s)[i])
  {
    if s != [] {
      if IsSeparator(s[0]) {
        TokensAreWords(s[1..]);
      } else {
        TokensAreWords(s[WordLength(s)..]);
      }
    }
  }

  /** A line has no tokens exactly when it consists of separators only. */
  lemma {:induction false} NoTokensIffBlank(s: string)
    ensures Tokens(s) == [] <==> forall k :: 0 <= k < |s| ==> IsSeparator(s[k])
  {
    if s != [] {
      NoTokensIffBlank(s[1..]);
      if IsSeparator(s[0]) {
        assert (forall k :: 0 <= k < |s| ==> IsSeparator(s[k]))
           <==> (forall k :: 0 <= k < |s[1..]| ==> IsSeparator(s[1..][k]));
      }
    }
  }

  lemma {:induction false} LettersOfWord(w: string, rest: string)
    requires forall k :: 0 <= k < |w| ==> !IsSeparator(w[k])
    ensures Letters(w + rest) == w + Letters(rest)
  {
    if w != [] {
      var s := w + rest;
      assert s[0] == w[0] && !IsSeparator(s[0]);
      assert s[1..] == w[1..] + rest;
      LettersOfWord(w[1..], rest);
      assert Letters(s) == [w[0]] + Letters(s[1..]);
      assert w == [w[0]] + w[1..];
    } else {
      assert w + rest == rest;
    }
  }

  /** No character is lost or reordered: the tokens spell out the letters of s. */
  lemma {:induction false} TokensSpellLetters(s: string)
    ensures Concat(Tokens(s)) == Letters(s)
  {
    if s != [] {
      if IsSeparator(s[0]) {
        TokensSpellLetters(s[1..]);
      } else {
        var n := WordLength(s);
        TokensSpellLetters(s[n..]);
        assert s == s[..n] + s[n..];
        LettersOfWord(s[..n], s[n..]);
      }
    }
  }

  /** A word followed by a separator or by nothing is split off as one token. */
  lemma LeadingWord(w: string, rest: string)
    requires IsWord(w)
    requires rest == [] || IsSeparator(rest[0])
    ensures Tokens(w + rest) == [w] + Tokens(rest)
  {
    var s := w + rest;
    WordLengthOfRun(s, |w|);
    assert s[..|w|] == w && s[|w|..] == rest;
  }

  /** A leading space is skipped. */
  lemma TokensAfterSpace(rest: string)
    ensures Tokens(" " + rest) == Tokens(rest)
  {
    assert (" " + rest)[1..] == rest;
  }

  /** Join of two or more words, regrouped around its first space. */
  lemma JoinCons(ws: seq<string>, tail: string)
    requires |ws| >= 2
    ensures Join(ws) + tail == ws[0] + (" " + (Join(ws[1..]) + tail))
  {
  }

  /**
   * Tokenising words joined by single spaces, followed by any run of
   * separators (the newline fgets keeps, say), gives the words back.
   */
  lemma {:induction false} TokensOfJoin(ws: seq<string>, tail: string)
    requires forall i :: 0 <= i < |ws| ==> IsWord(ws[i])
    requires forall k :: 0 <= k < |tail| ==> IsSeparator(tail[k])
    ensures Tokens(Join(ws) + tail) == ws
  {
    if ws == [] {
      NoTokensIffBlank(tail);
      assert Join(ws) + tail == tail;
    } else if |ws| == 1 {
      NoTokensIffBlank(tail);
      LeadingWord(ws[0], tail);
    } else {
      var more := ws[1..];
      assert forall i :: 0 <= i < |more| ==> IsWord(more[i]) by {
        forall i | 0 <= i < |more| ensures IsWord(more[i]) {
          assert more[i] == ws[i + 1];
        }
      }
      TokensOfJoin(more, tail);
      var rest := Join(more) + tail;
      TokensAfterSpace(rest);
      LeadingWord(ws[0], " " + rest);
      JoinCons(ws, tail);
    }
  }

  /** Scanning s from position i: a separator there is skipped. */
  lemma TokensAtSeparator(s: string, i: nat)
    requires i < |s| && IsSeparator(s[i])
    ensures Tokens(s[i..]) == Tokens(s[i + 1..])
  {
    assert s[i..][1..] == s[i + 1..];
  }

  /** Scanning s from position i: a maximal run s[i..j] is the next token. */
  lemma TokensAtWord(s: string, i: nat, j: nat)
    requires i < j <= |s|
    requires forall k :: i <= k < j ==> !IsSeparator(s[k])
    requires j == |s| || IsSeparator(s[j])
    ensures Tokens(s[i..]) == [s[i..j]] + Tokens(s[j..])
  {
    var t := s[i..];
    WordLengthOfRun(t, j - i);
    assert t[..j - i] == s[i..j];
    assert t[j - i..] == s[j..];
  }

  /*
   * The steps of parseInput's left-to-right scan: `found + Tokens(s[i..])`
   * is the tokens of the whole line, with found the tokens stored so far.
   */

  /** A separator: nothing is stored and the scan moves on by one. */
  lemma ScanSkips(s: string, i: nat, found: seq<string>)
    requires i < |s| && IsSeparator(s[i])
    requires found + Tokens(s[i..]) == Tokens(s)
    ensures found + Tokens(s[i + 1..]) == Tokens(s)
  {
    TokensAtSeparator(s, i);
  }

  /** A maximal run s[i..j]: it is stored as the next token. */
  lemma ScanStores(s: string, i: nat, j: nat, found: seq<string>)
    requires i < j <= |s|
    requires forall k :: i <= k < j ==> !IsSeparator(s[k])
    requires j == |s| || IsSeparator(s[j])
    requires found + Tokens(s[i..]) == Tokens(s)
    ensures (found + [s[i..j]]) + Tokens(s[j..]) == Tokens(s)
    ensures |Tokens(s)| > |found|
  {
    TokensAtWord(s, i, j);
    assert found + ([s[i..j]] + Tokens(s[j..])) == (found + [s[i..j]]) + Tokens(s[j..]);
  }
}
