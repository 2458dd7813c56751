/**
 * Tokenising message text: JavaScript's `string.split(' ')`, as used by stringToArray
 * (lib/esm/vestaAPI.js), together with its inverse, joining tokens with single spaces.
 */
module Tokens {

  /** A token never contains the separator. */
  predicate SpaceFree(w: string) {
    ' ' !in w
  }

  /**
   * `s.split(' ')`: the pieces between spaces, in order. Consecutive spaces, and a space
   * at either end, give empty tokens; the empty string gives the single token "".
   */
  function Split(s: string): (tokens: seq<string>)
    ensures |tokens| >= 1
    ensures forall k :: 0 <= k < |tokens| ==> SpaceFree(tokens[k])
  {
    if s == [] then [""]
    else
      var rest := Split(s[1..]);
      if s[0] == ' ' then [""] + rest
      else [[s[0]] + rest[0]] + rest[1..]
  }

  /** The tokens joined with one space between neighbours: `tokens.join(' ')`. */
  function Join(tokens: seq<string>): string
    requires |tokens| >= 1
  {
    if |tokens| == 1 then tokens[0] else tokens[0] + " " + Join(tokens[1..])
  }

  /** Splitting loses nothing: joining the tokens gives back the text. */
  lemma {:induction false} JoinSplit(s: string)
    ensures Join(Split(s)) == s
  {
    if s != [] {
      JoinSplit(s[1..]);
      var rest := Split(s[1..]);
      if s[0] == ' ' {
        assert Split(s)[1..] == rest;
      } else {
        var t := Split(s);
        assert t[0] == [s[0]] + rest[0];
        if |rest| > 1 {
          assert t[1..] == rest[1..];
        }
      }
    }
  }

  /** Splitting a join of space-free tokens gives the tokens back. */
  lemma {:induction false} SplitJoin(tokens: seq<string>)
    requires |tokens| >= 1
    requires forall k :: 0 <= k < |tokens| ==> SpaceFree(tokens[k])
    ensures Split(Join(tokens)) == tokens
  {
    if |tokens| == 1 {
      SplitWord(tokens[0]);
    } else {
      SplitJoin(tokens[1..]);
      SplitPrefix(tokens[0], Join(tokens[1..]));
    }
  }

  /** A space-free text is a single token. */
  lemma {:induction false} SplitWord(w: string)
    requires SpaceFree(w)
    ensures Split(w) == [w]
  {
    if w != [] {
      SplitWord(w[1..]);
      assert w[0] != ' ' by { assert w[0] in w; }
      assert [w[0]] + w[1..] == w;
    }
  }

  /** A space-free word followed by a space and more text starts a new token list. */
  lemma {:induction false} SplitPrefix(w: string, s: string)
    requires SpaceFree(w)
    ensures Split(w + " " + s) == [w] + Split(s)
  {
    if w == [] {
      assert ([] + " " + s)[1..] == s;
    } else {
      var v := w + " " + s;
      assert v[1..] == w[1..] + " " + s;
      SplitPrefix(w[1..], s);
      assert v[0] == w[0] && w[0] != ' ' by { assert w[0] in w; }
      assert [w[0]] + w[1..] == w;
    }
  }
}
