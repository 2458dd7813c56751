/**
 * The text-to-board encoder of lib/esm/vestaAPI.js: `isSpecial`, `stringToArray` and
 * `makeBoard`. The character table and the list of special words come from a module
 * that is not part of this model, so they are a parameter here (CharTable).
 */
module Encoder {
  import opened Wrappers
  import opened Grid
  import opened Tokens

  /**
   * `characterCode` (a partial map from a word or a one-character string to its code)
   * and `specialChar` (the words that are special), both taken as given.
   */
  datatype CharTable = CharTable(codes: map<string, int>, special: set<string>) {
    /** `characterCode[key]`: undefined when the table has no entry. */
    function Lookup(key: string): (c: Code)
      ensures c.Some? <==> key in codes
      ensures c.Some? ==> c == Some(codes[key]) && c.value in codes.Values
    {
      if key in codes then Some(codes[key]) else None
    }
  }

  /** The nine words the `switch` in stringToArray treats as one-cell tiles. */
  const SwitchNames: set<string> := {
    "degreeSign", "redBlock", "orangeBlock", "yellowBlock", "greenBlock",
    "blueBlock", "violetBlock", "whiteBlock", "blackBlock"
  }

  /** The control word that moves to the start of the next line. */
  const ReturnToken: string := "return"

  /**
   * `isSpecial(x)`, i.e. `specialChar.includes(x)`. The token after the last one is
   * `undefined` (None), which is never special.
   */
  function IsSpecial(t: CharTable, x: Option<string>): (b: bool)
    ensures b ==> x.Some?
    ensures x.Some? ==> (b <==> x.value in t.special)
  {
    match x
    case None => false
    case Some(w) => w in t.special
  }

  /**
   * What the `switch` makes of one piece of the split text: one of the nine tile words,
   * the empty token, the `return` control word, or any other word.
   */
  datatype Token = Tile(name: string) | Blank | LineBreak | Word(text: string)

  /** The text a token was read from. */
  function Raw(k: Token): string {
    match k
    case Tile(name) => name
    case Blank => ""
    case LineBreak => ReturnToken
    case Word(text) => text
  }

  /** The `switch` on a piece of text; classifying loses nothing of the text. */
  function Classify(word: string): (k: Token)
    ensures Raw(k) == word
    ensures k.Tile? <==> word in SwitchNames
    ensures k.Word? ==> word != "" && word != ReturnToken
  {
    if word in SwitchNames then Tile(word)
    else if word == "" then Blank
    else if word == ReturnToken then LineBreak
    else Word(word)
  }

  /** The message split on spaces and classified token by token. */
  function Tokenize(s: string): (tokens: seq<Token>)
    ensures |tokens| == |Split(s)|
    ensures forall k :: 0 <= k < |tokens| ==> Raw(tokens[k]) == Split(s)[k]
    ensures forall k :: 0 <= k < |tokens| ==> tokens[k] == Classify(Split(s)[k])
  {
    var pieces := Split(s);
    seq(|pieces|, k requires 0 <= k < |pieces| => Classify(pieces[k]))
  }

  /** The token after position i, or undefined past the end: `splitArray[i + 1]`. */
  function NextToken(tokens: seq<Token>, i: nat): Option<string> {
    if i + 1 < |tokens| then Some(Raw(tokens[i + 1])) else None
  }

  /** One lookup per character of an ordinary word, in order. */
  function WordCodes(t: CharTable, w: string): seq<Code> {
    seq(|w|, k requires 0 <= k < |w| => t.Lookup([w[k]]))
  }

  /**
   * The blanks the `return` word emits when `count` cells were emitted before it:
   * enough to reach the next multiple of 22, and none at a line boundary.
   */
  function ReturnPadding(count: nat): (z: seq<Code>)
    ensures (count + |z|) % LineLength == 0
    ensures |z| < LineLength
    ensures z == [] <==> count % LineLength == 0
    ensures forall k :: 0 <= k < |z| ==> z[k] == Some(0)
  {
    var remaining := LineLength - count % LineLength;
    assert count == (count / LineLength) * LineLength + count % LineLength;
    if remaining < LineLength then
      assert count + remaining == (count / LineLength + 1) * LineLength;
      Zeros(remaining)
    else []
  }

  /**
   * The codes the `switch` emits for one token when `count` cells were emitted before it
   * and `next` is the token after it. An ordinary word gets a trailing blank unless the
   * next token is special.
   */
  function Emission(t: CharTable, k: Token, next: Option<string>, count: nat): seq<Code> {
    match k
    case Tile(name) => [t.Lookup(name)]
    case Blank => [Some(0)]
    case LineBreak => ReturnPadding(count)
    case Word(w) => WordCodes(t, w) + (if IsSpecial(t, next) then [] else [Some(0)])
  }

  /** The codes emitted for token i of a message. */
  function TokenCodes(t: CharTable, tokens: seq<Token>, i: nat, count: nat): seq<Code>
    requires i < |tokens|
  {
    Emission(t, tokens[i], NextToken(tokens, i), count)
  }

  /**
   * The codes emitted for the first n tokens, left to right. The running cell counter
   * handed to each token is the number of codes emitted before it.
   */
  function EncodePrefix(t: CharTable, tokens: seq<Token>, n: nat): seq<Code>
    requires n <= |tokens|
  {
    if n == 0 then []
    else
      var before := EncodePrefix(t, tokens, n - 1);
      before + TokenCodes(t, tokens, n - 1, |before|)
  }

  /** The flat list stringToArray returns for s. */
  function Encoding(t: CharTable, s: string): seq<Code> {
    var tokens := Tokenize(s);
    EncodePrefix(t, tokens, |tokens|)
  }

  /**
   * The `.map` callback of `stringToArray`: the `switch` on one word. It returns what the
   * word emits and the new value of the cell counter, which every branch advances by
   * exactly the number of codes it emits.
   */
  method EmitWord(t: CharTable, word: string, next: Option<string>, charCount: nat)
    returns (elements: seq<Code>, newCount: nat)
    ensures elements == Emission(t, Classify(word), next, charCount)
    ensures newCount == charCount + |elements|
  {
    newCount := charCount;
    if word in SwitchNames {
      elements := [t.Lookup(word)];
      newCount := newCount + 1;
    } else if word == "" {
      elements := [Some(0)];
      newCount := newCount + 1;
    } else if word == ReturnToken {
      var charCountModLine := newCount % LineLength;
      var remaining := LineLength - charCountModLine;
      if remaining < LineLength {
        elements := Zeros(remaining);
        newCount := newCount + remaining;
      } else {
        elements := [];
      }
    } else {
      elements := WordCodes(t, word);
      if !IsSpecial(t, next) {
        elements := elements + [Some(0)];
      }
      newCount := newCount + |elements|;
    }
  }

  /**
   * `stringToArray`: walks the tokens with a running cell counter, applies the `switch`
   * to each and concatenates what it emits. The counter always equals the number of
   * codes emitted so far.
   */
  method StringToArray(t: CharTable, s: string) returns (codes: seq<Code>)
    ensures codes == Encoding(t, s)
  {
    var splitArray := Split(s);
    ghost var tokens := Tokenize(s);
    var charCount: nat := 0;
    codes := [];
    for i := 0 to |splitArray|
      invariant charCount == |codes|
      invariant codes == EncodePrefix(t, tokens, i)
    {
      var next := if i + 1 < |splitArray| then Some(splitArray[i + 1]) else None;
      assert tokens[i] == Classify(splitArray[i]) && next == NextToken(tokens, i);
      var elements;
      elements, charCount := EmitWord(t, splitArray[i], next, charCount);
      codes := codes + elements;
    }
  }

  /** `makeBoard`: the flat list of codes for s. */
  method MakeBoard(t: CharTable, s: string) returns (codes: seq<Code>)
    ensures codes == Encoding(t, s)
  {
    codes := StringToArray(t, s);
  }

  /** Codes are only ever appended: the output for fewer tokens is a prefix of the output for more. */
  lemma {:induction false} EncodePrefixExtends(t: CharTable, tokens: seq<Token>, n: nat, m: nat)
    requires n <= m <= |tokens|
    ensures EncodePrefix(t, tokens, n) <= EncodePrefix(t, tokens, m)
  {
    if n < m {
      EncodePrefixExtends(t, tokens, n, m - 1);
      var before := EncodePrefix(t, tokens, m - 1);
      assert EncodePrefix(t, tokens, m) == before + TokenCodes(t, tokens, m - 1, |before|);
    }
  }

  /**
   * What token i adds to the output, by kind of token: a tile word adds its one code,
   * an empty token one blank, `return` fewer than 22 blanks that end on a line
   * boundary, and an ordinary word one lookup per character plus a blank exactly when the
   * next token is not special.
   */
  lemma TokenEmission(t: CharTable, tokens: seq<Token>, i: nat)
    requires i < |tokens|
    ensures var before, after := EncodePrefix(t, tokens, i), EncodePrefix(t, tokens, i + 1);
      && after[..|before|] == before
      && (tokens[i].Tile? ==> after == before + [t.Lookup(tokens[i].name)])
      && (tokens[i].Blank? ==> after == before + [Some(0)])
      && (tokens[i].LineBreak? ==>
            |after| % LineLength == 0 && |after| - |before| < LineLength &&
            (|after| == |before| <==> |before| % LineLength == 0) &&
            forall k :: |before| <= k < |after| ==> after[k] == Some(0))
      && (tokens[i].Word? ==>
            |after| == |before| + |tokens[i].text| + (if IsSpecial(t, NextToken(tokens, i)) then 0 else 1) &&
            (forall k :: 0 <= k < |tokens[i].text| ==> after[|before| + k] == t.Lookup([tokens[i].text[k]])) &&
            (!IsSpecial(t, NextToken(tokens, i)) ==> after[|after| - 1] == Some(0)))
  {
  }

  /** The last token, when it is an ordinary word, always gets the trailing blank. */
  lemma LastWordGetsBlank(t: CharTable, s: string)
    requires Tokenize(s)[|Tokenize(s)| - 1].Word?
    ensures Encoding(t, s) != [] && Encoding(t, s)[|Encoding(t, s)| - 1] == Some(0)
  {
    var tokens := Tokenize(s);
    TokenEmission(t, tokens, |tokens| - 1);
  }

  /** A message made only of tile words emits exactly one code per word, with no separators. */
  lemma {:induction false} OnlyTiles(t: CharTable, tokens: seq<Token>, n: nat)
    requires n <= |tokens|
    requires forall k :: 0 <= k < n ==> tokens[k].Tile?
    ensures EncodePrefix(t, tokens, n) == seq(n, k requires 0 <= k < n => t.Lookup(tokens[k].name))
  {
    if n > 0 {
      OnlyTiles(t, tokens, n - 1);
    }
  }

  /** Every code emitted is a blank, undefined, or a code found in the character table. */
  lemma {:induction false} CodesComeFromTable(t: CharTable, tokens: seq<Token>, n: nat)
    requires n <= |tokens|
    ensures forall k :: 0 <= k < |EncodePrefix(t, tokens, n)| ==>
      var c := EncodePrefix(t, tokens, n)[k]; c == None || c == Some(0) || c.value in t.codes.Values
  {
    if n > 0 {
      CodesComeFromTable(t, tokens, n - 1);
      var before := EncodePrefix(t, tokens, n - 1);
      var e := TokenCodes(t, tokens, n - 1, |before|);
      assert EncodePrefix(t, tokens, n) == before + e;
      forall k | 0 <= k < |e| ensures e[k] == None || e[k] == Some(0) || e[k].value in t.codes.Values {
      }
    }
  }

  /** The empty message is the single empty token: one blank, and an all-blank board. */
  lemma EncodingOfEmpty(t: CharTable)
    ensures Encoding(t, "") == [Some(0)]
    ensures Reshape(Encoding(t, "")) == EmptyBoard
  {
    var tokens := Tokenize("");
    assert tokens == [Blank];
    assert EncodePrefix(t, tokens, 0) == [];
    assert EncodePrefix(t, tokens, 1) == [] + TokenCodes(t, tokens, 0, 0);
    ReshapeOfBlanks([Some(0)]);
  }

  /** A lone tile word occupies exactly one cell, the first, whatever its length. */
  lemma EncodingOfTile(t: CharTable, w: string)
    requires w in SwitchNames
    ensures Encoding(t, w) == [t.Lookup(w)]
    ensures Reshape(Encoding(t, w)) == EmptyBoard[0 := EmptyBoard[0][0 := OrZero(t.Lookup(w))]]
  {
    TileNamesSpaceFree(w);
    SplitWord(w);
    var tokens := Tokenize(w);
    assert tokens == [Tile(w)];
    assert EncodePrefix(t, tokens, 1) == [] + TokenCodes(t, tokens, 0, 0);
    ReshapeSingle(t.Lookup(w));
  }

  /** A lone ordinary word: one lookup per character, then the trailing blank. */
  lemma EncodingOfWord(t: CharTable, w: string)
    requires Ordinary(w)
    ensures Encoding(t, w) == WordCodes(t, w) + [Some(0)]
    ensures |Encoding(t, w)| == |w| + 1
  {
    SplitWord(w);
    var tokens := Tokenize(w);
    assert tokens == [Word(w)];
    assert EncodePrefix(t, tokens, 1) == [] + TokenCodes(t, tokens, 0, 0);
  }

  /**
   * A long word without spaces gives the same board as its first 132 characters:
   * what does not fit is dropped.
   */
  lemma LongWordTruncates(t: CharTable, w: string)
    requires SpaceFree(w) && |w| >= BoardSize
    ensures Reshape(Encoding(t, w)) == Reshape(Encoding(t, w[..BoardSize]))
  {
    var p := w[..BoardSize];
    assert SpaceFree(p) by {
      forall k | 0 <= k < |p| ensures p[k] != ' ' { assert p[k] == w[k] && w[k] in w; }
    }
    ShortWordsOnly(w);
    ShortWordsOnly(p);
    EncodingOfWord(t, w);
    EncodingOfWord(t, p);
    var ew, ep := Encoding(t, w), Encoding(t, p);
    ReshapeTruncates(ew);
    ReshapeTruncates(ep);
    assert ew[..BoardSize] == ep[..BoardSize];
  }

  /** None of the tile words contains a space. */
  lemma TileNamesSpaceFree(w: string)
    requires w in SwitchNames
    ensures SpaceFree(w)
  {
  }

  /** The tile words and `return` are all shorter than 12 characters. */
  lemma ShortWordsOnly(w: string)
    requires |w| >= 12
    ensures w !in SwitchNames && w != ReturnToken
  {
  }

  /** An ordinary word: not empty, not a tile word, not `return`, and without spaces. */
  predicate Ordinary(w: string) {
    SpaceFree(w) && w != "" && w != ReturnToken && w !in SwitchNames
  }

  /**
   * The word `return` moves to the next line: for "AB return CD" (and any two short
   * words in place of AB and CD) the first word starts the first line, the second word
   * starts the second line, and every other cell is blank.
   */
  lemma ReturnStartsNextLine(t: CharTable, u: string, v: string)
    requires Ordinary(u) && |u| < LineLength
    requires Ordinary(v) && |v| < LineLength
    ensures var board := Reshape(Encoding(t, u + " return " + v));
      && (forall c :: 0 <= c < LineLength ==>
            board[0][c] == (if c < |u| then OrZero(t.Lookup([u[c]])) else 0))
      && (forall c :: 0 <= c < LineLength ==>
            board[1][c] == (if c < |v| then OrZero(t.Lookup([v[c]])) else 0))
      && forall r :: 2 <= r < Rows ==> board[r] == EmptyBoard[r]
  {
    var flat := Encoding(t, u + " return " + v);
    ReturnCodes(t, u, v);
    ReshapeTwoLines(flat);
    var board := Reshape(flat);
    forall c | 0 <= c < LineLength
      ensures board[0][c] == (if c < |u| then OrZero(t.Lookup([u[c]])) else 0)
      ensures board[1][c] == (if c < |v| then OrZero(t.Lookup([v[c]])) else 0)
    {
      assert At(flat, c) == if c < |u| then t.Lookup([u[c]]) else Some(0);
      assert At(flat, LineLength + c) == if c < |v| then t.Lookup([v[c]]) else if c == |v| then Some(0) else None;
    }
  }

  /** The pieces of `u return v` are the two words around the control word. */
  lemma ReturnTokens(u: string, v: string)
    requires Ordinary(u) && Ordinary(v)
    ensures Tokenize(u + " return " + v) == [Word(u), LineBreak, Word(v)]
  {
    SplitWord(v);
    assert SpaceFree(ReturnToken);
    SplitPrefix(ReturnToken, v);
    assert u + " return " + v == u + " " + (ReturnToken + " " + v);
    SplitPrefix(u, ReturnToken + " " + v);
    var tk := Tokenize(u + " return " + v);
    assert tk[0] == Classify(u) && tk[1] == Classify(ReturnToken) && tk[2] == Classify(v);
  }

  /** The flat list for `u return v`: u on a full first line, then v and a blank. */
  lemma ReturnCodes(t: CharTable, u: string, v: string)
    requires Ordinary(u) && |u| < LineLength
    requires Ordinary(v)
    ensures Encoding(t, u + " return " + v) ==
      WordCodes(t, u) + Zeros(LineLength - |u|) + WordCodes(t, v) + [Some(0)]
  {
    ReturnTokens(u, v);
    var tokens := [Word(u), LineBreak, Word(v)];
    FirstLine(t, tokens);
    var p2 := EncodePrefix(t, tokens, 2);
    assert EncodePrefix(t, tokens, 3) == p2 + TokenCodes(t, tokens, 2, |p2|);
    assert TokenCodes(t, tokens, 2, |p2|) == WordCodes(t, v) + [Some(0)];
  }

  /** A short first word followed by `return` fills exactly the first line. */
  lemma FirstLine(t: CharTable, tokens: seq<Token>)
    requires |tokens| >= 2 && tokens[0].Word? && tokens[1] == LineBreak
    requires 0 < |tokens[0].text| < LineLength
    ensures EncodePrefix(t, tokens, 2) == WordCodes(t, tokens[0].text) + Zeros(LineLength - |tokens[0].text|)
  {
    var u := tokens[0].text;
    var p1 := EncodePrefix(t, tokens, 1);
    assert NextToken(tokens, 0) == Some(ReturnToken);
    assert EncodePrefix(t, tokens, 0) == [];
    assert p1 == [] + TokenCodes(t, tokens, 0, 0);
    assert p1 == WordCodes(t, u) + (if IsSpecial(t, Some(ReturnToken)) then [] else [Some(0)]);
    var p2 := EncodePrefix(t, tokens, 2);
    assert p2 == p1 + ReturnPadding(|p1|);
    assert |p2| == LineLength;
    var want := WordCodes(t, u) + Zeros(LineLength - |u|);
    forall k | 0 <= k < LineLength ensures p2[k] == want[k] {
      if k >= |u| {
        assert p2[k] == Some(0);
      }
    }
  }

  /** With a table whose codes lie in 0..71, every cell of the board does too. */
  lemma BoardCodesInRange(t: CharTable, s: string)
    requires forall v :: v in t.codes.Values ==> 0 <= v <= 71
    ensures forall r, c :: 0 <= r < Rows && 0 <= c < LineLength ==>
      0 <= Reshape(Encoding(t, s))[r][c] <= 71
  {
    var flat := Encoding(t, s);
    CodesComeFromTable(t, Tokenize(s), |Tokenize(s)|);
    var board := Reshape(flat);
    forall r, c | 0 <= r < Rows && 0 <= c < LineLength ensures 0 <= board[r][c] <= 71 {
      var i := r * LineLength + c;
      if board[r][c] != 0 {
        assert flat[i] == Some(board[r][c]);
      }
    }
  }
}
