/**
 * The fixed 6 x 22 board of character codes (lib/cjs/types.d.ts, BoardCharArray and Line)
 * and the reshaping of a flat list of emitted codes into it, as done by
 * Vesta.characterArrayFromString in lib/esm/vestaAPI.js.
 */
module Grid {
  import opened Wrappers

  /** Number of lines on the board. */
  const Rows: nat := 6
  /** LINE_LENGTH: number of cells per line. */
  const LineLength: nat := 22
  /** Number of cells on the board. */
  const BoardSize: nat := Rows * LineLength

  /**
   * One element of the flat list built by the encoder: a number, or `undefined`
   * (None) when the character table has no entry for a character.
   */
  type Code = Option<int>

  /** A board is exactly six lines of exactly 22 cells each. */
  predicate IsBoard<T>(b: seq<seq<T>>) {
    |b| == Rows && forall r :: 0 <= r < |b| ==> |b[r]| == LineLength
  }

  /** `emptyBoard`: six lines of 22 zeros. */
  const EmptyBoard: seq<seq<int>> := seq(Rows, _ => seq(LineLength, _ => 0))

  /** `n` blank codes, as `new Array(n).fill(0)` builds them. */
  function Zeros(n: nat): (z: seq<Code>)
    ensures |z| == n && forall k :: 0 <= k < n ==> z[k] == Some(0)
  {
    seq(n, _ => Some(0))
  }

  /** Indexing a JavaScript array: past the end the value is `undefined`. */
  function At(flat: seq<Code>, i: int): Code {
    if 0 <= i < |flat| then flat[i] else None
  }

  /** `useChar || 0`: a falsy value (undefined or 0) becomes 0. */
  function OrZero(v: Code): (n: int)
    ensures v.None? ==> n == 0
    ensures v.Some? ==> n == v.value
  {
    if v.Some? && v.value != 0 then v.value else 0
  }

  /**
   * The board built from the flat list: cell (row, col) is element 22 * row + col,
   * mapped over the shape of EmptyBoard.
   */
  function Reshape(flat: seq<Code>): (board: seq<seq<int>>)
    ensures IsBoard(board)
    ensures forall r, c :: 0 <= r < Rows && 0 <= c < LineLength ==>
      board[r][c] == 0 || (r * LineLength + c < |flat| && flat[r * LineLength + c] == Some(board[r][c]))
  {
    seq(|EmptyBoard|, row requires 0 <= row < |EmptyBoard| =>
      seq(|EmptyBoard[row]|, col => OrZero(At(flat, col + row * 22))))
  }

  /** Concatenation of the lines of a board, row by row. */
  function Flatten(board: seq<seq<int>>): seq<int> {
    if board == [] then [] else board[0] + Flatten(board[1..])
  }

  lemma {:induction false} FlattenIndex(board: seq<seq<int>>)
    requires forall r :: 0 <= r < |board| ==> |board[r]| == LineLength
    ensures |Flatten(board)| == |board| * LineLength
    ensures forall r, c :: 0 <= r < |board| && 0 <= c < LineLength ==>
      Flatten(board)[r * LineLength + c] == board[r][c]
  {
    if board != [] {
      FlattenIndex(board[1..]);
      var rest := Flatten(board[1..]);
      assert Flatten(board) == board[0] + rest;
      forall r, c | 0 <= r < |board| && 0 <= c < LineLength
        ensures Flatten(board)[r * LineLength + c] == board[r][c]
      {
        if r > 0 {
          var j := (r - 1) * LineLength + c;
          assert r * LineLength + c == LineLength + j;
          assert rest[j] == board[1..][r - 1][c];
        }
      }
    }
  }

  /**
   * Reading the board row-major gives back the first 132 flat elements, each
   * passed through `|| 0`, and nothing else: the flat index of cell (r, c) is 22 * r + c.
   */
  lemma ReshapeRowMajor(flat: seq<Code>)
    ensures Flatten(Reshape(flat)) == seq(BoardSize, i => OrZero(At(flat, i)))
  {
    var b := Reshape(flat);
    FlattenIndex(b);
    forall i | 0 <= i < BoardSize
      ensures Flatten(b)[i] == OrZero(At(flat, i))
    {
      var r, c := i / LineLength, i % LineLength;
      assert i == r * LineLength + c;
      assert Flatten(b)[r * LineLength + c] == b[r][c];
      assert b[r][c] == OrZero(At(flat, c + r * 22));
    }
  }

  /** Output past cell 132 is silently dropped. */
  lemma ReshapeTruncates(flat: seq<Code>)
    requires |flat| >= BoardSize
    ensures Reshape(flat) == Reshape(flat[..BoardSize])
  {
    var a, b := Reshape(flat), Reshape(flat[..BoardSize]);
    forall r | 0 <= r < Rows ensures a[r] == b[r] {
      forall c | 0 <= c < LineLength ensures a[r][c] == b[r][c] {
        assert c + r * 22 < BoardSize;
      }
    }
  }

  /** Short output is padded with blanks: trailing blanks never change the board. */
  lemma ReshapePadsWithBlanks(flat: seq<Code>, n: nat)
    ensures Reshape(flat + Zeros(n)) == Reshape(flat)
  {
    var a, b := Reshape(flat + Zeros(n)), Reshape(flat);
    forall r | 0 <= r < Rows ensures a[r] == b[r] {
      forall c | 0 <= c < LineLength ensures a[r][c] == b[r][c] {
        var i := c + r * 22;
        if i < |flat| {
          assert (flat + Zeros(n))[i] == flat[i];
        }
      }
    }
  }

  /** A flat list made only of blanks and undefined values gives the empty board. */
  lemma ReshapeOfBlanks(flat: seq<Code>)
    requires forall k :: 0 <= k < |flat| ==> flat[k] == Some(0) || flat[k] == None
    ensures Reshape(flat) == EmptyBoard
  {
    var a := Reshape(flat);
    forall r | 0 <= r < Rows ensures a[r] == EmptyBoard[r] {
      forall c | 0 <= c < LineLength ensures a[r][c] == 0 {
        var i := c + r * 22;
        if i < |flat| {
          assert flat[i] == Some(0) || flat[i] == None;
        }
      }
    }
  }

  /** A single flat element lands in cell (0, 0); every other cell is blank. */
  lemma ReshapeSingle(x: Code)
    ensures Reshape([x]) == EmptyBoard[0 := EmptyBoard[0][0 := OrZero(x)]]
  {
    var a, b := Reshape([x]), EmptyBoard[0 := EmptyBoard[0][0 := OrZero(x)]];
    forall r | 0 <= r < Rows ensures a[r] == b[r] {
      forall c | 0 <= c < LineLength ensures a[r][c] == b[r][c] {
      }
    }
  }

  /** Output of at most two lines fills the first two lines of the board and no more. */
  lemma ReshapeTwoLines(flat: seq<Code>)
    requires |flat| <= 2 * LineLength
    ensures var board := Reshape(flat);
      && (forall c :: 0 <= c < LineLength ==> board[0][c] == OrZero(At(flat, c)))
      && (forall c :: 0 <= c < LineLength ==> board[1][c] == OrZero(At(flat, LineLength + c)))
      && forall r :: 2 <= r < Rows ==> board[r] == EmptyBoard[r]
  {
    var board := Reshape(flat);
    forall c | 0 <= c < LineLength ensures board[1][c] == OrZero(At(flat, LineLength + c)) {
      assert c + 1 * 22 == LineLength + c;
    }
    forall r | 2 <= r < Rows ensures board[r] == EmptyBoard[r] {
      forall c | 0 <= c < LineLength ensures board[r][c] == 0 {
        assert c + r * 22 >= |flat|;
      }
    }
  }
}
