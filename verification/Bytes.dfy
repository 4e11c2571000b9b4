/** Disk blocks as byte sequences, and the little-endian 32-bit words stored in them.
    The log header and the indirect blocks of a file are both arrays of such words. */
module Bytes {
  import opened Sequences

  const BSIZE: nat := 1024
  const WORDS: nat := 256

  type byte = x: int | 0 <= x < 256
  type word = x: int | 0 <= x < 0x1_0000_0000

  type Block = b: seq<byte> | |b| == BSIZE witness Copies(BSIZE, 0)

  function ZeroBlock(): Block {
    Copies<byte>(BSIZE, 0)
  }

  function LittleEndian(b0: int, b1: int, b2: int, b3: int): int {
    b0 + 0x100 * b1 + 0x1_0000 * b2 + 0x100_0000 * b3
  }

  /** The i-th 32-bit word of a block. */
  function Word(b: Block, i: nat): word
    requires i < WORDS
  {
    LittleEndian(b[4 * i], b[4 * i + 1], b[4 * i + 2], b[4 * i + 3])
  }

  function WordBytes(w: word): (r: seq<byte>)
    ensures |r| == 4
    ensures LittleEndian(r[0], r[1], r[2], r[3]) == w
  {
    var w1 := w / 0x100;
    var w2 := w1 / 0x100;
    [w % 0x100, w1 % 0x100, w2 % 0x100, w2 / 0x100]
  }

  /** The block with its i-th word replaced. */
  function SetWord(b: Block, i: nat, w: word): Block
    requires i < WORDS
  {
    b[..4 * i] + WordBytes(w) + b[4 * i + 4..]
  }

  lemma WordSetWord(b: Block, i: nat, w: word, j: nat)
    requires i < WORDS && j < WORDS
    ensures Word(SetWord(b, i, w), j) == if i == j then w else Word(b, j)
  {
    var r := WordBytes(w);
    var c := SetWord(b, i, w);
    assert c[4 * i..4 * i + 4] == r;
    assert forall k :: 0 <= k < BSIZE && !(4 * i <= k < 4 * i + 4) ==> c[k] == b[k];
    if i == j {
      assert c[4 * i] == r[0] && c[4 * i + 1] == r[1] && c[4 * i + 2] == r[2] && c[4 * i + 3] == r[3];
    }
  }

  lemma WordOfZero(i: nat)
    requires i < WORDS
    ensures Word(ZeroBlock(), i) == 0
  {
  }

  /** The block with ws stored from word index `at` on. */
  function PutWords(b: Block, at: nat, ws: seq<word>): Block
    requires at + |ws| <= WORDS
    decreases |ws|
  {
    if ws == [] then b
    else SetWord(PutWords(b, at, ws[..|ws| - 1]), at + |ws| - 1, ws[|ws| - 1])
  }

  lemma {:induction false} WordPutWords(b: Block, at: nat, ws: seq<word>, j: nat)
    requires at + |ws| <= WORDS && j < WORDS
    ensures Word(PutWords(b, at, ws), j) == if at <= j < at + |ws| then ws[j - at] else Word(b, j)
    decreases |ws|
  {
    if ws != [] {
      var init := ws[..|ws| - 1];
      WordPutWords(b, at, init, j);
      WordSetWord(PutWords(b, at, init), at + |ws| - 1, ws[|ws| - 1], j);
    }
  }
}
