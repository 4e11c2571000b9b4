/** On-disk inodes (kernel/fs.h, struct dinode; kernel/fs.c, iupdate and ilock): sixteen
    32-bit words each, sixteen to a block. */
module Inodes {
  import opened Bytes

  const NDIRECT: nat := 12
  const NINDIRECT: nat := WORDS
  const MAXFILE: nat := NDIRECT + NINDIRECT
  const IPB: nat := 16
  const IWORDS: nat := 16

  type short = x: int | 0 <= x < 0x1_0000

  type Addrs = a: seq<word> | |a| == NDIRECT + 1 witness seq(NDIRECT + 1, i => 0)

  datatype Inode = Inode(kind: short, major: short, minor: short, nlink: short, size: word, addrs: Addrs)

  function TwoShorts(lo: short, hi: short): word {
    lo + 0x1_0000 * hi
  }

  function Encode(ip: Inode): (r: seq<word>)
    ensures |r| == IWORDS
  {
    [TwoShorts(ip.kind, ip.major), TwoShorts(ip.minor, ip.nlink), ip.size] + ip.addrs
  }

  function Words(b: Block, at: nat, n: nat): (r: seq<word>)
    requires at + n <= WORDS
    ensures |r| == n && forall k :: 0 <= k < n ==> r[k] == Word(b, at + k)
  {
    if n == 0 then [] else Words(b, at, n - 1) + [Word(b, at + n - 1)]
  }

  function Decode(w: seq<word>): Inode
    requires |w| == IWORDS
  {
    Inode(w[0] % 0x1_0000, w[0] / 0x1_0000, w[1] % 0x1_0000, w[1] / 0x1_0000, w[2], w[3..])
  }

  /** The k-th inode of an inode block. */
  function Load(b: Block, k: nat): Inode
    requires k < IPB
  {
    Decode(Words(b, IWORDS * k, IWORDS))
  }

  function Save(b: Block, k: nat, ip: Inode): Block
    requires k < IPB
  {
    PutWords(b, IWORDS * k, Encode(ip))
  }

  lemma ShortsRoundTrip(lo: short, hi: short)
    ensures TwoShorts(lo, hi) % 0x1_0000 == lo && TwoShorts(lo, hi) / 0x1_0000 == hi
  {
  }

  lemma DecodeEncode(ip: Inode)
    ensures Decode(Encode(ip)) == ip
  {
    ShortsRoundTrip(ip.kind, ip.major);
    ShortsRoundTrip(ip.minor, ip.nlink);
    assert Encode(ip)[3..] == ip.addrs;
  }

  lemma SavedWord(b: Block, k: nat, ip: Inode, j: nat, i: nat)
    requires k < IPB && j < IPB && i < IWORDS
    ensures Word(Save(b, k, ip), IWORDS * j + i) == if j == k then Encode(ip)[i] else Word(b, IWORDS * j + i)
  {
    WordPutWords(b, IWORDS * k, Encode(ip), IWORDS * j + i);
  }

  lemma SavedWords(b: Block, k: nat, ip: Inode, j: nat)
    requires k < IPB && j < IPB
    ensures Words(Save(b, k, ip), IWORDS * j, IWORDS) == if j == k then Encode(ip) else Words(b, IWORDS * j, IWORDS)
  {
    hide Word, Save, Encode;
    var w := Words(Save(b, k, ip), IWORDS * j, IWORDS);
    forall i | 0 <= i < IWORDS
      ensures w[i] == if j == k then Encode(ip)[i] else Word(b, IWORDS * j + i)
    {
      SavedWord(b, k, ip, j, i);
    }
  }

  /** ilock reads back what iupdate wrote, and iupdate leaves the other inodes of the block. */
  lemma LoadSave(b: Block, k: nat, ip: Inode, j: nat)
    requires k < IPB && j < IPB
    ensures Load(Save(b, k, ip), j) == if j == k then ip else Load(b, j)
  {
    hide Word, Words, Save, Encode, Decode;
    SavedWords(b, k, ip, j);
    DecodeEncode(ip);
  }
}
