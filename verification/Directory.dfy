/** Directories (kernel/fs.c, "Directories"; kernel/string.c, strncmp and strncpy): a directory
    file is an array of 16-byte entries that implements a finite map from names to inode
    numbers. Names are compared and stored up to their first NUL or up to DIRSIZ bytes. */
module Directory {
  import opened Bytes
  import opened Inodes
  import opened Volume
  import opened Files
  import opened Transfers
  import opened FileSystem

  const DIRSIZ: nat := 14
  const ENTRY: nat := 2 + DIRSIZ
  const T_DIR: short := 1

  // names

  /** What C can read through a name pointer: a string that ends, or at least n bytes. */
  predicate Readable(s: seq<byte>, n: nat) {
    0 in s || |s| >= n
  }

  /** The bytes before the first NUL, at most n of them. */
  function Upto(s: seq<byte>, n: nat): (r: seq<byte>)
    requires Readable(s, n)
    ensures |r| <= n && |r| <= |s| && r == s[..|r|] && 0 !in r
    ensures |r| < n ==> |r| < |s| && s[|r|] == 0
  {
    if n == 0 || s[0] == 0 then []
    else
      assert s == [s[0]] + s[1..];
      [s[0]] + Upto(s[1..], n - 1)
  }

  function Key(s: seq<byte>): seq<byte>
    requires Readable(s, DIRSIZ)
  {
    Upto(s, DIRSIZ)
  }

  /** A prefix of s without NUL that fills n bytes or is followed by NUL is what Upto returns. */
  lemma {:induction false} UptoUnique(s: seq<byte>, n: nat, k: nat)
    requires Readable(s, n) && k <= n && k <= |s| && 0 !in s[..k]
    requires k < n ==> k < |s| && s[k] == 0
    ensures Upto(s, n) == s[..k]
  {
    if k > 0 {
      assert s[..k] == [s[0]] + s[1..][..k - 1] && s == [s[0]] + s[1..];
      UptoUnique(s[1..], n - 1, k - 1);
    }
  }

  /** strncmp's loop. */
  method Strncmp(s: seq<byte>, t: seq<byte>, n: nat) returns (r: int)
    requires Readable(s, n) && Readable(t, n)
    ensures r == 0 <==> Upto(s, n) == Upto(t, n)
    ensures r != 0 ==> exists k :: 0 <= k < |s| && k < |t| && s[..k] == t[..k] && r == s[k] as int - t[k] as int
  {
    var k := 0;
    InBounds(s, n, 0);
    InBounds(t, n, 0);
    while k < n && s[k] != 0 && s[k] == t[k]
      invariant 0 <= k <= n && k <= |s| && k <= |t| && s[..k] == t[..k] && 0 !in s[..k]
      invariant k < n ==> k < |s| && k < |t|
      decreases n - k
    {
      assert s[..k + 1] == s[..k] + [s[k]] && t[..k + 1] == t[..k] + [t[k]];
      InBounds(s, n, k + 1);
      InBounds(t, n, k + 1);
      k := k + 1;
    }
    if k == n {
      UptoUnique(s, n, n);
      UptoUnique(t, n, n);
      return 0;
    }
    var p: int, q: int := s[k], t[k];
    r := p - q;
    if r == 0 {
      UptoUnique(s, n, k);
      UptoUnique(t, n, k);
    } else {
      Differ(s, t, n, k);
    }
  }

  lemma InBounds(s: seq<byte>, n: nat, k: nat)
    requires Readable(s, n) && k <= |s| && 0 !in s[..k]
    ensures k < n ==> k < |s|
  {
  }

  lemma UptoLong(s: seq<byte>, n: nat, k: nat)
    requires Readable(s, n) && k < n && k < |s| && 0 !in s[..k]
    ensures if s[k] == 0 then |Upto(s, n)| == k else |Upto(s, n)| > k && Upto(s, n)[k] == s[k]
  {
    assert forall j :: 0 <= j < k ==> s[j] == s[..k][j];
    assert forall j :: 0 <= j < |Upto(s, n)| ==> Upto(s, n)[j] == s[j];
  }

  lemma Differ(s: seq<byte>, t: seq<byte>, n: nat, k: nat)
    requires Readable(s, n) && Readable(t, n) && k < n && k < |s| && k < |t| && s[k] != t[k]
    requires s[..k] == t[..k] && 0 !in s[..k]
    ensures Upto(s, n) != Upto(t, n)
  {
    hide Upto, Readable;
    UptoLong(s, n, k);
    UptoLong(t, n, k);
  }

  /** strncpy: the name, padded with NULs to n bytes. */
  method Strncpy(t: seq<byte>, n: nat) returns (r: seq<byte>)
    requires Readable(t, n)
    ensures |r| == n && Upto(r, n) == Upto(t, n)
    ensures forall k :: |Upto(t, n)| <= k < n ==> r[k] == 0
  {
    r := [];
    InBounds(t, n, 0);
    while |r| < n && t[|r|] != 0
      invariant |r| <= n && |r| <= |t| && r == t[..|r|] && 0 !in r
      invariant |r| < n ==> |r| < |t|
      decreases n - |r|
    {
      assert t[..|r| + 1] == t[..|r|] + [t[|r|]];
      r := r + [t[|r|]];
      InBounds(t, n, |r|);
    }
    UptoUnique(t, n, |r|);
    ghost var k := |r|;
    while |r| < n
      invariant k <= |r| <= n && r[..k] == t[..k] && forall j :: k <= j < |r| ==> r[j] == 0
      decreases n - |r|
    {
      r := r + [0];
    }
    UptoUnique(r, n, k);
  }

  // entries

  predicate Whole(c: seq<byte>) {
    |c| % ENTRY == 0
  }

  function Inum(c: seq<byte>, e: nat): nat
    requires ENTRY * e + ENTRY <= |c|
  {
    LittleEndian(c[ENTRY * e], c[ENTRY * e + 1], 0, 0)
  }

  function Name(c: seq<byte>, e: nat): (r: seq<byte>)
    requires ENTRY * e + ENTRY <= |c|
    ensures |r| == DIRSIZ
  {
    c[ENTRY * e + 2..ENTRY * e + ENTRY]
  }

  /** Entry e of a directory binds a name. */
  predicate Used(c: seq<byte>, e: nat) {
    ENTRY * e + ENTRY <= |c| && Inum(c, e) != 0
  }

  function KeyOf(c: seq<byte>, e: nat): seq<byte>
    requires ENTRY * e + ENTRY <= |c|
  {
    Key(Name(c, e))
  }

  /** Whole entries only, and no name twice. */
  ghost predicate DirOk(c: seq<byte>) {
    && Whole(c)
    && forall d: nat, e: nat :: Used(c, d) && Used(c, e) && d != e ==> KeyOf(c, d) != KeyOf(c, e)
  }

  /** The bindings of the first n entries. */
  function DirUpto(c: seq<byte>, n: nat): map<seq<byte>, nat>
    requires ENTRY * n <= |c|
  {
    if n == 0 then map[]
    else if Used(c, n - 1) then DirUpto(c, n - 1)[KeyOf(c, n - 1) := Inum(c, n - 1)]
    else DirUpto(c, n - 1)
  }

  /** The map a directory stands for. */
  function Dir(c: seq<byte>): map<seq<byte>, nat> {
    DirUpto(c, |c| / ENTRY)
  }

  lemma {:induction false} InDirUpto(c: seq<byte>, n: nat, e: nat)
    requires DirOk(c) && ENTRY * n <= |c| && e < n && Used(c, e)
    ensures KeyOf(c, e) in DirUpto(c, n) && DirUpto(c, n)[KeyOf(c, e)] == Inum(c, e)
  {
    hide KeyOf, Inum;
    if e < n - 1 {
      InDirUpto(c, n - 1, e);
    }
  }

  lemma {:induction false} FromDirUpto(c: seq<byte>, n: nat, k: seq<byte>) returns (e: nat)
    requires ENTRY * n <= |c| && k in DirUpto(c, n)
    ensures e < n && Used(c, e) && KeyOf(c, e) == k && Inum(c, e) == DirUpto(c, n)[k]
  {
    hide KeyOf, Inum;
    if Used(c, n - 1) && KeyOf(c, n - 1) == k {
      e := n - 1;
    } else {
      e := FromDirUpto(c, n - 1, k);
    }
  }

  lemma InDir(c: seq<byte>, e: nat)
    requires DirOk(c) && Used(c, e)
    ensures KeyOf(c, e) in Dir(c) && Dir(c)[KeyOf(c, e)] == Inum(c, e)
  {
    hide KeyOf, Inum, DirUpto;
    InDirUpto(c, |c| / ENTRY, e);
  }

  lemma FromDir(c: seq<byte>, k: seq<byte>) returns (e: nat)
    requires k in Dir(c)
    ensures Used(c, e) && KeyOf(c, e) == k && Inum(c, e) == Dir(c)[k]
  {
    hide KeyOf, Inum, DirUpto;
    e := FromDirUpto(c, |c| / ENTRY, k);
  }

  // adding an entry

  /** The stored form of an entry; only the low 16 bits of an inode number are kept. */
  function Entry(name: seq<byte>, inum: word): (r: seq<byte>)
    requires |name| == DIRSIZ
    ensures |r| == ENTRY
  {
    [inum % 0x100, inum / 0x100 % 0x100] + name
  }

  lemma EntryFields(c: seq<byte>, e: nat, name: seq<byte>, inum: word)
    requires ENTRY * e + ENTRY <= |c| && |name| == DIRSIZ && c[ENTRY * e..ENTRY * e + ENTRY] == Entry(name, inum)
    ensures Inum(c, e) == inum % 0x1_0000 && Name(c, e) == name
  {
    var x := Entry(name, inum);
    assert c[ENTRY * e] == x[0] && c[ENTRY * e + 1] == x[1];
    assert Name(c, e) == c[ENTRY * e..ENTRY * e + ENTRY][2..];
    assert x[2..] == name;
  }

  lemma SameEntry(c: seq<byte>, d: seq<byte>, e: nat)
    requires ENTRY * e + ENTRY <= |c| && ENTRY * e + ENTRY <= |d|
    requires c[ENTRY * e..ENTRY * e + ENTRY] == d[ENTRY * e..ENTRY * e + ENTRY]
    ensures Inum(c, e) == Inum(d, e) && Name(c, e) == Name(d, e)
  {
    var x, y := c[ENTRY * e..ENTRY * e + ENTRY], d[ENTRY * e..ENTRY * e + ENTRY];
    assert c[ENTRY * e] == x[0] && c[ENTRY * e + 1] == x[1] && d[ENTRY * e] == y[0] && d[ENTRY * e + 1] == y[1];
    assert Name(c, e) == x[2..] && Name(d, e) == y[2..];
  }

  /** After an entry is written over a free one or at the end, the others are as before. */
  lemma OtherEntries(c: seq<byte>, f: nat, x: seq<byte>, e: nat)
    requires Whole(c) && ENTRY * f <= |c| && |x| == ENTRY && e != f
    ensures var d := Splice(c, ENTRY * f, x);
            && Whole(d) && |d| >= |c| && ENTRY * f + ENTRY <= |d| && d[ENTRY * f..ENTRY * f + ENTRY] == x
            && (ENTRY * e + ENTRY <= |d| <==> ENTRY * e + ENTRY <= |c|)
            && (ENTRY * e + ENTRY <= |c| ==> d[ENTRY * e..ENTRY * e + ENTRY] == c[ENTRY * e..ENTRY * e + ENTRY])
  {
    var d := Splice(c, ENTRY * f, x);
    assert ENTRY * f == |c| || ENTRY * f + ENTRY <= |c|;
    assert d[ENTRY * f..ENTRY * f + ENTRY] == x;
  }

  /** dirlink keeps the low 16 bits of an inode number, and 0 marks a free entry. */
  function Bound(m: map<seq<byte>, nat>, k: seq<byte>, n: nat): map<seq<byte>, nat> {
    if n == 0 then m else m[k := n]
  }

  /** Directory d has the bindings of c and k bound to n; 0 is no binding. */
  ghost predicate Links(c: seq<byte>, d: seq<byte>, k: seq<byte>, n: nat) {
    DirOk(d) && Dir(d) == Bound(Dir(c), k, n)
  }

  ghost predicate Unbound(c: seq<byte>, k: seq<byte>) {
    forall e: nat :: Used(c, e) ==> KeyOf(c, e) != k
  }

  lemma NotInDir(c: seq<byte>, k: seq<byte>)
    requires DirOk(c) && k !in Dir(c)
    ensures Unbound(c, k)
  {
    hide DirOk, Dir, KeyOf;
    forall e: nat | Used(c, e)
      ensures KeyOf(c, e) != k
    {
      InDir(c, e);
    }
  }

  /** Writing an entry for a new name into a free place adds exactly its binding, or none if the
      low 16 bits of the inode number are zero. */
  lemma LinkAdds(c: seq<byte>, f: nat, name: seq<byte>, inum: word)
    requires DirOk(c) && |name| == DIRSIZ && Unbound(c, Key(name))
    requires ENTRY * f <= |c| && (ENTRY * f < |c| ==> !Used(c, f))
    ensures Links(c, Splice(c, ENTRY * f, Entry(name, inum)), Key(name), inum % 0x1_0000)
  {
    hide Splice, Entry, Inum, Name, Key, Dir;
    var d := Splice(c, ENTRY * f, Entry(name, inum));
    forall e: nat
      ensures e != f ==> Used(d, e) == Used(c, e) && (Used(c, e) ==>
                KeyOf(d, e) == KeyOf(c, e) && Inum(d, e) == Inum(c, e))
    {
      if e != f {
        OtherEntries(c, f, Entry(name, inum), e);
        if ENTRY * e + ENTRY <= |c| {
          SameEntry(c, d, e);
        }
      }
    }
    OtherEntries(c, f, Entry(name, inum), f + 1);
    EntryFields(d, f, name, inum);
    LinkedMap(c, d, f, Key(name), inum % 0x1_0000);
  }

  ghost predicate Binds(c: seq<byte>, d: seq<byte>, k: seq<byte>, n: nat) {
    Dir(d) == Dir(c)[k := n]
  }

  /** A link binds the name to the inode number if and only if the number fits 16 bits and is not 0. */
  lemma LinkBindsIff(c: seq<byte>, f: nat, name: seq<byte>, inum: word)
    requires DirOk(c) && |name| == DIRSIZ && Unbound(c, Key(name))
    requires ENTRY * f <= |c| && (ENTRY * f < |c| ==> !Used(c, f))
    ensures Binds(c, Splice(c, ENTRY * f, Entry(name, inum)), Key(name), inum) <==> 0 < inum < 0x1_0000
  {
    hide Splice, Entry, Key, Dir;
    LinkAdds(c, f, name, inum);
    var n, k, m := inum % 0x1_0000, Key(name), Dir(c);
    if k in m {
      var e := FromDir(c, k);
    }
    assert m[k := inum][k] == inum;
    assert n != 0 ==> m[k := n][k] == n;
  }

  /** Linking the first name in an empty directory to inode 0x1_0000 binds nothing. */
  lemma LinkOfLargeNumber(name: seq<byte>)
    requires |name| == DIRSIZ
    ensures DirOk([]) && Dir(Splice([], 0, Entry(name, 0x1_0000))) == map[]
  {
    hide Splice, Entry, Key;
    assert Unbound([], Key(name));
    LinkAdds([], 0, name, 0x1_0000);
  }

  lemma LinkedMap(c: seq<byte>, d: seq<byte>, f: nat, k: seq<byte>, n: nat)
    requires DirOk(c) && Whole(d) && !Used(c, f) && ENTRY * f + ENTRY <= |d| && Inum(d, f) == n && KeyOf(d, f) == k
    requires forall e: nat :: e != f ==> Used(d, e) == Used(c, e)
    requires forall e: nat :: Used(c, e) ==>
               Used(d, e) && KeyOf(d, e) == KeyOf(c, e) && Inum(d, e) == Inum(c, e) && KeyOf(c, e) != k
    ensures Links(c, d, k, n)
  {
    hide Inum, KeyOf, Whole, Dir;
    assert DirOk(d);
    var m := Bound(Dir(c), k, n);
    forall x | x in Dir(d)
      ensures x in m && m[x] == Dir(d)[x]
    {
      var e := FromDir(d, x);
      if e != f {
        InDir(c, e);
      }
    }
    forall x | x in m
      ensures x in Dir(d)
    {
      if x in Dir(c) {
        var e := FromDir(c, x);
        InDir(d, e);
      } else {
        InDir(d, f);
      }
    }
  }

  // the directory operations

  ghost predicate IsDir(fs: Fs, i: nat)
    reads fs
  {
    fs.Good() && i < |fs.inodes| && fs.inodes[i].kind == T_DIR && DirOk(Contents(fs.View(), i))
  }

  ghost function DirOf(fs: Fs, i: nat): map<seq<byte>, nat>
    reads fs
    requires IsDir(fs, i)
  {
    Dir(Contents(fs.View(), i))
  }

  /** Read the entry at off; a short read would be the panics "dirlookup read" and "dirlink read". */
  method ReadEntry(fs: Fs, i: nat, off: word, ghost e: nat) returns (de: seq<byte>)
    requires IsDir(fs, i) && off < fs.inodes[i].size && off == ENTRY * e
    modifies fs`data, fs`inodes, fs`owner, fs`logged
    ensures fs.View() == old(fs.View()) && fs.Good() && fs.logged == old(fs.logged)
    ensures var c := Contents(fs.View(), i); ENTRY * e + ENTRY <= |c| && de == c[ENTRY * e..ENTRY * e + ENTRY]
  {
    hide Dir, Used, KeyOf, NoHoles, Prefix, Valid, Synced, SyncedBut;
    SizeLimit(fs.View(), i);
    var r;
    r, de := fs.Readi(i, off, ENTRY, ENTRY);
  }

  lemma SizeLimit(v: Vol, i: nat)
    requires Solid(v) && i < |v.inodes|
    ensures v.inodes[i].size <= MAXBYTES
  {
    assert NoHoles(v, i);
    assert v.inodes[i].size > 0 ==> Stored(v, i, v.inodes[i].size - 1);
  }

  /** What a reader sees in the bytes of entry e. */
  lemma EntryParts(c: seq<byte>, e: nat)
    requires ENTRY * e + ENTRY <= |c|
    ensures var de := c[ENTRY * e..ENTRY * e + ENTRY];
            && Inum(c, e) == LittleEndian(de[0], de[1], 0, 0) && (Used(c, e) <==> Inum(c, e) != 0)
            && KeyOf(c, e) == Key(de[2..])
  {
    assert Name(c, e) == c[ENTRY * e..ENTRY * e + ENTRY][2..];
  }

  ghost predicate NoneBefore(c: seq<byte>, n: nat, k: seq<byte>) {
    forall e: nat :: e < n && Used(c, e) ==> KeyOf(c, e) != k
  }

  lemma NoneStart(c: seq<byte>, k: seq<byte>)
    ensures NoneBefore(c, 0, k)
  {
  }

  lemma NoneNext(c: seq<byte>, n: nat, k: seq<byte>)
    requires NoneBefore(c, n, k) && (Used(c, n) ==> KeyOf(c, n) != k)
    ensures NoneBefore(c, n + 1, k)
  {
    hide KeyOf, Used;
  }

  lemma Absent(c: seq<byte>, n: nat, k: seq<byte>)
    requires NoneBefore(c, n, k) && |c| <= ENTRY * n
    ensures k !in Dir(c)
  {
    hide Dir, KeyOf;
    if k in Dir(c) {
      var e := FromDir(c, k);
    }
  }

  /** An entry for key k lies at off. */
  predicate EntryAt(c: seq<byte>, off: nat, k: seq<byte>) {
    off % ENTRY == 0 && off + ENTRY <= |c| && Key(c[off + 2..off + ENTRY]) == k
  }

  lemma FoundAt(c: seq<byte>, e: nat)
    requires ENTRY * e + ENTRY <= |c|
    ensures EntryAt(c, ENTRY * e, KeyOf(c, e))
  {
  }

  /** dirlookup's tests of one entry. */
  method Compare(name: seq<byte>, de: seq<byte>, ghost c: seq<byte>, ghost e: nat) returns (inum: nat, hit: bool)
    requires Readable(name, DIRSIZ) && ENTRY * e + ENTRY <= |c| && de == c[ENTRY * e..ENTRY * e + ENTRY]
    ensures inum == Inum(c, e) && (inum != 0 <==> Used(c, e))
    ensures hit <==> Used(c, e) && KeyOf(c, e) == Key(name)
  {
    hide KeyOf, Inum, Used, LittleEndian, Upto;
    EntryParts(c, e);
    inum := LittleEndian(de[0], de[1], 0, 0);
    hit := false;
    if inum != 0 {
      var cmp := Strncmp(name, de[2..], DIRSIZ);
      hit := cmp == 0;
    }
  }

  /** dirlookup: the inode number bound to a name, 0 if there is none. */
  method Dirlookup(fs: Fs, i: nat, name: seq<byte>) returns (inum: nat, off: nat)
    requires IsDir(fs, i) && Readable(name, DIRSIZ)
    modifies fs`data, fs`inodes, fs`owner, fs`logged
    ensures fs.View() == old(fs.View()) && IsDir(fs, i) && fs.logged == old(fs.logged)
    ensures inum != 0 <==> Key(name) in DirOf(fs, i)
    ensures inum != 0 ==> DirOf(fs, i)[Key(name)] == inum && EntryAt(Contents(fs.View(), i), off, Key(name))
  {
    hide Dir, DirOk, NoHoles, Indexable, Prefix, Valid, Synced, KeyOf, Inum, Used, NoneBefore, EntryAt, Upto, Key;
    ghost var c := Contents(fs.View(), i);
    ghost var e := 0;
    SizeLimit(fs.View(), i);
    NoneStart(c, Key(name));
    off := 0;
    while off < fs.inodes[i].size
      invariant off == ENTRY * e && ENTRY * e <= |c|
      invariant fs.View() == old(fs.View()) && fs.Good() && fs.logged == old(fs.logged)
      invariant NoneBefore(c, e, Key(name))
      decreases |c| - off
    {
      var de := ReadEntry(fs, i, off, e);
      var hit;
      inum, hit := Compare(name, de, c, e);
      if hit {
        InDir(c, e);
        FoundAt(c, e);
        return;
      }
      NoneNext(c, e, Key(name));
      off := off + ENTRY;
      e := e + 1;
    }
    inum := 0;
    Absent(c, e, Key(name));
  }

  /** dirlink's search for a free entry, or the end. */
  method FindFree(fs: Fs, i: nat) returns (off: nat, ghost e: nat)
    requires IsDir(fs, i)
    modifies fs`data, fs`inodes, fs`owner, fs`logged
    ensures fs.View() == old(fs.View()) && IsDir(fs, i) && fs.logged == old(fs.logged)
    ensures off == ENTRY * e && off <= fs.inodes[i].size
    ensures off < fs.inodes[i].size ==> !Used(Contents(fs.View(), i), e)
    ensures forall j: nat :: j < e ==> Used(Contents(fs.View(), i), j)
  {
    hide Dir, DirOk, NoHoles, Indexable, Prefix, Valid, Synced, KeyOf, Inum, Used, LittleEndian, Upto;
    ghost var c := Contents(fs.View(), i);
    SizeLimit(fs.View(), i);
    off, e := 0, 0;
    while off < fs.inodes[i].size
      invariant off == ENTRY * e && off <= |c|
      invariant fs.View() == old(fs.View()) && fs.Good() && fs.logged == old(fs.logged)
      invariant forall j: nat :: j < e ==> Used(c, j)
      decreases |c| - off
    {
      var de := ReadEntry(fs, i, off, e);
      EntryParts(c, e);
      if LittleEndian(de[0], de[1], 0, 0) == 0 {
        break;
      }
      off := off + ENTRY;
      e := e + 1;
    }
  }

  /** dirlink: bind a new name, -1 if it is bound already or there is no space. */
  method Dirlink(fs: Fs, i: nat, name: seq<byte>, inum: word) returns (r: int)
    requires IsDir(fs, i) && Readable(name, DIRSIZ)
    modifies fs`data, fs`inodes, fs`owner, fs`logged
    ensures IsDir(fs, i) && OthersKept(old(fs.View()), fs.View(), i) && (r == 0 || r == -1)
    ensures r == 0 ==> Key(name) !in old(DirOf(fs, i)) && DirOf(fs, i) == Bound(old(DirOf(fs, i)), Key(name),
              inum % 0x1_0000)
    ensures r == -1 ==> DirOf(fs, i) == old(DirOf(fs, i))
    ensures r == -1 ==> Key(name) in DirOf(fs, i) || fs.Full() || fs.inodes[i].size + ENTRY > MAXBYTES
  {
    hide Dir, DirOk, NoHoles, Prefix, Valid, Synced, Used, Splice, Entry, Filled, Upto, Whole, Unbound;
    ghost var v := fs.View();
    ghost var c := Contents(v, i);
    SizeLimit(v, i);
    var known, at := Dirlookup(fs, i, name);
    if known != 0 {
      return -1;
    }
    ghost var e;
    var off;
    off, e := FindFree(fs, i);
    var padded := Strncpy(name, DIRSIZ);
    assert Key(padded) == Key(name);
    var w;
    ghost var t;
    w, t := fs.Writei(i, Entry(padded, inum), off, ENTRY);
    if w == ENTRY {
      NotInDir(c, Key(name));
      LinkAdds(c, e, padded, inum);
      assert Entry(padded, inum)[..ENTRY] == Entry(padded, inum);
      return 0;
    }
    if w != -1 {
      OneChunk(e, w);
      SpliceNothing(c, off);
      assert Entry(padded, inum)[..0] == [];
    }
    return -1;
  }

  /** An entry never straddles two blocks, so it is written whole or not at all. */
  lemma OneChunk(e: nat, w: nat)
    requires w < ENTRY && (w == 0 || (ENTRY * e + w) % BSIZE == 0)
    ensures w == 0
  {
    var q, m := e / 64, e % 64;
    assert ENTRY * e + w == BSIZE * q + (ENTRY * m + w);
    Remainder(q, ENTRY * m + w);
  }

  lemma Remainder(q: nat, x: nat)
    requires x < BSIZE
    ensures (BSIZE * q + x) % BSIZE == x
  {
  }
}
