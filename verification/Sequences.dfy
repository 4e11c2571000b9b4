/** Sequences of equal elements, and the slots of a ring, shared by the models. */
module Sequences {
  function Copies<T>(n: nat, x: T): (r: seq<T>)
    ensures |r| == n && forall k :: 0 <= k < n ==> r[k] == x
  {
    if n == 0 then [] else Copies(n - 1, x) + [x]
  }

  lemma ModAdd(n: nat, q: nat, x: nat)
    requires n > 0
    ensures (n * q + x) % n == x % n
  {
    ModUnique(n, n * q + x, q + x / n, x % n);
  }

  lemma ModUnique(n: nat, y: nat, q: nat, r: nat)
    requires n > 0 && r < n && y == n * q + r
    ensures y % n == r
  {
    var d := q - y / n;
    assert y == n * (y / n) + y % n;
    assert n * d == y % n - r;
    assert d > 0 ==> n * d >= n;
    assert d < 0 ==> n * d <= 0 - n;
  }

  /** Entries less than n apart lie in different slots of a ring of n. */
  lemma SlotsDiffer(n: nat, base: nat, i: nat, j: nat)
    requires n > 0 && i < j < i + n
    ensures (base + i) % n != (base + j) % n
  {
    var x, d := base + i, j - i;
    var r := x % n;
    assert x == n * (x / n) + r;
    if r + d < n {
      ModUnique(n, x + d, x / n, r + d);
    } else {
      ModUnique(n, x + d, x / n + 1, r + d - n);
    }
  }
}
