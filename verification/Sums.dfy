/** Finite sums over index functions, and the running sums the source takes over vectors. */
module Sums {
  import opened Modular

  /** f(0) + ... + f(n - 1). */
  function Sum(n: nat, f: int -> int): int {
    if n == 0 then 0 else Sum(n - 1, f) + f(n - 1)
  }

  /** The fold `acc + x` over a vector. */
  function SeqSum(s: seq<int>): int {
    if s == [] then 0 else SeqSum(s[..|s| - 1]) + s[|s| - 1]
  }

  lemma {:induction false} SeqSumIsSum(s: seq<int>, f: int -> int)
    requires forall i :: 0 <= i < |s| ==> s[i] == f(i)
    ensures SeqSum(s) == Sum(|s|, f)
  {
    if s != [] {
      SeqSumIsSum(s[..|s| - 1], f);
    }
  }

  lemma {:induction false} SeqSumCong(s: seq<int>, t: seq<int>, q: int)
    requires |s| == |t| && forall i :: 0 <= i < |s| ==> Cong(s[i], t[i], q)
    ensures Cong(SeqSum(s), SeqSum(t), q)
  {
    if s == [] {
      CongRefl(0, q);
    } else {
      var n := |s| - 1;
      SeqSumCong(s[..n], t[..n], q);
      CongAdd(SeqSum(s[..n]), SeqSum(t[..n]), s[n], t[n], q);
    }
  }

  lemma {:induction false} SumExt(n: nat, f: int -> int, g: int -> int)
    requires forall i :: 0 <= i < n ==> f(i) == g(i)
    ensures Sum(n, f) == Sum(n, g)
  {
    if n > 0 {
      SumExt(n - 1, f, g);
    }
  }

  lemma {:induction false} SumAdd(n: nat, f: int -> int, g: int -> int, h: int -> int)
    requires forall i :: 0 <= i < n ==> h(i) == f(i) + g(i)
    ensures Sum(n, h) == Sum(n, f) + Sum(n, g)
  {
    if n > 0 {
      SumAdd(n - 1, f, g, h);
    }
  }

  lemma {:induction false} SumScale(n: nat, c: int, f: int -> int, h: int -> int)
    requires forall i :: 0 <= i < n ==> h(i) == c * f(i)
    ensures Sum(n, h) == c * Sum(n, f)
  {
    if n > 0 {
      SumScale(n - 1, c, f, h);
      assert c * (Sum(n - 1, f) + f(n - 1)) == c * Sum(n - 1, f) + c * f(n - 1);
    }
  }

  lemma {:induction false} SumHead(x: int, s: seq<int>)
    ensures SeqSum([x] + s) == x + SeqSum(s)
  {
    var w := [x] + s;
    if s == [] {
      assert w[..|w| - 1] == [];
    } else {
      SumHead(x, s[..|s| - 1]);
      assert w[..|w| - 1] == [x] + s[..|s| - 1];
    }
  }

  /** Moving one entry of a vector. */
  lemma {:induction false} SeqSumMoved(s: seq<int>, k: nat, d: int)
    requires k < |s|
    ensures SeqSum(s[k := s[k] + d]) == SeqSum(s) + d
  {
    var n := |s| - 1;
    if k < n {
      SeqSumMoved(s[..n], k, d);
      assert s[k := s[k] + d][..n] == s[..n][k := s[..n][k] + d];
    } else {
      assert s[k := s[k] + d][..n] == s[..n];
    }
  }

  /** Setting one term to zero. */
  lemma {:induction false} SumExcept(n: nat, f: int -> int, g: int -> int, k: nat)
    requires k < n && g(k) == 0 && forall i :: 0 <= i < n && i != k ==> g(i) == f(i)
    ensures Sum(n, f) == Sum(n, g) + f(k)
  {
    if k < n - 1 {
      SumExcept(n - 1, f, g, k);
    } else {
      SumExt(n - 1, f, g);
    }
  }

  lemma {:induction false} SumCong(n: nat, f: int -> int, g: int -> int, q: int)
    requires forall i :: 0 <= i < n ==> Cong(f(i), g(i), q)
    ensures Cong(Sum(n, f), Sum(n, g), q)
  {
    if n == 0 {
      CongRefl(0, q);
    } else {
      SumCong(n - 1, f, g, q);
      CongAdd(Sum(n - 1, f), Sum(n - 1, g), f(n - 1), g(n - 1), q);
    }
  }

  /** g(i, 0) + ... + g(i, m - 1). */
  function Row(m: nat, g: (int, int) -> int, i: int): int {
    if m == 0 then 0 else Row(m - 1, g, i) + g(i, m - 1)
  }

  function DoubleSum(n: nat, m: nat, g: (int, int) -> int): int {
    if n == 0 then 0 else DoubleSum(n - 1, m, g) + Row(m, g, n - 1)
  }

  lemma {:induction false} RowIsSum(m: nat, g: (int, int) -> int, i: int, f: int -> int)
    requires forall j :: 0 <= j < m ==> g(i, j) == f(j)
    ensures Row(m, g, i) == Sum(m, f)
  {
    if m > 0 {
      RowIsSum(m - 1, g, i, f);
    }
  }

  lemma {:induction false} DoubleSumIsSum(n: nat, m: nat, g: (int, int) -> int, f: int -> int)
    requires forall i :: 0 <= i < n ==> Row(m, g, i) == f(i)
    ensures DoubleSum(n, m, g) == Sum(n, f)
  {
    if n > 0 {
      DoubleSumIsSum(n - 1, m, g, f);
    }
  }

  lemma {:induction false} DoubleSumColumn(n: nat, m: nat, g: (int, int) -> int, f: int -> int)
    requires forall i :: 0 <= i < n ==> f(i) == g(i, m)
    ensures DoubleSum(n, m + 1, g) == DoubleSum(n, m, g) + Sum(n, f)
  {
    if n > 0 {
      DoubleSumColumn(n - 1, m, g, f);
    }
  }

  /** Exchanging the order of a double sum. */
  lemma {:induction false} SumSwap(n: nat, m: nat, g: (int, int) -> int, h: (int, int) -> int)
    requires forall i, j :: 0 <= i < n && 0 <= j < m ==> h(j, i) == g(i, j)
    ensures DoubleSum(n, m, g) == DoubleSum(m, n, h)
    decreases m
  {
    if m == 0 {
      var zero := i => Row(0, g, i);
      DoubleSumIsSum(n, 0, g, zero);
      SumZero(n, zero);
    } else {
      SumSwap(n, m - 1, g, h);
      var last := i => g(i, m - 1);
      DoubleSumColumn(n, m - 1, g, last);
      RowIsSum(n, h, m - 1, last);
    }
  }

  /** A product of two sums, term by term. */
  lemma {:induction false} DoubleSumProduct(n: nat, m: nat, a: int -> int, b: int -> int, g: (int, int) -> int)
    requires forall i, j :: 0 <= i < n && 0 <= j < m ==> g(i, j) == a(i) * b(j)
    ensures DoubleSum(n, m, g) == Sum(n, a) * Sum(m, b)
  {
    if n > 0 {
      DoubleSumProduct(n - 1, m, a, b, g);
      RowProduct(m, a(n - 1), b, g, n - 1);
      Distributes(Sum(n - 1, a), a(n - 1), Sum(m, b));
    }
  }

  lemma RowProduct(m: nat, c: int, b: int -> int, g: (int, int) -> int, i: int)
    requires forall j :: 0 <= j < m ==> g(i, j) == c * b(j)
    ensures Row(m, g, i) == c * Sum(m, b)
  {
    var row := j => g(i, j);
    RowIsSum(m, g, i, row);
    SumScale(m, c, b, row);
  }

  lemma Distributes(x: int, y: int, z: int)
    ensures (x + y) * z == x * z + y * z
  {
  }

  lemma {:induction false} SumZero(n: nat, f: int -> int)
    requires forall i :: 0 <= i < n ==> f(i) == 0
    ensures Sum(n, f) == 0
  {
    if n > 0 {
      SumZero(n - 1, f);
    }
  }

  /** The sum over a vector with one entry taken out. */
  lemma {:induction false} SeqSumWithout(s: seq<int>, k: nat)
    requires k < |s|
    ensures SeqSum(s[..k] + s[k + 1..]) == SeqSum(s) - s[k]
  {
    var n := |s| - 1;
    if k == n {
      assert s[..k] + s[k + 1..] == s[..n];
    } else {
      SeqSumWithout(s[..n], k);
      var w := s[..k] + s[k + 1..];
      assert w[..|w| - 1] == s[..n][..k] + s[..n][k + 1..];
    }
  }
}
