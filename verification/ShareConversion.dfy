/** Turning products of sums into sums: every pair of parties converts k_p * b_i into two addends,
    one decrypted by p, one kept by i. */
module ShareConversion {
  import opened Modular
  import opened Sums
  import opened Reassembly

  datatype Cipher = Cipher(key: nat, plain: int)

  /** The answer of a multiplicative-to-additive exchange, with the point of the factor used. */
  datatype MessageB = MessageB(c: Cipher, pk: int)

  // ---- the multiplicative-to-additive exchange, by its contract ----

  function Masked(k: int, b: int, tag: int): int {
    k * b + tag
  }

  lemma MaskedCong(alpha: int, k: int, b: int, tag: int, product: int, towards: int, q: int)
    requires q > 0 && alpha == Mod(Masked(k, b, tag), q) && product == k * b && towards == tag
    ensures Cong(alpha, product + towards, q)
  {
    CongMod(product + towards, q);
  }

  /** Answering mA with the factor b under the recipient's Paillier key. */
  function Respond(b: int, ek: nat, mA: Cipher, tag: int, q: int): MessageB
    requires q > 0
  {
    MessageB(Cipher(mA.key, if ek == mA.key then Masked(mA.plain, b, tag) else 0), Mod(b, q))
  }

  /** What the responder keeps. */
  function Beta(tag: int, q: int): int
    requires q > 0
  {
    Mod(-tag, q)
  }

  /** What the initiator decrypts. */
  function Alpha(dk: nat, m: MessageB, q: int): int
    requires q > 0
  {
    if m.c.key == dk then Mod(m.c.plain, q) else 0
  }

  /** The sum over the other parties. */
  function OthersSum(v: seq<int>, p: nat): int
    requires 1 <= p <= |v|
  {
    SeqSum(RemoveAt(v, p - 1))
  }

  function Alphas(dk: nat, answers: seq<MessageB>, q: int): seq<int>
    requires q > 0
  {
    seq(|answers|, i requires 0 <= i < |answers| => Alpha(dk, answers[i], q))
  }

  function Betas(n: nat, tag: nat -> int, q: int): seq<int>
    requires q > 0
  {
    seq(n, i requires 0 <= i < n => Beta(tag(i + 1), q))
  }

  /** One's own product, what one decrypted, and what one kept. */
  function ConvertedShare(k: int, b: int, p: nat, alphas: seq<int>, betas: seq<int>, q: int): int
    requires q > 0 && 1 <= p <= |alphas| == |betas|
  {
    Mod(k * b + OthersSum(alphas, p) + OthersSum(betas, p), q)
  }

  /** What one party decrypts is a product plus the mask drawn towards it; what it keeps is minus
      the mask it drew. */
  ghost predicate Addends(alpha: int, beta: int, product: int, towards: int, drawn: int, q: int) {
    Cong(alpha, product + towards, q) && Cong(beta, -drawn, q)
  }

  /** Party p's share is the whole row of products, plus the masks others drew towards p, minus the
      masks p drew. */
  lemma ShareIsRow(n: nat, p: nat, k: int, b: int -> int, alphas: seq<int>, betas: seq<int>, mask: (int, int) -> int, g: (int, int) -> int, q: int)
    requires q > 0 && 1 <= p <= n == |alphas| == |betas|
    requires forall i :: 0 <= i < n && i != p - 1 ==> Addends(alphas[i], betas[i], k * b(i), mask(i, p - 1), mask(p - 1, i), q)
    requires mask(p - 1, p - 1) == 0
    requires forall i :: 0 <= i < n ==> g(p - 1, i) == k * b(i) + (mask(i, p - 1) - mask(p - 1, i))
    ensures Cong(ConvertedShare(k, b(p - 1), p, alphas, betas, q), Row(n, g, p - 1), q)
  {
    var own := p - 1;
    var all := i => if i == own then k * b(own) else if 0 <= i < n then alphas[i] + betas[i] else 0;
    OwnAndOthers(p, k * b(own), alphas, betas, all);
    forall i | 0 <= i < n ensures Cong(all(i), g(own, i), q) {
      if i == own {
        CongRefl(k * b(own), q);
      } else {
        CongAdd(alphas[i], k * b(i) + mask(i, own), betas[i], -mask(own, i), q);
      }
    }
    var row := i => g(own, i);
    SumCong(n, all, row, q);
    RowIsSum(n, g, own, row);
    ConvertedTotal(k, b(own), p, alphas, betas, Sum(n, all), q);
    CongTrans(ConvertedShare(k, b(own), p, alphas, betas, q), Sum(n, all), Row(n, g, own), q);
  }

  lemma {:induction false} OwnAndOthers(p: nat, v: int, alphas: seq<int>, betas: seq<int>, all: int -> int)
    requires 1 <= p <= |alphas| == |betas|
    requires all(p - 1) == v && forall i :: 0 <= i < |alphas| && i != p - 1 ==> all(i) == alphas[i] + betas[i]
    ensures Sum(|alphas|, all) == v + OthersSum(alphas, p) + OthersSum(betas, p)
  {
    var n, own := |alphas|, p - 1;
    var a, e := i => if 0 <= i < n then alphas[i] else 0, i => if 0 <= i < n then betas[i] else 0;
    var a', e' := i => if i == own then 0 else a(i), i => if i == own then 0 else e(i);
    var both := i => a'(i) + e'(i);
    OthersIs(alphas, p, a, a');
    OthersIs(betas, p, e, e');
    SumAdd(n, a', e', both);
    SumExcept(n, all, both, own);
  }

  lemma ConvertedTotal(k: int, b: int, p: nat, alphas: seq<int>, betas: seq<int>, total: int, q: int)
    requires q > 0 && 1 <= p <= |alphas| == |betas|
    requires total == k * b + OthersSum(alphas, p) + OthersSum(betas, p)
    ensures Cong(ConvertedShare(k, b, p, alphas, betas, q), total, q)
  {
    CongMod(total, q);
  }

  lemma {:induction false} OthersIs(v: seq<int>, p: nat, f: int -> int, f': int -> int)
    requires 1 <= p <= |v|
    requires forall i :: 0 <= i < |v| ==> f(i) == v[i]
    requires f'(p - 1) == 0 && forall i :: 0 <= i < |v| && i != p - 1 ==> f'(i) == f(i)
    ensures OthersSum(v, p) == Sum(|v|, f')
  {
    OthersWithout(v, p);
    SeqSumIsSum(v, f);
    SumExcept(|v|, f, f', p - 1);
  }

  lemma {:induction false} OthersWithout(v: seq<int>, p: nat)
    requires 1 <= p <= |v|
    ensures OthersSum(v, p) == SeqSum(v) - v[p - 1]
  {
    SeqSumWithout(v, p - 1);
  }

  /** The masks cancel over all pairs. */
  lemma {:induction false} MasksCancel(n: nat, mask: (int, int) -> int, d: (int, int) -> int)
    requires forall p, i :: 0 <= p < n && 0 <= i < n ==> d(p, i) == mask(i, p) - mask(p, i)
    ensures DoubleSum(n, n, d) == 0
  {
    var t := (p, i) => d(i, p);
    SumSwap(n, n, d, t);
    var zero := (p: int, i: int) => d(p, i) + t(p, i);
    DoubleSumAdd(n, n, d, t, zero);
    DoubleSumZero(n, n, zero);
  }

  lemma {:induction false} RowAdd(m: nat, f: (int, int) -> int, g: (int, int) -> int, h: (int, int) -> int, i: int)
    requires forall j :: 0 <= j < m ==> h(i, j) == f(i, j) + g(i, j)
    ensures Row(m, h, i) == Row(m, f, i) + Row(m, g, i)
  {
    if m > 0 {
      RowAdd(m - 1, f, g, h, i);
    }
  }

  lemma {:induction false} DoubleSumAdd(n: nat, m: nat, f: (int, int) -> int, g: (int, int) -> int, h: (int, int) -> int)
    requires forall i, j :: 0 <= i < n && 0 <= j < m ==> h(i, j) == f(i, j) + g(i, j)
    ensures DoubleSum(n, m, h) == DoubleSum(n, m, f) + DoubleSum(n, m, g)
  {
    if n > 0 {
      DoubleSumAdd(n - 1, m, f, g, h);
      RowAdd(m, f, g, h, n - 1);
    }
  }

  lemma {:induction false} DoubleSumZero(n: nat, m: nat, f: (int, int) -> int)
    requires forall i, j :: 0 <= i < n && 0 <= j < m ==> f(i, j) == 0
    ensures DoubleSum(n, m, f) == 0
  {
    if n > 0 {
      DoubleSumZero(n - 1, m, f);
      var zero := j => f(n - 1, j);
      RowIsSum(m, f, n - 1, zero);
      SumZero(m, zero);
    }
  }

  /** What is paired where: p's addend for i's factor and i's kept mask make up k_p * b_i. */
  ghost predicate PairedAt(k: int -> int, b: int -> int, alphas: seq<seq<int>>, betas: seq<seq<int>>, mask: (int, int) -> int,
      p: nat, i: nat, q: int)
    requires p < |alphas| && i < |alphas[p]| && p < |betas| && i < |betas[p]|
  {
    Addends(alphas[p][i], betas[p][i], k(p) * b(i), mask(i, p), mask(p, i), q)
  }

  ghost predicate Paired(n: nat, k: int -> int, b: int -> int, alphas: seq<seq<int>>, betas: seq<seq<int>>, mask: (int, int) -> int, q: int) {
    && |alphas| == n && |betas| == n
    && (forall p :: 0 <= p < n ==> |alphas[p]| == n && |betas[p]| == n)
    && (forall p :: 0 <= p < n ==> mask(p, p) == 0)
    && (forall p, i :: 0 <= p < n && 0 <= i < n && i != p ==>
          PairedAt(k, b, alphas, betas, mask, p, i, q))
  }

  lemma {:induction false} PairedRow(n: nat, k: int -> int, b: int -> int, alphas: seq<seq<int>>, betas: seq<seq<int>>, mask: (int, int) -> int, g: (int, int) -> int, p: nat, q: int)
    requires q > 0 && p < n && Paired(n, k, b, alphas, betas, mask, q)
    requires forall i :: 0 <= i < n ==> g(p, i) == k(p) * b(i) + (mask(i, p) - mask(p, i))
    ensures Cong(ConvertedShare(k(p), b(p), p + 1, alphas[p], betas[p], q), Row(n, g, p), q)
  {
    forall i | 0 <= i < n && i != p
      ensures Addends(alphas[p][i], betas[p][i], k(p) * b(i), mask(i, p), mask(p, i), q)
    {
      assert PairedAt(k, b, alphas, betas, mask, p, i, q);
    }
    ShareIsRow(n, p + 1, k(p), b, alphas[p], betas[p], mask, g, q);
  }

  /** Each party's share is converted from its own row. */
  ghost predicate ConvertedAt(k: int -> int, b: int -> int, alphas: seq<seq<int>>, betas: seq<seq<int>>, shares: seq<int>, p: nat, q: int)
    requires q > 0 && p < |shares| && p < |alphas| && p < |betas| && p < |alphas[p]| == |betas[p]|
  {
    shares[p] == ConvertedShare(k(p), b(p), p + 1, alphas[p], betas[p], q)
  }

  ghost predicate Converted(n: nat, k: int -> int, b: int -> int, alphas: seq<seq<int>>, betas: seq<seq<int>>, shares: seq<int>, q: int)
    requires q > 0
  {
    && |shares| == |alphas| == |betas| == n
    && forall p :: 0 <= p < n ==>
         |alphas[p]| == |betas[p]| == n && ConvertedAt(k, b, alphas, betas, shares, p, q)
  }

  /** The value v is a product. */
  ghost predicate IsProduct(v: int, a: int, b: int, q: int) {
    Cong(v, a * b, q)
  }

  /** The parties' converted shares add up to the product of the two sums, for any number of
      parties and any masks. */
  lemma {:induction false} ConversionSums(n: nat, k: int -> int, b: int -> int, alphas: seq<seq<int>>, betas: seq<seq<int>>, mask: (int, int) -> int, shares: seq<int>, q: int)
    requires q > 0 && Paired(n, k, b, alphas, betas, mask, q) && Converted(n, k, b, alphas, betas, shares, q)
    ensures IsProduct(SeqSum(shares), Sum(n, k), Sum(n, b), q)
  {
    var d := (p, i) => mask(i, p) - mask(p, i);
    var prod := (p, i) => k(p) * b(i);
    var g := (p, i) => prod(p, i) + d(p, i);
    SharesAreRows(n, k, b, alphas, betas, mask, g, shares, q);
    DoubleSumAdd(n, n, prod, d, g);
    MasksCancel(n, mask, d);
    DoubleSumProduct(n, n, k, b, prod);
  }

  lemma {:induction false} SharesAreRows(n: nat, k: int -> int, b: int -> int, alphas: seq<seq<int>>, betas: seq<seq<int>>, mask: (int, int) -> int,
      g: (int, int) -> int, shares: seq<int>, q: int)
    requires q > 0 && Paired(n, k, b, alphas, betas, mask, q) && Converted(n, k, b, alphas, betas, shares, q)
    requires forall p, i :: 0 <= p < n && 0 <= i < n ==> g(p, i) == k(p) * b(i) + (mask(i, p) - mask(p, i))
    ensures Cong(SeqSum(shares), DoubleSum(n, n, g), q)
  {
    var share := p => if 0 <= p < n then shares[p] else 0;
    var rows := p => if 0 <= p < n then Row(n, g, p) else 0;
    forall p | 0 <= p < n ensures Cong(share(p), rows(p), q) {
      assert ConvertedAt(k, b, alphas, betas, shares, p, q);
      PairedRow(n, k, b, alphas, betas, mask, g, p, q);
    }
    SumCong(n, share, rows, q);
    SeqSumIsSum(shares, share);
    DoubleSumIsSum(n, n, g, rows);
  }
}
