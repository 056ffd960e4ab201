/** Non-hardened derivation of child keys. Points are exponents of the generator. */
module HdKeys {
  import opened Wrappers
  import opened Modular
  import opened Sums
  import opened Bytes

  /** A curve's scalar order, its compressed point encoding with the length it has off the identity,
      and the keyed hash over big integers (chain code, public key, index). */
  datatype Curve = Curve(
    q: int, pointLen: nat,
    toBytes: int -> seq<byte>, fromBytes: seq<byte> -> Option<int>,
    hmac: (int, int, int) -> nat)

  /** Off the identity, encoding has its length and decoding undoes it. */
  ghost predicate ValidCurve(c: Curve) {
    && c.q > 1 && c.pointLen > 0
    && (forall e :: 0 < e < c.q ==> |c.toBytes(e)| == c.pointLen && c.fromBytes(c.toBytes(e)) == Some(e))
  }

  /** Decoding rejects bytes that are too short, but for what starts with a zero byte. */
  ghost predicate Rejecting(c: Curve) {
    forall bs :: |bs| < c.pointLen && (bs == [] || bs[0] != 0) ==> c.fromBytes(bs) == None
  }

  /** Public key, accumulated tweak, chain code. */
  datatype Node = Node(pub: int, f: int, cc: int)

  function PointNumber(c: Curve, e: int): nat {
    Value(c.toBytes(e))
  }

  function LeftHalf(h: nat, q: int): int
    requires q > 0
  {
    Mod(h / Pow256(KEY_BYTES), q)
  }

  function RightHalf(h: nat, q: int): int
    requires q > 0
  {
    Mod(h % Pow256(KEY_BYTES), q)
  }

  function Hash(c: Curve, n: Node, index: nat): nat {
    c.hmac(PointNumber(c, n.cc), PointNumber(c, n.pub), index)
  }

  /** One level of the fold. */
  function Child(c: Curve, n: Node, index: nat): Node
    requires c.q > 0
  {
    var h := Hash(c, n, index);
    Node(Mod(n.pub + LeftHalf(h, c.q), c.q), Mod(LeftHalf(h, c.q) + n.f, c.q), Mod(n.cc * RightHalf(h, c.q), c.q))
  }

  function Descend(c: Curve, n: Node, path: seq<nat>): Node
    requires c.q > 0
    decreases |path|
  {
    if path == [] then n else Descend(c, Child(c, n, path[0]), path[1..])
  }

  /** The first level: the hash is over the chain code as a number, the next chain code from the
      point it decodes to. */
  function FirstNode(c: Curve, pub: int, chainCode: nat, cc: int, index: nat): Node
    requires c.q > 0
  {
    var h := c.hmac(chainCode, PointNumber(c, pub), index);
    Node(Mod(pub + LeftHalf(h, c.q), c.q), LeftHalf(h, c.q), Mod(cc * RightHalf(h, c.q), c.q))
  }

  /** `hd_key`: the first level works on the chain code as a number and decodes it; the others
      fold. None is the panic on an empty path or on bytes that do not decode. */
  function HdKey(c: Curve, path: seq<nat>, pub: int, chainCode: nat): Option<Node>
    requires c.q > 0
  {
    if path == [] then None
    else
      var cc := c.fromBytes(MinBytes(chainCode));
      if cc.None? then None
      else Some(Descend(c, FirstNode(c, pub, chainCode, cc.value, path[0]), path[1..]))
  }

  /** `get_hd_key`: the derived public key, its tweak, and the chain code below it. */
  function GetHdKey(c: Curve, pub: int, path: seq<nat>, cc: int): Option<Node>
    requires c.q > 0
  {
    HdKey(c, path, pub, PointNumber(c, cc))
  }

  /** What the first level decodes the chain code to, its bytes having been turned into a number and back. */
  function Decoded(c: Curve, cc: int): Option<int> {
    c.fromBytes(MinBytes(PointNumber(c, cc)))
  }

  /** The chain code's bytes survive being turned into a number and back. */
  predicate Survives(c: Curve, cc: int) {
    c.toBytes(cc) != [] && c.toBytes(cc)[0] != 0
  }

  lemma LeftHalfReduced(h: nat, q: int)
    requires q > 0
    ensures Mod(LeftHalf(h, q) + 0, q) == LeftHalf(h, q)
  {
    ModSmall(LeftHalf(h, q), q);
  }

  /** When the chain code decodes to itself, the hand-unrolled first level is the uniform fold from
      tweak zero, for every nonempty path; and derivation panics just on the empty path. */
  lemma {:induction false} FirstLevelIsFold(c: Curve, pub: int, path: seq<nat>, cc: int)
    requires c.q > 0 && Decoded(c, cc) == Some(cc)
    ensures GetHdKey(c, pub, path, cc) == if path == [] then None else Some(Descend(c, Node(pub, 0, cc), path))
  {
    if path != [] {
      var h := c.hmac(PointNumber(c, cc), PointNumber(c, pub), path[0]);
      LeftHalfReduced(h, c.q);
    }
  }

  /** The two halves of a hash of 64 bytes, and what they do to a node. */
  lemma HalvesOf(h: nat, a: nat, b: nat, q: int)
    requires q > 0 && h == a * Pow256(32) + b && b < Pow256(32)
    ensures LeftHalf(h, q) == Mod(a, q) && RightHalf(h, q) == Mod(b, q)
  {
    QuotientOf(h, a, b, Pow256(32));
  }

  lemma QuotientOf(h: nat, a: nat, b: nat, d: nat)
    requires d > 0 && h == a * d + b && b < d
    ensures h / d == a && h % d == b
  {
    assert h == (h / d) * d + h % d;
    SmallMultiple(h / d - a, d);
  }

  /** One level, spelled out: the hash of the chain code, the public key and the index, as numbers of
      their compressed points; its upper 256 bits move the public key and are the tweak, its lower 256
      bits multiply the point that the chain code decodes to. */
  lemma OneLevel(c: Curve, pub: int, index: nat, cc: int, d: int, a: nat, b: nat)
    requires c.q > 0 && Decoded(c, cc) == Some(d) && b < Pow256(32)
    requires c.hmac(Value(c.toBytes(cc)), Value(c.toBytes(pub)), index) == a * Pow256(32) + b
    ensures GetHdKey(c, pub, [index], cc) == Some(Node(Mod(pub + a, c.q), Mod(a, c.q), Mod(d * b, c.q)))
  {
    HalvesOf(c.hmac(Value(c.toBytes(cc)), Value(c.toBytes(pub)), index), a, b, c.q);
    FirstNodeIs(c, pub, index, cc, d, a, b);
  }

  lemma FirstNodeIs(c: Curve, pub: int, index: nat, cc: int, d: int, a: nat, b: nat)
    requires c.q > 0 && Decoded(c, cc) == Some(d)
    requires var h := c.hmac(Value(c.toBytes(cc)), Value(c.toBytes(pub)), index);
      LeftHalf(h, c.q) == Mod(a, c.q) && RightHalf(h, c.q) == Mod(b, c.q)
    ensures GetHdKey(c, pub, [index], cc) == Some(Node(Mod(pub + a, c.q), Mod(a, c.q), Mod(d * b, c.q)))
  {
    ReducedHalf(pub, a, c.q);
    ReducedFactor(d, b, c.q);
    assert GetHdKey(c, pub, [index], cc) == Some(FirstNode(c, pub, PointNumber(c, cc), d, index));
  }

  /** One level more: the same from the key and chain code of the path so far, and the tweaks add up. */
  lemma {:induction false} OneLevelMore(c: Curve, pub: int, path: seq<nat>, index: nat, cc: int, a: nat, b: nat)
    requires c.q > 0 && path != [] && GetHdKey(c, pub, path, cc).Some? && b < Pow256(32)
    requires var n := GetHdKey(c, pub, path, cc).value;
      c.hmac(Value(c.toBytes(n.cc)), Value(c.toBytes(n.pub)), index) == a * Pow256(32) + b
    ensures var n := GetHdKey(c, pub, path, cc).value;
      GetHdKey(c, pub, path + [index], cc) == Some(Node(Mod(n.pub + a, c.q), Mod(n.f + a, c.q), Mod(n.cc * b, c.q)))
  {
    var n := GetHdKey(c, pub, path, cc).value;
    HalvesOf(c.hmac(Value(c.toBytes(n.cc)), Value(c.toBytes(n.pub)), index), a, b, c.q);
    ChildIs(c, n, index, a, b);
    PathGrows(c, pub, path, index, cc);
  }

  lemma ChildIs(c: Curve, n: Node, index: nat, a: nat, b: nat)
    requires c.q > 0
    requires var h := c.hmac(Value(c.toBytes(n.cc)), Value(c.toBytes(n.pub)), index);
      LeftHalf(h, c.q) == Mod(a, c.q) && RightHalf(h, c.q) == Mod(b, c.q)
    ensures Child(c, n, index) == Node(Mod(n.pub + a, c.q), Mod(n.f + a, c.q), Mod(n.cc * b, c.q))
  {
    ReducedHalf(n.pub, a, c.q);
    ReducedHalf(n.f, a, c.q);
    ReducedFactor(n.cc, b, c.q);
  }

  lemma {:induction false} PathGrows(c: Curve, pub: int, path: seq<nat>, index: nat, cc: int)
    requires c.q > 0 && path != [] && GetHdKey(c, pub, path, cc).Some?
    ensures GetHdKey(c, pub, path + [index], cc) == Some(Child(c, GetHdKey(c, pub, path, cc).value, index))
  {
    var first := FirstNode(c, pub, PointNumber(c, cc), Decoded(c, cc).value, path[0]);
    var longer := path + [index];
    assert longer[0] == path[0] && longer[1..] == path[1..] + [index];
    DescendAppend(c, first, path[1..], [index]);
    var n := Descend(c, first, path[1..]);
    assert Descend(c, n, [index]) == Child(c, n, index);
  }

  lemma ReducedHalf(x: int, a: int, q: int)
    requires q > 0
    ensures Mod(x + Mod(a, q), q) == Mod(x + a, q)
  {
    CongMod(a, q);
    CongRefl(x, q);
    CongAdd(x, x, Mod(a, q), a, q);
    CongIsModEq(x + Mod(a, q), x + a, q);
  }

  lemma ReducedFactor(x: int, b: int, q: int)
    requires q > 0
    ensures Mod(x * Mod(b, q), q) == Mod(x * b, q)
  {
    CongMod(b, q);
    CongRefl(x, q);
    CongMul(x, x, Mod(b, q), b, q);
    CongIsModEq(x * Mod(b, q), x * b, q);
  }

  /** A chain code whose bytes do not start with zero decodes to itself. */
  lemma SurvivorsDecode(c: Curve, cc: int)
    requires ValidCurve(c) && 0 < cc < c.q && Survives(c, cc)
    ensures Decoded(c, cc) == Some(cc)
  {
    RoundTrip(c.toBytes(cc));
  }

  /** With a decoder that rejects short bytes no other chain code decodes at all: derivation panics
      exactly on the empty path and on a leading zero byte. */
  lemma PanicsIff(c: Curve, pub: int, path: seq<nat>, cc: int)
    requires ValidCurve(c) && Rejecting(c) && 0 < cc < c.q
    ensures GetHdKey(c, pub, path, cc).None? <==> path == [] || !Survives(c, cc)
  {
    var bs := c.toBytes(cc);
    if Survives(c, cc) {
      SurvivorsDecode(c, cc);
    } else {
      Shorter(bs);
    }
  }

  /** A curve with a chain code that makes every derivation panic. */
  lemma DerivationCanPanic() returns (c: Curve, cc: int)
    ensures ValidCurve(c) && Rejecting(c) && 0 < cc < c.q
    ensures forall pub, path :: GetHdKey(c, pub, path, cc).None?
  {
    var encode: int -> seq<byte> := e => if 0 <= e < 5 then [0, e] else [0];
    var decode: seq<byte> -> Option<int> := bs => if |bs| == 2 && bs[0] == 0 then Some(bs[1]) else None;
    c, cc := Curve(5, 2, encode, decode, (cc, pub, index) => 7), 1;
    forall pub, path ensures GetHdKey(c, pub, path, cc).None? {
      PanicsIff(c, pub, path, cc);
    }
  }

  lemma {:induction false} Shorter(bs: seq<byte>)
    requires bs != [] && bs[0] == 0
    ensures var m := MinBytes(Value(bs)); |m| < |bs| && (m == [] || m[0] != 0)
  {
    NoLeadingZero(Value(bs));
    assert MinBytes(0) == [];
    assert bs == Zeros(1) + bs[1..];
    ValueOfZeros(1, bs[1..]);
    ValueBound(bs[1..]);
    MinLength(Value(bs), |bs| - 1);
  }

  lemma {:induction false} ValueBound(bs: seq<byte>)
    ensures Value(bs) < Pow256(|bs|)
  {
    if bs != [] {
      ValueBound(bs[..|bs| - 1]);
    }
  }

  /** The left halves drawn level by level. */
  function Tweaks(c: Curve, n: Node, path: seq<nat>): seq<int>
    requires c.q > 0
    decreases |path|
  {
    if path == [] then []
    else [LeftHalf(Hash(c, n, path[0]), c.q)] + Tweaks(c, Child(c, n, path[0]), path[1..])
  }

  lemma {:induction false} DescendAddsTweaks(c: Curve, n: Node, path: seq<nat>)
    requires c.q > 0
    ensures var m, t := Descend(c, n, path), SeqSum(Tweaks(c, n, path));
      Cong(m.pub, n.pub + t, c.q) && Cong(m.f, n.f + t, c.q)
    decreases |path|
  {
    if path == [] {
      CongRefl(n.pub, c.q);
      CongRefl(n.f, c.q);
    } else {
      var k, l := Child(c, n, path[0]), LeftHalf(Hash(c, n, path[0]), c.q);
      DescendAddsTweaks(c, k, path[1..]);
      var t, m := SeqSum(Tweaks(c, k, path[1..])), Descend(c, k, path[1..]);
      SumHead(l, Tweaks(c, k, path[1..]));
      OneMoreTweak(m.pub, k.pub, n.pub, l, t, c.q);
      OneMoreTweak(m.f, k.f, n.f, l, t, c.q);
    }
  }

  lemma OneMoreTweak(m: int, k: int, n: int, l: int, t: int, q: int)
    requires q > 0 && k == Mod(n + l, q) && Cong(m, k + t, q)
    ensures Cong(m, n + (l + t), q)
  {
    CongMod(n + l, q);
    CongRefl(t, q);
    CongAdd(k, n + l, t, t, q);
    CongTrans(m, k + t, n + l + t, q);
  }

  /** Whatever the path and whatever the chain code decodes to, the child key is the parent's plus G
      times the returned tweak; and when it decodes to itself the tweak is the sum of the levels' left
      halves. */
  lemma {:induction false} ChildKeyIsTweaked(c: Curve, pub: int, path: seq<nat>, cc: int)
    requires c.q > 0 && GetHdKey(c, pub, path, cc).Some?
    ensures var n := GetHdKey(c, pub, path, cc).value;
      && n.pub == Mod(pub + n.f, c.q)
      && (Decoded(c, cc) == Some(cc) ==> n.f == Mod(SeqSum(Tweaks(c, Node(pub, 0, cc), path)), c.q))
  {
    FoldKeepsOffset(c, pub, FirstNode(c, pub, PointNumber(c, cc), Decoded(c, cc).value, path[0]), path[1..]);
    if Decoded(c, cc) == Some(cc) {
      TweakIsSum(c, pub, path, cc);
    }
  }

  /** From a first node whose key is the parent's plus its tweak, every later one is, too. */
  lemma {:induction false} FoldKeepsOffset(c: Curve, pub: int, n: Node, path: seq<nat>)
    requires c.q > 0 && n.pub == Mod(pub + n.f, c.q)
    ensures var m := Descend(c, n, path); m.pub == Mod(pub + m.f, c.q)
  {
    if path != [] {
      var m, t := Descend(c, n, path), SeqSum(Tweaks(c, n, path));
      DescendAddsTweaks(c, n, path);
      DescendReduced(c, n, path);
      CongMod(pub + n.f, c.q);
      CongRefl(t, c.q);
      CongAdd(n.pub, pub + n.f, t, t, c.q);
      CongTrans(m.pub, n.pub + t, pub + n.f + t, c.q);
      OffsetIs(m.pub, m.f, pub, n.f + t, c.q);
    }
  }

  lemma OffsetIs(a: int, f: int, pub: int, t: int, q: int)
    requires q > 0 && 0 <= a < q && Cong(a, pub + t, q) && Cong(f, t, q)
    ensures a == Mod(pub + f, q)
  {
    CongSym(f, t, q);
    CongRefl(pub, q);
    CongAdd(pub, pub, t, f, q);
    CongTrans(a, pub + t, pub + f, q);
    Canonical(a, pub + f, q);
  }

  lemma {:induction false} TweakIsSum(c: Curve, pub: int, path: seq<nat>, cc: int)
    requires c.q > 0 && path != [] && Decoded(c, cc) == Some(cc)
    ensures var n := GetHdKey(c, pub, path, cc); n.Some? && n.value.f == Mod(SeqSum(Tweaks(c, Node(pub, 0, cc), path)), c.q)
  {
    var start := Node(pub, 0, cc);
    FirstLevelIsFold(c, pub, path, cc);
    DescendAddsTweaks(c, start, path);
    DescendReduced(c, start, path);
    Canonical(Descend(c, start, path).f, SeqSum(Tweaks(c, start, path)), c.q);
  }

  lemma {:induction false} DescendReduced(c: Curve, n: Node, path: seq<nat>)
    requires c.q > 0 && path != []
    ensures var m := Descend(c, n, path); 0 <= m.pub < c.q && 0 <= m.f < c.q && 0 <= m.cc < c.q
    decreases |path|
  {
    var k := Child(c, n, path[0]);
    if |path| > 1 {
      DescendReduced(c, k, path[1..]);
    }
  }

  lemma {:induction false} DescendAppend(c: Curve, n: Node, p1: seq<nat>, p2: seq<nat>)
    requires c.q > 0
    ensures Descend(c, n, p1 + p2) == Descend(c, Descend(c, n, p1), p2)
    decreases |p1|
  {
    if p1 == [] {
      assert p1 + p2 == p2;
    } else {
      assert (p1 + p2)[0] == p1[0] && (p1 + p2)[1..] == p1[1..] + p2;
      DescendAppend(c, Child(c, n, p1[0]), p1[1..], p2);
    }
  }

  /** The key and chain code below do not depend on the tweak carried along. */
  lemma {:induction false} DescendIgnoresTweak(c: Curve, n: Node, f: int, path: seq<nat>)
    requires c.q > 0
    ensures Descend(c, n.(f := f), path).pub == Descend(c, n, path).pub
    ensures Descend(c, n.(f := f), path).cc == Descend(c, n, path).cc
    ensures Tweaks(c, n.(f := f), path) == Tweaks(c, n, path)
    decreases |path|
  {
    if path != [] {
      var k := Child(c, n, path[0]);
      DescendIgnoresTweak(c, k, Child(c, n.(f := f), path[0]).f, path[1..]);
    }
  }

  /** Deriving p1 and then p2 from the returned key and chain code is deriving p1 + p2, when both
      chain codes decode to themselves: the same key and chain code, and tweaks that add up. */
  lemma DerivationComposes(c: Curve, pub: int, p1: seq<nat>, p2: seq<nat>, cc: int)
    requires c.q > 0 && p1 != [] && p2 != [] && Decoded(c, cc) == Some(cc)
    requires GetHdKey(c, pub, p1, cc).Some? ==> var n := GetHdKey(c, pub, p1, cc).value; Decoded(c, n.cc) == Some(n.cc)
    ensures var n := GetHdKey(c, pub, p1, cc);
      && n.Some?
      && var m := GetHdKey(c, n.value.pub, p2, n.value.cc);
         && m.Some?
         && GetHdKey(c, pub, p1 + p2, cc) == Some(Node(m.value.pub, Mod(n.value.f + m.value.f, c.q), m.value.cc))
  {
    FirstLevelIsFold(c, pub, p1, cc);
    FirstLevelIsFold(c, pub, p1 + p2, cc);
    var n := Descend(c, Node(pub, 0, cc), p1);
    FirstLevelIsFold(c, n.pub, p2, n.cc);
    DescendTwice(c, Node(pub, 0, cc), p1, p2);
  }

  lemma {:induction false} DescendTwice(c: Curve, start: Node, p1: seq<nat>, p2: seq<nat>)
    requires c.q > 0 && p2 != []
    ensures var n := Descend(c, start, p1);
      var m := Descend(c, Node(n.pub, 0, n.cc), p2);
      Descend(c, start, p1 + p2) == Node(m.pub, Mod(n.f + m.f, c.q), m.cc)
  {
    var n := Descend(c, start, p1);
    DescendAppend(c, start, p1, p2);
    DescendIgnoresTweak(c, n, 0, p2);
    DescendAddsTweaks(c, n, p2);
    DescendAddsTweaks(c, n.(f := 0), p2);
    DescendReduced(c, n, p2);
    TweaksAdd(Descend(c, n, p2).f, Descend(c, n.(f := 0), p2).f, n.f, SeqSum(Tweaks(c, n, p2)), c.q);
  }

  lemma TweaksAdd(all: int, m: int, f: int, t: int, q: int)
    requires q > 0 && 0 <= all < q
    requires Cong(all, f + t, q) && Cong(m, 0 + t, q)
    ensures all == Mod(f + m, q)
  {
    CongSym(m, t, q);
    CongRefl(f, q);
    CongAdd(f, f, t, m, q);
    CongTrans(all, f + t, f + m, q);
    Canonical(all, f + m, q);
  }
}
