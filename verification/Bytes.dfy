/** Big integers and their big-endian bytes. */
module Bytes {

  /** AES_KEY_BYTES_LEN; also the bytes of each half of the derivation hash. */
  const KEY_BYTES: nat := 32

  type byte = b: int | 0 <= b < 256

  /** Number of values that k bytes can hold. */
  function Pow256(k: nat): (p: nat)
    ensures p >= 1
  {
    if k == 0 then 1 else 256 * Pow256(k - 1)
  }

  function Value(bs: seq<byte>): (v: nat) {
    if bs == [] then 0 else 256 * Value(bs[..|bs| - 1]) + bs[|bs| - 1]
  }

  /** The shortest bytes of a number, as the big-integer library writes them. */
  function MinBytes(v: nat): (bs: seq<byte>) {
    if v == 0 then [] else MinBytes(v / 256) + [v % 256]
  }

  function Zeros(k: nat): (bs: seq<byte>) {
    seq(k, _ => 0)
  }

  lemma {:induction false} ValueOfMinBytes(v: nat)
    ensures Value(MinBytes(v)) == v
  {
    if v > 0 {
      ValueOfMinBytes(v / 256);
      var bs := MinBytes(v);
      assert bs[..|bs| - 1] == MinBytes(v / 256);
    }
  }

  lemma {:induction false} ValueOfZeros(k: nat, bs: seq<byte>)
    ensures Value(Zeros(k) + bs) == Value(bs)
    decreases k + |bs|
  {
    var w := Zeros(k) + bs;
    if bs == [] {
      if k > 0 {
        assert w[..k - 1] == Zeros(k - 1) + [];
        ValueOfZeros(k - 1, []);
      } else {
        assert w == bs;
      }
    } else {
      ValueOfZeros(k, bs[..|bs| - 1]);
      assert w[..|w| - 1] == Zeros(k) + bs[..|bs| - 1];
    }
  }

  /** How many bytes a number takes. */
  lemma {:induction false} MinLength(v: nat, k: nat)
    ensures |MinBytes(v)| <= k <==> v < Pow256(k)
    decreases v
  {
    if v > 0 && k > 0 {
      MinLength(v / 256, k - 1);
    }
  }

  /** A byte string survives the round trip through a number exactly when it does not start with
      a zero. */
  lemma {:induction false} RoundTrip(bs: seq<byte>)
    ensures MinBytes(Value(bs)) == bs <==> bs == [] || bs[0] != 0
  {
    if bs != [] {
      var n := |bs| - 1;
      var front := bs[..n];
      RoundTrip(front);
      var v, d := Value(front), bs[n];
      assert Value(bs) / 256 == v && Value(bs) % 256 == d;
      if bs[0] == 0 {
        NoLeadingZero(Value(bs));
      } else {
        assert bs == front + [d];
        if front == [] {
          assert MinBytes(d) == MinBytes(0) + [d];
        } else {
          assert front[0] != 0;
          assert MinBytes(0) == [];
        }
      }
    }
  }

  lemma {:induction false} NoLeadingZero(v: nat)
    ensures v > 0 ==> MinBytes(v) != [] && MinBytes(v)[0] != 0
  {
    if v >= 256 {
      NoLeadingZero(v / 256);
    }
  }

  /** Left-padding a pairwise key to 32 bytes. None is the panic when there are more than 32. */
  method PadKey(keyBytes: seq<byte>) returns (ok: bool, template: seq<byte>)
    ensures ok <==> |keyBytes| <= KEY_BYTES
    ensures ok ==> |template| == KEY_BYTES && Value(template) == Value(keyBytes) && template == Padded(keyBytes)
  {
    if |keyBytes| > KEY_BYTES {
      return false, [];
    }
    template := seq(KEY_BYTES - |keyBytes|, _ => 0);
    template := template + keyBytes;
    ok := true;
    ValueOfZeros(KEY_BYTES - |keyBytes|, keyBytes);
  }

  function Padded(keyBytes: seq<byte>): (bs: seq<byte>)
    requires |keyBytes| <= KEY_BYTES
  {
    Zeros(KEY_BYTES - |keyBytes|) + keyBytes
  }

  /** Padding any value below 2^256 gives exactly 32 bytes of the same value. */
  lemma {:induction false} PaddedKey(v: nat)
    requires v < Pow256(KEY_BYTES)
    ensures |MinBytes(v)| <= KEY_BYTES && |Padded(MinBytes(v))| == KEY_BYTES && Value(Padded(MinBytes(v))) == v
  {
    MinLength(v, KEY_BYTES);
    ValueOfZeros(KEY_BYTES - |MinBytes(v)|, MinBytes(v));
    ValueOfMinBytes(v);
  }

  /** Without padding a value below 2^256 gives a 32-byte key exactly when its top byte is not zero. */
  lemma {:induction false} UnpaddedKey(v: nat)
    requires v < Pow256(KEY_BYTES)
    ensures |MinBytes(v)| == KEY_BYTES <==> v >= Pow256(KEY_BYTES - 1)
  {
    MinLength(v, KEY_BYTES);
    MinLength(v, KEY_BYTES - 1);
  }
}
