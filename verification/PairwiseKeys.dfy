/** Sending a share to one other party under a key both can compute. */
module PairwiseKeys {
  import opened Wrappers
  import opened Modular
  import opened Bytes

  /** The group order, the affine x-coordinate of a point (by its exponent), and whether the
      program left-pads keys to 32 bytes (EdDSA does, ECDSA does not). */
  datatype Suite = Suite(q: int, xCoord: int -> nat, padded: bool)

  ghost predicate ValidSuite(s: Suite) {
    IsPrime(s.q) && forall e :: s.xCoord(e) < Pow256(KEY_BYTES)
  }

  /** Authenticated encryption by its contract: it opens under the key it was sealed with. */
  datatype Aead = Aead(key: seq<byte>, text: seq<byte>)

  /** None is the panic on a key that is not 32 bytes long. */
  function Encrypt(key: seq<byte>, text: seq<byte>): Option<Aead> {
    if |key| == KEY_BYTES then Some(Aead(key, text)) else None
  }

  function Decrypt(key: seq<byte>, pack: Option<Aead>): Option<seq<byte>> {
    if |key| == KEY_BYTES && pack.Some? && pack.value.key == key then Some(pack.value.text) else None
  }

  /** The other party's point times one's own secret. */
  function PairPoint(y: int, u: int, q: int): int
    requires q > 0
  {
    Mod(y * u, q)
  }

  function KeyBytes(s: Suite, point: int): (key: seq<byte>) {
    var bs := MinBytes(s.xCoord(point));
    if s.padded && |bs| <= KEY_BYTES then Padded(bs) else bs
  }

  function Seal(key: seq<byte>, share: nat): Option<Aead> {
    Encrypt(key, MinBytes(share))
  }

  /** The scalar a pack opens to; 0 where the program panics. */
  function Open(key: seq<byte>, pack: Option<Aead>, q: int): int
    requires q > 0
  {
    var out := Decrypt(key, pack);
    if out.Some? then Mod(Value(out.value), q) else 0
  }

  /** Both ends compute the same point. */
  lemma PairPointSymmetric(u: int, v: int, q: int)
    requires q > 0
    ensures PairPoint(Mod(u, q), v, q) == PairPoint(Mod(v, q), u, q)
  {
    CongMod(u, q);
    CongMod(v, q);
    CongRefl(u, q);
    CongRefl(v, q);
    CongMul(Mod(u, q), u, v, v, q);
    CongMul(Mod(v, q), v, u, u, q);
    assert v * u == u * v;
    CongIsModEq(Mod(u, q) * v, u * v, q);
    CongIsModEq(Mod(v, q) * u, u * v, q);
  }

  /** The key has the length the cipher wants exactly when the program pads it, or when the
      x-coordinate fills all 32 bytes. */
  lemma KeyLength(s: Suite, point: int)
    requires ValidSuite(s)
    ensures |KeyBytes(s, point)| == KEY_BYTES <==> s.padded || s.xCoord(point) >= Pow256(KEY_BYTES - 1)
  {
    PaddedKey(s.xCoord(point));
    UnpaddedKey(s.xCoord(point));
  }

  /** Padded or not, the key is the x-coordinate, big-endian. */
  lemma KeyValue(s: Suite, point: int)
    requires ValidSuite(s)
    ensures Value(KeyBytes(s, point)) == s.xCoord(point)
  {
    PaddedKey(s.xCoord(point));
    ValueOfMinBytes(s.xCoord(point));
  }

  /** A share is sealed under the key given, as its own bytes, exactly when the key is 32 bytes; otherwise
      sealing panics. And it opens to the share under that key only. */
  lemma ShareArrives(key: seq<byte>, share: nat, q: int)
    requires 0 <= share < q
    ensures Seal(key, share).Some? <==> |key| == KEY_BYTES
    ensures |key| == KEY_BYTES ==> Seal(key, share).value.key == key && Value(Seal(key, share).value.text) == share
    ensures |key| == KEY_BYTES ==> Open(key, Seal(key, share), q) == share
    ensures forall other :: other != key ==> Decrypt(other, Seal(key, share)).None?
  {
    ValueOfMinBytes(share);
    ModSmall(share, q);
  }
}
