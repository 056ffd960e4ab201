/** The loops of the ephemeral key generation. They run over the `n` parties that the room counted,
    while the vector of party numbers has t + 1 entries; keys are filed under party numbers. */
module EddsaLoops {
  import opened Wrappers
  import opened Modular
  import opened Shamir
  import opened Bytes
  import opened PairwiseKeys
  import opened Reassembly
  import opened EddsaSigner
  import Keygen

  predicate Distinct(parties: seq<int>) {
    forall i, j :: 0 <= i < j < |parties| ==> parties[i] != parties[j]
  }

  /** Each other signer's key is on file under its party number. */
  predicate Filed(encKeys: map<int, seq<byte>>, parties: seq<int>, p: nat, keys: seq<seq<byte>>) {
    forall i :: 0 <= i < |parties| && i < |keys| && i != p - 1 ==> parties[i] in encKeys && encKeys[parties[i]] == keys[i]
  }

  /** Filing one more key disturbs none of the others. */
  lemma FiledNext(encKeys: map<int, seq<byte>>, parties: seq<int>, p: nat, keys: seq<seq<byte>>, key: seq<byte>)
    requires Filed(encKeys, parties, p, keys) && |keys| < |parties| && Distinct(parties)
    ensures Filed(encKeys[parties[|keys|] := key], parties, p, keys + [key])
  {
  }

  /** The keys on file are the x-coordinates of the others' points times one's own nonce. */
  lemma FiledValues(s: Suite, r: int, encKeys: map<int, seq<byte>>, parties: seq<int>, p: nat, points: seq<int>)
    requires s.q > 0 && |points| == |parties| && Filed(encKeys, parties, p, Keygen.EncKeys(s, r, points))
    ensures ValidSuite(s) ==> forall i :: 0 <= i < |points| && i != p - 1 ==>
      parties[i] in encKeys && Value(encKeys[parties[i]]) == s.xCoord(Mod(points[i] * r, s.q))
  {
    if ValidSuite(s) {
      Keygen.EncKeyValues(s, r, points);
    }
  }

  /** Round 1: the nonce points of all, and the others' keys filed under their party numbers. None is
      the panic on a failed assertion or an index past the vector of parties. */
  method GatherEphemerals(s: Suite, r: int, t: nat, n: nat, p: nat, parties: seq<int>, own: int, answers: seq<int>)
    returns (out: Option<(seq<int>, map<int, seq<byte>>)>)
    requires s.q > 0 && 1 <= p <= n == |answers| + 1 && |parties| == t + 1 && Distinct(parties)
    ensures out.Some? <==> n == t + 1
    ensures out.Some? ==> out.value.0 == InsertAt(answers, p - 1, own)
    ensures out.Some? ==> Filed(out.value.1, parties, p, Keygen.EncKeys(s, r, out.value.0))
    ensures out.Some? && ValidSuite(s) ==> forall i :: 0 <= i < n && i != p - 1 ==>
      parties[i] in out.value.1 && Value(out.value.1[parties[i]]) == s.xCoord(Mod(out.value.0[i] * r, s.q))
  {
    if |parties| <= t || |parties| > n {
      return None;
    }
    if p - 1 >= |parties| {
      return None;
    }
    ghost var all := InsertAt(answers, p - 1, own);
    ghost var keys := Keygen.EncKeys(s, r, all);
    var j := 0;
    var RVec, encKeys := [], map[];
    for i := 1 to n + 1
      invariant j == if p < i then i - 2 else i - 1
      invariant i - 1 <= |parties|
      invariant RVec == all[..i - 1]
      invariant Filed(encKeys, parties, p, keys[..i - 1])
    {
      assert all[..i] == all[..i - 1] + [all[i - 1]];
      assert keys[..i] == keys[..i - 1] + [keys[i - 1]];
      if i == p {
        RVec := RVec + [own];
      } else {
        RVec := RVec + [answers[j]];
        if i - 1 >= |parties| {
          return None;
        }
        FiledNext(encKeys, parties, p, keys[..i - 1], keys[i - 1]);
        encKeys := encKeys[parties[i - 1] := KeyBytes(s, PairPoint(answers[j], r, s.q))];
        j := j + 1;
      }
    }
    assert all[..n] == all && keys[..n] == keys;
    FiledValues(s, r, encKeys, parties, p, all);
    return Some((RVec, encKeys));
  }

  /** Round 3, outgoing: to each other signer in order, its share under the key filed for it. None is
      the panic on an index past the vector of parties. */
  method SealShares(encKeys: map<int, seq<byte>>, n: nat, p: nat, parties: seq<int>, secretShares: seq<nat>, ghost keys: seq<seq<byte>>)
    returns (out: Option<seq<(nat, Option<Aead>)>>)
    requires 1 <= p <= n && |parties| == |secretShares| == |keys| && Filed(encKeys, parties, p, keys)
    ensures out.Some? <==> n <= |parties| || (n == |parties| + 1 && p == n)
    ensures out.Some? ==> |out.value| == n - 1
    ensures out.Some? ==> forall i :: 1 <= i <= n && i != p ==>
      i <= |parties| && out.value[SkipOwn(p, i)] == (i, Seal(keys[i - 1], secretShares[i - 1]))
  {
    var sent: seq<(nat, Option<Aead>)> := [];
    for i := 1 to n + 1
      invariant i - 1 <= |parties| || (i - 1 == |parties| + 1 && p == i - 1)
      invariant |sent| == if p < i then i - 2 else i - 1
      invariant forall m :: 1 <= m < i && m != p ==>
        m <= |parties| && sent[SkipOwn(p, m)] == (m, Seal(keys[m - 1], secretShares[m - 1]))
    {
      if i != p {
        if i - 1 >= |parties| {
          return None;
        }
        sent := sent + [(i, Seal(encKeys[parties[i - 1]], secretShares[i - 1]))];
      }
    }
    return Some(sent);
  }

  /** Round 3, incoming: one's own share and what the others' open to. None is the panic on an index
      past the vector of parties. */
  method OpenShares(s: Suite, eph: Poly, encKeys: map<int, seq<byte>>, n: nat, p: nat, parties: seq<int>, secretShares: seq<nat>,
    answers: seq<Option<Aead>>, ghost rs: seq<int>, ghost own: Option<Aead>)
    returns (out: Option<seq<int>>)
    requires s.q > 0 && 1 <= p <= n == |rs| == |answers| + 1 && |secretShares| == |parties|
    requires Filed(encKeys, parties, p, Keygen.EncKeys(s, Keygen.Secret(eph), rs))
    requires forall i :: 0 <= i < |parties| ==> secretShares[i] == Share(eph, parties[i], s.q)
    ensures out.Some? <==> n <= |parties|
    ensures out.Some? ==> out.value == EphShares(s, eph, p, parties[p - 1], rs, InsertAt(answers, p - 1, own))
  {
    var j := 0;
    var partyShares := [];
    for i := 1 to n + 1
      invariant j == if p < i then i - 2 else i - 1
      invariant i - 1 <= |parties|
      invariant |partyShares| == i - 1
      invariant forall m :: 0 <= m < i - 1 ==>
        partyShares[m] == (
          if m + 1 == p then Share(eph, parties[p - 1], s.q)
          else Open(Keygen.EncKeys(s, Keygen.Secret(eph), rs)[m], InsertAt(answers, p - 1, own)[m], s.q))
    {
      if i - 1 >= |parties| {
        return None;
      }
      if i == p {
        partyShares := partyShares + [secretShares[i - 1]];
      } else {
        assert InsertAt(answers, p - 1, own)[i - 1] == answers[j];
        partyShares := partyShares + [Open(encKeys[parties[i - 1]], answers[j], s.q)];
        j := j + 1;
      }
    }
    return Some(partyShares);
  }

  /** The three loops in the order of the program: they get through exactly when the room counted
      t + 1 parties, and then they send and hold what the protocol has. */
  method EphemeralRounds(s: Suite, eph: Poly, t: nat, n: nat, p: nat, parties: seq<int>, secretShares: seq<nat>,
    own: int, points: seq<int>, packs: seq<Option<Aead>>, ghost ownPack: Option<Aead>)
    returns (out: Option<(seq<(nat, Option<Aead>)>, seq<int>)>)
    requires s.q > 0 && 1 <= p <= n == |points| + 1 == |packs| + 1
    requires |parties| == |secretShares| == t + 1 && Distinct(parties)
    requires forall i :: 0 <= i < |parties| ==> secretShares[i] == Share(eph, parties[i], s.q)
    ensures out.Some? <==> n == t + 1
    ensures out.Some? ==>
      var rs := InsertAt(points, p - 1, own);
      && |out.value.0| == n - 1
      && (forall i :: 1 <= i <= n && i != p ==>
            out.value.0[SkipOwn(p, i)] == (i, Seal(Keygen.EncKeys(s, Keygen.Secret(eph), rs)[i - 1], Share(eph, parties[i - 1], s.q))))
      && out.value.1 == EphShares(s, eph, p, parties[p - 1], rs, InsertAt(packs, p - 1, ownPack))
  {
    var gathered := GatherEphemerals(s, Keygen.Secret(eph), t, n, p, parties, own, points);
    if gathered.None? {
      return None;
    }
    var (rs, encKeys) := gathered.value;
    var sent := SealShares(encKeys, n, p, parties, secretShares, Keygen.EncKeys(s, Keygen.Secret(eph), rs));
    var shares := OpenShares(s, eph, encKeys, n, p, parties, secretShares, packs, rs, ownPack);
    return Some((sent.value, shares.value));
  }
}
