/** The loops of ECDSA signing, in which a counter j runs over the other signers only, and what
    they compute in terms of the vectors over all signers. */
module EcdsaLoops {
  import opened Wrappers
  import opened Reassembly
  import opened ShareConversion
  import opened RoundExchange
  import opened EcdsaSigner

  /** Round 0: everybody's index, one below its party number. */
  method GatherSigners(partyId: int, p: nat, n: nat, answers: seq<int>) returns (signersVec: seq<int>)
    requires 1 <= p <= n == |answers| + 1
    ensures |signersVec| == n
    ensures forall i :: 0 <= i < n ==> signersVec[i] == InsertAt(answers, p - 1, partyId)[i] - 1
  {
    var j := 0;
    signersVec := [];
    for i := 1 to n + 1
      invariant j == if p < i then i - 2 else i - 1
      invariant |signersVec| == i - 1
      invariant forall m :: 0 <= m < i - 1 ==> signersVec[m] == InsertAt(answers, p - 1, partyId)[m] - 1
    {
      if i == p {
        signersVec := signersVec + [partyId - 1];
      } else {
        signersVec := signersVec + [answers[j] - 1];
        j := j + 1;
      }
    }
  }

  function First<A, B>(s: seq<(A, B)>): (r: seq<A>) {
    seq(|s|, i requires 0 <= i < |s| => s[i].0)
  }

  function Second<A, B>(s: seq<(A, B)>): (r: seq<B>) {
    seq(|s|, i requires 0 <= i < |s| => s[i].1)
  }

  /** Round 1: the commitments of all, but the ciphertexts of the others only. */
  method GatherPhase1(com: int, answers: seq<(int, Cipher)>, p: nat, n: nat) returns (bc1Vec: seq<int>, mAVec: seq<Cipher>)
    requires 1 <= p <= n == |answers| + 1
    ensures bc1Vec == InsertAt(First(answers), p - 1, com)
    ensures mAVec == Second(answers)
  {
    ghost var all := InsertAt(First(answers), p - 1, com);
    var j := 0;
    bc1Vec, mAVec := [], [];
    for i := 1 to n + 1
      invariant j == if p < i then i - 2 else i - 1
      invariant bc1Vec == all[..i - 1]
      invariant mAVec == Second(answers)[..j]
    {
      assert all[..i] == all[..i - 1] + [all[i - 1]];
      if i == p {
        bc1Vec := bc1Vec + [com];
      } else {
        bc1Vec := bc1Vec + [answers[j].0];
        mAVec := mAVec + [answers[j].1];
        j := j + 1;
      }
    }
    assert all[..n] == all;
    assert Second(answers)[..j] == Second(answers);
  }

  /** The answers with the factor b to all ciphertexts, each under the Paillier key on file for its sender. */
  function Responses(me: Signer, b: int, points: seq<int>, mAs: seq<Cipher>, tag: nat -> int, q: int): (r: seq<MessageB>)
    requires q > 0 && |points| == |mAs|
  {
    seq(|mAs|, i requires 0 <= i < |mAs| => Respond(b, EkAt(me, points[i]), mAs[i], tag(i + 1), q))
  }

  /** Answering everybody else: what is sent and the masks kept, gammas and additive keys apart. */
  method RespondToAll(me: Signer, w: int, points: seq<int>, mAVec: seq<Cipher>, p: nat, n: nat, q: int, ghost mAs: seq<Cipher>)
    returns (gammaSend: seq<MessageB>, betaVec: seq<int>, wSend: seq<MessageB>, niVec: seq<int>)
    requires q > 0 && 1 <= p <= n == |points| == |mAs| && mAVec == RemoveAt(mAs, p - 1)
    ensures gammaSend == RemoveAt(Responses(me, me.gamma, points, mAs, me.gammaTag, q), p - 1)
    ensures wSend == RemoveAt(Responses(me, w, points, mAs, me.wTag, q), p - 1)
    ensures betaVec == RemoveAt(Betas(n, me.gammaTag, q), p - 1)
    ensures niVec == RemoveAt(Betas(n, me.wTag, q), p - 1)
  {
    ghost var gammas := Responses(me, me.gamma, points, mAs, me.gammaTag, q);
    ghost var ws := Responses(me, w, points, mAs, me.wTag, q);
    ghost var betas, nis := Betas(n, me.gammaTag, q), Betas(n, me.wTag, q);
    var j := 0;
    gammaSend, betaVec, wSend, niVec := [], [], [], [];
    for i := 1 to n + 1
      invariant j == if p < i then i - 2 else i - 1
      invariant Upto(gammaSend, gammas, p, i) && Upto(wSend, ws, p, i)
      invariant Upto(betaVec, betas, p, i) && Upto(niVec, nis, p, i)
    {
      if i != p {
        RemoveAtSkips(mAs, p, i);
        Grows(gammaSend, gammas, p, i);
        Grows(wSend, ws, p, i);
        Grows(betaVec, betas, p, i);
        Grows(niVec, nis, p, i);
        gammaSend := gammaSend + [Respond(me.gamma, EkAt(me, points[i - 1]), mAVec[j], me.gammaTag(i), q)];
        wSend := wSend + [Respond(w, EkAt(me, points[i - 1]), mAVec[j], me.wTag(i), q)];
        betaVec := betaVec + [Beta(me.gammaTag(i), q)];
        niVec := niVec + [Beta(me.wTag(i), q)];
        j := j + 1;
      }
    }
    Whole(gammaSend, gammas, p);
    Whole(wSend, ws, p);
    Whole(betaVec, betas, p);
    Whole(niVec, nis, p);
  }

  /** The elements of v for the others among the first i - 1. */
  ghost predicate Upto<T>(out: seq<T>, v: seq<T>, p: nat, i: nat)
    requires 1 <= p <= |v| && 1 <= i <= |v| + 1
  {
    out == RemoveAt(v, p - 1)[..if p < i then i - 2 else i - 1]
  }

  lemma Grows<T>(out: seq<T>, v: seq<T>, p: nat, i: nat)
    requires 1 <= p <= |v| && 1 <= i <= |v| && i != p && Upto(out, v, p, i)
    ensures Upto(out + [v[i - 1]], v, p, i + 1)
  {
    RemoveAtSkips(v, p, i);
  }

  lemma Whole<T>(out: seq<T>, v: seq<T>, p: nat)
    requires 1 <= p <= |v| && Upto(out, v, p, |v| + 1)
    ensures out == RemoveAt(v, p - 1)
  {
  }

  /** Sending message j to the other signers in order: signer i gets the answers to its own ciphertext. */
  method SendAnswers(gammaSend: seq<MessageB>, wSend: seq<MessageB>, p: nat, n: nat) returns (sent: seq<(nat, Msg)>)
    requires 1 <= p <= n == |gammaSend| + 1 == |wSend| + 1
    ensures |sent| == n - 1
    ensures forall i :: 1 <= i <= n && i != p ==>
      sent[SkipOwn(p, i)] == (i, Mta(gammaSend[SkipOwn(p, i)], wSend[SkipOwn(p, i)]))
  {
    var j := 0;
    sent := [];
    for i := 1 to n + 1
      invariant j == |sent| == if p < i then i - 2 else i - 1
      invariant forall m :: 1 <= m < i && m != p ==>
        sent[SkipOwn(p, m)] == (m, Mta(gammaSend[SkipOwn(p, m)], wSend[SkipOwn(p, m)]))
    {
      if i != p {
        sent := sent + [(i, Mta(gammaSend[j], wSend[j]))];
        j := j + 1;
      }
    }
  }

  /** The message that the loops address to a signer is the one the protocol has for it. */
  lemma SentIsAnswer(P: Params, me: Signer, p: nat, to: nat, hist: seq<seq<Msg>>)
    requires P.s.q > 0
    requires var points, mAs := PointsOf(View(hist, 0)), MessagesA(View(hist, 1));
      |points| == |mAs| && 1 <= p <= |points| && 1 <= to <= |points| && to != p
    ensures var points, mAs := PointsOf(View(hist, 0)), MessagesA(View(hist, 1));
      var gammas := Responses(me, me.gamma, points, mAs, me.gammaTag, P.s.q);
      var ws := Responses(me, SignW(P, me, p, points), points, mAs, me.wTag, P.s.q);
      var j := SkipOwn(p, to);
      && j < |points| - 1
      && AnswersTo(P, me, p, to, hist) == Mta(RemoveAt(gammas, p - 1)[j], RemoveAt(ws, p - 1)[j])
  {
    var points, mAs := PointsOf(View(hist, 0)), MessagesA(View(hist, 1));
    RemoveAtSkips(Responses(me, me.gamma, points, mAs, me.gammaTag, P.s.q), p, to);
    RemoveAtSkips(Responses(me, SignW(P, me, p, points), points, mAs, me.wTag, P.s.q), p, to);
  }

  /** Round 2, incoming: decrypting the answers, each additive key's point held against the one
      recomputed from the commitments. None is the panic on an answer that does not open under one's
      own key, or on a mismatch. */
  method DecryptAnswers(dk: nat, gammaRec: seq<MessageB>, wRec: seq<MessageB>, keyPoints: seq<int>, p: nat, n: nat, q: int,
    ghost gammas: seq<MessageB>, ghost ws: seq<MessageB>)
    returns (r: Option<(seq<int>, seq<int>)>)
    requires q > 0 && 1 <= p <= n == |keyPoints| == |gammas| == |ws|
    requires gammaRec == RemoveAt(gammas, p - 1) && wRec == RemoveAt(ws, p - 1)
    ensures r.Some? <==> forall i :: 1 <= i <= n && i != p ==>
      AnswerOk(dk, gammaRec[SkipOwn(p, i)], wRec[SkipOwn(p, i)], keyPoints[i - 1])
    ensures r.Some? ==> r.value == (RemoveAt(Alphas(dk, gammas, q), p - 1), RemoveAt(Alphas(dk, ws, q), p - 1))
  {
    ghost var alphas, mius := Alphas(dk, gammas, q), Alphas(dk, ws, q);
    var j := 0;
    var alphaVec, miuVec := [], [];
    for i := 1 to n + 1
      invariant j == if p < i then i - 2 else i - 1
      invariant Upto(alphaVec, alphas, p, i) && Upto(miuVec, mius, p, i)
      invariant forall m :: 1 <= m < i && m != p ==>
        AnswerOk(dk, gammaRec[SkipOwn(p, m)], wRec[SkipOwn(p, m)], keyPoints[m - 1])
    {
      if i != p {
        if gammaRec[j].c.key != dk || wRec[j].c.key != dk {
          assert SkipOwn(p, i) == j;
          return None;
        }
        RemoveAtSkips(gammas, p, i);
        RemoveAtSkips(ws, p, i);
        Grows(alphaVec, alphas, p, i);
        Grows(miuVec, mius, p, i);
        alphaVec := alphaVec + [Alpha(dk, gammaRec[j], q)];
        miuVec := miuVec + [Alpha(dk, wRec[j], q)];
        if wRec[j].pk != keyPoints[i - 1] {
          assert SkipOwn(p, i) == j;
          return None;
        }
        j := j + 1;
      }
    }
    Whole(alphaVec, alphas, p);
    Whole(miuVec, mius, p);
    return Some((alphaVec, miuVec));
  }
}
