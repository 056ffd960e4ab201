/** Putting one's own value back among the answers polled from the other parties. */
module Reassembly {
  import opened Wrappers

  function InsertAt<T>(s: seq<T>, i: nat, x: T): (r: seq<T>)
    requires i <= |s|
  {
    s[..i] + [x] + s[i..]
  }

  function RemoveAt<T>(s: seq<T>, i: nat): (r: seq<T>)
    requires i < |s|
  {
    s[..i] + s[i + 1..]
  }

  /** Position of party i's answer among the answers party p polled: p itself is skipped. */
  function SkipOwn(p: nat, i: nat): (j: nat)
    requires 1 <= i && 1 <= p && i != p
  {
    if i < p then i - 1 else i - 2
  }

  /** What a party holds after a round over the parties 1..n: party i's value at position i - 1.
      A party numbered past n contributes no value of its own. */
  function Assemble<T>(n: nat, answers: seq<T>, p: nat, own: T): (r: seq<T>)
    requires 1 <= p && (p <= n ==> p - 1 <= |answers|)
  {
    if p <= n then InsertAt(answers, p - 1, own) else answers
  }

  lemma InsertRemove<T>(s: seq<T>, i: nat, x: T)
    requires i <= |s|
    ensures RemoveAt(InsertAt(s, i, x), i) == s && InsertAt(s, i, x)[i] == x
  {
  }

  lemma RemoveInsert<T>(s: seq<T>, i: nat)
    requires i < |s|
    ensures InsertAt(RemoveAt(s, i), i, s[i]) == s
  {
  }

  /** The other parties' values, in order, and where each of them went. */
  lemma RemoveAtSkips<T>(v: seq<T>, p: nat, i: nat)
    requires 1 <= p <= |v| && 1 <= i <= |v| && i != p
    ensures SkipOwn(p, i) < |v| - 1 && RemoveAt(v, p - 1)[SkipOwn(p, i)] == v[i - 1]
  {
  }

  /** The j-counter loop over 1..=n of the exchange rounds. */
  method ExchangeVector<T>(party: nat, n: nat, own: T, answers: seq<T>) returns (r: seq<T>)
    requires 1 <= party
    requires |answers| == if party <= n then n - 1 else n
    ensures r == Assemble(n, answers, party, own)
    ensures party <= n ==> |r| == n && r[party - 1] == own && RemoveAt(r, party - 1) == answers
    ensures party > n ==> r == answers
  {
    var j := 0;
    r := [];
    var i := 1;
    while i <= n
      invariant 1 <= i <= n + 1
      invariant j == if party < i then i - 2 else i - 1
      invariant r == if party < i then answers[..party - 1] + [own] + answers[party - 1..j] else answers[..j]
    {
      if i == party {
        r := r + [own];
      } else {
        r := r + [answers[j]];
        j := j + 1;
      }
      i := i + 1;
    }
  }

  /** `format_vec_from_reads`: the count comes from the answers, the vector grows in place. */
  method FormatVecFromReads<T>(answers: seq<T>, party: nat, own: T, before: seq<T>) returns (newVec: seq<T>)
    requires 1 <= party <= |answers| + 1
    ensures newVec == before + Assemble(|answers| + 1, answers, party, own)
  {
    var j := 0;
    newVec := before;
    for i := 1 to |answers| + 2
      invariant j == if party < i then i - 2 else i - 1
      invariant newVec == before + if party < i then answers[..party - 1] + [own] + answers[party - 1..j] else answers[..j]
    {
      if i == party {
        newVec := newVec + [own];
      } else {
        newVec := newVec + [answers[j]];
        j := j + 1;
      }
    }
  }

  /** What a `get` request brought, so many seconds after the first request for the mailbox. */
  datatype Reply<T> = Reply(elapsed: nat, answer: Option<T>)

  /** Reply k is the first with an answer, and no reply before it was late enough to give up on. */
  predicate HitAt<T>(replies: seq<Reply<T>>, timeout: nat, k: nat) {
    && k < |replies| && replies[k].answer.Some?
    && forall j :: 0 <= j < k ==> replies[j].answer.None? && replies[j].elapsed <= timeout
  }

  ghost predicate Answered<T(!new)>(replies: seq<Reply<T>>, timeout: nat) {
    exists k: nat :: HitAt(replies, timeout, k)
  }

  ghost predicate Hit<T(!new)>(replies: seq<Reply<T>>, timeout: nat, answer: T) {
    exists k: nat :: HitAt(replies, timeout, k) && replies[k].answer.value == answer
  }

  /** `poll_for_broadcasts` and `poll_for_p2p`, given for each i the replies to the successive requests.
      None is the panic on a late reply without an answer, or the end of the replies. */
  method Poll<T(!new)>(party: nat, n: nat, replies: nat -> seq<Reply<T>>, timeout: nat) returns (answers: Option<seq<T>>)
    ensures answers.Some? <==> forall i: nat :: 1 <= i <= n && i != party ==> Answered(replies(i), timeout)
    ensures answers.Some? ==> |answers.value| == if 1 <= party <= n then n - 1 else n
    ensures answers.Some? && 1 <= party ==>
      forall i: nat :: 1 <= i <= n && i != party ==> Hit(replies(i), timeout, answers.value[SkipOwn(party, i)])
  {
    var ans: seq<T> := [];
    var i: nat := 1;
    while i <= n
      invariant 1 <= i <= n + 1
      invariant forall m: nat :: 1 <= m < i && m != party ==> Answered(replies(m), timeout)
      invariant |ans| == if 1 <= party < i then i - 2 else i - 1
      invariant 1 <= party ==>
        forall m: nat :: 1 <= m < i && m != party ==> Hit(replies(m), timeout, ans[SkipOwn(party, m)])
    {
      if i != party {
        var k: nat := 0;
        while k < |replies(i)| && replies(i)[k].answer.None? && replies(i)[k].elapsed <= timeout
          invariant k <= |replies(i)|
          invariant forall j :: 0 <= j < k ==> replies(i)[j].answer.None? && replies(i)[j].elapsed <= timeout
        {
          k := k + 1;
        }
        if k == |replies(i)| || replies(i)[k].answer.None? {
          assert !Answered(replies(i), timeout);
          return None;
        }
        assert Hit(replies(i), timeout, replies(i)[k].answer.value) by {
          assert HitAt(replies(i), timeout, k);
        }
        assert Answered(replies(i), timeout);
        ans := ans + [replies(i)[k].answer.value];
      }
      i := i + 1;
    }
    return Some(ans);
  }
}
