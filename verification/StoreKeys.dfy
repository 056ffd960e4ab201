/** The flat string keys under which the manager's store keeps mailboxes and signup records. */
module StoreKeys {

  /** What a key stands for: one mailbox per (sender, recipient, round, session), or a signup record. */
  datatype Cell =
    | Broadcast(from: nat, round: string, uuid: string)
    | PeerToPeer(from: nat, to: nat, round: string, uuid: string)
    | KeygenSignup(curve: string)
    | SignSignup(curve: string, roomId: string)

  function Digit(d: nat): (c: char)
    requires d < 10
    ensures '0' <= c <= '9'
  {
    "0123456789"[d]
  }

  /** The decimal form of a party number. */
  function Decimal(n: nat): (s: string)
    ensures s != "" && forall k :: 0 <= k < |s| ==> '0' <= s[k] <= '9'
  {
    if n < 10 then [Digit(n)] else Decimal(n / 10) + [Digit(n % 10)]
  }

  function KeyOf(c: Cell): string {
    match c
    case Broadcast(from, round, uuid) => Decimal(from) + "-" + round + "-" + uuid
    case PeerToPeer(from, to, round, uuid) => Decimal(from) + "-" + Decimal(to) + "-" + round + "-" + uuid
    case KeygenSignup(curve) => "signup-keygen-" + curve
    case SignSignup(curve, roomId) => "signup-sign-" + curve + roomId
  }

  /** Every round label of the protocols: a letter first, and no dash. */
  predicate RoundName(r: string) {
    r != "" && (('a' <= r[0] <= 'z') || ('A' <= r[0] <= 'Z')) && '-' !in r
  }

  /** The cells the programs use; a uuid or a room id may be any text at all. */
  predicate WellFormed(c: Cell) {
    match c
    case Broadcast(_, round, _) => RoundName(round)
    case PeerToPeer(_, _, round, _) => RoundName(round)
    case KeygenSignup(_) => true
    case SignSignup(curve, _) => curve == "ECDSA" || curve == "EdDSA"
  }

  /** Text before the first dash, and the text after it, are determined by the whole. */
  lemma SplitAtDash(a: string, r: string, b: string, s: string)
    requires '-' !in a && '-' !in b
    requires a + "-" + r == b + "-" + s
    ensures a == b && r == s
  {
    var w := a + "-" + r;
    FirstDash(a, r);
    FirstDash(b, s);
    assert |a| == |b|;
    assert a == w[..|a|] == b;
    assert r == w[|a| + 1..] == s;
  }

  lemma FirstDash(a: string, r: string)
    requires '-' !in a
    ensures (a + "-" + r)[|a|] == '-'
    ensures forall k :: 0 <= k < |a| ==> (a + "-" + r)[k] != '-'
  {
    forall k | 0 <= k < |a| ensures (a + "-" + r)[k] != '-' {
      assert a[k] in a;
    }
  }

  lemma {:induction false} DecimalInjective(m: nat, n: nat)
    requires Decimal(m) == Decimal(n)
    ensures m == n
  {
    var s := Decimal(m);
    assert s[|s| - 1] == Digit(m % 10) && s[|s| - 1] == Digit(n % 10);
    assert m % 10 == n % 10;
    if m >= 10 && n >= 10 {
      assert Decimal(m / 10) == s[..|s| - 1] == Decimal(n / 10);
      DecimalInjective(m / 10, n / 10);
    }
  }

  /** The number that decimal digits stand for. */
  function NumberOf(digits: string): (n: nat)
    requires forall k :: 0 <= k < |digits| ==> '0' <= digits[k] <= '9'
  {
    if digits == "" then 0
    else 10 * NumberOf(digits[..|digits| - 1]) + (digits[|digits| - 1] as int - '0' as int)
  }

  /** The digits are the usual ones, highest first, without a leading zero. */
  lemma {:induction false} DecimalReads(n: nat)
    ensures NumberOf(Decimal(n)) == n && (Decimal(n)[0] == '0' ==> n == 0)
  {
    DigitValue(n % 10);
    if n >= 10 {
      DecimalReads(n / 10);
      assert Decimal(n)[..|Decimal(n)| - 1] == Decimal(n / 10);
    }
  }

  lemma DigitValue(d: nat)
    requires d < 10
    ensures Digit(d) as int - '0' as int == d
  {
  }

  /** How keys look: party 12's broadcast, and its message to party 3. */
  lemma KeysLookLike()
    ensures KeyOf(Broadcast(12, "r0", "A-1")) == "12-r0-A-1"
    ensures KeyOf(PeerToPeer(12, 3, "r3", "A")) == "12-3-r3-A"
  {
    TwoDigits();
    assert "12" + "-" + "r0" + "-" + "A-1" == "12-r0-A-1";
    assert "12" + "-" + "3" + "-" + "r3" + "-" + "A" == "12-3-r3-A";
  }

  lemma TwoDigits()
    ensures Decimal(12) == "12" && Decimal(3) == "3"
  {
    assert Decimal(1) == "1";
  }

  lemma {:induction false} NoDash(n: nat)
    ensures '-' !in Decimal(n)
  {
  }

  /** What follows the first dash of a mailbox key. */
  function Tail(c: Cell): string
    requires c.Broadcast? || c.PeerToPeer?
  {
    match c
    case Broadcast(_, round, uuid) => round + "-" + uuid
    case PeerToPeer(_, to, round, uuid) => Decimal(to) + "-" + round + "-" + uuid
  }

  lemma MailboxKey(c: Cell)
    requires c.Broadcast? || c.PeerToPeer?
    ensures KeyOf(c) == Decimal(c.from) + "-" + Tail(c)
  {
    assert KeyOf(c) == Decimal(c.from) + "-" + Tail(c) by {
      match c
      case Broadcast(from, round, uuid) =>
        assert Decimal(from) + "-" + round + "-" + uuid == Decimal(from) + "-" + (round + "-" + uuid);
      case PeerToPeer(from, to, round, uuid) =>
        assert Decimal(from) + "-" + Decimal(to) + "-" + round + "-" + uuid
            == Decimal(from) + "-" + (Decimal(to) + "-" + round + "-" + uuid);
    }
  }

  lemma TailStart(c: Cell)
    requires (c.Broadcast? || c.PeerToPeer?) && WellFormed(c)
    ensures Tail(c) != "" && (('0' <= Tail(c)[0] <= '9') <==> c.PeerToPeer?)
  {
  }

  lemma TailsInjective(c: Cell, d: Cell)
    requires c.Broadcast? || c.PeerToPeer?
    requires d.Broadcast? || d.PeerToPeer?
    requires WellFormed(c) && WellFormed(d) && c.from == d.from && Tail(c) == Tail(d)
    ensures c == d
  {
    TailStart(c);
    TailStart(d);
    if c.Broadcast? && d.Broadcast? {
      SplitAtDash(c.round, c.uuid, d.round, d.uuid);
    } else if c.PeerToPeer? && d.PeerToPeer? {
      NoDash(c.to);
      NoDash(d.to);
      assert Tail(c) == Decimal(c.to) + "-" + (c.round + "-" + c.uuid);
      assert Tail(d) == Decimal(d.to) + "-" + (d.round + "-" + d.uuid);
      SplitAtDash(Decimal(c.to), c.round + "-" + c.uuid, Decimal(d.to), d.round + "-" + d.uuid);
      DecimalInjective(c.to, d.to);
      SplitAtDash(c.round, c.uuid, d.round, d.uuid);
    }
  }

  lemma SignupKeyStart(c: Cell)
    requires c.KeygenSignup? || c.SignSignup?
    ensures |KeyOf(c)| >= 8 && KeyOf(c)[0] == 's'
    ensures KeyOf(c)[7] == if c.KeygenSignup? then 'k' else 's'
  {
    assert "signup-keygen-"[7] == 'k' && "signup-sign-"[7] == 's';
  }

  /** No two cells share a key: the flat store is one mailbox per cell. */
  lemma KeysInjective(c: Cell, d: Cell)
    requires WellFormed(c) && WellFormed(d) && KeyOf(c) == KeyOf(d)
    ensures c == d
  {
    if (c.Broadcast? || c.PeerToPeer?) && (d.Broadcast? || d.PeerToPeer?) {
      MailboxKey(c);
      MailboxKey(d);
      NoDash(c.from);
      NoDash(d.from);
      SplitAtDash(Decimal(c.from), Tail(c), Decimal(d.from), Tail(d));
      DecimalInjective(c.from, d.from);
      TailsInjective(c, d);
    } else if c.Broadcast? || c.PeerToPeer? {
      MailboxKey(c);
      SignupKeyStart(d);
    } else if d.Broadcast? || d.PeerToPeer? {
      MailboxKey(d);
      SignupKeyStart(c);
    } else {
      SignupKeyStart(c);
      SignupKeyStart(d);
      if c.KeygenSignup? {
        assert c.curve == KeyOf(c)[14..] && d.curve == KeyOf(d)[14..];
      } else {
        SignKeyParts(c);
        SignKeyParts(d);
      }
    }
  }

  lemma SignKeyParts(c: Cell)
    requires c.SignSignup? && WellFormed(c)
    ensures |KeyOf(c)| >= 17 && c.curve == KeyOf(c)[12..17] && c.roomId == KeyOf(c)[17..]
  {
    assert |"signup-sign-"| == 12 && |c.curve| == 5;
  }
}
