/** The dedup key of a message, `account:mailbox:uid`, and when it is unambiguous. */
module Keys {

  function Digit(d: nat): char
    requires d < 10
  {
    '0' + d as char
  }

  /** The `%d` rendering of a UID. */
  function Decimal(n: nat): string {
    if n < 10 then [Digit(n)] else Decimal(n / 10) + [Digit(n % 10)]
  }

  function MakeAccountUID(account: string, mailbox: string, uid: nat): string {
    account + ":" + mailbox + ":" + Decimal(uid)
  }

  /** Reads a rendered number back. */
  function Value(s: string): int {
    if s == [] then 0 else 10 * Value(s[..|s| - 1]) + (s[|s| - 1] as int - '0' as int)
  }

  lemma {:induction false} DecimalRoundTrip(n: nat)
    ensures Value(Decimal(n)) == n
    ensures ':' !in Decimal(n)
  {
    if n >= 10 {
      DecimalRoundTrip(n / 10);
      assert Decimal(n)[..|Decimal(n)| - 1] == Decimal(n / 10);
    } else {
      assert Decimal(n)[..0] == [];
    }
  }

  /** A string has only one split at its last colon. */
  lemma LastColon(x: string, d: string, y: string, e: string)
    requires x + ":" + d == y + ":" + e && ':' !in d && ':' !in e
    ensures x == y && d == e
  {
    var s := x + ":" + d;
    assert s[|x|] == ':' && s[|y|] == ':';
    forall i | |x| < i < |s| ensures s[i] != ':' { assert s[i] == d[i - |x| - 1]; }
    forall i | |y| < i < |s| ensures s[i] != ':' { assert s[i] == e[i - |y| - 1]; }
    assert x == s[..|x|] && y == s[..|y|];
    assert d == s[|x| + 1..] && e == s[|y| + 1..];
  }

  /** A string has only one split at its first colon. */
  lemma FirstColon(a: string, m: string, b: string, n: string)
    requires a + ":" + m == b + ":" + n && ':' !in a && ':' !in b
    ensures a == b && m == n
  {
    var s := a + ":" + m;
    assert s[|a|] == ':' && s[|b|] == ':';
    forall i | 0 <= i < |a| ensures s[i] != ':' { assert s[i] == a[i]; }
    forall i | 0 <= i < |b| ensures s[i] != ':' { assert s[i] == b[i]; }
    assert a == s[..|a|] && b == s[..|b|];
    assert m == s[|a| + 1..] && n == s[|b| + 1..];
  }

  /** Exactly when two messages get the same key, for all names. */
  lemma SameKeyExact(a1: string, m1: string, u1: nat, a2: string, m2: string, u2: nat)
    ensures MakeAccountUID(a1, m1, u1) == MakeAccountUID(a2, m2, u2) <==>
      u1 == u2 && a1 + ":" + m1 == a2 + ":" + m2
  {
    DecimalRoundTrip(u1);
    DecimalRoundTrip(u2);
    if MakeAccountUID(a1, m1, u1) == MakeAccountUID(a2, m2, u2) {
      assert a1 + ":" + m1 + ":" + Decimal(u1) == (a1 + ":" + m1) + ":" + Decimal(u1);
      LastColon(a1 + ":" + m1, Decimal(u1), a2 + ":" + m2, Decimal(u2));
    }
  }

  /** For account names without a colon the key is injective; mailbox names may contain one. */
  lemma KeyInjective(a1: string, m1: string, u1: nat, a2: string, m2: string, u2: nat)
    requires ':' !in a1 && ':' !in a2
    requires MakeAccountUID(a1, m1, u1) == MakeAccountUID(a2, m2, u2)
    ensures a1 == a2 && m1 == m2 && u1 == u2
  {
    SameKeyExact(a1, m1, u1, a2, m2, u2);
    FirstColon(a1, m1, a2, m2);
  }

  /** With a colon in an account name two different messages can share a key. */
  lemma ColonCollides(u: nat)
    ensures MakeAccountUID("a:b", "c", u) == MakeAccountUID("a", "b:c", u)
  {
    assert "a:b" + ":" + "c" == "a" + ":" + "b:c";
    SameKeyExact("a:b", "c", u, "a", "b:c", u);
  }

  /** A UID is written in decimal digits, without leading zeros. */
  lemma {:induction false} DecimalDigits(n: nat)
    ensures Decimal(n) != [] && (n > 0 ==> Decimal(n)[0] != '0')
    ensures forall i :: 0 <= i < |Decimal(n)| ==> '0' <= Decimal(n)[i] <= '9'
  {
    if n >= 10 { DecimalDigits(n / 10); }
  }

  lemma TwoDigits()
    ensures Decimal(42) == ['4', '2']
  {
    assert Decimal(4) == ['4'];
  }

  /** The key as it is written. */
  lemma KeyWritten()
    ensures MakeAccountUID("acc", "INBOX", 7) == "acc:INBOX:7"
  {
    assert Decimal(7) == "7";
  }
}
