/** Identifiers built from the clock: a match id is "match_" followed by the
    millisecond timestamp in decimal, a sent message "msg_…", an automatic
    reply "msg_r_…". Two ids collide exactly when the clock readings do. */
module Ids {

  predicate IsDigit(c: char)
  {
    '0' <= c <= '9'
  }

  predicate AllDigits(s: string)
  {
    forall i :: 0 <= i < |s| ==> IsDigit(s[i])
  }

  function DigitChar(d: nat): (c: char)
    requires d < 10
    ensures IsDigit(c) && (c as int) - ('0' as int) == d
  {
    (('0' as int) + d) as char
  }

  /** Decimal text of a timestamp, as a template literal prints it. */
  function Decimal(n: nat): (s: string)
    ensures |s| >= 1 && AllDigits(s)
    decreases n
  {
    if n < 10 then [DigitChar(n)] else Decimal(n / 10) + [DigitChar(n % 10)]
  }

  /** Reads a digit string back as a number; the partner of Decimal. */
  function ParseDecimal(s: string): nat
    requires AllDigits(s)
  {
    if s == [] then 0
    else ParseDecimal(s[..|s| - 1]) * 10 + ((s[|s| - 1] as int) - ('0' as int))
  }

  lemma {:induction false} DecimalRoundTrip(n: nat)
    ensures ParseDecimal(Decimal(n)) == n
    decreases n
  {
    if n >= 10 {
      var s := Decimal(n);
      assert s[..|s| - 1] == Decimal(n / 10);
      DecimalRoundTrip(n / 10);
    }
  }

  lemma DecimalInjective(a: nat, b: nat)
    ensures Decimal(a) == Decimal(b) <==> a == b
  {
    if Decimal(a) == Decimal(b) {
      DecimalRoundTrip(a);
      DecimalRoundTrip(b);
    }
  }

  function MatchId(now: nat): string
  {
    "match_" + Decimal(now)
  }

  function MessageId(now: nat): string
  {
    "msg_" + Decimal(now)
  }

  function ReplyId(now: nat): string
  {
    "msg_r_" + Decimal(now)
  }

  /** Match ids are unique only as long as no two matches are created in the same millisecond. */
  lemma MatchIdsCollideOnlyOnSameClock(a: nat, b: nat)
    ensures MatchId(a) == MatchId(b) <==> a == b
  {
    if MatchId(a) == MatchId(b) {
      assert Decimal(a) == MatchId(a)[6..] == MatchId(b)[6..] == Decimal(b);
      DecimalInjective(a, b);
    }
  }

  /** A message id and a reply id never collide: after "msg_" one has a digit, the other 'r'. */
  lemma MessageAndReplyIdsDiffer(a: nat, b: nat)
    ensures MessageId(a) != ReplyId(b)
  {
    assert MessageId(a)[4] != ReplyId(b)[4];
  }
}
