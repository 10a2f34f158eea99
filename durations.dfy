/** Call durations, in whole seconds, split into minutes and the seconds left
    over (`Math.floor(seconds / 60)` and `seconds % 60`) and rendered as
    `<m>m <s>s`. Durations are non-negative here, so JavaScript's truncating
    `%` and Dafny's agree. */
module Durations {
  import opened Text

  function Minutes(n: nat): (m: nat)
    ensures m * 60 <= n < m * 60 + 60
  {
    n / 60
  }

  /** The remainder: together with the minutes it gives back the duration. */
  function Seconds(n: nat): (s: nat)
    ensures s < 60 && Minutes(n) * 60 + s == n
  {
    n % 60
  }

  /** `${minutes}m ${remainingSeconds}s`. */
  function MinSecText(n: nat): (r: string)
    ensures |r| >= 4 && IsDigit(r[0]) && r[|r| - 1] == 's'
  {
    NatToString(Minutes(n)) + "m " + NatToString(Seconds(n)) + "s"
  }

  /** A run of digits followed by a non-digit can be split off only one way. */
  lemma DigitRunUnique(x: string, a: string, y: string, b: string)
    requires AllDigits(x) && AllDigits(y)
    requires a != [] && b != [] && !IsDigit(a[0]) && !IsDigit(b[0])
    requires x + a == y + b
    ensures x == y && a == b
  {
    assert x == (x + a)[..|x|];
    assert y == (y + b)[..|y|];
  }

  /** The minutes and the seconds can be read back from the text. */
  lemma MinSecPartsUnique(m1: string, s1: string, m2: string, s2: string)
    requires AllDigits(m1) && AllDigits(s1) && AllDigits(m2) && AllDigits(s2)
    requires m1 + "m " + s1 + "s" == m2 + "m " + s2 + "s"
    ensures m1 == m2 && s1 == s2
  {
    var t1, t2 := s1 + "s", s2 + "s";
    assert m1 + "m " + s1 + "s" == m1 + ("m " + t1);
    assert m2 + "m " + s2 + "s" == m2 + ("m " + t2);
    DigitRunUnique(m1, "m " + t1, m2, "m " + t2);
    assert t1 == ("m " + t1)[2..] && t2 == ("m " + t2)[2..];
    DigitRunUnique(s1, "s", s2, "s");
  }

  /** Distinct durations are rendered differently. */
  lemma MinSecTextInjective(n1: nat, n2: nat)
    requires MinSecText(n1) == MinSecText(n2)
    ensures n1 == n2
  {
    MinSecPartsUnique(NatToString(Minutes(n1)), NatToString(Seconds(n1)),
                      NatToString(Minutes(n2)), NatToString(Seconds(n2)));
    NatToStringInjective(Minutes(n1), Minutes(n2));
    NatToStringInjective(Seconds(n1), Seconds(n2));
  }
}
