/** Python's `str(n)` for a natural number: decimal digits, no leading
    zero. */
module Decimal {
  import opened Strings

  function Digit(d: nat): (c: char)
    requires d < 10
  {
    ('0' as int + d) as char
  }

  /** `str(n)`. */
  function NatToString(n: nat): (s: string)
    ensures |s| >= 1
  {
    if n < 10 then [Digit(n)] else NatToString(n / 10) + [Digit(n % 10)]
  }

  /** A larger number never has fewer digits. */
  lemma {:induction false} DigitsMonotone(a: nat, b: nat)
    requires a <= b
    ensures |NatToString(a)| <= |NatToString(b)|
    decreases b
  {
    if a >= 10 {
      DigitsMonotone(a / 10, b / 10);
    }
  }

  /** Between numbers with the same number of digits, string order is
      numeric order. */
  lemma {:induction false} SameLengthOrder(a: nat, b: nat)
    requires a < b && |NatToString(a)| == |NatToString(b)|
    ensures StrLess(NatToString(a), NatToString(b))
    decreases b
  {
    if b >= 10 {
      var sa, sb := NatToString(a / 10), NatToString(b / 10);
      assert a >= 10;
      if a / 10 < b / 10 {
        SameLengthOrder(a / 10, b / 10);
        StrLessExtend(sa, sb, [Digit(a % 10)], [Digit(b % 10)]);
      } else {
        StrLessCommonPrefix(sa, [Digit(a % 10)], [Digit(b % 10)]);
      }
    }
  }

  /** Under the key (length, string), numbers written in decimal compare as
      numbers. */
  lemma DecimalKeyOrder(a: nat, b: nat)
    ensures KeyLess(NatToString(a), NatToString(b)) <==> a < b
  {
    if a < b {
      DigitsMonotone(a, b);
      if |NatToString(a)| == |NatToString(b)| {
        SameLengthOrder(a, b);
      }
    } else if b < a {
      DigitsMonotone(b, a);
      if |NatToString(a)| == |NatToString(b)| {
        SameLengthOrder(b, a);
      }
      KeyLessTotal(NatToString(a), NatToString(b));
    } else {
      KeyLessTotal(NatToString(a), NatToString(b));
    }
  }

  /** Different numbers are written differently. */
  lemma NatToStringInjective(a: nat, b: nat)
    requires a != b
    ensures NatToString(a) != NatToString(b)
  {
    DecimalKeyOrder(a, b);
    DecimalKeyOrder(b, a);
    KeyLessTotal(NatToString(a), NatToString(a));
  }
}
