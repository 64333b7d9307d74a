/** Classes of characters, in the C locale, and decimal numbers. */
module Chars {
  predicate IsDigit(c: char) { '0' <= c <= '9' }
  predicate IsHexDigit(c: char) { IsDigit(c) || 'a' <= c <= 'f' || 'A' <= c <= 'F' }
  predicate IsSpace(c: char) { c == ' ' || '\t' <= c <= '\r' }

  predicate AllDigits(s: string) { forall k :: 0 <= k < |s| ==> IsDigit(s[k]) }

  function DigitsValue(s: string): nat {
    if s == [] then 0
    else 10 * DigitsValue(s[..|s| - 1]) + (if IsDigit(s[|s| - 1]) then s[|s| - 1] as nat - '0' as nat else 0)
  }

  /** The decimal digits of a number. */
  function Decimal(n: nat): string {
    (if n < 10 then [] else Decimal(n / 10)) + [('0' as int + n % 10) as char]
  }

  lemma {:induction false} DecimalValue(n: nat)
    ensures DigitsValue(Decimal(n)) == n && Decimal(n) != []
    ensures AllDigits(Decimal(n)) && (Decimal(n)[0] == '0' ==> Decimal(n) == "0")
  {
    var last := [('0' as int + n % 10) as char];
    assert DigitsValue(last) == n % 10 by { assert last[..0] == []; }
    if n >= 10 {
      DecimalValue(n / 10);
      assert Decimal(n)[..|Decimal(n)| - 1] == Decimal(n / 10);
    }
  }

  /** Digits without a leading zero are those of their value. */
  lemma {:induction false} ValueDecimal(s: string)
    requires s != [] && AllDigits(s) && (s[0] == '0' ==> |s| == 1)
    ensures Decimal(DigitsValue(s)) == s
  {
    var init := s[..|s| - 1];
    if |s| > 1 {
      ValueDecimal(init);
      assert Decimal(0) == "0";
      assert DigitsValue(s) / 10 == DigitsValue(init) > 0;
    }
    assert init + [s[|s| - 1]] == s;
  }
}
