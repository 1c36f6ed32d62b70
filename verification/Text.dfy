/**
 Decimal numerals, as printf's %d writes them for the label and string numbers.
 */
module Text {

  function Digit(n: nat): char
    requires n < 10
  {
    "0123456789"[n]
  }

  function Dec(n: nat): (r: string)
    ensures |r| >= 1
  {
    if n < 10 then [Digit(n)] else Dec(n / 10) + [Digit(n % 10)]
  }

  function Undec(s: string): nat {
    if s == [] then 0
    else
      var d := s[|s| - 1] as int - '0' as int;
      10 * Undec(s[..|s| - 1]) + (if 0 <= d < 10 then d else 0)
  }

  lemma DigitValue(n: nat)
    requires n < 10
    ensures Digit(n) as int - '0' as int == n
  {
    assert "0123456789"[0] == '0' && "0123456789"[1] == '1' && "0123456789"[2] == '2';
    assert "0123456789"[3] == '3' && "0123456789"[4] == '4' && "0123456789"[5] == '5';
    assert "0123456789"[6] == '6' && "0123456789"[7] == '7' && "0123456789"[8] == '8';
  }

  lemma {:induction false} UndecDec(n: nat)
    ensures Undec(Dec(n)) == n
  {
    if n < 10 {
      DigitValue(n);
      assert [Digit(n)][..0] == [];
      assert Undec([]) == 0;
    } else {
      UndecDec(n / 10);
      DigitValue(n % 10);
      var r := Dec(n / 10) + [Digit(n % 10)];
      assert r[..|r| - 1] == Dec(n / 10);
    }
  }

  lemma DecInjective(m: nat, n: nat)
    requires Dec(m) == Dec(n)
    ensures m == n
  {
    UndecDec(m);
    UndecDec(n);
  }
}
