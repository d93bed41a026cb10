/** Numbers as they stand in names: the temporaries and attributes of the GLSL that is generated, and the semantics of
    a vertex shader's inputs. */
module Decimals {
  /** The number in decimal, as printf's %d and %u have it. */
  function Digits(n: nat): (s: string)
    ensures |s| > 0
    ensures forall i :: 0 <= i < |s| ==> '0' <= s[i] <= '9'
  {
    var d := ['0' + (n % 10) as char];
    if n < 10 then d else Digits(n / 10) + d
  }

  /** Different numbers have different decimals. */
  lemma {:induction false} DigitsInjective(a: nat, b: nat)
    requires Digits(a) == Digits(b)
    ensures a == b
  {
    var s := Digits(a);
    LastDigit(a);
    LastDigit(b);
    assert (a % 10) as char == (b % 10) as char;
    if 10 <= a && 10 <= b {
      assert Digits(a / 10) == Digits(b / 10);
      DigitsInjective(a / 10, b / 10);
    }
  }

  lemma {:induction false} LastDigit(n: nat)
    ensures var s := Digits(n);
            && s[|s| - 1] == '0' + (n % 10) as char
            && s[..|s| - 1] == (if n < 10 then "" else Digits(n / 10))
            && |s| > 0 && (|s| == 1 <==> n < 10)
  {
  }
}
