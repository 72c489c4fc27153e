/** Numbers in decimal digits. */
module Numerals {

  predicate Digit(c: char)
  {
    '0' <= c <= '9'
  }

  predicate Digits(s: string)
  {
    forall k :: 0 <= k < |s| ==> Digit(s[k])
  }

  function Value(s: string): (n: nat)
    requires Digits(s)
  {
    if s == "" then 0 else 10 * Value(s[..|s| - 1]) + (s[|s| - 1] - '0') as nat
  }

  function Pow10(w: nat): (n: nat)
    ensures n >= 1
  {
    if w == 0 then 1 else 10 * Pow10(w - 1)
  }

  /** `String(n).padStart(w, '0')` for a number of at most `w` digits. */
  function Pad(n: nat, w: nat): (s: string)
    ensures |s| == w && Digits(s)
  {
    if w == 0 then "" else Pad(n / 10, w - 1) + ['0' + (n % 10) as char]
  }

  lemma {:induction false} ValuePad(n: nat, w: nat)
    requires n < Pow10(w)
    ensures Value(Pad(n, w)) == n
  {
    if w > 0 {
      ValuePad(n / 10, w - 1);
      var s := Pad(n, w);
      assert s[..w - 1] == Pad(n / 10, w - 1);
    }
  }

  lemma {:induction false} PadValue(s: string)
    requires Digits(s)
    ensures Value(s) < Pow10(|s|) && Pad(Value(s), |s|) == s
  {
    if s != "" {
      var t := s[..|s| - 1];
      PadValue(t);
      var d := (s[|s| - 1] - '0') as nat;
      assert Value(s) / 10 == Value(t) && Value(s) % 10 == d;
      assert s == t + ['0' + d as char];
    }
  }
}
