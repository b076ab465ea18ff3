/** Small datatypes and helpers shared by the other modules. */
module Wrappers {

  datatype Option<+T> = None | Some(value: T)

  /** The decimal digits of a number, as Go's %d verb and strconv print it. */
  function Digits(n: nat): (s: string)
    ensures |s| > 0
    ensures forall c | c in s :: '0' <= c <= '9'
  {
    var last := ['0' + (n % 10) as char];
    if n < 10 then last else Digits(n / 10) + last
  }

  function Decimal(n: int): (s: string) {
    if n < 0 then "-" + Digits(-n) else Digits(n)
  }

  /** The number a digit string denotes; None when some character is not a digit. */
  function DigitsValue(s: string): (r: Option<nat>) {
    if s == [] then Some(0)
    else
      var front := DigitsValue(s[..|s| - 1]);
      var c := s[|s| - 1];
      if front.None? || !('0' <= c <= '9') then None
      else Some(10 * front.value + (c as int - '0' as int))
  }

  lemma {:induction false} DigitsValueOfDigits(n: nat)
    ensures DigitsValue(Digits(n)) == Some(n)
  {
    var s := Digits(n);
    if n < 10 {
      assert s[..|s| - 1] == [];
    } else {
      DigitsValueOfDigits(n / 10);
      assert s[..|s| - 1] == Digits(n / 10);
    }
  }

  const MAX_INT64: int := 0x7fff_ffff_ffff_ffff
  const MIN_INT64: int := -0x8000_0000_0000_0000

  /** strconv.Atoi on a 64-bit platform: an optional sign, then at least one digit, in range. */
  function Atoi(s: string): (r: Option<int>) {
    var signed := |s| > 0 && (s[0] == '-' || s[0] == '+');
    var digits := if signed then s[1..] else s;
    var value := DigitsValue(digits);
    if digits == [] || value.None? then None
    else
      var v: int := if signed && s[0] == '-' then 0 - value.value else value.value;
      if MIN_INT64 <= v <= MAX_INT64 then Some(v) else None
  }

  lemma AtoiOfDigits(n: nat)
    requires n <= MAX_INT64
    ensures Atoi(Digits(n)) == Some(n)
  {
    DigitsValueOfDigits(n);
    assert Digits(n)[0] in Digits(n);
  }

  lemma DecimalInjective(a: int, b: int)
    requires Decimal(a) == Decimal(b)
    ensures a == b
  {
    DigitsValueOfDigits(if a < 0 then -a else a);
    DigitsValueOfDigits(if b < 0 then -b else b);
    var da := Digits(if a < 0 then -a else a);
    var db := Digits(if b < 0 then -b else b);
    assert da[0] in da && db[0] in db;
    if a < 0 {
      assert Decimal(a)[1..] == da;
    }
    if b < 0 {
      assert Decimal(b)[1..] == db;
    }
  }
}
