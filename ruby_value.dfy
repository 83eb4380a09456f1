/**
 * The Ruby values that flow through the error library: codes, statuses,
 * messages, flags and configuration settings. Ruby's truthiness, `||` and
 * string interpolation (`"#{v}"`) are written out explicitly.
 */
module RubyValue {

  /** A Ruby object as far as the library inspects it. */
  datatype Value =
    | Nil
    | Bool(b: bool)
    | Int(i: int)
    | Sym(name: string)
    | Str(s: string)

  /** Ruby truthiness: everything except `nil` and `false` is true. */
  predicate Truthy(v: Value) {
    v != Nil && v != Bool(false)
  }

  /** Ruby's `a || b`: the left operand when it is truthy, otherwise the right one. */
  function Or(a: Value, b: Value): (r: Value)
    ensures Truthy(a) ==> r == a
    ensures !Truthy(a) ==> r == b
    ensures Truthy(r) <==> Truthy(a) || Truthy(b)
  {
    if Truthy(a) then a else b
  }

  predicate IsDigit(c: char) {
    '0' <= c <= '9'
  }

  function DigitChar(d: nat): (c: char)
    requires d < 10
    ensures IsDigit(c)
  {
    ('0' as int + d) as char
  }

  /** Decimal digits of a natural number, as `Integer#to_s` writes them. */
  function Digits(n: nat): (s: string)
    ensures |s| >= 1
    ensures forall k :: 0 <= k < |s| ==> IsDigit(s[k])
    ensures s[0] == '0' ==> n == 0
    decreases n
  {
    if n < 10 then [DigitChar(n)] else Digits(n / 10) + [DigitChar(n % 10)]
  }

  /** `Integer#to_s`: a minus sign before the digits of a negative number. */
  function IntToS(i: int): (s: string)
    ensures |s| >= 1
    ensures i < 0 <==> s[0] == '-'
    ensures forall k :: (if i < 0 then 1 else 0) <= k < |s| ==> IsDigit(s[k])
  {
    if i < 0 then "-" + Digits(-i) else Digits(i)
  }

  /** String interpolation `"#{v}"`, i.e. `v.to_s`. */
  function ToS(v: Value): (r: string)
    ensures v == Nil ==> r == ""
    ensures v.Int? ==> |r| >= 1 && (v.i < 0 <==> r[0] == '-')
    ensures v.Int? ==> forall k :: (if v.i < 0 then 1 else 0) <= k < |r| ==> IsDigit(r[k])
  {
    match v
    case Nil => ""
    case Bool(b) => if b then "true" else "false"
    case Int(i) => IntToS(i)
    case Sym(name) => name
    case Str(s) => s
  }

  lemma {:induction false} DigitsInjective(a: nat, b: nat)
    requires Digits(a) == Digits(b)
    ensures a == b
    decreases a
  {
    if a >= 10 && b >= 10 {
      var s := Digits(a);
      assert s == Digits(a / 10) + [DigitChar(a % 10)];
      assert s == Digits(b / 10) + [DigitChar(b % 10)];
      assert s[..|s| - 1] == Digits(a / 10);
      assert s[..|s| - 1] == Digits(b / 10);
      assert DigitChar(a % 10) == DigitChar(b % 10);
      DigitsInjective(a / 10, b / 10);
    }
  }

  /** Distinct integers print differently. */
  lemma IntToSInjective(a: int, b: int)
    requires IntToS(a) == IntToS(b)
    ensures a == b
  {
    if a < 0 && b < 0 {
      assert Digits(-a) == IntToS(a)[1..];
      assert Digits(-b) == IntToS(b)[1..];
      DigitsInjective(-a, -b);
    } else if a >= 0 && b >= 0 {
      DigitsInjective(a, b);
    }
  }
}
