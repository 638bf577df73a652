/** Value types shared by the models. */
module Common {

  /** One octet. */
  type byte = b: int | 0 <= b < 256

  datatype Option<+T> = None | Some(value: T)

  datatype Result<+T, +E> = Ok(value: T) | Err(error: E)

  function Min(a: int, b: int): int {
    if a < b then a else b
  }

  predicate Distinct<T(==)>(s: seq<T>) {
    forall i, j :: 0 <= i < j < |s| ==> s[i] != s[j]
  }
}

/** Decimal notation, as the `%d` and `%03d` verbs print a non-negative number. */
module Decimal {

  predicate AreDigits(ds: seq<nat>) {
    forall i :: 0 <= i < |ds| ==> ds[i] < 10
  }

  /** The decimal digits of `n`, most significant first. */
  function Digits(n: nat): (ds: seq<nat>)
    ensures |ds| >= 1 && AreDigits(ds)
  {
    if n < 10 then [n] else Digits(n / 10) + [n % 10]
  }

  /** The number a digit string denotes. */
  function Value(ds: seq<nat>): nat {
    if ds == [] then 0 else Value(ds[..|ds| - 1]) * 10 + ds[|ds| - 1]
  }

  /** Digits padded with leading zeros to a width of three. */
  function Pad3(ds: seq<nat>): (r: seq<nat>)
    ensures |r| >= 3
    ensures Value(r) == Value(ds)
    decreases 3 - |ds|
  {
    if |ds| >= 3 then ds else LeadingZero(ds); Pad3([0] + ds)
  }

  lemma {:induction false} LeadingZero(ds: seq<nat>)
    ensures Value([0] + ds) == Value(ds)
  {
    if ds != [] {
      LeadingZero(ds[..|ds| - 1]);
      assert ([0] + ds)[..|ds|] == [0] + ds[..|ds| - 1];
    }
  }

  lemma {:induction false} ValueOfDigits(n: nat)
    ensures Value(Digits(n)) == n
  {
    if n >= 10 {
      ValueOfDigits(n / 10);
      assert Digits(n)[..|Digits(n)| - 1] == Digits(n / 10);
    }
  }

  lemma FiveDigits(n: nat)
    requires n < 100000
    ensures |Digits(n)| <= 5
  {
    assert |Digits(n / 10000)| == 1;
    assert |Digits(n / 1000)| <= 2;
    assert |Digits(n / 100)| <= 3;
    assert |Digits(n / 10)| <= 4;
  }
}
