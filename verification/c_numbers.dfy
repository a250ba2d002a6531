/** Numbers in text, as the C library reads them. */
module CNumbers {
  import JsonText

  /** Values that an int holds are below this. */
  const INT_LIMIT := 0x8000_0000

  predicate IsSpace(c: char) {
    c == ' ' || (9 <= c as int <= 13)
  }

  function SkipSpaces(s: string): string {
    if s != "" && IsSpace(s[0]) then SkipSpaces(s[1..]) else s
  }

  /** atoi: spaces, a sign, digits as far as they go (results outside int are not defined). */
  function Atoi(s: string): int {
    var t := SkipSpaces(s);
    if t != "" && t[0] == '-' then -(JsonText.ReadNat(t[1..], 0).0 as int)
    else if t != "" && t[0] == '+' then JsonText.ReadNat(t[1..], 0).0
    else JsonText.ReadNat(t, 0).0
  }

  lemma AtoiOfDigits(n: nat)
    ensures Atoi(JsonText.Digits(n)) == n
  {
    var s := JsonText.Digits(n);
    assert s + "" == s;
    if n == 0 {
      assert s == "0" && s[1..] == "";
    } else {
      JsonText.ReadDigits(n, "");
      var d := JsonText.DigitValue(s[0]);
      assert JsonText.ReadNat(s, 0) == JsonText.ReadNat(s[1..], d);
    }
    assert JsonText.IsDigit(s[0]);
  }

  predicate AllDigits(s: string) {
    forall i | 0 <= i < |s| :: JsonText.IsDigit(s[i])
  }

  /** The value of a digit string, most significant digit first. */
  function Decimal(s: string): nat
    requires AllDigits(s)
  {
    if s == "" then 0 else
    assert AllDigits(s[..|s| - 1]);
    Decimal(s[..|s| - 1]) * 10 + JsonText.DigitValue(s[|s| - 1])
  }

  lemma {:induction false} ReadNatSnoc(s: string, c: char, acc: nat)
    requires AllDigits(s) && JsonText.IsDigit(c)
    ensures JsonText.ReadNat(s + [c], acc).0 == JsonText.ReadNat(s, acc).0 * 10 + JsonText.DigitValue(c)
    ensures JsonText.ReadNat(s, acc).1 == ""
  {
    if s == "" {
      assert s + [c] == [c] && [c][1..] == "";
    } else {
      assert (s + [c])[1..] == s[1..] + [c];
      ReadNatSnoc(s[1..], c, acc * 10 + JsonText.DigitValue(s[0]));
    }
  }

  lemma {:induction false} ReadNatIsDecimal(s: string)
    requires AllDigits(s)
    ensures JsonText.ReadNat(s, 0).0 == Decimal(s)
  {
    if s != "" {
      var n := |s| - 1;
      assert AllDigits(s[..n]);
      ReadNatIsDecimal(s[..n]);
      assert s == s[..n] + [s[n]];
      ReadNatSnoc(s[..n], s[n], 0);
    }
  }

  /** atoi reads a digit string as its decimal value. */
  lemma AtoiIsDecimal(s: string)
    requires AllDigits(s)
    ensures Atoi(s) == Decimal(s)
  {
    ReadNatIsDecimal(s);
    if s != "" {
      assert JsonText.IsDigit(s[0]);
    }
  }

  /** A digit string with value zero and at least one digit starts with zero. */
  lemma {:induction false} ZeroStartsWithZero(s: string)
    requires AllDigits(s) && s != "" && Decimal(s) == 0
    ensures s[0] == '0'
  {
    var n := |s| - 1;
    assert AllDigits(s[..n]);
    if n > 0 {
      ZeroStartsWithZero(s[..n]);
    }
  }
}
