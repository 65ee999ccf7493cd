/** The `input` listener on the telephone field (script.js, enhanceFormFields):
    keep the ASCII digits and lay them out as `ddd`, `ddd-d..` or `ddd-ddd-d..`. */
module PhoneFormat {
  import opened JsValues

  /** `s.replace(/\D/g, '')`: the ASCII digits of `s`, in order. */
  function Digits(s: string): (r: string)
    ensures |r| <= |s|
    ensures forall k | 0 <= k < |r| :: IsAsciiDigit(r[k])
  {
    if s == [] then [] else (if IsAsciiDigit(s[0]) then [s[0]] else []) + Digits(s[1..])
  }

  predicate AllDigits(s: string) {
    forall k | 0 <= k < |s| :: IsAsciiDigit(s[k])
  }

  /** The value the listener writes back into the field. */
  function FormatPhone(raw: string): (r: string)
    // only digits and hyphens come out
    ensures forall k | 0 <= k < |r| :: r[k] == '-' || IsAsciiDigit(r[k])
    // one hyphen per group boundary that the digit count reaches
    ensures var n := |Digits(raw)|;
      |r| == (if n <= 3 then n else if n <= 6 then n + 1 else n + 2)
    ensures var n := |Digits(raw)|;
      forall k | 0 <= k < |r| :: r[k] == '-' <==> (k == 3 && n > 3) || (k == 7 && n > 6)
  {
    var d := Digits(raw);
    if 3 < |d| <= 6 then d[..3] + "-" + d[3..]
    else if |d| > 6 then d[..3] + "-" + d[3..6] + "-" + d[6..]
    else d
  }

  lemma {:induction false} DigitsAppend(a: string, b: string)
    ensures Digits(a + b) == Digits(a) + Digits(b)
  {
    if a == [] {
      assert a + b == b;
    } else {
      assert (a + b)[1..] == a[1..] + b;
      DigitsAppend(a[1..], b);
    }
  }

  lemma {:induction false} DigitsOfDigitString(d: string)
    requires AllDigits(d)
    ensures Digits(d) == d
  {
    if d != [] {
      DigitsOfDigitString(d[1..]);
      assert d == [d[0]] + d[1..];
    }
  }

  /** A string is its own digit string exactly when it is made of digits. */
  lemma {:induction false} DigitsFixedIff(s: string)
    ensures Digits(s) == s <==> AllDigits(s)
  {
    if AllDigits(s) {
      DigitsOfDigitString(s);
    }
  }

  /** Joining two digit strings with a hyphen keeps exactly their digits. */
  lemma DigitsAcrossHyphen(a: string, b: string)
    requires AllDigits(a) && AllDigits(b)
    ensures Digits(a + "-" + b) == a + b
  {
    var h := "-";
    DigitsAppend(a + h, b);
    DigitsAppend(a, h);
    assert Digits(h) == [];
    DigitsOfDigitString(a);
    DigitsOfDigitString(b);
  }

  /** Removing the hyphens from the formatted value gives back the input's digits. */
  lemma FormatPreservesDigits(raw: string)
    ensures Digits(FormatPhone(raw)) == Digits(raw)
  {
    var d := Digits(raw);
    if 3 < |d| <= 6 {
      DigitsAcrossHyphen(d[..3], d[3..]);
      assert d[..3] + d[3..] == d;
    } else if |d| > 6 {
      var first := d[..3] + "-" + d[3..6];
      DigitsAcrossHyphen(d[..3], d[3..6]);
      assert d[..3] + d[3..6] == d[..6];
      DigitsAcrossHyphen(d[..6], d[6..]) by {
        assert AllDigits(d[..6]);
      }
      var h := "-";
      DigitsAppend(first + h, d[6..]);
      DigitsAppend(first, h);
      DigitsAppend(d[..6] + h, d[6..]);
      DigitsAppend(d[..6], h);
      assert d[..6] + d[6..] == d;
    } else {
      DigitsOfDigitString(d);
    }
  }

  /** Re-running the listener on its own output changes nothing. */
  lemma FormatIdempotent(raw: string)
    ensures FormatPhone(FormatPhone(raw)) == FormatPhone(raw)
  {
    FormatPreservesDigits(raw);
  }
}
