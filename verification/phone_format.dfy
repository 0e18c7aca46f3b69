/** `formatPhoneNumber` of the client registration page: keeps the digits
    of the input and lays them out as a Brazilian phone number,
    "(DD) DDDDD-DDDD" for mobile numbers and "(DD) DDDD-DDDD" for landlines. */
module PhoneFormat {
  import opened Text

  /** The punctuation the layout inserts. */
  predicate IsPunctuation(c: char) {
    c == '(' || c == ')' || c == ' ' || c == '-'
  }

  /** The three regular-expression rewrites applied to a digit string `n`:
      11 or more digits get the mobile mask (digits past the eleventh are
      left after it untouched), 7 to 10 the landline mask, 3 to 6 only the
      area code, and fewer than 3 are left bare. */
  function Layout(n: string): (r: string)
    requires AllDigits(n)
  {
    if |n| >= 11 then "(" + n[..2] + ") " + n[2..7] + "-" + n[7..11] + n[11..]
    else if |n| >= 7 then "(" + n[..2] + ") " + n[2..6] + "-" + n[6..]
    else if |n| >= 3 then "(" + n[..2] + ") " + n[2..]
    else n
  }

  /** `formatPhoneNumber(value)`. */
  function FormatPhoneNumber(value: string): (r: string)
    ensures forall i :: 0 <= i < |r| ==> IsDigit(r[i]) || IsPunctuation(r[i])
    ensures Digits(r) == Digits(value)
    ensures |r| == |Digits(value)| + (if |Digits(value)| >= 7 then 4 else if |Digits(value)| >= 3 then 3 else 0)
  {
    var n := Digits(value);
    LayoutKeepsDigits(n);
    Layout(n)
  }

  lemma PunctuationHasNoDigits()
    ensures Digits("(") == "" && Digits(") ") == "" && Digits("-") == ""
  {
    DigitsOfNonDigits("(");
    DigitsOfNonDigits(") ");
    DigitsOfNonDigits("-");
  }

  lemma MobileKeepsDigits(n: string)
    requires AllDigits(n) && |n| >= 11
    ensures Digits(Layout(n)) == n
  {
    var a, c, d, e := n[..2], n[2..7], n[7..11], n[11..];
    PunctuationHasNoDigits();
    DigitsOfDigits(a);
    DigitsOfDigits(c);
    DigitsOfDigits(d);
    DigitsOfDigits(e);
    var s1 := "(" + a;
    DigitsConcat("", s1);
    assert "" + s1 == s1;
    var s2 := s1 + ") ";
    DigitsConcat(s1, ") ");
    var s3 := s2 + c;
    DigitsConcat(s2, c);
    var s4 := s3 + "-";
    DigitsConcat(s3, "-");
    var s5 := s4 + d;
    DigitsConcat(s4, d);
    var s6 := s5 + e;
    DigitsConcat(s5, e);
    assert n == a + c + d + e;
    assert Layout(n) == s6;
  }

  lemma LandlineKeepsDigits(n: string)
    requires AllDigits(n) && 7 <= |n| < 11
    ensures Digits(Layout(n)) == n
  {
    var a, c, d := n[..2], n[2..6], n[6..];
    PunctuationHasNoDigits();
    DigitsOfDigits(a);
    DigitsOfDigits(c);
    DigitsOfDigits(d);
    var s1 := "(" + a;
    DigitsConcat("", s1);
    assert "" + s1 == s1;
    var s2 := s1 + ") ";
    DigitsConcat(s1, ") ");
    var s3 := s2 + c;
    DigitsConcat(s2, c);
    var s4 := s3 + "-";
    DigitsConcat(s3, "-");
    var s5 := s4 + d;
    DigitsConcat(s4, d);
    assert n == a + c + d;
    assert Layout(n) == s5;
  }

  lemma AreaCodeKeepsDigits(n: string)
    requires AllDigits(n) && 3 <= |n| < 7
    ensures Digits(Layout(n)) == n
  {
    var a, b := n[..2], n[2..];
    PunctuationHasNoDigits();
    DigitsOfDigits(a);
    DigitsOfDigits(b);
    var s1 := "(" + a;
    DigitsConcat("", s1);
    assert "" + s1 == s1;
    var s2 := s1 + ") ";
    DigitsConcat(s1, ") ");
    var s3 := s2 + b;
    DigitsConcat(s2, b);
    assert n == a + b;
    assert Layout(n) == s3;
  }

  /** The layout only adds punctuation: its digits are exactly `n`, and
      every other character it produces is one of "(", ")", " ", "-". */
  lemma LayoutKeepsDigits(n: string)
    requires AllDigits(n)
    ensures Digits(Layout(n)) == n
    ensures forall i :: 0 <= i < |Layout(n)| ==> IsDigit(Layout(n)[i]) || IsPunctuation(Layout(n)[i])
    ensures |Layout(n)| == |n| + (if |n| >= 7 then 4 else if |n| >= 3 then 3 else 0)
  {
    if |n| >= 11 {
      MobileKeepsDigits(n);
    } else if |n| >= 7 {
      LandlineKeepsDigits(n);
    } else if |n| >= 3 {
      AreaCodeKeepsDigits(n);
    } else {
      DigitsOfDigits(n);
    }
  }

  /** Formatting an already formatted number changes nothing, so the input
      field can re-format on every keystroke. */
  lemma FormatIdempotent(value: string)
    ensures FormatPhoneNumber(FormatPhoneNumber(value)) == FormatPhoneNumber(value)
  {
  }

  /** Fewer than three digits are returned bare. */
  lemma FewDigitsBare(value: string)
    requires |Digits(value)| < 3
    ensures FormatPhoneNumber(value) == Digits(value)
  {
  }

  /** Three to six digits: the area code in parentheses, then the rest. */
  lemma AreaCodeOnly(value: string)
    requires 3 <= |Digits(value)| <= 6
    ensures var n := Digits(value);
            FormatPhoneNumber(value) == "(" + n[..2] + ") " + n[2..]
  {
  }

  /** Seven to ten digits: area code, four digits, a dash, then the rest. */
  lemma LandlineMask(value: string)
    requires 7 <= |Digits(value)| <= 10
    ensures var n := Digits(value);
            FormatPhoneNumber(value) == "(" + n[..2] + ") " + n[2..6] + "-" + n[6..]
  {
  }

  /** Eleven or more digits: area code, five digits, a dash, four digits,
      then any further digits unchanged. */
  lemma MobileMask(value: string)
    requires |Digits(value)| >= 11
    ensures var n := Digits(value);
            FormatPhoneNumber(value) == "(" + n[..2] + ") " + n[2..7] + "-" + n[7..11] + n[11..]
  {
  }
}
