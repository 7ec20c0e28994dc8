/** The parts of JavaScript's string and number conversions that the logger's date keys
    rely on: `parseInt(s, 10)`, `String(n)` for an integer `n`, `padStart` with a
    one-character pad and `split` on a one-character separator. */
module JsText {
  import opened Wrappers

  predicate IsDigit(c: char) { '0' <= c <= '9' }

  predicate AllDigits(s: string) { forall i :: 0 <= i < |s| ==> IsDigit(s[i]) }

  /** StrWhiteSpaceChar of ECMAScript: TAB, VT, FF, ZWNBSP, the Zs space separators and
      the four line terminators. `parseInt` skips these at the front of its argument. */
  predicate IsStrWhiteSpace(c: char) {
    c == '\t' || c == '\n' || c == '\U{000B}' || c == '\U{000C}' || c == '\r' || c == ' '
    || c == '\U{00A0}' || c == '\U{1680}' || ('\U{2000}' <= c <= '\U{200A}')
    || c == '\U{2028}' || c == '\U{2029}' || c == '\U{202F}' || c == '\U{205F}'
    || c == '\U{3000}' || c == '\U{FEFF}'
  }

  /** `s` without its leading white space (see `TrimStartIsLongestSuffix`). */
  function TrimStart(s: string): string {
    if |s| > 0 && IsStrWhiteSpace(s[0]) then TrimStart(s[1..]) else s
  }

  /** The longest prefix of `s` made of decimal digits (see `LeadingDigitsIsLongest`). */
  function LeadingDigits(s: string): string {
    if |s| > 0 && IsDigit(s[0]) then [s[0]] + LeadingDigits(s[1..]) else []
  }

  /** The value of a string of decimal digits, read most significant digit first. */
  function DigitsValue(ds: string): int {
    if ds == [] then 0
    else DigitsValue(ds[..|ds| - 1]) * 10 + ((ds[|ds| - 1] as int) - ('0' as int))
  }

  /** `parseInt(s, 10)`: skip leading white space, take one optional sign, then the
      longest run of decimal digits; `None` stands for NaN (no digit at all). */
  function ParseInt(s: string): Option<int> {
    var t := TrimStart(s);
    var negative := |t| > 0 && t[0] == '-';
    var u := if |t| > 0 && (t[0] == '-' || t[0] == '+') then t[1..] else t;
    var z := LeadingDigits(u);
    var magnitude := DigitsValue(z);
    if z == [] then None
    else if negative then Some(-magnitude)
    else Some(magnitude)
  }

  function DigitChar(d: nat): (c: char)
    requires d < 10
    ensures IsDigit(c) && (c as int) - ('0' as int) == d
  {
    (('0' as int) + d) as char
  }

  /** The shortest decimal numeral of `n` (`String(n)` for a non-negative integer). */
  function NatToDigits(n: nat): (r: string)
    ensures |r| >= 1 && AllDigits(r)
    ensures |r| > 1 ==> r[0] != '0'
  {
    if n < 10 then [DigitChar(n)] else NatToDigits(n / 10) + [DigitChar(n % 10)]
  }

  /** `String(i)` for an integer `i` (below 10^21 in magnitude, where JavaScript
      switches to exponent notation). */
  function IntToString(i: int): string {
    if i < 0 then "-" + NatToDigits(-i) else NatToDigits(i)
  }

  function Repeat(c: char, n: nat): (r: string)
    ensures |r| == n && forall i :: 0 <= i < n ==> r[i] == c
  {
    if n == 0 then [] else [c] + Repeat(c, n - 1)
  }

  /** `s.padStart(width, fill)` for a one-character `fill`. */
  function PadStart(s: string, width: nat, fill: char): (r: string)
    ensures |r| == if |s| >= width then |s| else width
    ensures r[|r| - |s|..] == s
    ensures forall i :: 0 <= i < |r| - |s| ==> r[i] == fill
  {
    if |s| >= width then s else Repeat(fill, width - |s|) + s
  }

  /** `s.split(sep)` for a one-character separator: the maximal separator-free pieces. */
  function Split(s: string, sep: char): (r: seq<string>)
    ensures |r| >= 1
    ensures forall i :: 0 <= i < |r| ==> sep !in r[i]
  {
    if s == [] then [""]
    else
      var rest := Split(s[1..], sep);
      if s[0] == sep then [""] + rest else [[s[0]] + rest[0]] + rest[1..]
  }

  /** `fields.join(sep)`, the inverse of `Split`. */
  function Join(fields: seq<string>, sep: char): string
    requires |fields| >= 1
  {
    if |fields| == 1 then fields[0] else fields[0] + [sep] + Join(fields[1..], sep)
  }

  /** What `TrimStart` cuts off is white space, and what it keeps does not start with
      white space. */
  lemma {:induction false} TrimStartIsLongestSuffix(s: string)
    ensures |TrimStart(s)| <= |s| && TrimStart(s) == s[|s| - |TrimStart(s)|..]
    ensures TrimStart(s) == [] || !IsStrWhiteSpace(TrimStart(s)[0])
    ensures forall i :: 0 <= i < |s| - |TrimStart(s)| ==> IsStrWhiteSpace(s[i])
  {
    if |s| > 0 && IsStrWhiteSpace(s[0]) {
      TrimStartIsLongestSuffix(s[1..]);
      assert forall i :: 1 <= i < |s| - |TrimStart(s)| ==> s[i] == s[1..][i - 1];
    }
  }

  /** `LeadingDigits` is a prefix made of digits, followed by the end or a non-digit. */
  lemma {:induction false} LeadingDigitsIsLongest(s: string)
    ensures |LeadingDigits(s)| <= |s| && LeadingDigits(s) == s[..|LeadingDigits(s)|]
    ensures AllDigits(LeadingDigits(s))
    ensures |LeadingDigits(s)| == |s| || !IsDigit(s[|LeadingDigits(s)|])
  {
    if |s| > 0 && IsDigit(s[0]) {
      LeadingDigitsIsLongest(s[1..]);
      assert s[..|LeadingDigits(s)|] == [s[0]] + s[1..][..|LeadingDigits(s[1..])|];
    }
  }

  /** Splitting then joining on the same separator gives the string back. */
  lemma {:induction false} JoinSplit(s: string, sep: char)
    ensures Join(Split(s, sep), sep) == s
  {
    if s != [] {
      var rest := Split(s[1..], sep);
      JoinSplit(s[1..], sep);
      if s[0] != sep {
        if |rest| == 1 {
          assert Split(s, sep) == [[s[0]] + rest[0]];
        } else {
          assert Split(s, sep) == [[s[0]] + rest[0]] + rest[1..];
          assert Split(s, sep)[1..] == rest[1..];
        }
      } else {
        assert Split(s, sep) == [""] + rest;
        assert Split(s, sep)[1..] == rest;
      }
    }
  }

  /** A string without the separator is a single field. */
  lemma {:induction false} SplitWithoutSeparator(a: string, sep: char)
    requires sep !in a
    ensures Split(a, sep) == [a]
  {
    if a != [] {
      SplitWithoutSeparator(a[1..], sep);
      assert [a[0]] + a[1..] == a;
    }
  }

  /** A separator-free first field is split off the front unchanged. */
  lemma {:induction false} SplitFirstField(a: string, b: string, sep: char)
    requires sep !in a
    ensures Split(a + [sep] + b, sep) == [a] + Split(b, sep)
  {
    var s := a + [sep] + b;
    if a == [] {
      assert s[1..] == b;
    } else {
      assert s[1..] == a[1..] + [sep] + b;
      SplitFirstField(a[1..], b, sep);
      assert [s[0]] + a[1..] == a;
    }
  }

  /** Three separator-free fields joined by the separator split back into those fields. */
  lemma SplitThreeFields(a: string, b: string, c: string, sep: char)
    requires sep !in a && sep !in b && sep !in c
    ensures Split(a + [sep] + b + [sep] + c, sep) == [a, b, c]
  {
    assert a + [sep] + b + [sep] + c == a + [sep] + (b + [sep] + c);
    SplitFirstField(a, b + [sep] + c, sep);
    SplitFirstField(b, c, sep);
    SplitWithoutSeparator(c, sep);
  }

  /** Reading back the numeral of `n` gives `n`. */
  lemma {:induction false} DigitsValueOfNatToDigits(n: nat)
    ensures DigitsValue(NatToDigits(n)) == n
  {
    if n >= 10 {
      var ds := NatToDigits(n / 10) + [DigitChar(n % 10)];
      assert ds[..|ds| - 1] == NatToDigits(n / 10);
      DigitsValueOfNatToDigits(n / 10);
    }
  }

  /** Leading zeros do not change the value of a numeral. */
  lemma {:induction false} DigitsValueLeadingZeros(k: nat, ds: string)
    requires AllDigits(ds)
    ensures AllDigits(Repeat('0', k) + ds)
    ensures DigitsValue(Repeat('0', k) + ds) == DigitsValue(ds)
  {
    var zs := Repeat('0', k) + ds;
    if ds == [] {
      assert zs == Repeat('0', k);
      if k > 0 {
        assert zs[..|zs| - 1] == Repeat('0', k - 1) + [];
        DigitsValueLeadingZeros(k - 1, []);
      }
    } else {
      var front := ds[..|ds| - 1];
      assert zs[..|zs| - 1] == Repeat('0', k) + front;
      DigitsValueLeadingZeros(k, front);
    }
  }

  /** `parseInt` reads a string made only of digits as their value. */
  lemma ParseIntOfDigits(ds: string)
    requires |ds| >= 1 && AllDigits(ds)
    ensures ParseInt(ds) == Some(DigitsValue(ds))
  {
    assert !IsStrWhiteSpace(ds[0]) && ds[0] != '-' && ds[0] != '+';
    assert TrimStart(ds) == ds;
    LeadingDigitsOfDigits(ds);
  }

  lemma {:induction false} LeadingDigitsOfDigits(ds: string)
    requires AllDigits(ds)
    ensures LeadingDigits(ds) == ds
  {
    if ds != [] {
      LeadingDigitsOfDigits(ds[1..]);
      assert [ds[0]] + ds[1..] == ds;
    }
  }

  /** `parseInt` of a run of zeros is 0, and of the empty string NaN. */
  lemma ParseIntZeros(k: nat)
    ensures ParseInt(Repeat('0', k)) == if k == 0 then None else Some(0)
  {
    var zs := Repeat('0', k);
    if k == 0 {
      assert TrimStart(zs) == [] && LeadingDigits(zs) == [];
    } else {
      DigitsValueLeadingZeros(k, []);
      assert zs + [] == zs;
      ParseIntOfDigits(zs);
    }
  }

  /** Zero-padding the numeral of a negative number leaves the zeros in front of the
      minus sign, so what comes before the first "-" parses to NaN or 0. */
  lemma PaddedNegativeFirstField(n: nat, width: nat, tail: string)
    requires n > 0
    ensures var first := ParseInt(Split(PadStart(IntToString(-(n as int)), width, '0') + tail, '-')[0]);
            first.None? || first == Some(0)
  {
    var digits := NatToDigits(n);
    var k := if 1 + |digits| >= width then 0 else width - (1 + |digits|);
    var zeros := Repeat('0', k);
    NegativePadded(n, width);
    assert zeros + ['-'] + digits + tail == zeros + ['-'] + (digits + tail);
    assert '-' !in zeros;
    SplitFirstField(zeros, digits + tail, '-');
    ParseIntZeros(k);
  }

  lemma NegativePadded(n: nat, width: nat)
    requires n > 0
    ensures var k := if 1 + |NatToDigits(n)| >= width then 0 else width - (1 + |NatToDigits(n)|);
            PadStart(IntToString(-(n as int)), width, '0') == Repeat('0', k) + ['-'] + NatToDigits(n)
  {
    assert IntToString(-(n as int)) == ['-'] + NatToDigits(n);
  }

  /** A numeral padded with zeros is still made of digits only. */
  lemma PaddedDigits(n: nat, width: nat)
    ensures AllDigits(PadStart(NatToDigits(n), width, '0'))
  {
  }

  /** A zero-padded numeral parses back to the number it was written from. */
  lemma ParseIntPadded(n: nat, width: nat)
    ensures ParseInt(PadStart(NatToDigits(n), width, '0')) == Some(n)
  {
    var ds := NatToDigits(n);
    var p := PadStart(ds, width, '0');
    var k := |p| - |ds|;
    assert p == Repeat('0', k) + ds;
    DigitsValueLeadingZeros(k, ds);
    DigitsValueOfNatToDigits(n);
    ParseIntOfDigits(p);
  }
}
