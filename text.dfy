/** String helpers shared by the pages: the JavaScript `trim`, `split(' ')`,
    `join`, the `[^0-9]` filter, `parseInt(_, 10)` on a digit string and the
    ASCII part of `toUpperCase`. */
module Text {

  /** The characters that JavaScript's `trim` and the regex class `\s` treat
      as white space (WhiteSpace and LineTerminator of ECMA-262): tab, line
      feed, vertical tab, form feed, carriage return, the space and the
      Unicode space separators, the line and paragraph separators and the
      byte-order mark. */
  predicate IsSpace(c: char) {
    || '\t' <= c <= '\r'
    || c == ' ' || c == '\U{A0}' || c == '\U{1680}'
    || '\U{2000}' <= c <= '\U{200A}'
    || c == '\U{2028}' || c == '\U{2029}' || c == '\U{202F}' || c == '\U{205F}'
    || c == '\U{3000}' || c == '\U{FEFF}'
  }

  predicate AllSpace(s: string) {
    forall i :: 0 <= i < |s| ==> IsSpace(s[i])
  }

  /** How many white-space characters `s` starts with. */
  function LeadingSpace(s: string): (n: nat)
    ensures n <= |s| && (n < |s| ==> !IsSpace(s[n]))
    ensures forall k :: 0 <= k < n ==> IsSpace(s[k])
  {
    if s != [] && IsSpace(s[0]) then
      var n := 1 + LeadingSpace(s[1..]);
      assert forall k :: 1 <= k < |s| ==> s[1..][k - 1] == s[k];
      n
    else 0
  }

  /** Where the white space that ends `s[lo..]` begins. */
  function TrailingSpace(s: string, lo: nat): (m: nat)
    requires lo <= |s|
    ensures lo <= m <= |s| && (m > lo ==> !IsSpace(s[m - 1]))
    ensures forall k :: m <= k < |s| ==> IsSpace(s[k])
  {
    if |s| > lo && IsSpace(s[|s| - 1]) then
      var m := TrailingSpace(s[..|s| - 1], lo);
      assert forall k :: 0 <= k < |s| - 1 ==> s[..|s| - 1][k] == s[k];
      m
    else |s|
  }

  /** `s.trim()`: the slice of `s` left once the white space at either end
      is removed; it has no white space at either end, and only white space
      was removed. */
  function Trim(s: string): (r: string)
    ensures r == [] || (!IsSpace(r[0]) && !IsSpace(r[|r| - 1]))
    ensures var i := LeadingSpace(s);
            && i + |r| <= |s| && r == s[i..i + |r|]
            && (forall k :: 0 <= k < i ==> IsSpace(s[k]))
            && (forall k :: i + |r| <= k < |s| ==> IsSpace(s[k]))
  {
    var i := LeadingSpace(s);
    s[i..TrailingSpace(s, i)]
  }

  /** A trimmed string is empty exactly when the input was white space only. */
  lemma TrimEmptyIff(s: string)
    ensures Trim(s) == [] <==> AllSpace(s)
  {
    var r := Trim(s);
    var i := LeadingSpace(s);
    if r != [] {
      assert s[i] == r[0];
    }
  }

  predicate IsDigit(c: char) {
    '0' <= c <= '9'
  }

  predicate AllDigits(s: string) {
    forall i :: 0 <= i < |s| ==> IsDigit(s[i])
  }

  function DigitValue(c: char): (d: nat)
    requires IsDigit(c)
    ensures d < 10
  {
    (c as int) - ('0' as int)
  }

  function DigitChar(d: nat): (c: char)
    requires d < 10
    ensures IsDigit(c) && DigitValue(c) == d
  {
    ('0' as int + d) as char
  }

  /** `s.replace(/[^0-9]/g, '')`: the decimal digits of `s`, in order. */
  function Digits(s: string): (r: string)
    ensures AllDigits(r) && |r| <= |s|
  {
    if s == [] then [] else Digits(s[..|s| - 1]) + (if IsDigit(s[|s| - 1]) then [s[|s| - 1]] else [])
  }

  lemma {:induction false} DigitsAppend(a: string, b: string)
    ensures Digits(a + b) == Digits(a) + Digits(b)
  {
    if b == [] {
      assert a + b == a;
    } else {
      assert (a + b)[..|a + b| - 1] == a + b[..|b| - 1];
      DigitsAppend(a, b[..|b| - 1]);
    }
  }

  lemma {:induction false} DigitsOfDigits(s: string)
    requires AllDigits(s)
    ensures Digits(s) == s
  {
    if s != [] {
      DigitsOfDigits(s[..|s| - 1]);
    }
  }

  lemma {:induction false} DigitsNone(s: string)
    requires forall i :: 0 <= i < |s| ==> !IsDigit(s[i])
    ensures Digits(s) == []
  {
    if s != [] {
      DigitsNone(s[..|s| - 1]);
    }
  }

  /** `parseInt(ds, 10)` on a non-empty string of decimal digits; the empty
      string is given the value 0 here (callers decide what `NaN` means). */
  function DecimalValue(ds: string): (v: nat)
    requires AllDigits(ds)
    ensures v < Pow10(|ds|)
  {
    if ds == [] then 0 else 10 * DecimalValue(ds[..|ds| - 1]) + DigitValue(ds[|ds| - 1])
  }

  function Pow10(n: nat): nat {
    if n == 0 then 1 else 10 * Pow10(n - 1)
  }

  /** The shortest decimal rendering of `n`, as `String(n)` gives it. */
  function DecimalString(n: nat): (r: string)
    ensures 1 <= |r| && AllDigits(r)
    ensures |r| > 1 ==> r[0] != '0'
  {
    if n < 10 then [DigitChar(n)] else DecimalString(n / 10) + [DigitChar(n % 10)]
  }

  lemma {:induction false} DecimalRoundTrip(n: nat)
    ensures DecimalValue(DecimalString(n)) == n
  {
    if n >= 10 {
      var s := DecimalString(n);
      assert s[..|s| - 1] == DecimalString(n / 10);
      DecimalRoundTrip(n / 10);
    }
  }

  /** `s.split(sep)` for a one-character separator: always at least one part,
      and no part contains the separator. */
  function Split(s: string, sep: char): (r: seq<string>)
    ensures |r| >= 1
    ensures forall i :: 0 <= i < |r| ==> sep !in r[i]
  {
    if s == [] then [""]
    else
      var rest := Split(s[1..], sep);
      if s[0] == sep then [""] + rest else [[s[0]] + rest[0]] + rest[1..]
  }

  /** `parts.join(sep)`: it opens with the first part. */
  function Join(parts: seq<string>, sep: string): (r: string)
    ensures parts != [] ==> |r| >= |parts[0]| && r[..|parts[0]|] == parts[0]
  {
    if parts == [] then ""
    else if |parts| == 1 then parts[0]
    else
      parts[0] + sep + Join(parts[1..], sep)
  }

  /** Splitting at a character and joining back with it gives the input. */
  lemma {:induction false} JoinSplit(s: string, sep: char)
    ensures Join(Split(s, sep), [sep]) == s
  {
    if s != [] {
      var rest := Split(s[1..], sep);
      JoinSplit(s[1..], sep);
      if s[0] == sep {
        assert Split(s, sep)[1..] == rest;
      } else {
        var r := Split(s, sep);
        if |rest| == 1 {
          assert r == [[s[0]] + rest[0]];
        } else {
          assert r[1..] == rest[1..];
          assert Join(rest, [sep]) == rest[0] + [sep] + Join(rest[1..], [sep]);
        }
      }
    }
  }

  lemma {:induction false} SplitNoSep(s: string, sep: char)
    requires sep !in s
    ensures Split(s, sep) == [s]
  {
    if s != [] {
      assert s == [s[0]] + s[1..];
      SplitNoSep(s[1..], sep);
    }
  }

  /** Splitting at a separator splits the two sides independently. */
  lemma {:induction false} SplitConcat(a: string, b: string, sep: char)
    ensures Split(a + [sep] + b, sep) == Split(a, sep) + Split(b, sep)
  {
    if a != [] {
      assert (a + [sep] + b)[1..] == a[1..] + [sep] + b;
      SplitConcat(a[1..], b, sep);
    }
  }

  lemma {:induction false} JoinSnoc(q: seq<string>, x: string, sep: string)
    requires q != []
    ensures Join(q + [x], sep) == Join(q, sep) + sep + x
  {
    if |q| > 1 {
      assert (q + [x])[1..] == q[1..] + [x];
      JoinSnoc(q[1..], x, sep);
    }
  }

  /** The first part of `s.split(' ')` (`s.split(' ')[0]`): the prefix of
      `s` before its first space, or all of `s` when it has none. */
  function FirstSegment(s: string): (r: string)
    ensures |r| <= |s| && r == s[..|r|]
    ensures ' ' !in r
    ensures |r| == |s| || s[|r|] == ' '
  {
    FirstSegmentProps(s);
    Split(s, ' ')[0]
  }

  lemma {:induction false} FirstSegmentProps(s: string)
    ensures var r := Split(s, ' ')[0]; |r| <= |s| && r == s[..|r|] && (|r| == |s| || s[|r|] == ' ')
  {
    if s != [] && s[0] != ' ' {
      FirstSegmentProps(s[1..]);
    }
  }

  predicate IsLower(c: char) {
    'a' <= c <= 'z'
  }

  /** The ASCII letters of `toUpperCase`: a lower-case letter becomes the
      capital 32 code points below it, and nothing comes out lower-case. */
  function UpperChar(c: char): (u: char)
    ensures !IsLower(u)
    ensures IsLower(c) ==> 'A' <= u <= 'Z' && u as int + 32 == c as int
    ensures !IsLower(c) ==> u == c
  {
    if IsLower(c) then (c as int - 32) as char else c
  }

  /** `s.toUpperCase()`: same length, no lower-case letter left, and every
      other character kept where it was. */
  function ToUpper(s: string): (r: string)
    ensures |r| == |s|
    ensures forall i :: 0 <= i < |r| ==> !IsLower(r[i])
    ensures forall i :: 0 <= i < |s| && !IsLower(s[i]) ==> r[i] == s[i]
    ensures forall i :: 0 <= i < |s| && IsLower(s[i]) ==> r[i] as int + 32 == s[i] as int
  {
    seq(|s|, i requires 0 <= i < |s| => UpperChar(s[i]))
  }

  /** Upper-casing twice is upper-casing once. */
  lemma ToUpperIdempotent(s: string)
    ensures ToUpper(ToUpper(s)) == ToUpper(s)
  {
  }
}
