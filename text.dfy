/** String helpers the controller takes from Rust's standard library: prefix tests,
    `split_once`, `split("/").last()`, `i32` parsing and lowercasing. */
module Text {
  import opened Wrappers

  predicate StartsWith(s: string, prefix: string) {
    |prefix| <= |s| && s[..|prefix|] == prefix
  }

  predicate EndsWith(s: string, c: char) {
    |s| > 0 && s[|s| - 1] == c
  }

  /** Lexicographic order by code point: the order of Rust's `String` and so of a `BTreeMap`'s keys. */
  predicate StrLess(a: string, b: string)
    decreases |a|
  {
    if a == [] then b != []
    else if b == [] then false
    else if a[0] != b[0] then a[0] < b[0]
    else StrLess(a[1..], b[1..])
  }

  /** The first position of `c` in `s`, the split point of `split_once`. */
  function IndexOf(s: string, c: char): (r: Option<nat>)
    ensures r.None? <==> c !in s
    ensures r.Some? ==> r.value < |s| && s[r.value] == c
    ensures r.Some? ==> forall j :: 0 <= j < r.value ==> s[j] != c
  {
    if s == [] then None
    else if s[0] == c then Some(0)
    else match IndexOf(s[1..], c)
      case None => None
      case Some(i) =>
        assert forall j :: 1 <= j <= i ==> s[j] == s[1..][j - 1];
        Some(i + 1)
  }

  /** The last element of `s.split('/')`: everything after the last `/`, or all of `s`. */
  function LastSegment(s: string): (r: string)
    ensures '/' !in r
    ensures |r| <= |s| && s[|s| - |r|..] == r
    ensures |r| < |s| ==> s[|s| - |r| - 1] == '/'
    ensures forall j :: |s| - |r| <= j < |s| ==> s[j] != '/'
  {
    if s == [] then []
    else if s[|s| - 1] == '/' then []
    else
      var init := s[..|s| - 1];
      var r := LastSegment(init) + [s[|s| - 1]];
      assert s[|s| - |r|..] == init[|init| - |r| + 1..] + [s[|s| - 1]];
      r
  }

  // ------------------------------------------------------------ i32 parsing

  const I32_MIN: int := -0x8000_0000
  const I32_MAX: int := 0x7FFF_FFFF

  predicate IsDigit(c: char) {
    '0' <= c <= '9'
  }

  predicate AllDigits(s: string) {
    forall i :: 0 <= i < |s| ==> IsDigit(s[i])
  }

  /** The number a string of decimal digits denotes. */
  function DigitsValue(s: string): nat
    requires AllDigits(s)
  {
    if s == [] then 0
    else 10 * DigitsValue(s[..|s| - 1]) + (s[|s| - 1] as int - '0' as int)
  }

  /** `str::parse::<i32>`: an optional `+` or `-`, then at least one ASCII digit,
      and the value must fit in 32 bits. */
  function ParseI32(s: string): (r: Option<int>)
    ensures r.Some? ==> I32_MIN <= r.value <= I32_MAX
  {
    var negative := |s| > 0 && s[0] == '-';
    var digits := if |s| > 0 && (s[0] == '-' || s[0] == '+') then s[1..] else s;
    if digits == [] || !AllDigits(digits) then None
    else
      var magnitude: int := DigitsValue(digits);
      var v := if negative then -magnitude else magnitude;
      if I32_MIN <= v <= I32_MAX then Some(v) else None
  }

  function DigitChar(d: nat): (c: char)
    requires d < 10
    ensures IsDigit(c) && c as int - '0' as int == d
  {
    ('0' as int + d) as char
  }

  /** The decimal digits of `n`, without sign or leading zeros. */
  function Digits(n: nat): string
    decreases n
  {
    if n < 10 then [DigitChar(n)] else Digits(n / 10) + [DigitChar(n % 10)]
  }

  /** The decimal rendering of an integer, `-` first when negative. */
  function ShowInt(n: int): string {
    if n < 0 then "-" + Digits(-n) else Digits(n)
  }

  lemma {:induction false} DigitsRoundTrip(n: nat)
    ensures |Digits(n)| > 0 && AllDigits(Digits(n)) && DigitsValue(Digits(n)) == n
    decreases n
  {
    if n >= 10 {
      DigitsRoundTrip(n / 10);
      var s := Digits(n);
      assert s[..|s| - 1] == Digits(n / 10);
    }
  }

  /** Every `i32` rendered in decimal parses back to itself. */
  lemma ParseShowInt(n: int)
    requires I32_MIN <= n <= I32_MAX
    ensures ParseI32(ShowInt(n)) == Some(n)
  {
    var s := ShowInt(n);
    if n < 0 {
      var d := Digits(-n);
      DigitsRoundTrip(-n);
      assert s == "-" + d;
      assert s[0] == '-' && s[1..] == d;
    } else {
      DigitsRoundTrip(n);
      assert IsDigit(s[0]);
    }
  }

  /** Only a sign (none, `+` or `-`) followed by at least one digit parses, and the value
      is the digits' value, negated after `-`. */
  lemma ParseI32Sound(s: string, n: int)
    requires ParseI32(s) == Some(n)
    ensures exists sign, d ::
      && sign in ["", "+", "-"]
      && s == sign + d
      && d != [] && AllDigits(d)
      && n == (if sign == "-" then -(DigitsValue(d) as int) else DigitsValue(d) as int)
  {
    if |s| > 0 && s[0] == '-' {
      assert s == "-" + s[1..];
    } else if |s| > 0 && s[0] == '+' {
      assert s == "+" + s[1..];
    } else {
      assert s == "" + s;
    }
  }

  /** Every sign (none, `+` or `-`) followed by digits, leading zeros included, parses to
      its value when that fits in an `i32`, and to nothing otherwise. */
  lemma ParseI32Complete(sign: string, d: string)
    requires sign == "" || sign == "+" || sign == "-"
    requires d != [] && AllDigits(d)
    ensures var v := if sign == "-" then -(DigitsValue(d) as int) else DigitsValue(d) as int;
      ParseI32(sign + d) == if I32_MIN <= v <= I32_MAX then Some(v) else None
  {
    var s := sign + d;
    if sign == "" {
      assert s == d && IsDigit(s[0]);
    } else {
      assert s[0] == sign[0] && s[1..] == d;
    }
  }

  /** A decimal rendering holds no `/`. */
  lemma ShowIntNoSlash(n: int)
    ensures '/' !in ShowInt(n)
  {
    var s := ShowInt(n);
    if n < 0 {
      DigitsRoundTrip(-n);
      assert s == "-" + Digits(-n);
    } else {
      DigitsRoundTrip(n);
    }
    assert forall i :: 0 <= i < |s| ==> s[i] != '/';
  }

  /** After a `/`, the last segment is whatever follows it, when that holds no `/`. */
  lemma {:induction false} LastSegmentAfterSlash(base: string, t: string)
    requires '/' !in t
    ensures LastSegment(base + "/" + t) == t
    decreases |t|
  {
    var s := base + "/" + t;
    if t != [] {
      var init := t[..|t| - 1];
      assert s[..|s| - 1] == base + "/" + init;
      LastSegmentAfterSlash(base, init);
      assert t == init + [t[|t| - 1]];
    }
  }

  // ------------------------------------------------------------ lowercasing

  function LowerAscii(c: char): char {
    if 'A' <= c <= 'Z' then (c as int + 32) as char else c
  }

  function ToLowerAscii(s: string): (r: string)
    ensures |r| == |s|
  {
    seq(|s|, i requires 0 <= i < |s| => LowerAscii(s[i]))
  }

  /** `v.to_lowercase() == "true"`. */
  predicate IsTrueValue(v: string) {
    ToLowerAscii(v) == "true"
  }
}
