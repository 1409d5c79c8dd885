/** Character and string helpers that the Arduino `String` class and the C
    library provide to the command manager: `isspace`, `String::trim`,
    `String::toUpperCase`, `String::endsWith`, `String::indexOf`, `itoa` and
    the bounded copies done by `strncpy`/`snprintf`. */
module Text {

  /** `isspace` in the C locale: space, tab, line feed, vertical tab, form
      feed and carriage return. */
  predicate IsSpace(c: char) {
    c == ' ' || c == '\t' || c == '\n' || c == '\U{0B}' || c == '\U{0C}' || c == '\r'
  }

  /** Drops leading white space. */
  function TrimStart(s: string): (r: string)
    ensures |r| <= |s|
  {
    if s != [] && IsSpace(s[0]) then TrimStart(s[1..]) else s
  }

  /** `TrimStart` keeps the longest suffix of `s` that does not start with
      white space. */
  lemma {:induction false} TrimStartSpec(s: string)
    ensures var r := TrimStart(s);
            r == s[|s| - |r|..] &&
            (forall k :: 0 <= k < |s| - |r| ==> IsSpace(s[k])) &&
            (r != [] ==> !IsSpace(r[0]))
  {
    if s != [] && IsSpace(s[0]) {
      TrimStartSpec(s[1..]);
      var r := TrimStart(s);
      assert s[1..][|s| - 1 - |r|..] == s[|s| - |r|..];
      forall k | 1 <= k < |s| - |r| ensures IsSpace(s[k]) {
        assert s[k] == s[1..][k - 1];
      }
    }
  }

  /** Drops trailing white space. */
  function TrimEnd(s: string): (r: string)
    ensures |r| <= |s|
  {
    if s != [] && IsSpace(s[|s| - 1]) then TrimEnd(s[..|s| - 1]) else s
  }

  /** `TrimEnd` keeps the longest prefix of `s` that does not end with
      white space. */
  lemma {:induction false} TrimEndSpec(s: string)
    ensures var r := TrimEnd(s);
            r == s[..|r|] &&
            (forall k :: |r| <= k < |s| ==> IsSpace(s[k])) &&
            (r != [] ==> !IsSpace(r[|r| - 1]))
  {
    if s != [] && IsSpace(s[|s| - 1]) {
      TrimEndSpec(s[..|s| - 1]);
      var r := TrimEnd(s);
      assert s[..|s| - 1][..|r|] == s[..|r|];
      forall k | |r| <= k < |s| - 1 ensures IsSpace(s[k]) {
        assert s[k] == s[..|s| - 1][k];
      }
    }
  }

  /** `String::trim`: white space removed from both ends. */
  function Trim(s: string): (r: string)
    ensures |r| <= |s|
    ensures forall k :: 0 <= k < |r| ==> r[k] in s
    ensures r != [] ==> !IsSpace(r[0]) && !IsSpace(r[|r| - 1])
  {
    TrimStartSpec(s);
    TrimEndSpec(TrimStart(s));
    TrimEnd(TrimStart(s))
  }

  /** What `Trim` promises: the result is a slice `s[i..j]` of the input,
      everything cut away is white space, and the result neither starts nor
      ends with white space. */
  lemma TrimIsInnerSlice(s: string) returns (i: nat, j: nat)
    ensures i <= j <= |s| && Trim(s) == s[i..j]
    ensures forall k :: 0 <= k < i ==> IsSpace(s[k])
    ensures forall k :: j <= k < |s| ==> IsSpace(s[k])
    ensures Trim(s) != [] ==> !IsSpace(Trim(s)[0]) && !IsSpace(Trim(s)[|Trim(s)| - 1])
  {
    var t := TrimStart(s);
    var r := TrimEnd(t);
    TrimStartSpec(s);
    TrimEndSpec(t);
    assert Trim(s) == r;
    i := |s| - |t|;
    j := i + |r|;
    assert r == t[..|r|];
    assert t == s[i..];
    assert r == s[i..j];
    forall k | j <= k < |s| ensures IsSpace(s[k]) {
      assert s[k] == t[k - i];
    }
  }

  /** Trimming a string that has no white space at either end changes
      nothing, and trimming twice is the same as trimming once. */
  lemma TrimKeepsTrimmed(s: string)
    ensures (s == [] || (!IsSpace(s[0]) && !IsSpace(s[|s| - 1]))) ==> Trim(s) == s
    ensures Trim(Trim(s)) == Trim(s)
  {
    var i, j := TrimIsInnerSlice(s);
    var t := Trim(s);
    if s != [] && !IsSpace(s[0]) && !IsSpace(s[|s| - 1]) {
      assert !IsSpace(s[0]) && !IsSpace(s[|s| - 1]);
      assert i == 0 && j == |s|;
    }
    if t != [] {
      var i2, j2 := TrimIsInnerSlice(t);
      assert !IsSpace(t[0]) && !IsSpace(t[|t| - 1]);
      assert i2 == 0 && j2 == |t|;
    }
  }

  /** `toupper` in the C locale: only the ASCII letters `a`..`z` change. */
  function UpperChar(c: char): char {
    if 'a' <= c <= 'z' then (c as int - 32) as char else c
  }

  /** `String::toUpperCase`. */
  function ToUpper(s: string): (r: string)
    ensures |r| == |s|
    ensures forall k :: 0 <= k < |r| ==> !('a' <= r[k] <= 'z')
    ensures forall k :: 0 <= k < |r| ==> (IsSpace(r[k]) <==> IsSpace(s[k]))
  {
    seq(|s|, i requires 0 <= i < |s| => UpperChar(s[i]))
  }

  /** The two characters that upper-case to the letter `O`, and those that
      upper-case to `N`. */
  lemma UpperToOAndN(c: char)
    ensures UpperChar(c) == 'O' <==> c == 'O' || c == 'o'
    ensures UpperChar(c) == 'N' <==> c == 'N' || c == 'n'
  {
  }

  /** The last character of `s` is `c`. */
  predicate EndsWith(s: string, c: char) {
    s != [] && s[|s| - 1] == c
  }

  /** `String(char)`: the one-character string, except that NUL gives
      the empty string, since the character is copied through a C string
      that it ends. */
  function CharString(c: char): string {
    if c == '\0' then "" else [c]
  }

  /** `String::endsWith` on strings whose buffers are allocated: `suffix`
      is the tail of `s`. Every string ends with the empty string. */
  predicate EndsWithString(s: string, suffix: string) {
    |suffix| <= |s| && s[|s| - |suffix|..] == suffix
  }

  /** `endsWith(String(c))`: always true for NUL, otherwise whether the
      last character is `c`. */
  lemma EndsWithChar(s: string, c: char)
    ensures EndsWithString(s, CharString(c)) <==> c == '\0' || EndsWith(s, c)
  {
    if c != '\0' && |s| >= 1 {
      assert s[|s| - 1..] == [s[|s| - 1]];
    }
  }

  /** `String::remove(index)`: everything from `index` on is dropped; an
      index at or past the end changes nothing. The unsigned
      `length() - 1` of an empty string is such an index, modelled here
      as -1. */
  function RemoveFrom(s: string, index: int): (r: string)
    ensures r <= s
    ensures 0 <= index < |s| ==> |r| == index
    ensures !(0 <= index < |s|) ==> r == s
  {
    if 0 <= index < |s| then s[..index] else s
  }

  /** `String::indexOf(char)`: the position of the first `c`, or -1. */
  function IndexOf(s: string, c: char): (r: int)
    ensures -1 <= r < |s|
    ensures r == -1 <==> c !in s
    ensures r >= 0 ==> s[r] == c && c !in s[..r]
  {
    if s == [] then -1
    else if s[0] == c then 0
    else
      var k := IndexOf(s[1..], c);
      assert s[1..][..(if k < 0 then 0 else k)] == s[1..1 + (if k < 0 then 0 else k)];
      if k == -1 then -1 else k + 1
  }

  /** Concatenation regrouped, for proofs that build a text piece by
      piece. */
  lemma AppendAssoc<T>(a: seq<T>, b: seq<T>, c: seq<T>)
    ensures a + b + c == a + (b + c)
  {
  }

  function Min(a: nat, b: nat): nat {
    if a <= b then a else b
  }

  /** What survives a copy into a buffer that holds `cap` characters
      (`strncpy` followed by an explicit terminating NUL, or `snprintf`
      into a buffer of `cap + 1` bytes): the longest prefix of `s` whose
      length is at most `cap`. */
  function Truncate(s: string, cap: nat): (r: string)
    ensures r <= s && |r| <= cap
    ensures |s| <= cap ==> r == s
    ensures |s| > cap ==> |r| == cap
  {
    s[..Min(|s|, cap)]
  }

  /** A prefix of a prefix: truncating twice keeps the shorter bound. */
  lemma TruncateTwice(s: string, a: nat, b: nat)
    requires b <= a
    ensures Truncate(Truncate(s, a), b) == Truncate(s, b)
  {
  }

  // ---------------------------------------------------------------------
  // Decimal rendering (`itoa(value, buffer, 10)`) and its reading back.

  predicate IsDigit(c: char) {
    '0' <= c <= '9'
  }

  function DigitChar(d: nat): (c: char)
    requires d < 10
    ensures IsDigit(c)
  {
    ('0' as int + d) as char
  }

  function DigitValue(c: char): (d: nat)
    requires IsDigit(c)
    ensures d < 10 && DigitChar(d) == c
  {
    c as int - '0' as int
  }

  /** The decimal digits of `n`, most significant first, without leading
      zeros. */
  function NatDecimal(n: nat): (r: string)
    ensures r != [] && forall k :: 0 <= k < |r| ==> IsDigit(r[k])
    decreases n
  {
    if n < 10 then [DigitChar(n)] else NatDecimal(n / 10) + [DigitChar(n % 10)]
  }

  /** `itoa` in base 10: a leading `-` for a negative number, then the
      digits of its magnitude. */
  function IntDecimal(n: int): (r: string)
    ensures r != [] && (r[0] == '-' <==> n < 0)
  {
    if n < 0 then "-" + NatDecimal(-n) else NatDecimal(n)
  }

  predicate AllDigits(s: string) {
    forall k :: 0 <= k < |s| ==> IsDigit(s[k])
  }

  /** The value of a string of decimal digits. */
  function DecimalValue(s: string): nat
    requires AllDigits(s)
  {
    if s == [] then 0 else DecimalValue(s[..|s| - 1]) * 10 + DigitValue(s[|s| - 1])
  }

  /** Reading a rendered integer back: an optional `-` followed by digits. */
  function ReadInt(s: string): int
    requires s != [] && (s[0] == '-' ==> AllDigits(s[1..])) && (s[0] != '-' ==> AllDigits(s))
  {
    if s[0] == '-' then -(DecimalValue(s[1..]) as int) else DecimalValue(s)
  }

  /** Rendering then reading gives the number back. */
  lemma {:induction false} NatDecimalRoundTrip(n: nat)
    ensures DecimalValue(NatDecimal(n)) == n
    decreases n
  {
    var r := NatDecimal(n);
    if n >= 10 {
      NatDecimalRoundTrip(n / 10);
      assert r[..|r| - 1] == NatDecimal(n / 10);
    }
  }

  /** The rendering has no superfluous leading zero: it starts with `0`
      only for the number zero, which renders as exactly "0". */
  lemma {:induction false} NatDecimalCanonical(n: nat)
    ensures NatDecimal(n)[0] == '0' <==> n == 0
    ensures n == 0 ==> NatDecimal(n) == "0"
    decreases n
  {
    if n >= 10 {
      NatDecimalCanonical(n / 10);
    }
  }

  /** Decimal digits without a superfluous leading zero. */
  predicate Canonical(d: string) {
    d != [] && AllDigits(d) && (d[0] == '0' ==> d == "0")
  }

  /** Digits that do not start with `0` have a positive value. */
  lemma {:induction false} LeadingDigitPositive(d: string)
    requires d != [] && AllDigits(d) && d[0] != '0'
    ensures DecimalValue(d) >= 1
    decreases |d|
  {
    var init := d[..|d| - 1];
    if |d| == 1 {
      assert init == [];
    } else {
      assert init[0] == d[0];
      LeadingDigitPositive(init);
    }
  }

  /** Reading canonical digits and rendering the value gives the digits
      back: the rendering is the only canonical text of a number. */
  lemma {:induction false} CanonicalDecimal(d: string)
    requires Canonical(d)
    ensures NatDecimal(DecimalValue(d)) == d
    decreases |d|
  {
    var v := DecimalValue(d);
    var init := d[..|d| - 1];
    var last := d[|d| - 1];
    if |d| == 1 {
      assert init == [];
      assert DecimalValue(init) == 0;
    } else {
      assert init[0] == d[0] != '0';
      LeadingDigitPositive(init);
      CanonicalDecimal(init);
      assert v / 10 == DecimalValue(init) && v % 10 == DigitValue(last);
      assert d == init + [last];
    }
  }

  function Pow10(k: nat): (p: nat)
    ensures p >= 1
  {
    if k == 0 then 1 else 10 * Pow10(k - 1)
  }

  /** A number below 10^k renders in at most k digits. */
  lemma {:induction false} NatDecimalLength(n: nat, k: nat)
    requires 1 <= k && n < Pow10(k)
    ensures |NatDecimal(n)| <= k
    decreases k
  {
    if n >= 10 {
      assert Pow10(1) == 10;
      assert n / 10 < Pow10(k - 1);
      NatDecimalLength(n / 10, k - 1);
    }
  }

  /** Rendering an integer and reading it back gives the integer, the sign
      is `-` exactly for negative numbers, and the text is as short as
      it can be. */
  lemma IntDecimalRoundTrip(n: int)
    ensures IntDecimal(n)[0] == '-' <==> n < 0
    ensures var r := IntDecimal(n);
            (r[0] == '-' ==> AllDigits(r[1..])) && (r[0] != '-' ==> AllDigits(r)) && ReadInt(r) == n
  {
    var r := IntDecimal(n);
    if n < 0 {
      NatDecimalRoundTrip(-n);
      assert r[1..] == NatDecimal(-n);
    } else {
      NatDecimalRoundTrip(n);
    }
  }
}
