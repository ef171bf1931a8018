/** String operations the scraper relies on from Python's `str` and `float`:
    `strip()`, `title()`, `replace(",", "")`, and `float()` on decimal text. */
module Text {
  import opened Wrappers

  // ---------------------------------------------------------------- whitespace

  /** Python's `str.isspace` for one character (the full list of code points). */
  predicate IsSpace(c: char) {
    var n := c as int;
    || 0x09 <= n <= 0x0D || 0x1C <= n <= 0x20
    || n == 0x85 || n == 0xA0 || n == 0x1680
    || 0x2000 <= n <= 0x200A
    || n == 0x2028 || n == 0x2029 || n == 0x202F || n == 0x205F || n == 0x3000
  }

  predicate AllSpace(s: string) {
    forall i :: 0 <= i < |s| ==> IsSpace(s[i])
  }

  function StripLeft(s: string): (r: string)
    ensures |r| <= |s| && r == s[|s| - |r|..]
    ensures AllSpace(s[..|s| - |r|])
    ensures r != [] ==> !IsSpace(r[0])
  {
    if s != [] && IsSpace(s[0]) then
      var r := StripLeft(s[1..]);
      assert s[..|s| - |r|] == [s[0]] + s[1..][..|s| - 1 - |r|];
      r
    else s
  }

  function StripRight(s: string): (r: string)
    ensures |r| <= |s| && r == s[..|r|]
    ensures AllSpace(s[|r|..])
    ensures r != [] ==> !IsSpace(r[|r| - 1])
  {
    if s != [] && IsSpace(s[|s| - 1]) then
      var p := s[..|s| - 1];
      var r := StripRight(p);
      assert s[|r|..] == p[|r|..] + [s[|s| - 1]];
      r
    else s
  }

  /** `s.strip()`: the slice of `s` left when every leading and trailing
      whitespace character is removed. */
  function Strip(s: string): (r: string)
    ensures |r| <= |s|
    ensures r != [] ==> !IsSpace(r[0]) && !IsSpace(r[|r| - 1])
  {
    StripRight(StripLeft(s))
  }

  /** What `strip()` removes is whitespace at the two ends and nothing else:
      the result is a slice of `s` with only whitespace before and after it. */
  lemma StripSlice(s: string)
    ensures var r := Strip(s); var a := |s| - |StripLeft(s)|;
            0 <= a && a + |r| <= |s| && r == s[a..a + |r|]
            && AllSpace(s[..a]) && AllSpace(s[a + |r|..])
  {
    StripSliceMiddle(s);
    StripSliceBack(s);
  }

  lemma StripSliceMiddle(s: string)
    ensures var a := |s| - |StripLeft(s)|;
            a + |Strip(s)| <= |s| && Strip(s) == s[a..a + |Strip(s)|]
  {
    SliceOfSuffix(s, StripLeft(s), Strip(s));
  }

  lemma StripSliceBack(s: string)
    ensures AllSpace(s[|s| - |StripLeft(s)| + |Strip(s)|..])
  {
    var l := StripLeft(s);
    SuffixSlices(s, l, |s| - |l|, |StripRight(l)|);
  }

  /** A prefix of a suffix of `s` is a slice of `s`. */
  lemma SliceOfSuffix<T>(s: seq<T>, l: seq<T>, r: seq<T>)
    requires |l| <= |s| && l == s[|s| - |l|..] && |r| <= |l| && r == l[..|r|]
    ensures r == s[|s| - |l|..|s| - |l| + |r|]
  {
  }

  /** Slicing a suffix is slicing the whole sequence at shifted indices. */
  lemma SuffixSlices<T>(s: seq<T>, l: seq<T>, a: nat, k: nat)
    requires a <= |s| && l == s[a..] && k <= |l|
    ensures l[..k] == s[a..a + k] && l[k..] == s[a + k..]
  {
  }

  /** A string with no whitespace at either end is its own `strip()`. */
  lemma StripTrimmed(t: string)
    requires t != [] ==> !IsSpace(t[0]) && !IsSpace(t[|t| - 1])
    ensures Strip(t) == t
  {
    assert StripLeft(t) == t;
    assert StripRight(t) == t;
  }

  lemma {:induction false} StripIdempotent(s: string)
    ensures Strip(Strip(s)) == Strip(s)
  {
    var t := Strip(s);
    assert StripLeft(t) == t;
    assert StripRight(t) == t;
  }

  // ---------------------------------------------------------------- case

  predicate IsUpper(c: char) { 'A' <= c <= 'Z' }
  predicate IsLower(c: char) { 'a' <= c <= 'z' }
  predicate IsCased(c: char) { IsUpper(c) || IsLower(c) }

  function ToUpper(c: char): char {
    if IsLower(c) then (c as int - 32) as char else c
  }

  function ToLower(c: char): char {
    if IsUpper(c) then (c as int + 32) as char else c
  }

  /** Whether position `i` of `s` starts a word for `title()`: the character
      before it (or the state carried in, at position 0) is not cased. */
  predicate WordStart(s: string, i: nat, prevCased: bool)
    requires i < |s|
  {
    if i == 0 then !prevCased else !IsCased(s[i - 1])
  }

  /** The `title()` scan: upper-case a character that starts a word and
      lower-case every other one. */
  function TitleFrom(s: string, prevCased: bool): (r: string)
    ensures |r| == |s|
  {
    if s == [] then []
    else [if prevCased then ToLower(s[0]) else ToUpper(s[0])] + TitleFrom(s[1..], IsCased(s[0]))
  }

  lemma {:induction false} TitleFromAt(s: string, prevCased: bool, i: nat)
    requires i < |s|
    ensures TitleFrom(s, prevCased)[i] == if WordStart(s, i, prevCased) then ToUpper(s[i]) else ToLower(s[i])
  {
    if i > 0 {
      TitleFromAt(s[1..], IsCased(s[0]), i - 1);
    }
  }

  /** `s.title()` on ASCII letters: a letter is upper-cased exactly when it
      starts the string or follows a character that is not a letter. */
  function Title(s: string): (r: string)
    ensures |r| == |s|
    ensures forall i :: 0 <= i < |s| ==>
              r[i] == if i == 0 || !IsCased(s[i - 1]) then ToUpper(s[i]) else ToLower(s[i])
  {
    var r := TitleFrom(s, false);
    assert forall i :: 0 <= i < |s| ==>
              r[i] == if WordStart(s, i, false) then ToUpper(s[i]) else ToLower(s[i]) by {
      forall i | 0 <= i < |s| { TitleFromAt(s, false, i); }
    }
    r
  }

  lemma {:induction false} TitleFromIdempotent(s: string, prevCased: bool)
    ensures TitleFrom(TitleFrom(s, prevCased), prevCased) == TitleFrom(s, prevCased)
  {
    if s != [] {
      var t := TitleFrom(s, prevCased);
      assert t[1..] == TitleFrom(s[1..], IsCased(s[0]));
      assert IsCased(t[0]) == IsCased(s[0]);
      TitleFromIdempotent(s[1..], IsCased(s[0]));
    }
  }

  /** Case mapping never turns a character into whitespace or back. */
  lemma CaseKeepsSpace(c: char)
    ensures IsSpace(ToUpper(c)) == IsSpace(c) && IsSpace(ToLower(c)) == IsSpace(c)
  {
  }

  /** Title-casing text without whitespace at its ends leaves none there, so
      `strip()` after `title()` changes nothing. */
  lemma TitleTrimmed(s: string)
    requires s != [] ==> !IsSpace(s[0]) && !IsSpace(s[|s| - 1])
    ensures Strip(Title(s)) == Title(s)
  {
    var r := Title(s);
    if s != [] {
      CaseKeepsSpace(s[0]);
      CaseKeepsSpace(s[|s| - 1]);
      assert r[0] == ToUpper(s[0]);
      var k := |s| - 1;
      assert r[k] == if k == 0 || !IsCased(s[k - 1]) then ToUpper(s[k]) else ToLower(s[k]);
    }
    StripTrimmed(r);
  }

  /** Title-casing a title-cased string changes nothing. */
  lemma TitleIdempotent(s: string)
    ensures Title(Title(s)) == Title(s)
  {
    TitleFromIdempotent(s, false);
  }

  // ---------------------------------------------------------------- commas

  /** `s.replace(",", "")`. */
  function StripCommas(s: string): (r: string)
    ensures ',' !in r
    ensures |r| <= |s|
    ensures forall c :: c != ',' ==> (c in r <==> c in s)
    ensures ',' !in s ==> r == s
  {
    if s == [] then []
    else if s[0] == ',' then StripCommas(s[1..])
    else [s[0]] + StripCommas(s[1..])
  }

  /** Text made only of commas vanishes. */
  lemma {:induction false} StripCommasOnlyCommas(s: string)
    requires forall i :: 0 <= i < |s| ==> s[i] == ','
    ensures StripCommas(s) == []
  {
    if s != [] {
      StripCommasOnlyCommas(s[1..]);
    }
  }

  lemma {:induction false} StripCommasAppend(a: string, b: string)
    ensures StripCommas(a + b) == StripCommas(a) + StripCommas(b)
  {
    if a != [] {
      assert (a + b)[0] == a[0];
      assert (a + b)[1..] == a[1..] + b;
      StripCommasAppend(a[1..], b);
      if a[0] == ',' {
        assert StripCommas(a + b) == StripCommas(a[1..] + b);
      } else {
        calc {
          StripCommas(a + b);
          [a[0]] + StripCommas(a[1..] + b);
          [a[0]] + (StripCommas(a[1..]) + StripCommas(b));
          ([a[0]] + StripCommas(a[1..])) + StripCommas(b);
        }
      }
    } else {
      assert a + b == b;
    }
  }

  /** A comma anywhere in a token is ignored: "1,234" reads as "1234". */
  lemma CommaIgnored(a: string, b: string)
    ensures StripCommas(a + "," + b) == StripCommas(a + b)
  {
    StripCommasAppend(a + ",", b);
    StripCommasAppend(a, ",");
    StripCommasAppend(a, b);
  }

  // ---------------------------------------------------------------- numbers

  predicate IsDigit(c: char) { '0' <= c <= '9' }

  predicate AllDigits(s: string) {
    forall i :: 0 <= i < |s| ==> IsDigit(s[i])
  }

  function DigitValue(c: char): nat
    requires IsDigit(c)
  {
    c as int - '0' as int
  }

  /** The value of a string of decimal digits (most significant first). */
  function DigitsValue(s: string): nat
    requires AllDigits(s)
  {
    if s == [] then 0 else DigitsValue(s[..|s| - 1]) * 10 + DigitValue(s[|s| - 1])
  }

  function Pow10(n: nat): (r: nat)
    ensures r >= 1
  {
    if n == 0 then 1 else 10 * Pow10(n - 1)
  }

  function DigitChar(d: nat): (c: char)
    requires d < 10
    ensures IsDigit(c) && DigitValue(c) == d
  {
    ('0' as int + d) as char
  }

  /** The decimal text of a natural number, without leading zeros. */
  function DecimalText(n: nat): (r: string)
    ensures |r| > 0 && AllDigits(r)
  {
    if n < 10 then [DigitChar(n)] else DecimalText(n / 10) + [DigitChar(n % 10)]
  }

  lemma {:induction false} DecimalTextValue(n: nat)
    ensures DigitsValue(DecimalText(n)) == n
  {
    if n >= 10 {
      var t := DecimalText(n);
      assert t[..|t| - 1] == DecimalText(n / 10);
      DecimalTextValue(n / 10);
    }
  }

  /** Python's `str()` of an `int`. */
  function IntText(i: int): (r: string)
    ensures |r| > 0
  {
    if i < 0 then "-" + DecimalText(-i) else DecimalText(i)
  }

  function IndexOfChar(s: string, c: char): (r: nat)
    requires c in s
    ensures r < |s| && s[r] == c && c !in s[..r]
  {
    if s[0] == c then 0 else 1 + IndexOfChar(s[1..], c)
  }

  /** The value of decimal text with `places` fraction digits. */
  function DecimalValue(whole: nat, frac: nat, places: nat): (r: real)
    ensures r >= 0.0
  {
    whole as real + frac as real / Pow10(places) as real
  }

  /** An unsigned decimal: digits with at most one '.', and at least one digit. */
  function ParseUnsigned(t: string): (r: Option<real>)
    ensures r.Some? ==> r.value >= 0.0
  {
    if '.' in t then
      var k := IndexOfChar(t, '.');
      var ip := t[..k];
      var fp := t[k + 1..];
      if AllDigits(ip) && AllDigits(fp) && |ip| + |fp| > 0 then
        Some(DecimalValue(DigitsValue(ip), DigitsValue(fp), |fp|))
      else None
    else if |t| > 0 && AllDigits(t) then Some(DigitsValue(t) as real)
    else None
  }

  /** Python's `float()` on a string, for plain decimal notation: optional
      surrounding whitespace, an optional sign, digits with an optional
      fraction. Everything else is a `ValueError`, here `None`. */
  function ParseNumber(s: string): (r: Option<real>)
    ensures s == [] ==> r == None
  {
    var t := Strip(s);
    if |t| > 0 && t[0] == '-' then
      match ParseUnsigned(t[1..])
      case Some(v) => Some(-v)
      case None => None
    else if |t| > 0 && t[0] == '+' then ParseUnsigned(t[1..])
    else ParseUnsigned(t)
  }

  /** Text that starts and ends with a digit is read without sign or padding. */
  lemma ParseNumberUnsigned(t: string)
    requires |t| > 0 && IsDigit(t[0]) && IsDigit(t[|t| - 1])
    ensures ParseNumber(t) == ParseUnsigned(t)
  {
    StripTrimmed(t);
  }

  /** Text whose first character is not a digit or a point is no unsigned number. */
  lemma ParseUnsignedNonDigit(t: string)
    requires |t| > 0 && !IsDigit(t[0]) && t[0] != '.'
    ensures ParseUnsigned(t) == None
  {
    if '.' in t {
      var k := IndexOfChar(t, '.');
      assert k > 0 && t[..k][0] == t[0];
    }
  }

  /** Trimmed text that starts with anything but a digit, a point or a sign
      is a `ValueError`. */
  lemma ParseNumberNonDigit(t: string)
    requires |t| > 0 && !IsSpace(t[0]) && !IsSpace(t[|t| - 1])
    requires !IsDigit(t[0]) && t[0] != '.' && t[0] != '-' && t[0] != '+'
    ensures ParseNumber(t) == None
  {
    StripTrimmed(t);
    ParseUnsignedNonDigit(t);
  }

  /** The decimal text of a natural number reads back as that number. */
  lemma ParseDecimalText(n: nat)
    ensures ParseNumber(DecimalText(n)) == Some(n as real)
  {
    var t := DecimalText(n);
    assert IsDigit(t[0]) && IsDigit(t[|t| - 1]);
    ParseNumberUnsigned(t);
    ParseUnsignedDigits(t);
    DecimalTextValue(n);
  }

  /** `str()` of any int reads back as that int: `float(str(i)) == i`. */
  lemma ParseIntText(i: int)
    ensures ParseNumber(IntText(i)) == Some(i as real)
  {
    if i < 0 {
      var d := DecimalText(-i);
      var t := "-" + d;
      assert t[0] == '-' && t[|t| - 1] == d[|d| - 1] && IsDigit(d[|d| - 1]);
      StripTrimmed(t);
      assert t[1..] == d;
      ParseUnsignedDigits(d);
      DecimalTextValue(-i);
    } else {
      ParseDecimalText(i);
    }
  }

  /** Digits without a point read as their value. */
  lemma ParseUnsignedDigits(t: string)
    requires |t| > 0 && AllDigits(t)
    ensures ParseUnsigned(t) == Some(DigitsValue(t) as real)
  {
    assert forall i :: 0 <= i < |t| ==> t[i] != '.';
  }

  /** Digits, a point and digits read back as whole part plus fraction. */
  lemma ParseUnsignedPoint(ip: string, fp: string)
    requires AllDigits(ip) && AllDigits(fp) && |ip| + |fp| > 0
    ensures ParseUnsigned(ip + "." + fp) == Some(DecimalValue(DigitsValue(ip), DigitsValue(fp), |fp|))
  {
    var t := ip + "." + fp;
    assert t[|ip|] == '.';
    assert '.' !in ip;
    var k := IndexOfChar(t, '.');
    assert k == |ip|;
    assert t[..k] == ip;
    assert t[k + 1..] == fp;
  }

  /** Digit text with a point inside reads back as whole part plus fraction. */
  lemma ParsePointText(ip: string, fp: string)
    requires |ip| > 0 && |fp| > 0 && AllDigits(ip) && AllDigits(fp)
    ensures ParseNumber(ip + "." + fp) == Some(DecimalValue(DigitsValue(ip), DigitsValue(fp), |fp|))
  {
    var t := ip + "." + fp;
    assert t[0] == ip[0] && t[|t| - 1] == fp[|fp| - 1];
    ParseNumberUnsigned(t);
    ParseUnsignedPoint(ip, fp);
  }
}
