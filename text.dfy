/**
 * The pieces of Python's string handling that the command layer and the
 * topology parser rely on: `str.strip()`, `str.split()` with no separator,
 * `str.lower()`, `str(int)`, `int(str)` and `float(str)`.
 *
 * Digits are ASCII digits only, and letters are lowered only in the ASCII
 * range; whitespace is the full set of characters that `str.isspace()`
 * accepts.
 */
module Text {
  import opened Wrappers

  /** The characters for which Python's `str.isspace()` is true. */
  predicate IsSpace(c: char) {
    var k := c as int;
    (9 <= k <= 13) || (28 <= k <= 32) || k == 0x85 || k == 0xA0 || k == 0x1680
    || (0x2000 <= k <= 0x200A) || k == 0x2028 || k == 0x2029 || k == 0x202F
    || k == 0x205F || k == 0x3000
  }

  predicate IsDigit(c: char) {
    '0' <= c <= '9'
  }

  function DigitValue(c: char): (d: nat)
    requires IsDigit(c)
    ensures d <= 9
  {
    c as int - '0' as int
  }

  function DigitChar(d: nat): (c: char)
    requires d <= 9
    ensures IsDigit(c) && DigitValue(c) == d
  {
    ('0' as int + d) as char
  }

  predicate AllDigits(s: string) {
    forall i :: 0 <= i < |s| ==> IsDigit(s[i])
  }

  /** A non-empty run of ASCII digits. */
  predicate IsNumeral(s: string) {
    |s| > 0 && AllDigits(s)
  }

  /** A non-empty string with no whitespace in it: what `split()` yields. */
  predicate IsWord(w: string) {
    |w| > 0 && forall i :: 0 <= i < |w| ==> !IsSpace(w[i])
  }

  /** The decimal value of a string of digits (leading zeros allowed). */
  function DigitsValue(s: string): nat
    requires AllDigits(s)
    decreases |s|
  {
    if s == [] then 0 else 10 * DigitsValue(s[..|s| - 1]) + DigitValue(s[|s| - 1])
  }

  /** Python's `str(n)` for a non-negative integer. */
  function NatToString(n: nat): string
    decreases n
  {
    if n <= 9 then [DigitChar(n)] else NatToString(n / 10) + [DigitChar(n % 10)]
  }

  /** Python's `str(i)` for any integer. */
  function IntToString(i: int): string {
    if i < 0 then "-" + NatToString(-i) else NatToString(i)
  }

  /** `str(n)` is a numeral, a single digit exactly for `n <= 9`, and reads back as `n`. */
  lemma {:induction false} NatToStringValue(n: nat)
    ensures IsNumeral(NatToString(n))
    ensures n <= 9 <==> |NatToString(n)| == 1
    ensures DigitsValue(NatToString(n)) == n
  {
    var s := NatToString(n);
    if n > 9 {
      NatToStringValue(n / 10);
      assert s == NatToString(n / 10) + [DigitChar(n % 10)];
      assert s[..|s| - 1] == NatToString(n / 10);
    } else {
      assert s == [DigitChar(n)];
    }
  }

  /** `str(i)` is a single token: no whitespace in it. */
  lemma IntToStringWord(i: int)
    ensures IsWord(IntToString(i))
  {
    NatToStringValue(if i < 0 then -i else i);
  }

  /** Digits are never whitespace, so a numeral is a word. */
  lemma NumeralIsWord(s: string)
    requires IsNumeral(s)
    ensures IsWord(s)
  {
  }

  // ---------------------------------------------------------------- strip

  /** Python's `str.lstrip()`; `TrimLeftSuffix` says that it drops exactly the leading whitespace. */
  function TrimLeft(s: string): (r: string)
    ensures |r| <= |s|
    ensures r == [] || !IsSpace(r[0])
    decreases |s|
  {
    if s != [] && IsSpace(s[0]) then TrimLeft(s[1..]) else s
  }

  /** What `TrimLeft` keeps is a suffix of its input, and what it drops is whitespace. */
  lemma {:induction false} TrimLeftSuffix(s: string)
    ensures TrimLeft(s) == s[|s| - |TrimLeft(s)|..]
    ensures IsBlank(s[..|s| - |TrimLeft(s)|])
    decreases |s|
  {
    if s != [] && IsSpace(s[0]) {
      var r := TrimLeft(s);
      TrimLeftSuffix(s[1..]);
      assert s[1..][|s| - 1 - |r|..] == s[|s| - |r|..];
      assert s[..|s| - |r|] == [s[0]] + s[1..][..|s| - 1 - |r|];
    }
  }

  /** Python's `str.rstrip()`; `TrimRightPrefix` says that it drops exactly the trailing whitespace. */
  function TrimRight(s: string): (r: string)
    ensures |r| <= |s|
    ensures r == [] || !IsSpace(r[|r| - 1])
    decreases |s|
  {
    if s != [] && IsSpace(s[|s| - 1]) then TrimRight(s[..|s| - 1]) else s
  }

  /** What `TrimRight` keeps is a prefix of its input, and what it drops is whitespace. */
  lemma {:induction false} TrimRightPrefix(s: string)
    ensures TrimRight(s) == s[..|TrimRight(s)|]
    ensures IsBlank(s[|TrimRight(s)|..])
    decreases |s|
  {
    if s != [] && IsSpace(s[|s| - 1]) {
      var init := s[..|s| - 1];
      var r := TrimRight(s);
      TrimRightPrefix(init);
      assert init[..|r|] == s[..|r|];
      assert s[|r|..] == init[|r|..] + [s[|s| - 1]];
    }
  }

  /** Python's `str.strip()` with no argument; `StripSurroundingBlank` says what it removes. */
  function Strip(s: string): (r: string)
    ensures r == [] || (!IsSpace(r[0]) && !IsSpace(r[|r| - 1]))
  {
    var l := TrimLeft(s);
    TrimRightPrefix(l);
    TrimRight(l)
  }

  /**
   * `strip()` keeps one stretch of its input, starting after the leading
   * whitespace that `TrimLeft` drops, and everything before and after that
   * stretch is whitespace.
   */
  lemma StripSurroundingBlank(s: string)
    ensures var p, r := |s| - |TrimLeft(s)|, Strip(s);
      && p + |r| <= |s| && r == s[p..p + |r|]
      && IsBlank(s[..p]) && IsBlank(s[p + |r|..])
  {
    var l := TrimLeft(s);
    TrimLeftSuffix(s);
    TrimRightPrefix(l);
    SliceOfSuffix(s, l, TrimRight(l));
  }

  /** A prefix `r` of a suffix `l` of `s` is a slice of `s`, and the rest of `l` is the rest of `s`. */
  lemma SliceOfSuffix(s: string, l: string, r: string)
    requires |l| <= |s| && l == s[|s| - |l|..]
    requires |r| <= |l| && r == l[..|r|]
    ensures r == s[|s| - |l|..|s| - |l| + |r|]
    ensures s[|s| - |l| + |r|..] == l[|r|..]
  {
  }

  predicate IsBlank(s: string) {
    forall i :: 0 <= i < |s| ==> IsSpace(s[i])
  }

  lemma {:induction false} TrimRightEmptyIffBlank(s: string)
    ensures TrimRight(s) == [] <==> IsBlank(s)
    decreases |s|
  {
    if s != [] {
      var init := s[..|s| - 1];
      TrimRightEmptyIffBlank(init);
      if IsBlank(s) {
        assert IsBlank(init);
      }
      if IsSpace(s[|s| - 1]) && IsBlank(init) {
        assert forall i :: 0 <= i < |s| ==> i < |s| - 1 ==> s[i] == init[i];
      }
    }
  }

  lemma {:induction false} TrimLeftEmptyIffBlank(s: string)
    ensures TrimLeft(s) == [] <==> IsBlank(s)
    decreases |s|
  {
    if s != [] {
      TrimLeftEmptyIffBlank(s[1..]);
      if IsBlank(s) {
        assert IsBlank(s[1..]);
      }
      if IsSpace(s[0]) && IsBlank(s[1..]) {
        assert forall i :: 0 < i < |s| ==> s[i] == s[1..][i - 1];
      }
    }
  }

  /** `strip()` yields the empty string exactly for blank lines. */
  lemma StripEmptyIffBlank(s: string)
    ensures Strip(s) == [] <==> IsBlank(s)
  {
    var l := TrimLeft(s);
    TrimLeftEmptyIffBlank(s);
    TrimRightEmptyIffBlank(l);
    if l != [] {
      assert !IsBlank(l) by {
        assert !IsSpace(l[0]);
      }
    }
  }

  /** A string that neither starts nor ends with whitespace is its own strip. */
  lemma StripUnchanged(s: string)
    requires s == [] || (!IsSpace(s[0]) && !IsSpace(s[|s| - 1]))
    ensures Strip(s) == s
  {
    assert TrimLeft(s) == s;
    assert TrimRight(s) == s;
  }

  /** Stripping removes one trailing newline after a numeral. */
  lemma StripNumeralNewline(p: string)
    requires IsNumeral(p)
    ensures Strip(p + "\n") == p
  {
    var s := p + "\n";
    assert TrimLeft(s) == s;
    assert s[..|s| - 1] == p;
    assert IsDigit(p[|p| - 1]);
    assert TrimRight(p) == p;
    assert TrimRight(s) == TrimRight(p);
  }

  // ---------------------------------------------------------------- split

  /** The length of the run of non-whitespace characters that starts `s`. */
  function NonSpaceRun(s: string): (n: nat)
    ensures n <= |s|
    ensures forall i :: 0 <= i < n ==> !IsSpace(s[i])
    ensures n == |s| || IsSpace(s[n])
    decreases |s|
  {
    if s == [] || IsSpace(s[0]) then 0 else 1 + NonSpaceRun(s[1..])
  }

  /** Python's `str.split()` with no separator: the maximal runs of non-whitespace. */
  function Words(s: string): (ws: seq<string>)
    ensures forall k :: 0 <= k < |ws| ==> IsWord(ws[k])
    decreases |s|
  {
    if s == [] then []
    else if IsSpace(s[0]) then Words(s[1..])
    else
      var n := NonSpaceRun(s);
      [s[..n]] + Words(s[n..])
  }

  /** A line whose first character is not whitespace has at least one word. */
  lemma WordsNonEmpty(s: string)
    requires s != [] && !IsSpace(s[0])
    ensures Words(s) != [] && Words(s)[0] == s[..NonSpaceRun(s)]
  {
    var n := NonSpaceRun(s);
    assert Words(s) == [s[..n]] + Words(s[n..]);
  }

  lemma WordsOfWord(w: string)
    requires IsWord(w)
    ensures Words(w) == [w]
  {
    var n := NonSpaceRun(w);
    assert n == |w|;
    assert w[..n] == w && w[n..] == [];
    assert Words(w) == [w[..n]] + Words(w[n..]);
  }

  /** Splitting `w + " " + rest` yields `w` and then the words of `rest`. */
  lemma WordsCons(w: string, rest: string)
    requires IsWord(w)
    ensures Words(w + " " + rest) == [w] + Words(rest)
  {
    var s := w + " " + rest;
    var n := NonSpaceRun(s);
    assert forall i :: 0 <= i < |w| ==> s[i] == w[i];
    assert IsSpace(s[|w|]);
    assert n == |w|;
    assert s[..n] == w;
    var tail := s[n..];
    assert tail[0] == ' ' && tail[1..] == rest;
  }

  /** Three tokens joined by single spaces split back into those three tokens. */
  lemma WordsOfThree(a: string, b: string, c: string)
    requires IsWord(a) && IsWord(b) && IsWord(c)
    ensures Words(a + " " + b + " " + c) == [a, b, c]
  {
    WordsOfWord(c);
    WordsCons(b, c);
    assert a + " " + b + " " + c == a + " " + (b + " " + c);
    WordsCons(a, b + " " + c);
  }

  /** Text that is all whitespace splits into no words. */
  lemma {:induction false} WordsOfBlank(s: string)
    requires IsBlank(s)
    ensures Words(s) == []
    decreases |s|
  {
    if s != [] {
      assert IsBlank(s[1..]);
      WordsOfBlank(s[1..]);
    }
  }

  /** The first run of non-whitespace ends at the first whitespace, whatever follows it. */
  lemma NonSpaceRunAppend(a: string, t: string)
    requires t == [] || IsSpace(t[0])
    ensures NonSpaceRun(a + t) == NonSpaceRun(a)
  {
    var n := NonSpaceRun(a);
    assert forall i :: 0 <= i < |a| ==> (a + t)[i] == a[i];
    assert n == |a + t| || IsSpace((a + t)[n]);
  }

  /**
   * A whitespace character separates words: `a + [c] + b` splits into the
   * words of `a` followed by the words of `b`. With `WordsOfBlank` and
   * `WordsOfWord` this pins `split()` down: the maximal non-whitespace runs,
   * in order.
   */
  lemma {:induction false} WordsSplitAtSpace(a: string, c: char, b: string)
    requires IsSpace(c)
    ensures Words(a + [c] + b) == Words(a) + Words(b)
    decreases |a|
  {
    var s := a + [c] + b;
    if a == [] {
      assert s[1..] == b;
    } else if IsSpace(a[0]) {
      assert s[1..] == a[1..] + [c] + b;
      WordsSplitAtSpace(a[1..], c, b);
    } else {
      assert s == a + ([c] + b);
      NonSpaceRunAppend(a, [c] + b);
      var n := NonSpaceRun(a);
      assert s[..n] == a[..n];
      assert s[n..] == a[n..] + [c] + b;
      WordsSplitAtSpace(a[n..], c, b);
    }
  }

  // ---------------------------------------------------------------- lower

  function LowerChar(c: char): char {
    if 'A' <= c <= 'Z' then (c as int + 32) as char else c
  }

  /** Python's `str.lower()`, restricted to ASCII letters. */
  function Lower(s: string): (r: string)
    ensures |r| == |s|
    ensures forall i :: 0 <= i < |s| ==> r[i] == LowerChar(s[i])
  {
    seq(|s|, i requires 0 <= i < |s| => LowerChar(s[i]))
  }

  // ---------------------------------------------------------------- numbers

  /** Python's `int(s)` on a string: surrounding whitespace, an optional sign, decimal digits. */
  function ParseInt(s: string): Option<int> {
    SignedDecimal(Strip(s))
  }

  /** An optional sign followed by decimal digits, with nothing around it. */
  function SignedDecimal(t: string): Option<int> {
    if t != [] && (t[0] == '+' || t[0] == '-') then
      if IsNumeral(t[1..]) then
        Some(if t[0] == '-' then -(DigitsValue(t[1..]) as int) else DigitsValue(t[1..]) as int)
      else None
    else if IsNumeral(t) then Some(DigitsValue(t) as int)
    else None
  }

  /** `int()` of a token without whitespace is just the sign-and-digits reading. */
  lemma ParseIntOfWord(w: string)
    requires IsWord(w)
    ensures ParseInt(w) == SignedDecimal(w)
  {
    StripUnchanged(w);
  }

  lemma StripNumeral(t: string)
    requires IsNumeral(t)
    ensures Strip(t) == t
  {
    assert IsDigit(t[0]) && IsDigit(t[|t| - 1]);
    StripUnchanged(t);
  }

  lemma StripNegativeNumeral(m: string)
    requires IsNumeral(m)
    ensures Strip("-" + m) == "-" + m
  {
    var t := "-" + m;
    assert IsDigit(m[|m| - 1]) && t[|t| - 1] == m[|m| - 1];
    StripUnchanged(t);
  }

  lemma SignedDecimalNumeral(t: string)
    requires IsNumeral(t)
    ensures SignedDecimal(t) == Some(DigitsValue(t) as int)
  {
    assert IsDigit(t[0]);
  }

  lemma SignedDecimalNegative(m: string)
    requires IsNumeral(m)
    ensures SignedDecimal("-" + m) == Some(-(DigitsValue(m) as int))
  {
    assert ("-" + m)[1..] == m;
  }

  /** A numeral with no sign reads as its value. */
  lemma ParseIntNumeral(t: string)
    requires IsNumeral(t)
    ensures ParseInt(t) == Some(DigitsValue(t) as int)
  {
    StripNumeral(t);
    SignedDecimalNumeral(t);
  }

  /** A numeral after a minus sign reads as its negated value. */
  lemma ParseIntNegativeNumeral(m: string)
    requires IsNumeral(m)
    ensures ParseInt("-" + m) == Some(-(DigitsValue(m) as int))
  {
    StripNegativeNumeral(m);
    SignedDecimalNegative(m);
  }

  /** `int(str(i)) == i`. */
  lemma ParseIntOfString(i: int)
    ensures ParseInt(IntToString(i)) == Some(i)
  {
    var m := NatToString(if i < 0 then -i else i);
    NatToStringValue(if i < 0 then -i else i);
    if i < 0 {
      assert IntToString(i) == "-" + m;
      ParseIntNegativeNumeral(m);
    } else {
      assert IntToString(i) == m;
      ParseIntNumeral(m);
    }
  }

  lemma StripChar(c: char)
    ensures Strip([c]) == if IsSpace(c) then [] else [c]
  {
    if IsSpace(c) {
      assert TrimLeft([c]) == TrimLeft([c][1..]);
      assert [c][1..] == [];
    } else {
      StripUnchanged([c]);
    }
  }

  lemma SignedDecimalChar(c: char)
    ensures SignedDecimal([c]) == if IsDigit(c) then Some(DigitValue(c) as int) else None
  {
    assert [c][1..] == [];
    if IsDigit(c) {
      assert [c][..0] == [];
      assert DigitsValue([c]) == DigitValue(c);
    }
  }

  /** `int(c)` for a single character accepts exactly the digits. */
  lemma ParseIntChar(c: char)
    ensures ParseInt([c]) == if IsDigit(c) then Some(DigitValue(c) as int) else None
  {
    StripChar(c);
    SignedDecimalChar(c);
    if IsSpace(c) {
      assert SignedDecimal([]) == None;
    }
  }

  /** A stripped string that `int()` accepts and that starts with a digit is a numeral. */
  lemma UnsignedParsed(t: string)
    requires t != [] && !IsSpace(t[0]) && !IsSpace(t[|t| - 1])
    requires ParseInt(t).Some? && IsDigit(t[0])
    ensures IsNumeral(t) && ParseInt(t) == Some(DigitsValue(t) as int)
  {
    StripUnchanged(t);
  }

  /** A numeral followed by one newline still reads as its value. */
  lemma ParseIntNumeralNewline(p: string)
    requires IsNumeral(p)
    ensures ParseInt(p + "\n") == Some(DigitsValue(p) as int)
  {
    StripNumeralNewline(p);
  }

  /** What `float(s)` yields for the inputs modelled here; `-0` is a negative zero. */
  datatype Float = Number(negative: bool, magnitude: nat) | Infinity(negative: bool) {
    /** Python's `x < 0`; a negative zero is not below zero. */
    predicate IsNegative() {
      match this
      case Number(neg, m) => neg && m > 0
      case Infinity(neg) => neg
    }
  }

  /**
   * Python's `float(s)` for an optionally signed string of decimal digits or
   * an optionally signed `inf`/`infinity` in any letter case, with
   * surrounding whitespace.
   */
  function ParseFloat(s: string): Option<Float> {
    FloatLiteral(Strip(s))
  }

  function FloatLiteral(t: string): Option<Float> {
    var signed := t != [] && (t[0] == '+' || t[0] == '-');
    var negative := t != [] && t[0] == '-';
    var body := if signed then t[1..] else t;
    if Lower(body) == "inf" || Lower(body) == "infinity" then Some(Infinity(negative))
    else if IsNumeral(body) then Some(Number(negative, DigitsValue(body)))
    else None
  }

  /** A string of digits reads as its non-negative value. */
  lemma ParseFloatNumeral(s: string)
    requires IsNumeral(s)
    ensures ParseFloat(s) == Some(Number(false, DigitsValue(s)))
  {
    StripNumeral(s);
    FloatLiteralNumeral(s);
  }

  lemma FloatLiteralNumeral(s: string)
    requires IsNumeral(s)
    ensures FloatLiteral(s) == Some(Number(false, DigitsValue(s)))
  {
    assert IsDigit(s[0]);
    assert Lower(s) != "inf" && Lower(s) != "infinity" by {
      assert Lower(s)[0] == s[0];
    }
  }
}
