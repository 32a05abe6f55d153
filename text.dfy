/**
 * The parts of JavaScript's string library the viewer relies on:
 * String.prototype.trim, split(" "), toLowerCase and the global parseInt
 * (without a radix argument), over strings as sequences of characters.
 */
module Text {
  import opened Wrappers

  /** The white space and line terminators that trim and parseInt skip. */
  predicate IsJsSpace(c: char) {
    c == ' ' || c == '\t' || c == '\n' || c == '\U{000B}' || c == '\U{000C}' || c == '\r'
    || c == '\U{00A0}' || c == '\U{1680}' || ('\U{2000}' <= c <= '\U{200A}')
    || c == '\U{2028}' || c == '\U{2029}' || c == '\U{202F}' || c == '\U{205F}'
    || c == '\U{3000}' || c == '\U{FEFF}'
  }

  /** Where the run of white space that starts at `i` ends. */
  function SpaceRunFrom(s: string, i: nat): (j: nat)
    requires i <= |s|
    ensures i <= j <= |s|
    ensures forall k :: i <= k < j ==> IsJsSpace(s[k])
    ensures j == |s| || !IsJsSpace(s[j])
    decreases |s| - i
  {
    if i < |s| && IsJsSpace(s[i]) then SpaceRunFrom(s, i + 1) else i
  }

  /** Where the run of white space that ends at `j` starts, going back no further than `lo`. */
  function SpaceRunBack(s: string, lo: nat, j: nat): (i: nat)
    requires lo <= j <= |s|
    ensures lo <= i <= j
    ensures forall k :: i <= k < j ==> IsJsSpace(s[k])
    ensures i == lo || !IsJsSpace(s[i - 1])
    decreases j
  {
    if lo < j && IsJsSpace(s[j - 1]) then SpaceRunBack(s, lo, j - 1) else j
  }

  /** Drops the white space at the front: what is dropped is all white space, what is left starts with none. */
  function TrimStart(s: string): (r: string)
    ensures |r| <= |s| && r == s[|s| - |r|..]
    ensures r == [] || !IsJsSpace(r[0])
    ensures forall k :: 0 <= k < |s| - |r| ==> IsJsSpace(s[k])
  {
    s[SpaceRunFrom(s, 0)..]
  }

  /**
   * String.prototype.trim: the piece of the input between the white space
   * dropped at the front and the white space dropped at the back; it has no
   * white space at either end.
   */
  function Trim(s: string): (r: string)
    ensures |r| <= |s|
    ensures r == [] || (!IsJsSpace(r[0]) && !IsJsSpace(r[|r| - 1]))
    ensures var front := |s| - |TrimStart(s)|;
      front + |r| <= |s| && r == s[front..front + |r|]
      && (forall k :: 0 <= k < front ==> IsJsSpace(s[k]))
      && (forall k :: front + |r| <= k < |s| ==> IsJsSpace(s[k]))
  {
    var front := SpaceRunFrom(s, 0);
    s[front..SpaceRunBack(s, front, |s|)]
  }

  /** A string that does not start with white space is its own TrimStart. */
  lemma TrimStartNoLead(s: string)
    requires s == [] || !IsJsSpace(s[0])
    ensures SpaceRunFrom(s, 0) == 0
    ensures TrimStart(s) == s
  {
  }

  /** A string with no white space at either end is its own Trim. */
  lemma TrimNoEdges(s: string)
    requires s == [] || (!IsJsSpace(s[0]) && !IsJsSpace(s[|s| - 1]))
    ensures SpaceRunFrom(s, 0) == 0 && SpaceRunBack(s, 0, |s|) == |s|
    ensures Trim(s) == s
  {
  }

  /** Trimming twice changes nothing. */
  lemma TrimIdempotent(s: string)
    ensures Trim(Trim(s)) == Trim(s)
  {
    TrimNoEdges(Trim(s));
  }

  /** The number of occurrences of `c` in `s`. */
  function Count(s: string, c: char): nat
  {
    if s == [] then 0 else (if s[0] == c then 1 else 0) + Count(s[1..], c)
  }

  /**
   * s.split(" "): the pieces between the single spaces, in order. Two spaces
   * in a row give an empty piece, and the empty string gives one empty piece.
   */
  function Split(s: string): (r: seq<string>)
    ensures |r| == Count(s, ' ') + 1
    ensures forall k :: 0 <= k < |r| ==> ' ' !in r[k]
  {
    if s == [] then [[]]
    else
      var rest := Split(s[1..]);
      if s[0] == ' ' then [[]] + rest
      else [[s[0]] + rest[0]] + rest[1..]
  }

  /** The pieces joined again with single spaces. */
  function Join(parts: seq<string>): string
  {
    if |parts| == 0 then []
    else if |parts| == 1 then parts[0]
    else parts[0] + " " + Join(parts[1..])
  }

  /** Splitting loses nothing: joining the pieces gives the string back. */
  lemma {:induction false} JoinSplit(s: string)
    ensures Join(Split(s)) == s
  {
    if s != [] {
      var rest := Split(s[1..]);
      JoinSplit(s[1..]);
      if s[0] != ' ' {
        assert Join([[s[0]] + rest[0]] + rest[1..]) == [s[0]] + Join(rest);
      }
    }
  }

  /** A space-free piece followed by a space splits off as the first piece. */
  lemma {:induction false} SplitAfterWord(a: string, b: string)
    requires ' ' !in a
    ensures Split(a + " " + b) == [a] + Split(b)
  {
    if a == [] {
      assert a + " " + b == [' '] + b;
      assert (a + " " + b)[1..] == b;
    } else {
      assert (a + " " + b)[1..] == a[1..] + " " + b;
      SplitAfterWord(a[1..], b);
      assert [a[0]] + a[1..] == a;
    }
  }

  /** A space-free string splits into itself alone. */
  lemma {:induction false} SplitWord(a: string)
    requires ' ' !in a
    ensures Split(a) == [a]
  {
    if a != [] {
      SplitWord(a[1..]);
      assert [a[0]] + a[1..] == a;
    }
  }

  /** toLowerCase on one character: ASCII capitals become small letters, all else is kept. */
  function LowerChar(c: char): (l: char)
    ensures !('A' <= l <= 'Z')
    ensures !('A' <= c <= 'Z') ==> l == c
    ensures 'A' <= c <= 'Z' ==> l as int == c as int + 32 && 'a' <= l <= 'z'
  {
    if 'A' <= c <= 'Z' then (c as int + 32) as char else c
  }

  /** toLowerCase on the ASCII letters; every other character is kept. */
  function ToLower(s: string): (r: string)
    ensures |r| == |s|
    ensures forall i :: 0 <= i < |r| ==> !('A' <= r[i] <= 'Z')
    ensures forall i :: 0 <= i < |s| && !('A' <= s[i] <= 'Z') ==> r[i] == s[i]
    ensures forall i :: 0 <= i < |s| && 'A' <= s[i] <= 'Z' ==> r[i] as int == s[i] as int + 32
  {
    seq(|s|, i requires 0 <= i < |s| => LowerChar(s[i]))
  }

  /** The value of a character as a digit of radix up to 36, or 36 if it is no digit. */
  function DigitValue(c: char): (d: nat)
    ensures d <= 36
    ensures '0' <= c <= '9' <==> d < 10
  {
    if '0' <= c <= '9' then c as int - '0' as int
    else if 'a' <= c <= 'z' then c as int - 'a' as int + 10
    else if 'A' <= c <= 'Z' then c as int - 'A' as int + 10
    else 36
  }

  predicate IsDigit(c: char, radix: nat) {
    DigitValue(c) < radix
  }

  /** The longest prefix made of digits of the radix. */
  function DigitPrefix(s: string, radix: nat): (d: string)
    ensures |d| <= |s| && d == s[..|d|]
    ensures forall i :: 0 <= i < |d| ==> IsDigit(d[i], radix)
    ensures |d| < |s| ==> !IsDigit(s[|d|], radix)
  {
    if |s| > 0 && IsDigit(s[0], radix) then [s[0]] + DigitPrefix(s[1..], radix) else []
  }

  /** The number the digits denote, most significant first. */
  function DigitsValue(d: string, radix: nat): nat
    requires forall i :: 0 <= i < |d| ==> IsDigit(d[i], radix)
  {
    if d == [] then 0
    else
      var front := d[..|d| - 1];
      assert forall i :: 0 <= i < |front| ==> front[i] == d[i];
      var v := DigitsValue(front, radix);
      assert v * radix >= 0;
      v * radix + DigitValue(d[|d| - 1])
  }

  /** The longest run of digits of the radix at the front, read as a number; none is NaN (None). */
  function ParseDigits(s: string, radix: nat): (r: Option<int>)
    ensures r.None? <==> (s == [] || !IsDigit(s[0], radix))
    ensures r.Some? ==> r.value >= 0
  {
    var d := DigitPrefix(s, radix);
    if d == [] then None else Some(DigitsValue(d, radix))
  }

  /** After the sign: "0x" or "0X" selects radix 16, anything else is decimal. */
  function ParseUnsigned(u: string): (r: Option<int>)
    ensures r.Some? ==> r.value >= 0
  {
    if |u| >= 2 && u[0] == '0' && (u[1] == 'x' || u[1] == 'X') then ParseDigits(u[2..], 16)
    else ParseDigits(u, 10)
  }

  function Negate(r: Option<int>): Option<int>
  {
    match r
    case None => None
    case Some(v) => Some(-v)
  }

  /** After the white space: an optional sign, then the unsigned number. */
  function ParseSigned(t: string): Option<int>
  {
    if |t| > 0 && t[0] == '-' then Negate(ParseUnsigned(t[1..]))
    else if |t| > 0 && t[0] == '+' then ParseUnsigned(t[1..])
    else ParseUnsigned(t)
  }

  /** A string starting with a decimal digit and no "0x" prefix: the digits it starts with, in radix 10. */
  predicate StartsDecimal(t: string) {
    |t| > 0 && '0' <= t[0] <= '9' && !(|t| >= 2 && t[0] == '0' && (t[1] == 'x' || t[1] == 'X'))
  }

  /**
   * parseInt(s) with no radix: leading white space is skipped, then an
   * optional sign, then "0x"/"0X" selects radix 16; the longest run of digits
   * that follows is read and the rest ignored. No digit at all is NaN (None).
   */
  function ParseInt(s: string): (r: Option<int>)
    ensures TrimStart(s) == [] ==> r.None?
    ensures r.Some? && r.value < 0 ==> TrimStart(s)[0] == '-'
    ensures StartsDecimal(TrimStart(s)) ==> r.Some? && r.value >= 0
  {
    ParseSigned(TrimStart(s))
  }

  /** The decimal digits of a natural number, most significant first, no leading zero. */
  function ShowNat(n: nat): (r: string)
    ensures |r| > 0
    ensures forall i :: 0 <= i < |r| ==> '0' <= r[i] <= '9'
  {
    if n < 10 then [('0' as int + n) as char]
    else ShowNat(n / 10) + [('0' as int + n % 10) as char]
  }

  /**
   * An integer in decimal: a minus sign for negatives, then its digits. This is
   * how JavaScript prints integers below 10^21 in magnitude; larger ones it
   * prints with an exponent, which this function does not produce.
   */
  function Show(n: int): (r: string)
  {
    if n < 0 then "-" + ShowNat(-n) else ShowNat(n)
  }

  lemma {:induction false} ShowNatValue(n: nat)
    ensures DigitsValue(ShowNat(n), 10) == n
  {
    var r := ShowNat(n);
    if n >= 10 {
      ShowNatValue(n / 10);
      assert r[..|r| - 1] == ShowNat(n / 10);
    }
  }

  /** Decimal digits are no white space, no sign and no space. */
  lemma ShowNatPlain(n: nat)
    ensures ' ' !in ShowNat(n)
    ensures !IsJsSpace(ShowNat(n)[0]) && !IsJsSpace(ShowNat(n)[|ShowNat(n)| - 1])
    ensures ShowNat(n)[0] != '-' && ShowNat(n)[0] != '+'
    ensures |ShowNat(n)| < 2 || (ShowNat(n)[1] != 'x' && ShowNat(n)[1] != 'X')
  {
    var r := ShowNat(n);
    assert '0' <= r[0] <= '9' && '0' <= r[|r| - 1] <= '9';
  }

  lemma AllDigitsPrefix(d: string)
    requires forall i :: 0 <= i < |d| ==> '0' <= d[i] <= '9'
    ensures DigitPrefix(d, 10) == d
  {
  }

  /** A run of decimal digits, without sign or "0x", is read in radix 10 as its value. */
  lemma ParseUnsignedDecimal(digits: string)
    requires |digits| > 0 && forall i :: 0 <= i < |digits| ==> '0' <= digits[i] <= '9'
    ensures ParseUnsigned(digits) == Some(DigitsValue(digits, 10))
  {
    assert !(|digits| >= 2 && digits[0] == '0' && (digits[1] == 'x' || digits[1] == 'X')) by {
      if |digits| >= 2 { assert '0' <= digits[1] <= '9'; }
    }
    AllDigitsPrefix(digits);
    assert ParseDigits(digits, 10) == Some(DigitsValue(digits, 10));
  }

  /** Without a sign in front, the signed reading is the unsigned one. */
  lemma ParseSignedUnsigned(t: string)
    requires t == [] || (t[0] != '-' && t[0] != '+')
    ensures ParseSigned(t) == ParseUnsigned(t)
  {
  }

  /** A minus sign in front negates the unsigned reading of the rest. */
  lemma ParseSignedMinus(t: string)
    requires |t| > 0 && t[0] == '-'
    ensures ParseSigned(t) == Negate(ParseUnsigned(t[1..]))
  {
  }

  /** A minus sign in front adds no space. */
  lemma NoSpaceAfterMinus(d: string)
    requires ' ' !in d
    ensures ' ' !in "-" + d
  {
    var s := "-" + d;
    assert forall i :: 1 <= i < |s| ==> s[i] == d[i - 1];
  }

  /** A run of decimal digits parses as its value. */
  lemma ParseDigitRun(digits: string)
    requires |digits| > 0 && forall i :: 0 <= i < |digits| ==> '0' <= digits[i] <= '9'
    ensures ParseInt(digits) == Some(DigitsValue(digits, 10))
  {
    assert '0' <= digits[0] <= '9';
    TrimStartNoLead(digits);
    ParseSignedUnsigned(digits);
    ParseUnsignedDecimal(digits);
  }

  /** A minus sign and a run of decimal digits parse as the negated value. */
  lemma ParseMinusDigitRun(s: string, digits: string)
    requires |digits| > 0 && forall i :: 0 <= i < |digits| ==> '0' <= digits[i] <= '9'
    requires |s| > 0 && s[0] == '-' && s[1..] == digits
    ensures ParseInt(s) == Some(0 - DigitsValue(digits, 10))
  {
    TrimStartNoLead(s);
    ParseSignedMinus(s);
    ParseUnsignedDecimal(digits);
  }

  /** The decimal digits of a natural number parse back as that number. */
  lemma ParseShowNonNegative(n: nat)
    ensures ParseInt(ShowNat(n)) == Some(n)
  {
    ShowNatValue(n);
    ParseDigitRun(ShowNat(n));
  }

  /** A minus sign before the digits of a natural number parses back as its negation. */
  lemma ParseShowNegative(n: nat)
    ensures ParseInt("-" + ShowNat(n)) == Some(0 - n)
  {
    var digits := ShowNat(n);
    var s := "-" + digits;
    assert s[1..] == digits;
    ShowNatValue(n);
    ParseMinusDigitRun(s, digits);
  }

  /** Printing an integer and parsing it back gives the integer; the printed form has no white space. */
  lemma ParseShow(n: int)
    ensures ParseInt(Show(n)) == Some(n)
    ensures ' ' !in Show(n) && |Show(n)| > 0
    ensures !IsJsSpace(Show(n)[0]) && !IsJsSpace(Show(n)[|Show(n)| - 1])
  {
    if n < 0 {
      var digits := ShowNat(-n);
      ShowNatPlain(-n);
      ParseShowNegative(-n);
      NoSpaceAfterMinus(digits);
      var s := "-" + digits;
      assert s[|s| - 1] == digits[|digits| - 1];
    } else {
      ShowNatPlain(n);
      ParseShowNonNegative(n);
    }
  }
}
