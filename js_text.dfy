/**
  The JavaScript string semantics that the application's rules rely on:
  the regular-expression character classes `\w` and `\s`, ASCII case mapping,
  `trim`, `split`/`join` on a one-character separator, `includes`,
  integer-to-decimal conversion (`toString`) and `parseInt`.
 */
module JsText {
  import opened Wrappers

  // ---------------------------------------------------------------------------
  // Character classes
  // ---------------------------------------------------------------------------

  predicate IsAsciiUpper(c: char) { 'A' <= c <= 'Z' }
  predicate IsAsciiLower(c: char) { 'a' <= c <= 'z' }
  predicate IsDigit(c: char) { '0' <= c <= '9' }

  /** A character of the regular-expression class `\w`, the one `\b` is defined by. */
  predicate IsWordChar(c: char) {
    IsAsciiUpper(c) || IsAsciiLower(c) || IsDigit(c) || c == '_'
  }

  /**
    A character of the regular-expression class `\s`, which is also the set that
    `String.prototype.trim` and `parseInt` skip: the ECMAScript WhiteSpace and
    LineTerminator code points.
   */
  predicate IsJsSpace(c: char) {
    var n := c as int;
    n == 0x09 || n == 0x0A || n == 0x0B || n == 0x0C || n == 0x0D || n == 0x20 ||
    n == 0xA0 || n == 0x1680 || (0x2000 <= n <= 0x200A) || n == 0x2028 || n == 0x2029 ||
    n == 0x202F || n == 0x205F || n == 0x3000 || n == 0xFEFF
  }

  // ---------------------------------------------------------------------------
  // Case mapping (ASCII letters only)
  // ---------------------------------------------------------------------------

  function UpperChar(c: char): (r: char)
    ensures IsAsciiLower(c) ==> IsAsciiUpper(r)
    ensures !IsAsciiLower(c) ==> r == c
    ensures IsWordChar(r) == IsWordChar(c)
  {
    if IsAsciiLower(c) then (c as int - 32) as char else c
  }

  function LowerChar(c: char): (r: char)
    ensures IsAsciiUpper(c) ==> IsAsciiLower(r)
    ensures !IsAsciiUpper(c) ==> r == c
    ensures IsWordChar(r) == IsWordChar(c)
  {
    if IsAsciiUpper(c) then (c as int + 32) as char else c
  }

  /** `s.toUpperCase()` */
  function Upper(s: string): (r: string)
    ensures |r| == |s|
    ensures forall i :: 0 <= i < |s| ==> r[i] == UpperChar(s[i])
  {
    seq(|s|, i requires 0 <= i < |s| => UpperChar(s[i]))
  }

  /** `s.toLowerCase()` */
  function Lower(s: string): (r: string)
    ensures |r| == |s|
    ensures forall i :: 0 <= i < |s| ==> r[i] == LowerChar(s[i])
  {
    seq(|s|, i requires 0 <= i < |s| => LowerChar(s[i]))
  }

  /** Two characters are equal under the case folding of a regular expression's `i` flag. */
  predicate SameLetter(a: char, b: char) {
    UpperChar(a) == UpperChar(b)
  }

  /** Upper-casing is idempotent, with or without an intermediate step. */
  lemma UpperCharIdempotent(c: char)
    ensures UpperChar(UpperChar(c)) == UpperChar(c)
  {
  }

  // ---------------------------------------------------------------------------
  // trim
  // ---------------------------------------------------------------------------

  /** Drops leading white space. */
  function TrimStart(s: string): (r: string)
    ensures |r| <= |s| && r == s[|s| - |r|..]
    ensures r == [] || !IsJsSpace(r[0])
    ensures forall i :: 0 <= i < |s| - |r| ==> IsJsSpace(s[i])
  {
    if |s| > 0 && IsJsSpace(s[0]) then TrimStart(s[1..]) else s
  }

  /** Drops trailing white space. */
  function TrimEnd(s: string): (r: string)
    ensures |r| <= |s| && r == s[..|r|]
    ensures r == [] || !IsJsSpace(r[|r| - 1])
    ensures forall i :: |r| <= i < |s| ==> IsJsSpace(s[i])
  {
    if |s| > 0 && IsJsSpace(s[|s| - 1]) then TrimEnd(s[..|s| - 1]) else s
  }

  /** `s.trim()` */
  function Trim(s: string): (r: string)
    ensures r == [] || (!IsJsSpace(r[0]) && !IsJsSpace(r[|r| - 1]))
    ensures |r| <= |s|
  {
    TrimEnd(TrimStart(s))
  }

  // ---------------------------------------------------------------------------
  // split / join on a one-character separator
  // ---------------------------------------------------------------------------

  /** `s.split(sep)` for a one-character separator string. */
  function Split(s: string, sep: char): (parts: seq<string>)
    ensures |parts| >= 1
    ensures forall p :: p in parts ==> sep !in p
  {
    if s == [] then [[]]
    else
      var rest := Split(s[1..], sep);
      if s[0] == sep then [[]] + rest else [[s[0]] + rest[0]] + rest[1..]
  }

  /** `parts.join(sep)` */
  function Join(parts: seq<string>, sep: string): string {
    if |parts| == 0 then []
    else if |parts| == 1 then parts[0]
    else parts[0] + sep + Join(parts[1..], sep)
  }

  /** Joining the pieces of a split with the same separator gives back the string. */
  lemma {:induction false} JoinSplit(s: string, sep: char)
    ensures Join(Split(s, sep), [sep]) == s
  {
    if s != [] {
      var rest := Split(s[1..], sep);
      JoinSplit(s[1..], sep);
      if s[0] == sep {
        assert Split(s, sep) == [[]] + rest;
      } else if |rest| == 1 {
        assert Split(s, sep) == [[s[0]] + rest[0]];
        assert s == [s[0]] + s[1..];
      } else {
        var parts := Split(s, sep);
        assert parts == [[s[0]] + rest[0]] + rest[1..];
        assert parts[1..] == rest[1..];
        assert Join(rest, [sep]) == rest[0] + [sep] + Join(rest[1..], [sep]);
        assert s == [s[0]] + s[1..];
      }
    }
  }

  /** Splitting on a character that does not occur gives the whole string. */
  lemma {:induction false} SplitWithoutSeparator(s: string, sep: char)
    requires sep !in s
    ensures Split(s, sep) == [s]
  {
    if s != [] {
      assert sep !in s[1..];
      SplitWithoutSeparator(s[1..], sep);
      assert s == [s[0]] + s[1..];
    }
  }

  /** A separator between two strings splits them apart. */
  lemma {:induction false} SplitConcat(a: string, sep: char, b: string)
    ensures Split(a + [sep] + b, sep) == Split(a, sep) + Split(b, sep)
  {
    if a == [] {
      assert a + [sep] + b == [sep] + b;
      assert ([sep] + b)[1..] == b;
    } else {
      assert (a + [sep] + b)[1..] == a[1..] + [sep] + b;
      SplitConcat(a[1..], sep, b);
    }
  }

  // ---------------------------------------------------------------------------
  // includes
  // ---------------------------------------------------------------------------

  predicate IsPrefix(p: string, s: string) {
    |p| <= |s| && s[..|p|] == p
  }

  /** `hay.includes(needle)` */
  predicate Contains(hay: string, needle: string)
    decreases |hay|
  {
    IsPrefix(needle, hay) || (|hay| > 0 && Contains(hay[1..], needle))
  }

  /** An occurrence at index `i` makes `includes` hold. */
  lemma {:induction false} ContainsOccurrence(hay: string, needle: string, i: nat)
    requires i + |needle| <= |hay| && hay[i..i + |needle|] == needle
    ensures Contains(hay, needle)
    decreases i
  {
    if i == 0 {
      assert hay[..|needle|] == needle;
    } else {
      assert hay[1..][i - 1..i - 1 + |needle|] == hay[i..i + |needle|];
      ContainsOccurrence(hay[1..], needle, i - 1);
    }
  }

  /** When `includes` holds, the needle occurs at some index. */
  lemma {:induction false} ContainsWitness(hay: string, needle: string) returns (i: nat)
    requires Contains(hay, needle)
    ensures i + |needle| <= |hay| && hay[i..i + |needle|] == needle
    decreases |hay|
  {
    if IsPrefix(needle, hay) {
      i := 0;
      assert hay[0..|needle|] == hay[..|needle|];
    } else {
      var j := ContainsWitness(hay[1..], needle);
      i := j + 1;
      assert hay[1..][j..j + |needle|] == hay[i..i + |needle|];
    }
  }

  /** Every string includes the empty string. */
  lemma ContainsEmpty(hay: string)
    ensures Contains(hay, [])
  {
    assert IsPrefix([], hay);
  }

  // ---------------------------------------------------------------------------
  // Integers as decimal text: Number.prototype.toString and parseInt
  // ---------------------------------------------------------------------------

  function DigitChar(d: nat): (c: char)
    requires d < 10
    ensures IsDigit(c)
  {
    ('0' as int + d) as char
  }

  /** The decimal digits of `n`, without leading zeros. */
  function NatToDecimal(n: nat): (s: string)
    ensures |s| >= 1
    ensures forall i :: 0 <= i < |s| ==> IsDigit(s[i])
    ensures |s| > 1 ==> s[0] != '0'
  {
    if n < 10 then [DigitChar(n)] else NatToDecimal(n / 10) + [DigitChar(n % 10)]
  }

  /** `String(n)` for an integer value. */
  function IntToDecimal(n: int): string {
    if n < 0 then "-" + NatToDecimal(-n) else NatToDecimal(n)
  }

  /** The value of a digit character in radices up to 36; 36 for anything else. */
  function DigitValue(c: char): (v: nat)
    ensures v <= 36
  {
    if IsDigit(c) then c as int - '0' as int
    else if IsAsciiLower(c) then c as int - 'a' as int + 10
    else if IsAsciiUpper(c) then c as int - 'A' as int + 10
    else 36
  }

  /** The longest prefix of `s` made of digits of the given radix. */
  function DigitPrefix(s: string, radix: nat): (d: string)
    ensures IsPrefix(d, s)
    ensures forall i :: 0 <= i < |d| ==> DigitValue(d[i]) < radix
    ensures |d| < |s| ==> DigitValue(s[|d|]) >= radix
  {
    if |s| > 0 && DigitValue(s[0]) < radix then [s[0]] + DigitPrefix(s[1..], radix) else []
  }

  /** The value of a string of digits, most significant first. */
  function DigitsValue(d: string, radix: nat): nat {
    if d == [] then 0 else DigitsValue(d[..|d| - 1], radix) * radix + DigitValue(d[|d| - 1]) % 36
  }

  /**
    `parseInt(s)` with no radix: skip leading white space, read an optional sign,
    then the magnitude. `None` is NaN (no digit at all).
   */
  function ParseInt(s: string): Option<int>
  {
    var t := TrimStart(s);
    var negative := |t| > 0 && t[0] == '-';
    var u := if |t| > 0 && (t[0] == '-' || t[0] == '+') then t[1..] else t;
    match ParseMagnitude(u)
    case None => None
    case Some(v) => Some(if negative then -(v as int) else v)
  }

  /**
    The unsigned part of `parseInt`: radix 16 after a `0x`/`0X` prefix, else radix 10,
    then the longest run of digits of that radix.
   */
  function ParseMagnitude(u: string): Option<nat>
  {
    var hex := |u| >= 2 && u[0] == '0' && (u[1] == 'x' || u[1] == 'X');
    var radix := if hex then 16 else 10;
    var body := if hex then u[2..] else u;
    var digits := DigitPrefix(body, radix);
    if digits == [] then None else Some(DigitsValue(digits, radix))
  }

  lemma DigitCharValue(d: nat)
    requires d < 10
    ensures DigitValue(DigitChar(d)) == d
  {
  }

  /** The decimal text of `n` reads back as `n`, and is all digits. */
  lemma DecimalValue(n: nat)
    ensures DigitsValue(NatToDecimal(n), 10) == n
    ensures DigitPrefix(NatToDecimal(n), 10) == NatToDecimal(n)
  {
    DecimalDigitsValue(n);
    var s := NatToDecimal(n);
    forall i | 0 <= i < |s| ensures DigitValue(s[i]) < 10 {
      assert IsDigit(s[i]);
    }
    AllDigitsPrefix(s, 10);
  }

  lemma {:induction false} DecimalDigitsValue(n: nat)
    ensures DigitsValue(NatToDecimal(n), 10) == n
  {
    var s := NatToDecimal(n);
    if n < 10 {
      DigitCharValue(n);
      assert s[..|s| - 1] == [];
    } else {
      var q, d := n / 10, n % 10;
      DecimalDigitsValue(q);
      DigitCharValue(d);
      LastDigitStep(NatToDecimal(q), DigitChar(d));
      assert s == NatToDecimal(q) + [DigitChar(d)];
    }
  }

  /** Appending a digit multiplies the value read so far by ten and adds the digit. */
  lemma LastDigitStep(t: string, c: char)
    ensures DigitsValue(t + [c], 10) == DigitsValue(t, 10) * 10 + DigitValue(c) % 36
  {
    assert (t + [c])[..|t + [c]| - 1] == t;
  }

  lemma {:induction false} AllDigitsPrefix(s: string, radix: nat)
    requires forall i :: 0 <= i < |s| ==> DigitValue(s[i]) < radix
    ensures DigitPrefix(s, radix) == s
  {
    if |s| > 0 {
      AllDigitsPrefix(s[1..], radix);
    }
  }

  /** `parseInt(String(n)) === n` for every integer `n`. */
  lemma ParseIntOfDecimal(n: int)
    ensures ParseInt(IntToDecimal(n)) == Some(n)
  {
    if n < 0 {
      ParseIntOfNegative(-n);
    } else {
      ParseIntOfNatural(n);
    }
  }

  lemma ParseIntOfNatural(m: nat)
    ensures ParseInt(NatToDecimal(m)) == Some(m)
  {
    var d := NatToDecimal(m);
    MagnitudeOfDecimal(m);
    TrimStartNoSpace(d);
  }

  lemma ParseIntOfNegative(m: nat)
    requires m > 0
    ensures ParseInt("-" + NatToDecimal(m)) == Some(-(m as int))
  {
    var s := "-" + NatToDecimal(m);
    MagnitudeOfDecimal(m);
    TrimStartNoSpace(s);
    assert s[0] == '-' && s[1..] == NatToDecimal(m);
    assert ParseMagnitude(s[1..]) == Some(m);
  }

  /** `TrimStart` leaves text that begins with a non-space alone. */
  lemma TrimStartNoSpace(s: string)
    requires s != [] && !IsJsSpace(s[0])
    ensures TrimStart(s) == s
  {
  }

  /** `parseInt(String(NaN))`, that is `parseInt("NaN")`, is NaN again. */
  lemma ParseIntOfNaN()
    ensures ParseInt("NaN") == None
  {
    TrimStartNoSpace("NaN");
    assert DigitPrefix("NaN", 10) == [];
  }

  /** `TrimEnd` leaves text that ends with a non-space alone. */
  lemma TrimEndNoSpace(s: string)
    requires s != [] && !IsJsSpace(s[|s| - 1])
    ensures TrimEnd(s) == s
  {
  }

  /** Text that neither begins nor ends with white space is its own trim. */
  lemma TrimNoSpace(s: string)
    requires s != [] ==> !IsJsSpace(s[0]) && !IsJsSpace(s[|s| - 1])
    ensures Trim(s) == s
  {
    if s == [] {
      assert TrimStart(s) == s;
    } else {
      TrimStartNoSpace(s);
      TrimEndNoSpace(s);
    }
  }

  /** The decimal text of `n` reads back as `n` when no sign precedes it. */
  lemma MagnitudeOfDecimal(m: nat)
    ensures ParseMagnitude(NatToDecimal(m)) == Some(m)
  {
    var d := NatToDecimal(m);
    DecimalValue(m);
    assert |d| >= 2 ==> IsDigit(d[1]);
  }
}
