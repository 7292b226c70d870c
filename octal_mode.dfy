/**
 * ParseOctalMode (src/winutils/chmod.c:944-986): a three- or four-digit
 * octal mode string to a mode. A string here is the sequence of characters
 * before its terminating NUL.
 */
module OctalMode {
  import opened ChmodTypes

  predicate IsOctalDigit(c: char) {
    '0' <= c <= '7'
  }

  predicate AllOctalDigits(s: seq<char>) {
    forall i :: 0 <= i < |s| ==> IsOctalDigit(s[i])
  }

  function DigitValue(c: char): (d: nat)
    requires IsOctalDigit(c)
    ensures d < 8
  {
    c as int - '0' as int
  }

  /** The character of an octal digit value. */
  function DigitChar(d: nat): (c: char)
    requires d < 8
    ensures IsOctalDigit(c) && DigitValue(c) == d
  {
    ('0' as int + d) as char
  }

  /**
   * The value `wcstol(s, &end, 8)` returns for a string of octal digits,
   * read most significant digit first: below `8^|s|`, that is, below
   * `2^(3|s|)`.
   */
  function OctalValue(s: seq<char>): (v: nat)
    requires AllOctalDigits(s)
    ensures v < Pow2(3 * |s|)
    decreases |s|
  {
    if s == [] then 0
    else
      var n := |s| - 1;
      assert Pow2(3 * n + 3) == 2 * Pow2(3 * n + 2) == 4 * Pow2(3 * n + 1) == 8 * Pow2(3 * n);
      OctalValue(s[..n]) * 8 + DigitValue(s[n])
  }

  /**
   * The outcome of ParseOctalMode: None when the string is not three or
   * four octal digits; otherwise the value of the last three digits (the
   * setuid/setgid/sticky digit of a four-digit string is dropped) as a
   * USHORT mode. The guard `l > 0x0777` is written in hexadecimal in the
   * source and kept here as written; `l < 0` and a trailing unparsed
   * character cannot occur once every character is a digit.
   */
  function ParseOctalSpec(s: seq<char>): Option<Mode>
  {
    if |s| != 4 && |s| != 3 then None
    else if !AllOctalDigits(s) then None
    else
      var l := if |s| == 4 then OctalValue(s[1..]) else OctalValue(s);
      if l > 0x777 then None
      else Some(ModeOf(l % 0x10000))
  }

  /**
   * ParseOctalMode: a length check, the validation loop over the
   * characters from the last one back, then the conversion.
   */
  method ParseOctalMode(s: seq<char>) returns (r: Option<Mode>)
    ensures r == ParseOctalSpec(s)
  {
    if |s| != 4 && |s| != 3 {
      return None;
    }
    var i := 0;
    while i < |s|
      invariant 0 <= i <= |s|
      invariant forall j :: |s| - i <= j < |s| ==> IsOctalDigit(s[j])
    {
      if !IsOctalDigit(s[|s| - i - 1]) {
        return None;
      }
      i := i + 1;
    }
    var l := if |s| == 4 then OctalValue(s[1..]) else OctalValue(s);
    if l > 0x777 {
      return None;
    }
    r := Some(ModeOf(l % 0x10000));
  }

  /** The three-digit octal string of a value below 01000. */
  function OctalString(v: nat): (s: seq<char>)
    requires v < 512
    ensures |s| == 3 && AllOctalDigits(s)
  {
    [DigitChar(v / 8 / 8), DigitChar(v / 8 % 8), DigitChar(v % 8)]
  }

  /** Parsing succeeds exactly on strings of three or four octal digits. */
  lemma ParseOctalSucceedsIff(s: seq<char>)
    ensures ParseOctalSpec(s) != None <==> (|s| == 3 || |s| == 4) && AllOctalDigits(s)
  {
    if (|s| == 3 || |s| == 4) && AllOctalDigits(s) {
      OctalGuardNeverBinds(s);
    }
  }

  /** The hexadecimal guard never rejects: three digits are worth at most 0777 = 511. */
  lemma OctalGuardNeverBinds(s: seq<char>)
    requires (|s| == 3 || |s| == 4) && AllOctalDigits(s)
    ensures (if |s| == 4 then OctalValue(s[1..]) else OctalValue(s)) < 512
  {
    var t := if |s| == 4 then s[1..] else s;
    assert |t| == 3 && AllOctalDigits(t);
    assert Pow2(9) == 512;
  }

  /** A parsed mode holds only the nine permission bits. */
  lemma ParseOctalWithinPermissionBits(s: seq<char>)
    ensures ParseOctalSpec(s) != None ==> ParseOctalSpec(s).value <= WHO_ALL
  {
    if ParseOctalSpec(s) != None {
      OctalGuardNeverBinds(s);
      var l := if |s| == 4 then OctalValue(s[1..]) else OctalValue(s);
      assert Pow2(9) == 512;
      BitsFromBounded(l, 0, 9);
      assert l % 0x10000 == l;
    }
  }

  /** Printing a value below 01000 in octal and parsing it back gives that value's mode. */
  lemma ParseOctalString(v: nat)
    requires v < 512
    ensures ParseOctalSpec(OctalString(v)) == Some(ModeOf(v))
  {
    var s := OctalString(v);
    ThreeDigitValue(s);
  }

  /** A leading fourth digit, whatever it is, is ignored. */
  lemma ParseOctalIgnoresLeadingDigit(c: char, s: seq<char>)
    requires IsOctalDigit(c) && |s| == 3
    ensures ParseOctalSpec([c] + s) == ParseOctalSpec(s)
  {
    assert ([c] + s)[1..] == s;
    assert AllOctalDigits([c] + s) <==> AllOctalDigits(s) by {
      assert forall i :: 0 <= i < |s| ==> s[i] == ([c] + s)[i + 1];
    }
  }

  /**
   * Conversely, the parsed mode determines the last three digits: two
   * strings that parse to the same mode end in the same three digits.
   */
  lemma ParseOctalInjective(s: seq<char>, t: seq<char>)
    requires ParseOctalSpec(s) != None && ParseOctalSpec(s) == ParseOctalSpec(t)
    ensures s[|s| - 3..] == t[|t| - 3..]
  {
    ParseOctalSucceedsIff(s);
    ParseOctalSucceedsIff(t);
    var vs := ParsedValue(s);
    var vt := ParsedValue(t);
    BitsFromInjective(vs, vt, 0);
    ThreeDigitsInjective(s[|s| - 3..], t[|t| - 3..]);
  }

  /** A successful parse yields the mode of the value of the last three digits. */
  lemma ParsedValue(s: seq<char>) returns (v: nat)
    requires (|s| == 3 || |s| == 4) && AllOctalDigits(s)
    ensures AllOctalDigits(s[|s| - 3..]) && v == OctalValue(s[|s| - 3..])
    ensures ParseOctalSpec(s) == Some(ModeOf(v))
  {
    OctalGuardNeverBinds(s);
    var s3 := s[|s| - 3..];
    assert s3 == if |s| == 4 then s[1..] else s;
    v := OctalValue(s3);
    assert v % 0x10000 == v;
  }

  /** Three-digit strings with the same value are the same string. */
  lemma ThreeDigitsInjective(s: seq<char>, t: seq<char>)
    requires |s| == 3 && |t| == 3 && AllOctalDigits(s) && AllOctalDigits(t)
    requires OctalValue(s) == OctalValue(t)
    ensures s == t
  {
    ThreeDigitValue(s);
    ThreeDigitValue(t);
    var a, b, c := DigitValue(s[0]), DigitValue(s[1]), DigitValue(s[2]);
    var x, y, z := DigitValue(t[0]), DigitValue(t[1]), DigitValue(t[2]);
    DivModUnique(8 * a + b, c, 8 * x + y, z);
    DivModUnique(a, b, x, y);
    assert s[0] == t[0] && s[1] == t[1] && s[2] == t[2];
  }

  /** Quotient and remainder by 8 are unique. */
  lemma DivModUnique(q1: int, r1: int, q2: int, r2: int)
    requires 0 <= r1 < 8 && 0 <= r2 < 8 && 8 * q1 + r1 == 8 * q2 + r2
    ensures q1 == q2 && r1 == r2
  {
  }

  /** The value of three octal digits, written out. */
  lemma ThreeDigitValue(s: seq<char>)
    requires |s| == 3 && AllOctalDigits(s)
    ensures OctalValue(s) == 64 * DigitValue(s[0]) + 8 * DigitValue(s[1]) + DigitValue(s[2])
  {
    var s2, s1 := s[..2], s[..1];
    assert s2[..1] == s1 && s2[1] == s[1] && s1[..0] == [];
    assert OctalValue(s1) == DigitValue(s[0]);
    assert OctalValue(s2) == OctalValue(s1) * 8 + DigitValue(s[1]);
    assert OctalValue(s) == OctalValue(s2) * 8 + DigitValue(s[2]);
  }
}
