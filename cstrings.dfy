/**
 * The C string routines the restart-reason encoder relies on: strncmp,
 * strcmp and simple_strtoul in base 16, over NUL-terminated strings.
 */
module CStrings {

  /** A pointer that may be NULL. */
  datatype Option<T> = None | Some(value: T)

  /** A NUL-terminated C string, as the characters before its terminator. */
  type CString = s: string | '\0' !in s

  /** The character at index i, reading the terminator as NUL. */
  function At(s: CString, i: nat): char
  {
    if i < |s| then s[i] else '\0'
  }

  /** The string from index 1 on (C's s + 1), for a string that is not empty. */
  function Tail(s: CString): CString
    requires |s| > 0
  {
    assert forall c | c in s[1..] :: c in s;
    s[1..]
  }

  /**
   * strncmp(s, t, n): compares at most n characters, stopping at the first
   * difference or at the terminator the two strings share; zero means equal.
   */
  function StrNCmp(s: CString, t: CString, n: nat): int
    decreases n
  {
    if n == 0 then 0
    else if At(s, 0) != At(t, 0) then At(s, 0) as int - At(t, 0) as int
    else if At(s, 0) == '\0' then 0
    else StrNCmp(Tail(s), Tail(t), n - 1)
  }

  /** strcmp(s, t): compares up to the terminator; zero means equal. */
  function StrCmp(s: CString, t: CString): int
    decreases |s|
  {
    if At(s, 0) != At(t, 0) then At(s, 0) as int - At(t, 0) as int
    else if At(s, 0) == '\0' then 0
    else StrCmp(Tail(s), Tail(t))
  }

  /** strncmp against a literal over the literal's whole length is a prefix test. */
  lemma {:induction false} StrNCmpIsPrefix(s: CString, lit: CString, n: nat)
    requires n == |lit|
    ensures StrNCmp(s, lit, n) == 0 <==> lit <= s
    decreases n
  {
    if n > 0 {
      if At(s, 0) == At(lit, 0) {
        assert At(lit, 0) == lit[0] != '\0';
        StrNCmpIsPrefix(Tail(s), Tail(lit), n - 1);
        assert lit <= s <==> lit[1..] <= s[1..];
      } else {
        assert !(lit <= s);
      }
    }
  }

  /** strcmp is zero exactly for equal strings. */
  lemma {:induction false} StrCmpIsEquality(s: CString, t: CString)
    ensures StrCmp(s, t) == 0 <==> s == t
    decreases |s|
  {
    if At(s, 0) == At(t, 0) && At(s, 0) != '\0' {
      StrCmpIsEquality(Tail(s), Tail(t));
      assert s == [s[0]] + s[1..] && t == [t[0]] + t[1..];
    } else if At(s, 0) != At(t, 0) {
      assert s != t;
    } else {
      assert |s| == 0 && |t| == 0;
    }
  }

  // ----- simple_strtoul(cp, NULL, 16) -----

  /** A character _parse_integer accepts as a base-16 digit. */
  predicate IsHexDigit(c: char)
  {
    '0' <= c <= '9' || 'a' <= c <= 'f' || 'A' <= c <= 'F'
  }

  predicate AllHexDigits(ds: string)
  {
    forall i | 0 <= i < |ds| :: IsHexDigit(ds[i])
  }

  function HexDigitValue(c: char): (d: bv64)
    requires IsHexDigit(c)
    ensures d < 16
  {
    if '0' <= c <= '9' then (c as int - '0' as int) as bv64
    else if 'a' <= c <= 'f' then (c as int - 'a' as int + 10) as bv64
    else (c as int - 'A' as int + 10) as bv64
  }

  /** In base 16, a leading "0x" or "0X" is skipped before the digits. */
  function SkipHexPrefix(s: CString): (r: CString)
    ensures |r| <= |s| && r == s[|s| - |r|..]
  {
    if |s| >= 2 && s[0] == '0' && (s[1] == 'x' || s[1] == 'X') then Tail(Tail(s)) else s
  }

  /** The longest run of hex digits that starts the string. */
  function HexRun(s: string): string
  {
    if |s| > 0 && IsHexDigit(s[0]) then [s[0]] + HexRun(s[1..]) else []
  }

  /** HexRun is a prefix of hex digits that no further digit extends. */
  lemma {:induction false} HexRunIsLongest(s: string)
    ensures HexRun(s) <= s && AllHexDigits(HexRun(s))
    ensures |HexRun(s)| == |s| || !IsHexDigit(s[|HexRun(s)|])
  {
    if |s| > 0 && IsHexDigit(s[0]) {
      HexRunIsLongest(s[1..]);
      assert s == [s[0]] + s[1..];
    }
  }

  /**
   * The digits read as a number in an unsigned long long, which wraps around
   * at 2^64; res * 16 is written as the equal shift res << 4.
   */
  function HexAccum(ds: string): bv64
    requires AllHexDigits(ds)
    decreases |ds|
  {
    if ds == [] then 0
    else (HexAccum(ds[..|ds| - 1]) << 4) + HexDigitValue(ds[|ds| - 1])
  }

  /** The conversion from unsigned long long to a 32-bit unsigned long. */
  function Low32(x: bv64): bv32
  {
    (x & 0xFFFF_FFFF) as bv32
  }

  /** simple_strtoul(s, NULL, 16) on a 32-bit target; no digits give 0. */
  function StrToULHex(s: CString): bv32
  {
    HexRunIsLongest(SkipHexPrefix(s));
    Low32(HexAccum(HexRun(SkipHexPrefix(s))))
  }

  /** The value of the last two digits of a run (fewer when the run is shorter). */
  function LastTwoDigits(ds: string): (r: bv64)
    requires AllHexDigits(ds)
  {
    if |ds| == 0 then 0
    else if |ds| == 1 then HexDigitValue(ds[0])
    else (HexDigitValue(ds[|ds| - 2]) << 4) + HexDigitValue(ds[|ds| - 1])
  }

  lemma LowByteStep(a: bv64, x: bv64, y: bv64)
    requires x < 16 && y < 16
    ensures ((((a << 4) + x) << 4) + y) & 0xff == (x << 4) + y
  {
  }

  /** HexAccum unfolded over the last two digits. */
  lemma HexAccumLastTwo(ds: string)
    requires AllHexDigits(ds) && |ds| >= 2
    ensures HexAccum(ds) == (((HexAccum(ds[..|ds| - 2]) << 4) + HexDigitValue(ds[|ds| - 2])) << 4)
                            + HexDigitValue(ds[|ds| - 1])
  {
    var p := ds[..|ds| - 1];
    assert p[..|p| - 1] == ds[..|ds| - 2];
    assert p[|p| - 1] == ds[|ds| - 2];
  }

  /** The low byte of the accumulated value is fixed by the last two digits alone. */
  lemma LowByteOfHexAccum(ds: string)
    requires AllHexDigits(ds)
    ensures HexAccum(ds) & 0xff == LastTwoDigits(ds)
  {
    if |ds| >= 2 {
      HexAccumLastTwo(ds);
      LowByteStep(HexAccum(ds[..|ds| - 2]), HexDigitValue(ds[|ds| - 2]), HexDigitValue(ds[|ds| - 1]));
    } else if |ds| == 1 {
      assert ds[..0] == [];
      LowByteStep(0, 0, HexDigitValue(ds[0]));
    }
  }

  lemma HexAccumSnoc(ds: string, c: char)
    requires AllHexDigits(ds) && IsHexDigit(c)
    ensures AllHexDigits(ds + [c])
    ensures HexAccum(ds + [c]) == (HexAccum(ds) << 4) + HexDigitValue(c)
  {
    assert (ds + [c])[..|ds|] == ds;
  }

  /** One turn of the digit loop extends the run read so far by one digit. */
  lemma RunStep(t: string, i: nat)
    requires i < |t| && IsHexDigit(t[i])
    requires HexRun(t) == t[..i] + HexRun(t[i..])
    ensures HexRun(t) == t[..i + 1] + HexRun(t[i + 1..])
  {
    var u, rest := t[i..], HexRun(t[i + 1..]);
    assert u[0] == t[i] && u[1..] == t[i + 1..];
    assert HexRun(u) == [t[i]] + rest;
    assert t[..i] + [t[i]] == t[..i + 1];
    calc {
      HexRun(t);
      t[..i] + ([t[i]] + rest);
      (t[..i] + [t[i]]) + rest;
      t[..i + 1] + rest;
    }
  }

  /** One turn of the digit loop adds one digit to the accumulated value. */
  lemma AccumStep(t: string, i: nat)
    requires i < |t| && IsHexDigit(t[i]) && AllHexDigits(t[..i])
    ensures AllHexDigits(t[..i + 1])
    ensures HexAccum(t[..i + 1]) == (HexAccum(t[..i]) << 4) + HexDigitValue(t[i])
  {
    HexAccumSnoc(t[..i], t[i]);
    assert t[..i] + [t[i]] == t[..i + 1];
  }

  /** The digit loop of _parse_integer, with simple_strtoul's truncation to 32 bits. */
  method SimpleStrtoulHex(s: CString) returns (r: bv32)
    ensures r == StrToULHex(s)
  {
    var t := SkipHexPrefix(s);
    var res: bv64 := 0;
    var i := 0;
    while i < |t| && IsHexDigit(t[i])
      invariant 0 <= i <= |t|
      invariant AllHexDigits(t[..i])
      invariant res == HexAccum(t[..i])
      invariant HexRun(t) == t[..i] + HexRun(t[i..])
    {
      RunStep(t, i);
      AccumStep(t, i);
      res := (res << 4) + HexDigitValue(t[i]);
      i := i + 1;
    }
    assert HexRun(t[i..]) == [];
    assert t[..i] + [] == t[..i];
    r := Low32(res);
  }
}
