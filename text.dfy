/** String helpers shared by the whole model: the parts of JavaScript's
    `String.prototype.trim`, `toLowerCase`, `padStart`, number-to-text
    conversion and `parseInt` that the core relies on. */
module Text {
  import opened Wrappers

  /** The characters `trim` removes: ECMAScript WhiteSpace and LineTerminator. */
  predicate IsSpace(c: char)
  {
    c == ' ' || c == '\t' || c == '\n' || c == '\r' || c == '\U{000B}' || c == '\U{000C}' ||
    c == '\U{00A0}' || c == '\U{1680}' || ('\U{2000}' <= c <= '\U{200A}') ||
    c == '\U{2028}' || c == '\U{2029}' || c == '\U{202F}' || c == '\U{205F}' ||
    c == '\U{3000}' || c == '\U{FEFF}'
  }

  /** True when every character of `s` is white space (also for the empty string). */
  predicate Blank(s: string)
  {
    forall i :: 0 <= i < |s| ==> IsSpace(s[i])
  }

  /** `s` without its leading white space. */
  function TrimStart(s: string): (r: string)
    ensures |r| <= |s| && r == s[|s| - |r|..]
    ensures r == [] || !IsSpace(r[0])
    ensures Blank(s[..|s| - |r|])
    decreases |s|
  {
    if |s| > 0 && IsSpace(s[0]) then
      var r := TrimStart(s[1..]);
      assert s[1..][..|s| - 1 - |r|] == s[1..|s| - |r|];
      r
    else s
  }

  /** `s` without its trailing white space. */
  function TrimEnd(s: string): (r: string)
    ensures |r| <= |s| && r == s[..|r|]
    ensures r == [] || !IsSpace(r[|r| - 1])
    ensures Blank(s[|r|..])
    decreases |s|
  {
    if |s| > 0 && IsSpace(s[|s| - 1]) then
      var u := s[..|s| - 1];
      var r := TrimEnd(u);
      assert u[..|r|] == s[..|r|];
      assert s[|r|..] == u[|r|..] + [s[|s| - 1]];
      assert Blank(s[|r|..]) by {
        forall i | 0 <= i < |s| - |r| ensures IsSpace(s[|r|..][i]) {
          if i < |u| - |r| { assert s[|r|..][i] == u[|r|..][i]; }
        }
      }
      r
    else s
  }

  /** `r` sits in `s` at position `k` with only white space before and after it. */
  predicate InfixoEmBranco(s: string, r: string, k: int)
  {
    0 <= k <= |s| - |r| && r == s[k..k + |r|] && Blank(s[..k]) && Blank(s[k + |r|..])
  }

  /** `String.prototype.trim`: the longest infix of `s` that starts and ends
      with a non-space character, or "" when `s` is blank. */
  function Trim(s: string): (r: string)
    ensures |r| <= |s|
    ensures r == [] || (!IsSpace(r[0]) && !IsSpace(r[|r| - 1]))
    ensures r == [] <==> Blank(s)
    ensures exists k :: InfixoEmBranco(s, r, k)
  {
    var t := TrimStart(s);
    var r := TrimEnd(t);
    assert r != [] ==> r[0] == t[0];
    AparadoVazio(s, t, r);
    InfixoAparado(s, t, r);
    r
  }

  /** After both cuts nothing is left iff the whole text was blank. */
  lemma AparadoVazio(s: string, t: string, r: string)
    requires |t| <= |s| && t == s[|s| - |t|..] && Blank(s[..|s| - |t|]) && (t == [] || !IsSpace(t[0]))
    requires |r| <= |t| && r == t[..|r|] && Blank(t[|r|..])
    ensures r == [] <==> Blank(s)
  {
    var k := |s| - |t|;
    if r == [] {
      assert t == [] by { assert t[|r|..] == t; }
      assert s[..k] == s;
    } else {
      assert s[k] == t[0];
    }
  }

  /** Cutting a blank prefix and then a blank suffix leaves an infix framed by blanks. */
  lemma InfixoAparado(s: string, t: string, r: string)
    requires |t| <= |s| && t == s[|s| - |t|..] && Blank(s[..|s| - |t|])
    requires |r| <= |t| && r == t[..|r|] && Blank(t[|r|..])
    ensures InfixoEmBranco(s, r, |s| - |t|)
  {
    var k := |s| - |t|;
    assert r == s[k..k + |r|];
    assert s[k + |r|..] == t[|r|..];
  }

  lemma TrimNoSpaceEnds(s: string)
    requires s == [] || (!IsSpace(s[0]) && !IsSpace(s[|s| - 1]))
    ensures Trim(s) == s
  {
  }

  /** Trimming twice is trimming once. */
  lemma TrimIdempotent(s: string)
    ensures Trim(Trim(s)) == Trim(s)
  {
    TrimNoSpaceEnds(Trim(s));
  }

  /** Letters whose lower-case form is one code point above/below: ASCII A-Z
      and the Latin-1 capitals U+00C0..U+00DE except U+00D7 (multiplication sign). */
  predicate IsUpper(c: char)
  {
    ('A' <= c <= 'Z') || ('\U{00C0}' <= c <= '\U{00DE}' && c != '\U{00D7}')
  }

  function LowerChar(c: char): (r: char)
    ensures !IsUpper(r)
    ensures !IsUpper(c) ==> r == c
  {
    if IsUpper(c) then (c as int + 32) as char else c
  }

  /** `toLowerCase` on the letters `IsUpper` covers. */
  function ToLower(s: string): (r: string)
    ensures |r| == |s|
    ensures forall i :: 0 <= i < |s| ==> r[i] == LowerChar(s[i])
  {
    seq(|s|, i requires 0 <= i < |s| => LowerChar(s[i]))
  }

  /** Lower-casing is idempotent, so comparing lower-cased names is stable. */
  lemma ToLowerIdempotent(s: string)
    ensures ToLower(ToLower(s)) == ToLower(s)
  {
  }

  /** `a.toLowerCase() === b.toLowerCase()`: the same length and, position by
      position, the same letter up to case. */
  predicate EqualsIgnoreCase(a: string, b: string)
    ensures EqualsIgnoreCase(a, b) <==>
      |a| == |b| && forall i :: 0 <= i < |a| ==> LowerChar(a[i]) == LowerChar(b[i])
  {
    ToLower(a) == ToLower(b)
  }

  predicate IsDigit(c: char)
  {
    '0' <= c <= '9'
  }

  function DigitChar(d: nat): (c: char)
    requires d < 10
    ensures IsDigit(c)
  {
    "0123456789"[d]
  }

  function DigitValue(c: char): (d: nat)
    requires IsDigit(c)
    ensures d < 10
    ensures DigitChar(d) == c
  {
    (c as int - '0' as int)
  }

  /** The decimal text of `n`, as JavaScript prints a non-negative integer. */
  function NatToString(n: nat): (r: string)
    ensures 1 <= |r|
    ensures forall i :: 0 <= i < |r| ==> IsDigit(r[i])
    ensures r[0] == '0' ==> n == 0
  {
    if n < 10 then [DigitChar(n)] else NatToString(n / 10) + [DigitChar(n % 10)]
  }

  /** The value of a non-empty run of decimal digits. */
  function ParseDigits(s: string): (n: nat)
    requires forall i :: 0 <= i < |s| ==> IsDigit(s[i])
  {
    if s == [] then 0 else 10 * ParseDigits(s[..|s| - 1]) + DigitValue(s[|s| - 1])
  }

  /** Reading back the printed number gives the number. */
  lemma {:induction false} ParseNatToString(n: nat)
    ensures ParseDigits(NatToString(n)) == n
  {
    var r := NatToString(n);
    if n >= 10 {
      ParseNatToString(n / 10);
      assert r[..|r| - 1] == NatToString(n / 10);
    }
  }

  /** Different numbers print differently. */
  lemma NatToStringInjective(m: nat, n: nat)
    requires NatToString(m) == NatToString(n)
    ensures m == n
  {
    ParseNatToString(m);
    ParseNatToString(n);
  }

  /** The decimal text of an integer, with a leading '-' when negative. */
  function IntToString(i: int): (r: string)
    ensures i >= 0 ==> r == NatToString(i)
    ensures i < 0 ==> r == "-" + NatToString(-i)
  {
    if i < 0 then "-" + NatToString(-i) else NatToString(i)
  }

  lemma MultiplicarMonotono(a: int, x: int, y: int)
    requires a >= 0 && x <= y
    ensures a * x <= a * y
  {
    assert a * y - a * x == a * (y - x);
  }

  /** Euclidean division is unique: a quotient and a remainder in [0, b) that rebuild
      `a` are Dafny's `/` and `%`. */
  lemma DivisaoUnica(a: int, b: int, t: int, u: int)
    requires b > 0 && a == b * t + u && 0 <= u < b
    ensures a / b == t && a % b == u
  {
    var q := a / b;
    assert b * (q - t) == u - a % b;
    if q - t >= 1 {
      MultiplicarMonotono(b, 1, q - t);
    } else if q - t <= -1 {
      MultiplicarMonotono(b, q - t, -1);
    }
  }

  /** JavaScript's `a % b` for `b > 0`: the remainder takes the sign of `a`, and
      `a` minus it is a multiple of `b`. */
  function JsRemainder(a: int, b: int): (r: int)
    requires b > 0
    ensures a >= 0 ==> r == a % b
    ensures a < 0 ==> -b < r <= 0
    ensures (a - r) % b == 0
  {
    if a >= 0 then
      DivisaoUnica(a - a % b, b, a / b, 0);
      a % b
    else
      RestoNegativo(a, b);
      -((-a) % b)
  }

  lemma RestoNegativo(a: int, b: int)
    requires b > 0 && a < 0
    ensures 0 <= (-a) % b < b && (a + (-a) % b) % b == 0
  {
    var x, q, s := -a, (-a) / b, (-a) % b;
    assert x == b * q + s;
    assert a + s == b * (-q);
    DivisaoUnica(a + s, b, -q, 0);
  }

  /** `s.padStart(2, '0')`. */
  function PadStart2(s: string): (r: string)
    ensures |r| == if |s| < 2 then 2 else |s|
    ensures r[|r| - |s|..] == s
    ensures forall i :: 0 <= i < |r| - |s| ==> r[i] == '0'
  {
    if |s| == 0 then "00" else if |s| == 1 then "0" + s else s
  }

  /** A number below 100 prints in at most two digits. */
  lemma NatToStringCurto(n: nat)
    requires n < 100
    ensures |NatToString(n)| <= 2
  {
    if n >= 10 {
      assert NatToString(n / 10) == [DigitChar(n / 10)];
    }
  }

  /** The same for the text of an integer, stated for every integer. */
  lemma IntToStringCurto(i: int)
    ensures 0 <= i < 100 ==> |IntToString(i)| <= 2
  {
    if 0 <= i < 100 {
      NatToStringCurto(i);
    }
  }

  /** Padding a run of digits with leading zeros keeps its value. */
  lemma ParseDigitsPadStart2(s: string)
    requires s != [] && forall i :: 0 <= i < |s| ==> IsDigit(s[i])
    ensures forall i :: 0 <= i < |PadStart2(s)| ==> IsDigit(PadStart2(s)[i])
    ensures ParseDigits(PadStart2(s)) == ParseDigits(s)
  {
    if |s| == 1 {
      var r := PadStart2(s);
      assert r == ['0', s[0]];
      assert r[..1] == ['0'] && ['0'][..0] == [];
      assert s[..0] == [];
    }
  }

  /** A padded number reads back as the number; below 100 it is exactly two digits. */
  lemma PadStart2NatToString(n: nat)
    ensures var f := PadStart2(NatToString(n));
      |f| >= 2 && (n < 100 ==> |f| == 2) &&
      (forall i :: 0 <= i < |f| ==> IsDigit(f[i])) && ParseDigits(f) == n
  {
    if n < 100 {
      NatToStringCurto(n);
    }
    ParseDigitsPadStart2(NatToString(n));
    ParseNatToString(n);
  }

  /** The layout of `m + ":" + s` for two runs of digits. */
  lemma JuntarComDoisPontos(m: string, s: string)
    requires forall i :: 0 <= i < |m| ==> IsDigit(m[i])
    requires forall i :: 0 <= i < |s| ==> IsDigit(s[i])
    ensures var t := m + ":" + s;
      |t| == |m| + 1 + |s| && t[|m|] == ':' && t[..|m|] == m && t[|m| + 1..] == s &&
      forall i :: 0 <= i < |t| && i != |m| ==> IsDigit(t[i])
  {
    var t := m + ":" + s;
    assert t[..|m|] == m;
    assert t[|m| + 1..] == s;
    forall i | 0 <= i < |t| && i != |m| ensures IsDigit(t[i]) {
      if i < |m| {
        assert t[i] == m[i];
      } else {
        assert t[i] == s[i - |m| - 1];
      }
    }
  }

  /** The longest prefix of `s` made of decimal digits. */
  function DigitPrefix(s: string): (r: string)
    ensures |r| <= |s| && r == s[..|r|]
    ensures forall i :: 0 <= i < |r| ==> IsDigit(r[i])
    ensures |r| == |s| || !IsDigit(s[|r|])
  {
    if s != [] && IsDigit(s[0]) then [s[0]] + DigitPrefix(s[1..]) else []
  }

  /** The value of the digit run that starts `u`, or `None` when `u` does not start with a digit. */
  function ParseUnsigned(u: string): (r: Option<nat>)
    ensures r.None? <==> (u == [] || !IsDigit(u[0]))
  {
    var d := DigitPrefix(u);
    if d == [] then None else Some(ParseDigits(d))
  }

  /** `parseInt` after the leading blanks: an optional sign, then the digits. */
  function ParseSigned(t: string): (r: Option<int>)
    ensures r.None? <==> ParseUnsigned(if t != [] && (t[0] == '-' || t[0] == '+') then t[1..] else t).None?
  {
    if t != [] && t[0] == '-' then
      match ParseUnsigned(t[1..])
      case None => None
      case Some(v) => Some(-(v as int))
    else if t != [] && t[0] == '+' then
      match ParseUnsigned(t[1..])
      case None => None
      case Some(v) => Some(v)
    else
      match ParseUnsigned(t)
      case None => None
      case Some(v) => Some(v)
  }

  /** Decimal `parseInt(s)`: leading white space, an optional sign, then the
      longest run of digits; `None` stands for `NaN` (no digit after the sign). */
  function ParseInt(s: string): (r: Option<int>)
    ensures (forall k :: 0 <= k < |s| ==> !IsDigit(s[k])) ==> r.None?
  {
    var t := TrimStart(s);
    assert t != [] ==> t[0] == s[|s| - |t|];
    assert |t| > 1 ==> t[1] == s[|s| - |t| + 1];
    ParseSigned(t)
  }

  lemma DigitPrefixAllDigits(s: string)
    requires forall i :: 0 <= i < |s| ==> IsDigit(s[i])
    ensures DigitPrefix(s) == s
  {
  }

  /** The digit run at the start of `d + resto` is `d` when `resto` does not start with a digit. */
  lemma DigitPrefixConcat(d: string, resto: string)
    requires forall i :: 0 <= i < |d| ==> IsDigit(d[i])
    requires resto == [] || !IsDigit(resto[0])
    ensures DigitPrefix(d + resto) == d
  {
    assert (d + resto)[..|d|] == d;
  }

  lemma TrimStartNoSpace(s: string)
    requires s != [] && !IsSpace(s[0])
    ensures TrimStart(s) == s
  {
  }

  lemma IntToStringTrimStart(i: int)
    ensures TrimStart(IntToString(i)) == IntToString(i)
  {
    var t := IntToString(i);
    assert t[0] == '-' || IsDigit(t[0]);
    TrimStartNoSpace(t);
  }

  lemma ParseSignedDigito(t: string, n: nat)
    requires t != [] && IsDigit(t[0]) && ParseUnsigned(t) == Some(n)
    ensures ParseSigned(t) == Some(n)
  {
  }

  lemma ParseSignedMenos(d: string, n: nat)
    requires ParseUnsigned(d) == Some(n)
    ensures ParseSigned("-" + d) == Some(-(n as int))
  {
    assert ("-" + d)[0] == '-' && ("-" + d)[1..] == d;
  }

  lemma ParseSignedIntToString(i: int)
    ensures ParseSigned(IntToString(i)) == Some(i)
  {
    var n: nat := if i < 0 then -i else i;
    var d := NatToString(n);
    ParseNatToString(n);
    DigitPrefixAllDigits(d);
    assert ParseUnsigned(d) == Some(n);
    if i < 0 {
      ParseSignedMenos(d, n);
    } else {
      ParseSignedDigito(d, n);
    }
  }

  /** Concatenation regroups freely (kept apart so that the proof above stays small). */
  lemma Associativa(a: string, b: string, c: string)
    ensures a + b + c == a + (b + c)
  {
  }

  /** The text of `i` reads back at the start of a text when what follows it is not a digit. */
  lemma ParseSignedComResto(i: int, resto: string)
    requires resto == [] || !IsDigit(resto[0])
    ensures ParseSigned(IntToString(i) + resto) == Some(i)
  {
    var n: nat := if i < 0 then -i else i;
    var d := NatToString(n);
    ParseNatToString(n);
    DigitPrefixConcat(d, resto);
    assert ParseUnsigned(d + resto) == Some(n);
    if i < 0 {
      Associativa("-", d, resto);
      ParseSignedMenos(d + resto, n);
    } else {
      ParseSignedDigito(d + resto, n);
    }
  }

  /** `parseInt` reads an integer back from the start of a text when what follows it is not a digit. */
  lemma ParseIntComResto(i: int, resto: string)
    requires resto == [] || !IsDigit(resto[0])
    ensures ParseInt(IntToString(i) + resto) == Some(i)
  {
    var t := IntToString(i) + resto;
    assert t[0] == '-' || IsDigit(t[0]);
    TrimStartNoSpace(t);
    ParseSignedComResto(i, resto);
  }

  /** `parseInt` reads back the decimal text of every integer. */
  lemma ParseIntToString(i: int)
    ensures ParseInt(IntToString(i)) == Some(i)
  {
    IntToStringTrimStart(i);
    ParseSignedIntToString(i);
  }
}
