/**
 * Text and number helpers shared by the screens of the model: JavaScript's
 * `trim`, `toLowerCase`/`toUpperCase` (on ASCII letters), `includes`,
 * `split`/`join` on one separator character, decimal rendering of integers
 * (`String(n)` / Python's `str(n)`), `parseInt` on a digit string and a
 * decimal abstraction of `parseFloat`.
 */
module Common {

  datatype Option<+T> = None | Some(value: T)

  // ---------------------------------------------------------------------
  // Characters

  predicate IsDigit(c: char) { '0' <= c <= '9' }

  predicate IsUpper(c: char) { 'A' <= c <= 'Z' }

  predicate IsLower(c: char) { 'a' <= c <= 'z' }

  /** JavaScript's WhiteSpace and LineTerminator code points: what `trim` removes. */
  predicate IsWhitespace(c: char)
  {
    var n := c as int;
    n == 0x09 || n == 0x0A || n == 0x0B || n == 0x0C || n == 0x0D || n == 0x20
    || n == 0xA0 || n == 0x1680 || (0x2000 <= n <= 0x200A) || n == 0x2028
    || n == 0x2029 || n == 0x202F || n == 0x205F || n == 0x3000 || n == 0xFEFF
  }

  function DigitValue(c: char): (d: nat)
    requires IsDigit(c)
    ensures d < 10
  {
    c as int - '0' as int
  }

  function DigitChar(d: nat): (c: char)
    requires d < 10
    ensures IsDigit(c) && DigitValue(c) == d
  {
    ('0' as int + d) as char
  }

  function LowerChar(c: char): (r: char)
    ensures IsUpper(c) ==> IsLower(r)
    ensures !IsUpper(c) ==> r == c
  {
    if IsUpper(c) then (c as int + 32) as char else c
  }

  function UpperChar(c: char): (r: char)
    ensures IsLower(c) ==> IsUpper(r)
    ensures !IsLower(c) ==> r == c
  {
    if IsLower(c) then (c as int - 32) as char else c
  }

  // ---------------------------------------------------------------------
  // Case mapping

  function ToLower(s: string): (r: string)
    ensures |r| == |s|
    ensures forall i :: 0 <= i < |s| ==> r[i] == LowerChar(s[i])
  {
    seq(|s|, i requires 0 <= i < |s| => LowerChar(s[i]))
  }

  function ToUpper(s: string): (r: string)
    ensures |r| == |s|
    ensures forall i :: 0 <= i < |s| ==> r[i] == UpperChar(s[i])
  {
    seq(|s|, i requires 0 <= i < |s| => UpperChar(s[i]))
  }

  lemma LowerCharIdempotent(c: char)
    ensures LowerChar(LowerChar(c)) == LowerChar(c)
  {
  }

  lemma ToLowerIdempotent(s: string)
    ensures ToLower(ToLower(s)) == ToLower(s)
  {
  }

  lemma ToLowerOfUpper(s: string)
    ensures ToLower(ToUpper(s)) == ToLower(s)
  {
  }

  lemma ToLowerAppend(a: string, b: string)
    ensures ToLower(a + b) == ToLower(a) + ToLower(b)
  {
  }

  // ---------------------------------------------------------------------
  // Substrings (`String.prototype.includes`)

  /** `needle` occurs in `hay` at some position. */
  predicate Contains(hay: string, needle: string)
  {
    exists i :: 0 <= i <= |hay| - |needle| && needle <= hay[i..]
  }

  lemma EmptyContained(hay: string)
    ensures Contains(hay, "")
  {
    assert "" <= hay[0..];
  }

  /** A needle that occurs in `hay` keeps occurring when its end is cut off. */
  lemma ContainsPrefixOfNeedle(hay: string, needle: string, k: nat)
    requires k <= |needle|
    requires Contains(hay, needle)
    ensures Contains(hay, needle[..k])
  {
    var i :| 0 <= i <= |hay| - |needle| && needle <= hay[i..];
    assert needle[..k] <= hay[i..];
  }

  // ---------------------------------------------------------------------
  // Trimming (`String.prototype.trim`)

  /** How many whitespace characters `s` starts with. */
  function LeadingWhitespace(s: string): (n: nat)
    ensures n <= |s|
    ensures n < |s| ==> !IsWhitespace(s[n])
  {
    if s != [] && IsWhitespace(s[0]) then 1 + LeadingWhitespace(s[1..]) else 0
  }

  /** How many whitespace characters `s` ends with. */
  function TrailingWhitespace(s: string): (n: nat)
    ensures n <= |s|
    ensures n < |s| ==> !IsWhitespace(s[|s| - 1 - n])
  {
    if s != [] && IsWhitespace(s[|s| - 1]) then 1 + TrailingWhitespace(s[..|s| - 1]) else 0
  }

  function TrimStart(s: string): string
  {
    s[LeadingWhitespace(s)..]
  }

  function TrimEnd(s: string): string
  {
    s[..|s| - TrailingWhitespace(s)]
  }

  function Trim(s: string): string
  {
    TrimEnd(TrimStart(s))
  }

  predicate AllWhitespace(s: string)
  {
    forall i :: 0 <= i < |s| ==> IsWhitespace(s[i])
  }

  /** What `TrimStart` cuts off is whitespace. */
  lemma {:induction false} LeadingIsWhitespace(s: string)
    ensures AllWhitespace(s[..LeadingWhitespace(s)])
    decreases |s|
  {
    if s != [] && IsWhitespace(s[0]) {
      var s' := s[1..];
      LeadingIsWhitespace(s');
      var k := LeadingWhitespace(s');
      assert s[..k + 1] == [s[0]] + s'[..k];
    } else {
      assert s[..0] == [];
    }
  }

  /** What `TrimEnd` cuts off is whitespace. */
  lemma {:induction false} TrailingIsWhitespace(s: string)
    ensures AllWhitespace(s[|s| - TrailingWhitespace(s)..])
    decreases |s|
  {
    if s != [] && IsWhitespace(s[|s| - 1]) {
      var s' := s[..|s| - 1];
      TrailingIsWhitespace(s');
      var k := TrailingWhitespace(s');
      assert s[|s| - (k + 1)..] == s'[|s'| - k..] + [s[|s| - 1]];
    } else {
      assert s[|s|..] == [];
    }
  }

  /** `trim` gives the empty string exactly for whitespace-only input. */
  lemma TrimEmptyIff(s: string)
    ensures Trim(s) == [] <==> AllWhitespace(s)
  {
    var a := LeadingWhitespace(s);
    var t := TrimStart(s);
    if a == |s| {
      LeadingIsWhitespace(s);
      assert s[..a] == s;
    } else {
      assert t[0] == s[a];
      TrailingBelow(t);
    }
  }

  /** Text starting with a non-whitespace character is not all trailing whitespace. */
  lemma {:induction false} TrailingBelow(t: string)
    requires t != [] && !IsWhitespace(t[0])
    ensures TrailingWhitespace(t) < |t|
    decreases |t|
  {
    if |t| > 1 && IsWhitespace(t[|t| - 1]) {
      var t' := t[..|t| - 1];
      assert t'[0] == t[0];
      TrailingBelow(t');
    }
  }

  /** A non-empty trimmed string has no surrounding whitespace. */
  lemma TrimBounds(s: string)
    ensures Trim(s) != [] ==> !IsWhitespace(Trim(s)[0]) && !IsWhitespace(Trim(s)[|Trim(s)| - 1])
  {
    var t := TrimStart(s);
    if Trim(s) != [] {
      assert Trim(s)[0] == t[0] == s[LeadingWhitespace(s)];
      assert Trim(s)[|Trim(s)| - 1] == t[|t| - 1 - TrailingWhitespace(t)];
    }
  }

  /** A string with no surrounding whitespace is its own trim. */
  lemma TrimmedUnchanged(s: string)
    requires s != [] ==> !IsWhitespace(s[0]) && !IsWhitespace(s[|s| - 1])
    ensures Trim(s) == s
  {
    assert TrimStart(s) == s;
  }

  /** The three pieces of `a + sep + b` can be cut back out of it by their lengths. */
  lemma JoinedPieces(a: string, sep: string, b: string)
    ensures var j := a + sep + b;
      && |j| == |a| + |sep| + |b|
      && j[..|a|] == a && j[|a|..|a| + |sep|] == sep && j[|a| + |sep|..] == b
  {
    var j := a + sep + b;
    assert j[..|a|] == a;
    assert j[|a|..|a| + |sep|] == sep;
    assert j[|a| + |sep|..] == b;
  }

  /** `trim` cuts whitespace off both ends and keeps the infix in between. */
  lemma TrimInfix(s: string)
    ensures TrimmedInfix(s, Trim(s))
  {
    var a := LeadingWhitespace(s);
    var t := s[a..];
    var k := |t| - TrailingWhitespace(t);
    assert Trim(s) == t[..k];
    assert t[..k] == s[a..a + k];
    LeadingIsWhitespace(s);
    TrimEndOfSuffix(s, a);
  }

  /** `v` is the piece of `s` left after cutting whitespace off both ends. */
  predicate TrimmedInfix(s: string, v: string)
  {
    var a := LeadingWhitespace(s);
    && a + |v| <= |s|
    && v == s[a..a + |v|]
    && AllWhitespace(s[..a])
    && AllWhitespace(s[a + |v|..])
  }

  /** What `TrimEnd` cuts off a suffix is whitespace at the end of the whole string. */
  lemma TrimEndOfSuffix(s: string, a: nat)
    requires a <= |s|
    ensures a + |TrimEnd(s[a..])| <= |s|
    ensures AllWhitespace(s[a + |TrimEnd(s[a..])|..])
  {
    var t := s[a..];
    TrailingIsWhitespace(t);
    assert s[a + |TrimEnd(t)|..] == t[|t| - TrailingWhitespace(t)..];
  }

  /** `trim` is idempotent. */
  lemma TrimIdempotent(s: string)
    ensures Trim(Trim(s)) == Trim(s)
  {
    TrimBounds(s);
    TrimmedUnchanged(Trim(s));
  }

  // ---------------------------------------------------------------------
  // Split and join on one separator (`split(c)` / `join(c)`)

  function Split(s: string, sep: char): (parts: seq<string>)
    ensures |parts| >= 1
    ensures forall p :: p in parts ==> sep !in p
  {
    if s == [] then [[]]
    else
      var rest := Split(s[1..], sep);
      if s[0] == sep then [[]] + rest
      else [[s[0]] + rest[0]] + rest[1..]
  }

  function Join(parts: seq<string>, sep: char): string
  {
    if |parts| == 0 then []
    else if |parts| == 1 then parts[0]
    else parts[0] + [sep] + Join(parts[1..], sep)
  }

  lemma {:induction false} JoinSplit(s: string, sep: char)
    ensures Join(Split(s, sep), sep) == s
  {
    if s != [] {
      var rest := Split(s[1..], sep);
      JoinSplit(s[1..], sep);
      if s[0] == sep {
        assert Split(s, sep)[1..] == rest;
      } else if |rest| == 1 {
      } else {
        assert Split(s, sep)[1..] == rest[1..];
        assert Join(rest, sep) == rest[0] + [sep] + Join(rest[1..], sep);
      }
    }
  }

  lemma {:induction false} SplitJoinCons(w: string, rest: seq<string>, sep: char)
    requires sep !in w
    requires |rest| >= 1 && Split(Join(rest, sep), sep) == rest
    ensures Split(w + [sep] + Join(rest, sep), sep) == [w] + rest
    decreases |w|
  {
    var tail := Join(rest, sep);
    if w == [] {
      assert [sep] + tail == (w + [sep] + tail);
      assert ([sep] + tail)[1..] == tail;
    } else {
      var s := w + [sep] + tail;
      assert s[0] == w[0];
      assert s[1..] == w[1..] + [sep] + tail;
      SplitJoinCons(w[1..], rest, sep);
      assert [w[0]] + w[1..] == w;
    }
  }

  lemma {:induction false} SplitSingle(w: string, sep: char)
    requires sep !in w
    ensures Split(w, sep) == [w]
    decreases |w|
  {
    if w != [] {
      SplitSingle(w[1..], sep);
      assert [w[0]] + w[1..] == w;
    }
  }

  /** Splitting a join gives back the parts when no part holds the separator. */
  lemma {:induction false} SplitJoin(parts: seq<string>, sep: char)
    requires |parts| >= 1
    requires forall p :: p in parts ==> sep !in p
    ensures Split(Join(parts, sep), sep) == parts
    decreases |parts|
  {
    if |parts| == 1 {
      SplitSingle(parts[0], sep);
    } else {
      SplitJoin(parts[1..], sep);
      SplitJoinCons(parts[0], parts[1..], sep);
      assert [parts[0]] + parts[1..] == parts;
    }
  }

  /** How many times `c` occurs in `s`; the same number as `multiset(s)[c]` (CountMultiplicity). */
  function Count<T(==)>(s: seq<T>, c: T): nat
  {
    if s == [] then 0 else (if s[0] == c then 1 else 0) + Count(s[1..], c)
  }

  lemma {:induction false} CountMultiplicity<T>(s: seq<T>, c: T)
    ensures Count(s, c) == multiset(s)[c]
    decreases |s|
  {
    if s != [] {
      assert s == [s[0]] + s[1..];
      assert multiset(s) == multiset([s[0]]) + multiset(s[1..]);
      CountMultiplicity(s[1..], c);
    }
  }

  lemma {:induction false} CountAppend<T>(a: seq<T>, b: seq<T>, c: T)
    ensures Count(a + b, c) == Count(a, c) + Count(b, c)
    decreases |a|
  {
    if a != [] {
      assert (a + b)[0] == a[0];
      assert (a + b)[1..] == a[1..] + b;
      CountAppend(a[1..], b, c);
    } else {
      assert a + b == b;
    }
  }

  lemma {:induction false} CountAbsent<T>(s: seq<T>, c: T)
    requires c !in s
    ensures Count(s, c) == 0
    decreases |s|
  {
    if s != [] {
      CountAbsent(s[1..], c);
    }
  }

  /** Joining n parts that do not hold the separator puts n - 1 separators in. */
  lemma {:induction false} JoinSeparatorCount(parts: seq<string>, sep: char)
    requires |parts| >= 1
    requires forall p :: p in parts ==> sep !in p
    ensures Count(Join(parts, sep), sep) == |parts| - 1
    decreases |parts|
  {
    CountAbsent(parts[0], sep);
    if |parts| > 1 {
      JoinSeparatorCount(parts[1..], sep);
      CountAppend(parts[0] + [sep], Join(parts[1..], sep), sep);
      CountAppend(parts[0], [sep], sep);
    }
  }

  // ---------------------------------------------------------------------
  // Decimal rendering and parsing of naturals

  predicate AllDigits(s: string)
  {
    forall i :: 0 <= i < |s| ==> IsDigit(s[i])
  }

  /** `String(n)` for a natural number: its decimal digits, no leading zero. */
  function NatToString(n: nat): (s: string)
    ensures s != [] && AllDigits(s)
    ensures |s| > 1 ==> s[0] != '0'
    decreases n
  {
    if n < 10 then [DigitChar(n)] else NatToString(n / 10) + [DigitChar(n % 10)]
  }

  /** The value of a string of decimal digits (leading zeros allowed). */
  function ParseNat(s: string): nat
    requires AllDigits(s)
  {
    if s == [] then 0 else ParseNat(s[..|s| - 1]) * 10 + DigitValue(s[|s| - 1])
  }

  lemma {:induction false} ParseNatString(n: nat)
    ensures ParseNat(NatToString(n)) == n
    decreases n
  {
    if n >= 10 {
      var s := NatToString(n);
      assert s[..|s| - 1] == NatToString(n / 10);
      ParseNatString(n / 10);
    }
  }

  /** A digit string has a positive value exactly when one of its digits is not 0. */
  lemma {:induction false} ParseNatPositive(s: string)
    requires AllDigits(s)
    ensures ParseNat(s) > 0 <==> exists i :: 0 <= i < |s| && s[i] != '0'
    decreases |s|
  {
    if s != [] {
      var init := s[..|s| - 1];
      ParseNatPositive(init);
      if ParseNat(s) > 0 {
        if ParseNat(init) > 0 {
          var i :| 0 <= i < |init| && init[i] != '0';
          assert s[i] != '0';
        } else {
          assert s[|s| - 1] != '0';
        }
      } else {
        forall i | 0 <= i < |s| ensures s[i] == '0' {
          if i < |s| - 1 {
            assert s[i] == init[i];
          }
        }
      }
    }
  }

  /** `String(i)` for any integer. */
  function IntToString(i: int): (s: string)
    ensures s != []
  {
    if i < 0 then "-" + NatToString(-i) else NatToString(i)
  }

  /** `String(i)` tells integers apart: a sign only on negatives, then the digits of the magnitude. */
  lemma IntToStringInjective(a: int, b: int)
    ensures IntToString(a) == IntToString(b) <==> a == b
  {
    var sa, sb := IntToString(a), IntToString(b);
    var na, nb := if a < 0 then -a else a, if b < 0 then -b else b;
    ParseNatString(na);
    ParseNatString(nb);
    assert sa[0] == '-' <==> a < 0;
    assert sb[0] == '-' <==> b < 0;
    assert (if a < 0 then sa[1..] else sa) == NatToString(na);
    assert (if b < 0 then sb[1..] else sb) == NatToString(nb);
  }

  /** `String(n)` left-padded with '0' to at least `width` characters. */
  function PadZero(n: nat, width: nat): (s: string)
    ensures AllDigits(s) && |s| >= width
    ensures ParseNat(s) == n
  {
    var d := NatToString(n);
    ParseNatString(n);
    var z := seq(if |d| < width then width - |d| else 0, _ => '0');
    ParseNatLeadingZeros(z, d);
    z + d
  }

  lemma {:induction false} ParseNatLeadingZeros(z: string, d: string)
    requires forall i :: 0 <= i < |z| ==> z[i] == '0'
    requires AllDigits(d)
    ensures AllDigits(z + d) && ParseNat(z + d) == ParseNat(d)
    decreases |z|
  {
    if z != [] {
      ParseNatLeadingZeros(z[1..], d);
      ParseNatZeroCons(z[1..] + d);
      assert z == ['0'] + z[1..];
      assert z + d == ['0'] + (z[1..] + d);
    } else {
      assert z + d == d;
    }
  }

  lemma {:induction false} ParseNatZeroCons(s: string)
    requires AllDigits(s)
    ensures AllDigits(['0'] + s) && ParseNat(['0'] + s) == ParseNat(s)
    decreases |s|
  {
    if s != [] {
      var t := ['0'] + s;
      assert t[..|t| - 1] == ['0'] + s[..|s| - 1];
      ParseNatZeroCons(s[..|s| - 1]);
    }
  }

  // ---------------------------------------------------------------------
  // parseInt and parseFloat

  /** The longest prefix of `s` made of decimal digits. */
  function DigitRun(s: string): (r: string)
    ensures AllDigits(r) && r <= s
    ensures |r| < |s| ==> !IsDigit(s[|r|])
  {
    if s != [] && IsDigit(s[0]) then [s[0]] + DigitRun(s[1..]) else []
  }

  lemma {:induction false} DigitRunAll(s: string)
    requires AllDigits(s)
    ensures DigitRun(s) == s
    decreases |s|
  {
    if s != [] {
      DigitRunAll(s[1..]);
    }
  }

  /** `parseInt(s, 10)`: leading whitespace, an optional sign, then at least one digit. */
  function ParseInt(s: string): Option<int>
  {
    var t := TrimStart(s);
    var neg := t != [] && t[0] == '-';
    var u := if t != [] && (t[0] == '-' || t[0] == '+') then t[1..] else t;
    var ds := DigitRun(u);
    if ds == [] then None
    else
      var v: int := if neg then -(ParseNat(ds) as int) else ParseNat(ds);
      Some(v)
  }

  /**
   * A decimal number as `parseFloat` reads it: sign, the digits of integer
   * and fraction part run together, and the number of fraction digits.
   * Its value is (-1)^negative * mantissa / 10^scale.
   */
  datatype Decimal = Decimal(negative: bool, mantissa: nat, scale: nat)
  {
    /** `x > 0` in JavaScript. */
    predicate IsPositive() { !negative && mantissa > 0 }
    /** The number is truthy in JavaScript (not 0, not -0). */
    predicate IsTruthy() { mantissa != 0 }
  }

  /**
   * `parseFloat(s)`: leading whitespace, an optional sign, digits, optionally
   * a '.' and more digits; None stands for NaN (no digit at all).
   */
  function ParseFloat(s: string): Option<Decimal>
  {
    var t := TrimStart(s);
    var neg := t != [] && t[0] == '-';
    var u := if t != [] && (t[0] == '-' || t[0] == '+') then t[1..] else t;
    ParseUnsigned(neg, u)
  }

  /** The part of `parseFloat` after the sign: digits, optionally a '.' and more digits. */
  function ParseUnsigned(neg: bool, u: string): Option<Decimal>
  {
    var ip := DigitRun(u);
    var rest := u[|ip|..];
    var fp := if rest != [] && rest[0] == '.' then DigitRun(rest[1..]) else [];
    if ip == [] && fp == [] then None
    else Some(Decimal(neg, ParseNat(ip + fp), |fp|))
  }

  /** Text with no leading whitespace and no sign is read as unsigned. */
  lemma ParseFloatNoSign(s: string)
    requires TrimStart(s) == s && (s == [] || (s[0] != '-' && s[0] != '+'))
    ensures ParseFloat(s) == ParseUnsigned(false, s)
  {
  }

  /** `parseFloat` of an unsigned text with digits, a point and a fraction. */
  lemma ParseFloatUnsigned(s: string, ip: string, fp: string, mantissa: nat)
    requires s != [] && IsDigit(s[0]) && TrimStart(s) == s
    requires DigitRun(s) == ip && |ip| < |s|
    requires s[|ip|..] != [] && s[|ip|..][0] == '.' && DigitRun(s[|ip|..][1..]) == fp
    requires AllDigits(ip + fp) && mantissa == ParseNat(ip + fp)
    ensures ParseFloat(s) == Some(Decimal(false, mantissa, |fp|))
  {
    ParseFloatNoSign(s);
    assert ip != [];
  }

  /** `parseFloat(s) || 0`: NaN and zero both fall back to 0. */
  function ParseFloatOrZero(s: string): (d: Decimal)
    ensures d.IsTruthy() <==> ParseFloat(s).Some? && ParseFloat(s).value.IsTruthy()
    ensures d.IsTruthy() ==> ParseFloat(s) == Some(d)
    ensures !d.IsTruthy() ==> d == Decimal(false, 0, 0)
  {
    match ParseFloat(s)
    case Some(d) => if d.IsTruthy() then d else Decimal(false, 0, 0)
    case None => Decimal(false, 0, 0)
  }

  /** `DigitRun` stops at the first non-digit. */
  lemma {:induction false} DigitRunUpTo(s: string, p: nat)
    requires p <= |s| && AllDigits(s[..p])
    requires p < |s| ==> !IsDigit(s[p])
    ensures DigitRun(s) == s[..p]
    decreases p
  {
    if p > 0 {
      assert IsDigit(s[..p][0]);
      assert s[1..][..p - 1] == s[..p][1..];
      DigitRunUpTo(s[1..], p - 1);
      assert [s[0]] + s[1..][..p - 1] == s[..p];
    }
  }

  // ---------------------------------------------------------------------
  // Digit strings of a fixed width

  function Pow10(k: nat): (p: nat)
    ensures p >= 1
  {
    if k == 0 then 1 else 10 * Pow10(k - 1)
  }

  /** A number below 10^k has at most k digits. */
  lemma {:induction false} NatToStringLength(n: nat, k: nat)
    requires 1 <= k && n < Pow10(k)
    ensures |NatToString(n)| <= k
    decreases n
  {
    if n >= 10 {
      assert k >= 2;
      assert n / 10 < Pow10(k - 1);
      NatToStringLength(n / 10, k - 1);
    }
  }

  /** Padding a number below 10^width gives exactly `width` digits. */
  lemma PadZeroWidth(n: nat, width: nat)
    requires 1 <= width && n < Pow10(width)
    ensures |PadZero(n, width)| == width
  {
    NatToStringLength(n, width);
  }

  /** `n < 10 ? '0' + n : n` for a number below 100: always two digits, read back as `n`. */
  function TwoDigits(n: nat): (f: string)
    requires n < 100
    ensures |f| == 2 && AllDigits(f) && ParseNat(f) == n
  {
    ParseNatString(n);
    if n < 10 then
      ParseNatZeroCons(NatToString(n));
      "0" + NatToString(n)
    else
      NatToStringLength(n, 2);
      assert |NatToString(n / 10)| >= 1;
      NatToString(n)
  }

  /** Appending a digit to the lower part of `p * q + b` multiplies the shift by ten. */
  lemma ShiftDigit(p: int, q: int, b: int, d: int)
    ensures (p * q + b) * 10 + d == p * (10 * q) + (b * 10 + d)
  {
  }

  /** The value of two digit strings written one after the other. */
  lemma {:induction false} ParseNatAppend(a: string, b: string)
    requires AllDigits(a) && AllDigits(b)
    ensures AllDigits(a + b) && ParseNat(a + b) == ParseNat(a) * Pow10(|b|) + ParseNat(b)
    decreases |b|
  {
    if b == [] {
      assert a + b == a;
    } else {
      var ab := a + b;
      var b' := b[..|b| - 1];
      assert ab[..|ab| - 1] == a + b';
      assert AllDigits(ab);
      ParseNatAppend(a, b');
      var d := DigitValue(b[|b| - 1]);
      assert ParseNat(ab) == ParseNat(a + b') * 10 + d;
      assert ParseNat(b) == ParseNat(b') * 10 + d;
      assert Pow10(|b|) == 10 * Pow10(|b'|);
      ShiftDigit(ParseNat(a), Pow10(|b'|), ParseNat(b'), d);
    }
  }

  // ---------------------------------------------------------------------
  // Sequences: `indexOf`, `replace` of the first match, `filter`

  /** `xs.indexOf(x)`: the first position of `x`, or -1. */
  function IndexOf<T(==)>(xs: seq<T>, x: T): (r: int)
    ensures -1 <= r < |xs|
    ensures r == -1 <==> x !in xs
    ensures r >= 0 ==> xs[r] == x && x !in xs[..r]
  {
    if xs == [] then -1
    else if xs[0] == x then 0
    else
      var r := IndexOf(xs[1..], x);
      assert r >= 0 ==> xs[1..][..r] == xs[1..r + 1];
      if r == -1 then -1 else r + 1
  }

  /** `s.replace(c, with)` with a one-character pattern: only the first `c` is replaced by `with`. */
  function ReplaceFirst(s: string, c: char, with: string): (r: string)
    ensures c !in s ==> r == s
    ensures c in s ==> var i := IndexOf(s, c); r == s[..i] + with + s[i + 1..]
  {
    var i := IndexOf(s, c);
    if i == -1 then s else s[..i] + with + s[i + 1..]
  }

  /** `a` can be obtained from `b` by leaving elements out. */
  predicate IsSubsequence<T(==)>(a: seq<T>, b: seq<T>)
    decreases |b|
  {
    if b == [] then a == []
    else (a != [] && a[0] == b[0] && IsSubsequence(a[1..], b[1..])) || IsSubsequence(a, b[1..])
  }

  /** `xs.filter(keep)`: the elements `keep` accepts, in their order. */
  function Filter<T(==,!new)>(xs: seq<T>, keep: T -> bool): (r: seq<T>)
    ensures |r| <= |xs|
    ensures forall i :: 0 <= i < |r| ==> r[i] in xs && keep(r[i])
    ensures forall i :: 0 <= i < |xs| && keep(xs[i]) ==> xs[i] in r
    ensures IsSubsequence(r, xs)
    ensures forall x :: Count(r, x) == if keep(x) then Count(xs, x) else 0
  {
    if xs == [] then []
    else
      var rest := Filter(xs[1..], keep);
      if keep(xs[0]) then
        assert ([xs[0]] + rest)[1..] == rest;
        [xs[0]] + rest
      else rest
  }

  /** A filter that accepts every element returns the whole sequence. */
  lemma {:induction false} FilterAll<T(!new)>(xs: seq<T>, keep: T -> bool)
    requires forall x :: x in xs ==> keep(x)
    ensures Filter(xs, keep) == xs
    decreases |xs|
  {
    if xs != [] {
      FilterAll(xs[1..], keep);
    }
  }

  /** A filter that accepts fewer elements keeps no more of them, in order. */
  lemma {:induction false} FilterNarrower<T(!new)>(xs: seq<T>, keep: T -> bool, narrower: T -> bool)
    requires forall x :: x in xs && narrower(x) ==> keep(x)
    ensures IsSubsequence(Filter(xs, narrower), Filter(xs, keep))
    decreases |xs|
  {
    if xs != [] {
      FilterNarrower(xs[1..], keep, narrower);
      var a := Filter(xs[1..], narrower);
      var b := Filter(xs[1..], keep);
      if narrower(xs[0]) {
        assert ([xs[0]] + a)[1..] == a && ([xs[0]] + b)[1..] == b;
      } else if keep(xs[0]) {
        SubsequenceCons(a, b, xs[0]);
      }
    }
  }

  lemma {:induction false} SubsequenceCons<T>(a: seq<T>, b: seq<T>, x: T)
    requires IsSubsequence(a, b)
    ensures IsSubsequence(a, [x] + b)
  {
    assert ([x] + b)[1..] == b;
  }

  /** Filtering with two predicates that agree on every element gives the same result. */
  lemma {:induction false} FilterSame<T(!new)>(xs: seq<T>, p: T -> bool, q: T -> bool)
    requires forall x :: x in xs ==> p(x) == q(x)
    ensures Filter(xs, p) == Filter(xs, q)
    decreases |xs|
  {
    if xs != [] {
      FilterSame(xs[1..], p, q);
    }
  }

  /** Applies `f` to each element in order; None as soon as one of them gives None. */
  function MapAll<A, B>(xs: seq<A>, f: A -> Option<B>): (r: Option<seq<B>>)
    ensures r.Some? <==> forall i :: 0 <= i < |xs| ==> f(xs[i]).Some?
    ensures r.Some? ==> |r.value| == |xs| && forall i :: 0 <= i < |xs| ==> r.value[i] == f(xs[i]).value
  {
    if xs == [] then Some([])
    else
      var init := xs[..|xs| - 1];
      assert forall i :: 0 <= i < |init| ==> init[i] == xs[i];
      match MapAll(init, f)
      case None => None
      case Some(ys) =>
        match f(xs[|xs| - 1])
        case None => None
        case Some(y) => Some(ys + [y])
  }

  /** One more element that `f` maps: its image joins the images of the ones before. */
  lemma MapAllSnoc<A, B>(xs: seq<A>, i: int, f: A -> Option<B>)
    requires 0 <= i < |xs| && MapAll(xs[..i], f).Some? && f(xs[i]).Some?
    ensures MapAll(xs[..i + 1], f) == Some(MapAll(xs[..i], f).value + [f(xs[i]).value])
  {
    assert xs[..i + 1][..i] == xs[..i];
  }

  /** `xs.find(p)`: the first element `p` accepts, or None (`undefined`) when there is none. */
  function Find<T>(xs: seq<T>, p: T -> bool): (r: Option<T>)
    ensures r.None? <==> forall i :: 0 <= i < |xs| ==> !p(xs[i])
    ensures r.Some? ==> exists i :: 0 <= i < |xs| && xs[i] == r.value && p(xs[i]) && forall j :: 0 <= j < i ==> !p(xs[j])
  {
    if xs == [] then None
    else if p(xs[0]) then Some(xs[0])
    else
      var r := Find(xs[1..], p);
      assert forall i :: 0 < i < |xs| ==> xs[i] == xs[1..][i - 1];
      r
  }

  // ---------------------------------------------------------------------
  // Search boxes: `filter` with `toLowerCase().includes(...)` on some fields

  /** The lower-cased search text occurs in the lower-cased text of one of the fields. */
  predicate AnyFieldContains(fields: seq<string>, search: string)
  {
    exists i :: 0 <= i < |fields| && Contains(ToLower(fields[i]), ToLower(search))
  }

  /** The items one of whose fields contains the search text, ignoring case, in their order. */
  function SearchBy<T(==,!new)>(xs: seq<T>, fieldsOf: T -> seq<string>, search: string): (r: seq<T>)
    ensures forall i :: 0 <= i < |r| ==> r[i] in xs && AnyFieldContains(fieldsOf(r[i]), search)
    ensures forall i :: 0 <= i < |xs| && AnyFieldContains(fieldsOf(xs[i]), search) ==> xs[i] in r
    ensures IsSubsequence(r, xs)
    ensures forall x :: Count(r, x) == if AnyFieldContains(fieldsOf(x), search) then Count(xs, x) else 0
  {
    Filter(xs, x => AnyFieldContains(fieldsOf(x), search))
  }

  /** An empty search keeps every item that has at least one field. */
  lemma SearchByEmpty<T(!new)>(xs: seq<T>, fieldsOf: T -> seq<string>)
    requires forall i :: 0 <= i < |xs| ==> |fieldsOf(xs[i])| > 0
    ensures SearchBy(xs, fieldsOf, "") == xs
  {
    forall x | x in xs
      ensures AnyFieldContains(fieldsOf(x), "")
    {
      EmptyContained(ToLower(fieldsOf(x)[0]));
    }
    FilterAll(xs, x => AnyFieldContains(fieldsOf(x), ""));
  }

  /** The letter case of the search text makes no difference. */
  lemma SearchByIgnoresCase<T(!new)>(xs: seq<T>, fieldsOf: T -> seq<string>, search: string)
    ensures SearchBy(xs, fieldsOf, ToUpper(search)) == SearchBy(xs, fieldsOf, search)
  {
    ToLowerOfUpper(search);
    FilterSame(xs, x => AnyFieldContains(fieldsOf(x), ToUpper(search)), x => AnyFieldContains(fieldsOf(x), search));
  }

  /** Typing more at the end of the search text never brings an item back. */
  lemma SearchByLongerNarrows<T(!new)>(xs: seq<T>, fieldsOf: T -> seq<string>, search: string, more: string)
    ensures IsSubsequence(SearchBy(xs, fieldsOf, search + more), SearchBy(xs, fieldsOf, search))
  {
    var longer := search + more;
    ToLowerAppend(search, more);
    assert ToLower(longer)[..|search|] == ToLower(search);
    forall x | x in xs && AnyFieldContains(fieldsOf(x), longer)
      ensures AnyFieldContains(fieldsOf(x), search)
    {
      var fs := fieldsOf(x);
      var i :| 0 <= i < |fs| && Contains(ToLower(fs[i]), ToLower(longer));
      ContainsPrefixOfNeedle(ToLower(fs[i]), ToLower(longer), |search|);
    }
    FilterNarrower(xs, x => AnyFieldContains(fieldsOf(x), search), x => AnyFieldContains(fieldsOf(x), longer));
  }
}
