/** The parts of the JavaScript runtime that the dashboard's code leans on,
    stated over Dafny strings: String.prototype.trim/toLowerCase/includes/split,
    Number(), parseFloat(), parseInt(s, 10), String(number) and the default
    order of Array.prototype.sort. A Dafny `char` is a Unicode code point,
    where JavaScript strings are UTF-16 code units; the two agree on every
    character outside the astral planes. `None` stands for NaN. */
module JsText {

  datatype Option<+T> = None | Some(value: T)

  // ---------------------------------------------------------------- chars

  /** The characters that `trim` removes and the regular expression `\s`
      matches: ECMAScript's WhiteSpace and LineTerminator, that is tab,
      line feed, vertical tab, form feed, carriage return, space, U+00A0,
      U+1680, U+2000-U+200A, U+2028, U+2029, U+202F, U+205F, U+3000 and
      U+FEFF. */
  const SpaceChars: set<char> := {
    '\t', '\n', '\U{B}', '\U{C}', '\r', ' ', '\U{A0}', '\U{1680}',
    '\U{2000}', '\U{2001}', '\U{2002}', '\U{2003}', '\U{2004}', '\U{2005}',
    '\U{2006}', '\U{2007}', '\U{2008}', '\U{2009}', '\U{200A}',
    '\U{2028}', '\U{2029}', '\U{202F}', '\U{205F}', '\U{3000}', '\U{FEFF}'}

  predicate IsSpace(c: char) {
    c in SpaceChars
  }

  predicate IsDigit(c: char) {
    '0' <= c <= '9'
  }

  predicate AllDigits(s: string) {
    forall i :: 0 <= i < |s| ==> IsDigit(s[i])
  }

  predicate NoSpace(s: string) {
    forall i :: 0 <= i < |s| ==> !IsSpace(s[i])
  }

  /** A capital of the Latin-1, Greek or Cyrillic alphabets that
      toLowerCase maps to a single letter 32 code points on (A-Z, À-Þ
      without ×, Α-Ω without the gap at U+03A2, А-Я). */
  predicate ShiftedCapital(c: char) {
    || 'A' <= c <= 'Z' || ('\U{C0}' <= c <= '\U{DE}' && c != '\U{D7}')
    || ('\U{391}' <= c <= '\U{3A9}' && c != '\U{3A2}') || 'А' <= c <= 'Я'
  }

  /** toLowerCase on the capitals of the Latin-1, Greek and Cyrillic
      alphabets (Ѐ-Џ, Ё among them, sit 80 code points below their small
      letters); every other character is kept. */
  function LowerChar(c: char): (r: char)
    ensures IsSpace(r) <==> IsSpace(c)
    ensures IsDigit(r) <==> IsDigit(c)
    ensures !ShiftedCapital(r) && !('\U{400}' <= r <= '\U{40F}')
  {
    if ShiftedCapital(c) then (c as int + 32) as char
    else if '\U{400}' <= c <= '\U{40F}' then (c as int + 80) as char
    else c
  }

  /** Lower-casing a lower-cased character changes nothing. */
  lemma LowerCharIdempotent(c: char)
    ensures LowerChar(LowerChar(c)) == LowerChar(c)
  {
  }

  /** toUpperCase on the small letters of the Latin-1, Greek and Cyrillic
      alphabets that have a single capital (a-z, à-þ without ÷, α-ω without
      final ς, а-я, ѐ-џ); every other character is kept. */
  function UpperChar(c: char): (r: char)
    ensures IsSpace(r) <==> IsSpace(c)
  {
    if || 'a' <= c <= 'z' || ('\U{E0}' <= c <= '\U{FE}' && c != '\U{F7}')
       || ('\U{3B1}' <= c <= '\U{3C9}' && c != '\U{3C2}') || 'а' <= c <= 'я'
    then (c as int - 32) as char
    else if '\U{450}' <= c <= '\U{45F}' then (c as int - 80) as char
    else c
  }

  function ToLower(s: string): (r: string)
    ensures |r| == |s|
    ensures forall i :: 0 <= i < |s| ==> r[i] == LowerChar(s[i])
  {
    if s == [] then [] else [LowerChar(s[0])] + ToLower(s[1..])
  }

  /** toUpperCase undoes toLowerCase on every capital LowerChar folds. */
  lemma CaseRoundTrip(c: char)
    requires ShiftedCapital(c) || '\U{400}' <= c <= '\U{40F}'
    ensures LowerChar(c) != c && UpperChar(LowerChar(c)) == c
  {
  }

  /** Lower-casing lower-cased text changes nothing. */
  lemma ToLowerIdempotent(s: string)
    ensures ToLower(ToLower(s)) == ToLower(s)
  {
    forall i | 0 <= i < |s| ensures ToLower(ToLower(s))[i] == ToLower(s)[i] {
      LowerCharIdempotent(s[i]);
    }
  }

  /** Lower-casing keeps trimmed text trimmed: it maps whitespace to
      whitespace and nothing else to whitespace. */
  lemma TrimOfLower(t: string)
    requires Trim(t) == t
    ensures Trim(ToLower(t)) == ToLower(t)
  {
    if t != [] {
      var l := ToLower(t);
      assert !IsSpace(t[0]) && !IsSpace(t[|t| - 1]);
      assert l[0] == LowerChar(t[0]) && l[|l| - 1] == LowerChar(t[|t| - 1]);
      TrimmedEnds(l);
    }
  }

  // ---------------------------------------------------------------- trim

  /** The number of whitespace characters that open `s`. */
  function LeadingSpaces(s: string): (n: nat)
    ensures n <= |s|
    ensures n < |s| ==> !IsSpace(s[n])
    ensures forall i :: 0 <= i < n ==> IsSpace(s[i])
  {
    if s != [] && IsSpace(s[0]) then 1 + LeadingSpaces(s[1..]) else 0
  }

  /** The number of whitespace characters that close `s`. */
  function TrailingSpaces(s: string): (n: nat)
    ensures n <= |s|
    ensures n < |s| ==> !IsSpace(s[|s| - 1 - n])
    ensures forall i :: |s| - n <= i < |s| ==> IsSpace(s[i])
  {
    if s != [] && IsSpace(s[|s| - 1]) then 1 + TrailingSpaces(s[..|s| - 1]) else 0
  }

  /** String.prototype.trimStart */
  function TrimStart(s: string): string {
    s[LeadingSpaces(s)..]
  }

  /** String.prototype.trimEnd */
  function TrimEnd(s: string): string {
    s[..|s| - TrailingSpaces(s)]
  }

  /** String.prototype.trim */
  function Trim(s: string): (r: string)
    ensures |r| <= |s|
    ensures r == [] || (!IsSpace(r[0]) && !IsSpace(r[|r| - 1]))
    ensures forall c :: c in r ==> c in s
    ensures LeadingSpaces(s) + |r| <= |s| && r == s[LeadingSpaces(s)..LeadingSpaces(s) + |r|]
    ensures forall i :: LeadingSpaces(s) + |r| <= i < |s| ==> IsSpace(s[i])
  {
    TrimEnd(TrimStart(s))
  }

  lemma {:induction false} TrimNoSpace(s: string)
    requires NoSpace(s)
    ensures TrimStart(s) == s && TrimEnd(s) == s && Trim(s) == s
  {
  }

  // ------------------------------------------------------- substrings

  predicate StartsWith(s: string, p: string) {
    |p| <= |s| && s[..|p|] == p
  }

  /** String.prototype.includes */
  predicate Contains(s: string, sub: string)
    decreases |s|
  {
    StartsWith(s, sub) || (s != [] && Contains(s[1..], sub))
  }

  lemma {:induction false} ContainsAt(s: string, sub: string, i: nat)
    requires i + |sub| <= |s| && s[i..i + |sub|] == sub
    ensures Contains(s, sub)
    decreases i
  {
    if i > 0 {
      assert s[1..][i - 1..i - 1 + |sub|] == sub;
      ContainsAt(s[1..], sub, i - 1);
    }
  }

  function IndexOf(s: string, c: char): (k: nat)
    ensures k <= |s|
    ensures forall i :: 0 <= i < k ==> s[i] != c
    ensures k < |s| ==> s[k] == c
  {
    if s == [] then 0 else if s[0] == c then 0 else 1 + IndexOf(s[1..], c)
  }

  /** String.prototype.replace(c, d) with a one-character pattern: the first
      occurrence only. */
  function ReplaceFirst(s: string, c: char, d: char): (r: string)
    ensures |r| == |s|
  {
    var k := IndexOf(s, c);
    if k == |s| then s else s[..k] + [d] + s[k + 1..]
  }

  /** String.prototype.split with a one-character separator. */
  function Split(s: string, sep: char): (parts: seq<string>)
    ensures |parts| >= 1
    ensures forall i, j :: 0 <= i < |parts| && 0 <= j < |parts[i]| ==> parts[i][j] != sep
  {
    if s == [] then [""]
    else if s[0] == sep then [""] + Split(s[1..], sep)
    else
      var rest := Split(s[1..], sep);
      [[s[0]] + rest[0]] + rest[1..]
  }

  /** String.prototype.padStart(2, "0") */
  function PadStart2(s: string): (r: string)
    ensures |r| >= 2 && |r| >= |s|
  {
    if |s| >= 2 then s else if |s| == 1 then "0" + s else "00"
  }

  // ------------------------------------------------- integers and text

  function DigitValue(c: char): nat
    requires IsDigit(c)
  {
    c as int - '0' as int
  }

  function DigitChar(d: nat): (c: char)
    requires d < 10
    ensures IsDigit(c) && DigitValue(c) == d
  {
    ('0' as int + d) as char
  }

  /** The value of a run of decimal digits. */
  function DigitsValue(s: string): nat
    requires AllDigits(s)
  {
    if s == [] then 0 else DigitsValue(s[..|s| - 1]) * 10 + DigitValue(s[|s| - 1])
  }

  /** Decimal digits of a natural number, most significant first. */
  function NatToString(n: nat): string {
    if n < 10 then [DigitChar(n)]
    else NatToString(n / 10) + [DigitChar(n % 10)]
  }

  /** String(n) of a natural number is a run of digits worth n. */
  lemma {:induction false} NatToStringDigits(n: nat)
    ensures |NatToString(n)| >= 1 && AllDigits(NatToString(n))
    ensures DigitsValue(NatToString(n)) == n
  {
    if n >= 10 {
      NatToStringDigits(n / 10);
      var s := NatToString(n);
      assert s[..|s| - 1] == NatToString(n / 10);
    }
  }

  /** String(i) for an integer-valued number. */
  function IntToString(i: int): string {
    if i < 0 then "-" + NatToString(-i) else NatToString(i)
  }

  /** String(x) for a number: integers exactly, other values as their
      shortest decimal with up to 20 fraction digits. */
  function NumberText(r: real): string
    decreases if r < 0.0 then 1 else 0
  {
    if r < 0.0 then "-" + NumberText(-r) else Render(r, 0)
  }

  /** For x = r * 10^k with r >= 0: scale on until x is whole (or 20
      fraction digits are reached), then place the decimal point k digits
      from the right. */
  function Render(x: real, k: nat): string
    requires x >= 0.0 && k <= 20
    decreases 20 - k
  {
    if k < 20 && x != x.Floor as real then Render(x * 10.0, k + 1)
    else PlaceDot(NatToString(x.Floor as nat), k)
  }

  /** The digits `ds` of r * 10^k, written as r. */
  function PlaceDot(ds: string, k: nat): string {
    var padded := LeftZeros(ds, k + 1);
    if k == 0 then padded else padded[..|padded| - k] + "." + padded[|padded| - k..]
  }

  function LeftZeros(s: string, width: nat): (r: string)
    ensures |r| >= |s| && |r| >= width
    ensures AllDigits(s) ==> AllDigits(r)
    decreases width - |s|
  {
    if |s| >= width then s else LeftZeros("0" + s, width)
  }

  lemma {:induction false} RenderNoSpace(x: real, k: nat)
    requires x >= 0.0 && k <= 20
    ensures NoSpace(Render(x, k))
    decreases 20 - k
  {
    if k < 20 && x != x.Floor as real {
      RenderNoSpace(x * 10.0, k + 1);
    } else {
      NatToStringDigits(x.Floor as nat);
      var padded := LeftZeros(NatToString(x.Floor as nat), k + 1);
      var t := PlaceDot(NatToString(x.Floor as nat), k);
      assert forall i :: 0 <= i < |t| ==> IsDigit(t[i]) || t[i] == '.';
      NumberMarksNoSpace();
    }
  }

  /** The text of a number holds no whitespace. */
  lemma {:induction false} NumberTextNoSpace(r: real)
    ensures NoSpace(NumberText(r))
    decreases if r < 0.0 then 1 else 0
  {
    if r < 0.0 {
      NumberTextNoSpace(-r);
      var t := NumberText(-r);
      assert NumberText(r) == ['-'] + t;
      NumberMarksNoSpace();
      forall i | 0 <= i < |NumberText(r)| ensures !IsSpace(NumberText(r)[i]) {
        if i > 0 {
          assert NumberText(r)[i] == t[i - 1];
        }
      }
    } else {
      RenderNoSpace(r, 0);
    }
  }

  /** Digits, the sign and the decimal point are not whitespace. */
  lemma NumberMarksNoSpace()
    ensures !IsSpace('-') && !IsSpace('.')
    ensures forall c :: IsDigit(c) ==> !IsSpace(c)
  {
  }

  // -------------------------------------------------- Number / parseFloat

  /** The longest prefix of decimal digits. */
  function DigitPrefix(s: string): (p: string)
    ensures AllDigits(p) && |p| <= |s| && p == s[..|p|]
    ensures |p| < |s| ==> !IsDigit(s[|p|])
  {
    if s != [] && IsDigit(s[0]) then [s[0]] + DigitPrefix(s[1..]) else []
  }

  lemma {:induction false} DigitPrefixOfDigits(a: string, b: string)
    requires AllDigits(a)
    requires b == [] || !IsDigit(b[0])
    ensures DigitPrefix(a + b) == a
    decreases |a|
  {
    if a != [] {
      assert (a + b)[1..] == a[1..] + b;
      DigitPrefixOfDigits(a[1..], b);
    }
  }

  /** The value of the digits after a decimal point. */
  function FractionValue(fp: string): real
    requires AllDigits(fp)
  {
    if fp == [] then 0.0 else (DigitValue(fp[0]) as real + FractionValue(fp[1..])) / 10.0
  }

  function DecimalValue(ip: string, fp: string): real
    requires AllDigits(ip) && AllDigits(fp)
  {
    DigitsValue(ip) as real + FractionValue(fp)
  }

  function Negated(v: Option<real>): Option<real> {
    if v.Some? then Some(-v.value) else None
  }

  /** An unsigned decimal literal: digits, optionally a point and digits,
      with at least one digit in all. */
  function UnsignedDecimal(t: string): Option<real> {
    var k := IndexOf(t, '.');
    var ip := t[..k];
    var fp := if k < |t| then t[k + 1..] else "";
    if AllDigits(ip) && AllDigits(fp) && |ip| + |fp| > 0 then Some(DecimalValue(ip, fp)) else None
  }

  /** Number(s) on decimal text; the empty (or blank) string is 0. */
  function NumberOf(s: string): Option<real> {
    var t := Trim(s);
    if t == [] then Some(0.0)
    else if t[0] == '-' then Negated(UnsignedDecimal(t[1..]))
    else if t[0] == '+' then UnsignedDecimal(t[1..])
    else UnsignedDecimal(t)
  }

  /** The longest decimal prefix of t, as parseFloat reads it after the sign. */
  function DecimalPrefix(t: string): Option<real> {
    var ip := DigitPrefix(t);
    var rest := t[|ip|..];
    var fp := if rest != [] && rest[0] == '.' then DigitPrefix(rest[1..]) else "";
    if |ip| + |fp| == 0 then None else Some(DecimalValue(ip, fp))
  }

  /** parseFloat(s) */
  function ParseFloat(s: string): Option<real> {
    var t := TrimStart(s);
    if t != [] && t[0] == '-' then Negated(DecimalPrefix(t[1..]))
    else if t != [] && t[0] == '+' then DecimalPrefix(t[1..])
    else DecimalPrefix(t)
  }

  /** parseInt(s, 10) */
  function ParseInt(s: string): Option<int> {
    var t := TrimStart(s);
    var neg := t != [] && t[0] == '-';
    var body := if t != [] && (t[0] == '-' || t[0] == '+') then t[1..] else t;
    var ds := DigitPrefix(body);
    if ds == [] then None
    else
      var v: int := DigitsValue(ds);
      if neg then Some(-v) else Some(v)
  }

  lemma {:induction false} DecimalPrefixAgrees(t: string)
    requires UnsignedDecimal(t).Some?
    ensures DecimalPrefix(t) == UnsignedDecimal(t)
  {
    var k := IndexOf(t, '.');
    var ip := t[..k];
    if k < |t| {
      var fp := t[k + 1..];
      assert t == ip + t[k..];
      DigitPrefixOfDigits(ip, t[k..]);
      assert t[|ip|..] == t[k..];
      assert t[k..][1..] == fp;
      assert fp + [] == fp;
      DigitPrefixOfDigits(fp, []);
    } else {
      assert t == ip + [];
      DigitPrefixOfDigits(ip, []);
    }
  }

  /** parseFloat reads a string that Number accepts as the same number. */
  lemma {:induction false} ParseFloatAgreesWithNumber(s: string)
    requires s == Trim(s) && s != []
    requires NumberOf(s).Some?
    ensures ParseFloat(s) == NumberOf(s)
  {
    assert TrimStart(s) == s;
    if s[0] == '-' || s[0] == '+' {
      DecimalPrefixAgrees(s[1..]);
    } else {
      DecimalPrefixAgrees(s);
    }
  }

  /** A '.'-free string that Number accepts is an integer. */
  lemma {:induction false} DotFreeNumberIsIntegral(s: string)
    requires '.' !in s
    requires NumberOf(s).Some?
    ensures NumberOf(s).value == NumberOf(s).value.Floor as real
  {
    var t := Trim(s);
    if t != [] {
      var u := if t[0] == '-' || t[0] == '+' then t[1..] else t;
      assert '.' !in u;
      assert UnsignedDecimal(u).Some?;
      UnsignedDigits(u);
      var n: int := DigitsValue(u);
      assert (n as real).Floor == n && (-n as real).Floor == -n;
    }
  }

  /** A string with no whitespace at either end is its own trim. */
  lemma TrimmedEnds(s: string)
    requires s != [] && !IsSpace(s[0]) && !IsSpace(s[|s| - 1])
    ensures Trim(s) == s && TrimStart(s) == s
  {
  }

  lemma UnsignedDigits(u: string)
    requires '.' !in u && UnsignedDecimal(u).Some?
    ensures AllDigits(u) && u != [] && DigitPrefix(u) == u
    ensures UnsignedDecimal(u) == Some(DigitsValue(u) as real)
  {
    assert IndexOf(u, '.') == |u|;
    assert u[..|u|] == u;
    assert u + [] == u;
    DigitPrefixOfDigits(u, []);
    assert DecimalValue(u, "") == DigitsValue(u) as real;
  }

  /** parseInt reads a '.'-free string that Number accepts as the same
      (integral) number. */
  lemma ParseIntAgreesWithNumber(s: string)
    requires s == Trim(s) && s != []
    requires '.' !in s
    requires NumberOf(s).Some?
    ensures ParseInt(s).Some? && ParseInt(s).value as real == NumberOf(s).value
  {
    assert TrimStart(s) == s;
    if s[0] == '-' || s[0] == '+' {
      assert '.' !in s[1..];
      UnsignedDigits(s[1..]);
    } else {
      UnsignedDigits(s);
    }
  }

  /** includes with a one-character needle finds exactly the characters
      of the string. */
  lemma ContainsChar(s: string, c: char)
    ensures Contains(s, [c]) <==> c in s
  {
    if c in s {
      var i :| 0 <= i < |s| && s[i] == c;
      assert s[i..i + 1] == [c];
      ContainsAt(s, [c], i);
    } else {
      ContainsCharAbsent(s, c);
    }
  }

  lemma {:induction false} ContainsCharAbsent(s: string, c: char)
    requires c !in s
    ensures !Contains(s, [c])
  {
    if s != [] {
      assert s[0] != c && c !in s[1..];
      assert s[..1] != [c];
      ContainsCharAbsent(s[1..], c);
    }
  }

  // ----------------------------------------------------- string order

  /** The order of Array.prototype.sort without a comparator (code points). */
  predicate StrLess(a: string, b: string) {
    if a == [] then b != []
    else if b == [] then false
    else if a[0] != b[0] then a[0] < b[0]
    else StrLess(a[1..], b[1..])
  }

  lemma {:induction false} StrLessIrreflexive(a: string)
    ensures !StrLess(a, a)
  {
    if a != [] { StrLessIrreflexive(a[1..]); }
  }

  lemma {:induction false} StrLessTransitive(a: string, b: string, c: string)
    requires StrLess(a, b) && StrLess(b, c)
    ensures StrLess(a, c)
  {
    if a != [] && b != [] && c != [] && a[0] == b[0] && b[0] == c[0] {
      StrLessTransitive(a[1..], b[1..], c[1..]);
    }
  }

  lemma {:induction false} StrLessTotal(a: string, b: string)
    requires a != b
    ensures StrLess(a, b) || StrLess(b, a)
  {
    if a != [] && b != [] && a[0] == b[0] {
      assert a == [a[0]] + a[1..] && b == [b[0]] + b[1..];
      StrLessTotal(a[1..], b[1..]);
    }
  }

  predicate StrictlySorted(s: seq<string>) {
    forall i, j :: 0 <= i < j < |s| ==> StrLess(s[i], s[j])
  }

  function InsertString(x: string, s: seq<string>): (r: seq<string>)
    requires StrictlySorted(s) && x !in s
    ensures StrictlySorted(r)
    ensures multiset(r) == multiset(s) + multiset{x}
  {
    if s == [] then [x]
    else if StrLess(x, s[0]) then
      InsertFirst(x, s);
      [x] + s
    else
      var rest := InsertString(x, s[1..]);
      InsertLater(x, s, rest);
      [s[0]] + rest
  }

  lemma InsertFirst(x: string, s: seq<string>)
    requires StrictlySorted(s) && s != [] && StrLess(x, s[0])
    ensures StrictlySorted([x] + s)
  {
    forall j | 0 < j < |s| ensures StrLess(x, s[j]) {
      StrLessTransitive(x, s[0], s[j]);
    }
  }

  lemma InsertLater(x: string, s: seq<string>, rest: seq<string>)
    requires StrictlySorted(s) && s != [] && x !in s && !StrLess(x, s[0])
    requires StrictlySorted(rest) && multiset(rest) == multiset(s[1..]) + multiset{x}
    ensures StrictlySorted([s[0]] + rest)
    ensures multiset([s[0]] + rest) == multiset(s) + multiset{x}
  {
    StrLessTotal(x, s[0]);
    assert s == [s[0]] + s[1..];
    forall j | 0 <= j < |rest| ensures StrLess(s[0], rest[j]) {
      assert rest[j] in multiset(rest);
      if rest[j] != x {
        assert rest[j] in multiset(s[1..]);
        var k :| 0 <= k < |s[1..]| && s[1..][k] == rest[j];
        assert s[k + 1] == rest[j];
      }
    }
  }

  /** Sorting distinct strings: ascending, and a permutation of the input. */
  function SortStrings(s: seq<string>): (r: seq<string>)
    requires forall i, j :: 0 <= i < j < |s| ==> s[i] != s[j]
    ensures StrictlySorted(r)
    ensures multiset(r) == multiset(s)
  {
    if s == [] then []
    else
      var init := s[..|s| - 1];
      assert s == init + [s[|s| - 1]];
      var sorted := SortStrings(init);
      assert s[|s| - 1] !in multiset(sorted);
      InsertString(s[|s| - 1], sorted)
  }
}
