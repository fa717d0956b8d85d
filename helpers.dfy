/** utils/helpers.js: date validation, parsing, comparison and formatting,
    the colour palette, and the collection helpers groupBy, sortBy, unique,
    truncate and isEmpty.  The insertion-ordered grouping defined here (Unique,
    KeysOf, Group) is also how the rest of the model reads a JavaScript `Set`
    or an object used as a dictionary. */
module Helpers {
  import opened JsText

  // ======================================================= colours

  const ColorPalette: seq<string> := [
    "#3b82f6", "#ef4444", "#22c55e", "#eab308", "#a855f7",
    "#ec4899", "#14b8a6", "#f97316", "#6b7280", "#8b5cf6",
    "#06b6d4", "#f43f5e", "#84cc16", "#6366f1", "#fbbf24",
    "#10b981", "#f59e0b", "#8b5cf6", "#ec4899", "#06b6d4",
    "#84cc16", "#f43f5e", "#6366f1", "#fbbf24", "#10b981",
    "#0ea5e9", "#d946ef", "#22c55e", "#f97316", "#14b8a6",
    "#8b5cf6", "#ef4444", "#eab308", "#3b82f6", "#a855f7"
  ]

  /** A colour as generateColors produces it: a palette entry, or the three
      numbers of an `hsl(...)` string. */
  datatype Color = Hex(code: string) | Hsl(hue: real, saturation: int, lightness: int)

  /** The hsl colour for index i: hue (i * 137.508) mod 360, saturation
      65/75/85 and lightness 45/60 by the index. */
  function HslColor(i: nat): (c: Color)
    ensures c.Hsl? && 0.0 <= c.hue < 360.0
    ensures c.saturation in {65, 75, 85} && c.lightness in {45, 60}
  {
    var turn := (i as real) * 137.508;
    var whole := (turn / 360.0).Floor;
    Hsl(turn - 360.0 * whole as real, 65 + (i % 3) * 10, 45 + (i % 2) * 15)
  }

  /** The colour generateColors puts at index i. */
  function ColorAt(i: nat): Color {
    if i < |ColorPalette| then Hex(ColorPalette[i]) else HslColor(i)
  }

  method GenerateColors(count: int) returns (colors: seq<Color>)
    ensures count <= 0 ==> colors == []
    ensures count > 0 ==> |colors| == count
    ensures forall i :: 0 <= i < |colors| && i < |ColorPalette| ==> colors[i] == Hex(ColorPalette[i])
    ensures forall i :: |ColorPalette| <= i < |colors| ==> colors[i] == HslColor(i)
    ensures forall i :: 0 <= i < |colors| ==> colors[i] == ColorAt(i)
  {
    if count <= 0 {
      return [];
    }
    colors := [];
    var i := 0;
    while i < count
      invariant 0 <= i <= count && |colors| == i
      invariant forall j :: 0 <= j < i ==> colors[j] == ColorAt(j)
    {
      if i < |ColorPalette| {
        colors := colors + [Hex(ColorPalette[i])];
      } else {
        colors := colors + [HslColor(i)];
      }
      i := i + 1;
    }
  }

  // ========================================================= dates

  /** A calendar date as (year, month, day); month 1..12. */
  datatype Date = Date(year: int, month: int, day: int)

  /** Chronological order of (year, month, day) triples. */
  predicate DateLess(a: Date, b: Date) {
    a.year < b.year
    || (a.year == b.year && a.month < b.month)
    || (a.year == b.year && a.month == b.month && a.day < b.day)
  }

  predicate IsLeapYear(y: int) {
    y % 4 == 0 && (y % 100 != 0 || y % 400 == 0)
  }

  function DaysInMonth(y: int, m: int): (n: int)
    ensures 28 <= n <= 31
  {
    if m == 2 then (if IsLeapYear(y) then 29 else 28)
    else if m == 4 || m == 6 || m == 9 || m == 11 then 30
    else 31
  }

  function YearLength(y: int): int {
    if IsLeapYear(y) then 366 else 365
  }

  /** A date the JavaScript Date constructor reproduces unchanged, in the
      years isValidDate admits. */
  predicate ValidDate(d: Date) {
    2000 <= d.year <= 2100 && 1 <= d.month <= 12 && 1 <= d.day <= DaysInMonth(d.year, d.month)
  }

  /** isValidDate: three '.'-separated numbers, day 1..31, month 1..12, year
      2000..2100, and a real calendar day (what the round trip through
      `new Date(year, month - 1, day)` checks). */
  predicate IsValidDate(s: string) {
    s != "" &&
    var parts := Split(s, '.');
    |parts| == 3 &&
    var d, m, y := NumberOf(parts[0]), NumberOf(parts[1]), NumberOf(parts[2]);
    d.Some? && m.Some? && y.Some? &&
    1.0 <= d.value <= 31.0 && 1.0 <= m.value <= 12.0 && 2000.0 <= y.value <= 2100.0 &&
    d.value == d.value.Floor as real && m.value == m.value.Floor as real && y.value == y.value.Floor as real &&
    d.value.Floor <= DaysInMonth(y.value.Floor, m.value.Floor)
  }

  /** The date-part integrality conjuncts of IsValidDate are implied by the
      rest: the parts come from splitting on '.', so they hold no '.'. */
  lemma {:induction false} DatePartsAreIntegral(s: string)
    requires s != ""
    ensures var parts := Split(s, '.');
      forall i :: 0 <= i < |parts| && NumberOf(parts[i]).Some? ==>
        NumberOf(parts[i]).value == NumberOf(parts[i]).value.Floor as real
  {
    var parts := Split(s, '.');
    forall i | 0 <= i < |parts| && NumberOf(parts[i]).Some?
      ensures NumberOf(parts[i]).value == NumberOf(parts[i]).value.Floor as real
    {
      DotFreeNumberIsIntegral(parts[i]);
    }
  }

  /** Number() of a run of digits is its value. */
  lemma NumberOfDigits(s: string)
    requires s != [] && AllDigits(s)
    ensures NumberOf(s) == Some(DigitsValue(s) as real)
  {
    TrimmedEnds(s);
    assert '.' !in s;
    assert IndexOf(s, '.') == |s|;
    assert s[..|s|] == s;
  }

  lemma {:induction false} SplitWhole(s: string, sep: char)
    requires sep !in s
    ensures Split(s, sep) == [s]
  {
    if s != [] {
      SplitWhole(s[1..], sep);
      assert [s[0]] + s[1..] == s;
    }
  }

  lemma {:induction false} SplitFirst(a: string, sep: char, rest: string)
    requires sep !in a
    ensures Split(a + [sep] + rest, sep) == [a] + Split(rest, sep)
  {
    if a == [] {
      assert a + [sep] + rest == [sep] + rest;
      assert ([sep] + rest)[1..] == rest;
    } else {
      SplitFirst(a[1..], sep, rest);
      assert (a + [sep] + rest)[1..] == a[1..] + [sep] + rest;
      assert [a[0]] + a[1..] == a;
    }
  }

  /** "d.m.y" splits into its three parts. */
  lemma SplitDate(d: string, m: string, y: string)
    requires '.' !in d && '.' !in m && '.' !in y
    ensures Split(d + "." + m + "." + y, '.') == [d, m, y]
  {
    assert d + "." + m + "." + y == d + ['.'] + (m + ['.'] + y);
    SplitFirst(d, '.', m + ['.'] + y);
    SplitFirst(m, '.', y);
    SplitWhole(y, '.');
  }

  /** The value of a run of two digits. */
  lemma TwoDigits(s: string)
    requires |s| == 2 && AllDigits(s)
    ensures DigitsValue(s) == DigitValue(s[0]) * 10 + DigitValue(s[1])
  {
    assert s[..1][..0] == [] && s[..1][0] == s[0];
    assert DigitsValue(s[..1]) == DigitValue(s[0]);
  }

  /** The value of a run of four digits. */
  lemma FourDigits(s: string)
    requires |s| == 4 && AllDigits(s)
    ensures DigitsValue(s) == DigitValue(s[0]) * 1000 + DigitValue(s[1]) * 100 + DigitValue(s[2]) * 10 + DigitValue(s[3])
  {
    var p := s[..2];
    TwoDigits(p);
    assert s[..3][..2] == p && s[..3][2] == s[2];
    assert DigitsValue(s[..3]) == DigitsValue(p) * 10 + DigitValue(s[2]);
  }

  /** isValidDate on "d.m.y" with digit-only parts checks their values. */
  lemma DigitDateValidity(d: string, m: string, y: string)
    requires d != [] && m != [] && y != [] && AllDigits(d) && AllDigits(m) && AllDigits(y)
    ensures IsValidDate(d + "." + m + "." + y) <==>
      var dv, mv, yv := DigitsValue(d), DigitsValue(m), DigitsValue(y);
      1 <= dv <= 31 && 1 <= mv <= 12 && 2000 <= yv <= 2100 && dv <= DaysInMonth(yv, mv)
  {
    assert '.' !in d && '.' !in m && '.' !in y;
    SplitDate(d, m, y);
    NumberOfDigits(d);
    NumberOfDigits(m);
    NumberOfDigits(y);
  }

  /** 2024 is a leap year: 29 February exists and 30 February does not. */
  lemma LeapDayExample(day29: string, day30: string, feb: string, year: string)
    requires day29 == "29" && day30 == "30" && feb == "02" && year == "2024"
    ensures IsValidDate(day29 + "." + feb + "." + year)
    ensures !IsValidDate(day30 + "." + feb + "." + year)
  {
    TwoDigits(day29);
    TwoDigits(day30);
    TwoDigits(feb);
    FourDigits(year);
    DigitDateValidity(day29, feb, year);
    DigitDateValidity(day30, feb, year);
    assert DaysInMonth(2024, 2) == 29;
  }

  /** parseDate: the date when isValidDate accepts the text, null otherwise. */
  function ParseDate(s: string): (r: Option<Date>)
    ensures r.Some? <==> IsValidDate(s)
    ensures r.Some? ==> ValidDate(r.value)
  {
    if s == "" || !IsValidDate(s) then None
    else
      var parts := Split(s, '.');
      Some(Date(NumberOf(parts[2]).value.Floor, NumberOf(parts[1]).value.Floor, NumberOf(parts[0]).value.Floor))
  }

  function DaysBeforeYear(y: int): nat
    requires y >= 2000
    decreases y - 2000
  {
    if y == 2000 then 0 else DaysBeforeYear(y - 1) + YearLength(y - 1)
  }

  function DaysBeforeMonth(y: int, m: int): nat
    requires 1 <= m <= 13
  {
    if m == 1 then 0 else DaysBeforeMonth(y, m - 1) + DaysInMonth(y, m - 1)
  }

  /** Days since 31 Dec 1999 (the time value of the date divided by a day). */
  function DayNumber(d: Date): int
    requires d.year >= 2000 && 1 <= d.month <= 12
  {
    DaysBeforeYear(d.year) + DaysBeforeMonth(d.year, d.month) + d.day
  }

  const MsPerDay: int := 86400000

  /** compareDates: the difference of the two time values; an invalid date
      sorts below every valid one, and two invalid dates compare equal. */
  function CompareDates(a: string, b: string): int {
    var d1, d2 := ParseDate(a), ParseDate(b);
    if d1.None? && d2.None? then 0
    else if d1.None? then -1
    else if d2.None? then 1
    else (DayNumber(d1.value) - DayNumber(d2.value)) * MsPerDay
  }

  lemma {:induction false} DaysBeforeMonthMonotone(y: int, m1: int, m2: int)
    requires 1 <= m1 <= m2 <= 13
    ensures DaysBeforeMonth(y, m1) <= DaysBeforeMonth(y, m2)
    decreases m2 - m1
  {
    if m1 < m2 {
      DaysBeforeMonthMonotone(y, m1, m2 - 1);
    }
  }

  lemma DaysBeforeMonthYear(y: int)
    ensures DaysBeforeMonth(y, 13) == YearLength(y)
  {
    assert DaysBeforeMonth(y, 2) == 31;
    assert DaysBeforeMonth(y, 3) == 31 + DaysInMonth(y, 2);
    assert DaysBeforeMonth(y, 4) == 62 + DaysInMonth(y, 2);
    assert DaysBeforeMonth(y, 5) == 92 + DaysInMonth(y, 2);
    assert DaysBeforeMonth(y, 6) == 123 + DaysInMonth(y, 2);
    assert DaysBeforeMonth(y, 7) == 153 + DaysInMonth(y, 2);
    assert DaysBeforeMonth(y, 8) == 184 + DaysInMonth(y, 2);
    assert DaysBeforeMonth(y, 9) == 215 + DaysInMonth(y, 2);
    assert DaysBeforeMonth(y, 10) == 245 + DaysInMonth(y, 2);
    assert DaysBeforeMonth(y, 11) == 276 + DaysInMonth(y, 2);
    assert DaysBeforeMonth(y, 12) == 306 + DaysInMonth(y, 2);
    assert DaysBeforeMonth(y, 13) == 337 + DaysInMonth(y, 2);
  }

  lemma {:induction false} DaysBeforeYearMonotone(y1: int, y2: int)
    requires 2000 <= y1 <= y2
    ensures DaysBeforeYear(y1) <= DaysBeforeYear(y2)
    decreases y2 - y1
  {
    if y1 < y2 {
      DaysBeforeYearMonotone(y1, y2 - 1);
    }
  }

  /** The last day of a date's year comes before the next year starts. */
  lemma DayNumberWithinYear(d: Date)
    requires ValidDate(d)
    ensures DayNumber(d) <= DaysBeforeYear(d.year + 1)
  {
    DaysBeforeMonthMonotone(d.year, d.month + 1, 13);
    DaysBeforeMonthYear(d.year);
  }

  /** Day numbers follow the chronological order of valid dates. */
  lemma DayNumberOrder(a: Date, b: Date)
    requires ValidDate(a) && ValidDate(b) && DateLess(a, b)
    ensures DayNumber(a) < DayNumber(b)
  {
    if a.year < b.year {
      DayNumberWithinYear(a);
      DaysBeforeYearMonotone(a.year + 1, b.year);
    } else if a.month < b.month {
      DaysBeforeMonthMonotone(a.year, a.month + 1, b.month);
    }
  }

  /** For two valid dates, compareDates is negative, zero or positive exactly
      as the first date is earlier than, the same as, or later than the second. */
  lemma CompareDatesOrder(a: string, b: string)
    requires IsValidDate(a) && IsValidDate(b)
    ensures var d1, d2 := ParseDate(a).value, ParseDate(b).value;
      && (CompareDates(a, b) < 0 <==> DateLess(d1, d2))
      && (CompareDates(a, b) == 0 <==> d1 == d2)
      && (CompareDates(a, b) > 0 <==> DateLess(d2, d1))
  {
    var d1, d2 := ParseDate(a).value, ParseDate(b).value;
    if DateLess(d1, d2) {
      DayNumberOrder(d1, d2);
    } else if DateLess(d2, d1) {
      DayNumberOrder(d2, d1);
    } else {
      assert d1 == d2;
    }
  }

  /** compareDates is antisymmetric, and ranks invalid dates below valid ones. */
  lemma CompareDatesAntisymmetric(a: string, b: string)
    ensures CompareDates(a, b) == -CompareDates(b, a)
    ensures !IsValidDate(a) && !IsValidDate(b) ==> CompareDates(a, b) == 0
    ensures !IsValidDate(a) && IsValidDate(b) ==> CompareDates(a, b) < 0
  {
  }

  const MonthAbbreviations: seq<string> :=
    ["янв", "фев", "мар", "апр", "май", "июн", "июл", "авг", "сен", "окт", "ноя", "дек"]

  /** `${parseInt(x)}`: the number, or "NaN". */
  function IntOrNaNText(v: Option<int>): string {
    if v.Some? then IntToString(v.value) else "NaN"
  }

  /** formatDate: "day mon year" for three '.'-separated parts whose middle
      one is a month number, the input unchanged otherwise. */
  function FormatDate(s: string): (r: string)
    ensures s == "" ==> r == ""
    ensures |Split(s, '.')| != 3 ==> r == s
    ensures s != "" && |Split(s, '.')| == 3 ==>
      var parts := Split(s, '.');
      var m := ParseInt(parts[1]);
      if m.Some? && 1 <= m.value <= 12
      then r == IntOrNaNText(ParseInt(parts[0])) + " " + MonthAbbreviations[m.value - 1] + " " + parts[2]
      else r == s
  {
    if s == "" then ""
    else
      var parts := Split(s, '.');
      if |parts| == 3 then
        var day := ParseInt(parts[0]);
        var month := ParseInt(parts[1]);
        if month.Some? && 0 <= month.value - 1 < 12
        then IntOrNaNText(day) + " " + MonthAbbreviations[month.value - 1] + " " + parts[2]
        else s
      else s
  }

  // ================================================ sequences as sets

  predicate NoDups<T(==)>(s: seq<T>) {
    forall i, j :: 0 <= i < j < |s| ==> s[i] != s[j]
  }

  /** Set.prototype.add on an insertion-ordered set. */
  function SetAdd<T(==)>(s: seq<T>, x: T): (r: seq<T>)
    ensures NoDups(s) ==> NoDups(r)
    ensures x in r && forall i :: 0 <= i < |s| ==> s[i] in r
    ensures forall i :: 0 <= i < |r| ==> r[i] in s || r[i] == x
  {
    if x in s then s else s + [x]
  }

  /** unique / `[...new Set(array)]`: first occurrences, in order. */
  function Unique<T(==)>(xs: seq<T>): (r: seq<T>)
    ensures NoDups(r)
    ensures forall i :: 0 <= i < |r| ==> r[i] in xs
    ensures forall i :: 0 <= i < |xs| ==> xs[i] in r
    ensures |r| <= |xs|
  {
    if xs == [] then [] else SetAdd(Unique(xs[..|xs| - 1]), xs[|xs| - 1])
  }

  /** The keys that items yield, each once, in first-seen order (a `Set`
      filled by `if (k) set.add(k)`). */
  function SomeKeys<T, K(==)>(items: seq<T>, key: T -> Option<K>): (keys: seq<K>)
    ensures NoDups(keys)
  {
    if items == [] then []
    else
      var keys := SomeKeys(items[..|items| - 1], key);
      var k := key(items[|items| - 1]);
      if k.Some? then SetAdd(keys, k.value) else keys
  }

  /** A key is in the set exactly when some item yields it. */
  lemma {:induction false} SomeKeysMembers<T, K>(items: seq<T>, key: T -> Option<K>, x: K)
    ensures x in SomeKeys(items, key) <==> exists i :: 0 <= i < |items| && key(items[i]) == Some(x)
  {
    if items != [] {
      var init := items[..|items| - 1];
      SomeKeysMembers(init, key, x);
      if exists i :: 0 <= i < |items| && key(items[i]) == Some(x) {
        var i :| 0 <= i < |items| && key(items[i]) == Some(x);
        if i < |init| {
          assert init[i] == items[i];
        }
      }
      if x in SomeKeys(init, key) {
        var i :| 0 <= i < |init| && key(init[i]) == Some(x);
        assert items[i] == init[i];
      }
    }
  }

  /** The index of the first occurrence of x. */
  function FirstIndex<T(==)>(xs: seq<T>, x: T): (k: nat)
    requires x in xs
    ensures k < |xs| && xs[k] == x
    ensures forall i :: 0 <= i < k ==> xs[i] != x
  {
    if xs[0] == x then 0 else 1 + FirstIndex(xs[1..], x)
  }

  lemma FirstIndexAppend<T>(xs: seq<T>, y: T, z: T)
    requires z in xs
    ensures FirstIndex(xs + [y], z) == FirstIndex(xs, z)
  {
    assert (xs + [y])[FirstIndex(xs, z)] == z;
  }

  lemma FirstIndexOfNew<T>(xs: seq<T>, y: T)
    requires y !in xs
    ensures FirstIndex(xs + [y], y) == |xs|
  {
  }

  lemma UniqueOrderPair<T>(init: seq<T>, y: T, i: nat, j: nat)
    requires i < j < |Unique(init + [y])|
    requires j < |Unique(init)| ==> FirstIndex(init, Unique(init)[i]) < FirstIndex(init, Unique(init)[j])
    ensures FirstIndex(init + [y], Unique(init + [y])[i]) < FirstIndex(init + [y], Unique(init + [y])[j])
  {
    var xs := init + [y];
    assert xs[..|xs| - 1] == init;
    var u, r := Unique(init), Unique(xs);
    assert r == if y in u then u else u + [y];
    assert r[i] == u[i];
    FirstIndexAppend(init, y, u[i]);
    if j < |u| {
      assert r[j] == u[j];
      FirstIndexAppend(init, y, u[j]);
    } else {
      assert y !in init && r[j] == y;
      FirstIndexOfNew(init, y);
    }
  }

  /** unique keeps the elements in the order of their first occurrence. */
  lemma {:induction false} UniqueFirstOccurrenceOrder<T>(xs: seq<T>)
    ensures var r := Unique(xs);
      forall i, j :: 0 <= i < j < |r| ==> FirstIndex(xs, r[i]) < FirstIndex(xs, r[j])
  {
    if xs != [] {
      var init, y := xs[..|xs| - 1], xs[|xs| - 1];
      assert xs == init + [y];
      UniqueFirstOccurrenceOrder(init);
      var u := Unique(init);
      forall i, j | 0 <= i < j < |Unique(xs)| ensures FirstIndex(xs, Unique(xs)[i]) < FirstIndex(xs, Unique(xs)[j]) {
        if j < |u| {
          assert FirstIndex(init, u[i]) < FirstIndex(init, u[j]);
        }
        UniqueOrderPair(init, y, i, j);
      }
    }
  }

  /** Order-preserving subsequence, matched from the end. */
  predicate IsSubsequence<T(==)>(a: seq<T>, b: seq<T>)
    decreases |b|
  {
    if a == [] then true
    else if b == [] then false
    else if a[|a| - 1] == b[|b| - 1] then IsSubsequence(a[..|a| - 1], b[..|b| - 1])
    else IsSubsequence(a, b[..|b| - 1])
  }

  lemma {:induction false} SubsequenceDropLast<T>(a: seq<T>, b: seq<T>)
    requires a != [] && IsSubsequence(a, b)
    ensures IsSubsequence(a[..|a| - 1], b)
    decreases |a| + |b|, 0
  {
    var a' := a[..|a| - 1];
    if a' != [] && b != [] {
      if a[|a| - 1] == b[|b| - 1] {
        SubsequenceExtend(a', b[..|b| - 1], b[|b| - 1]);
        assert b[..|b| - 1] + [b[|b| - 1]] == b;
      } else {
        SubsequenceDropLast(a, b[..|b| - 1]);
        SubsequenceExtend(a', b[..|b| - 1], b[|b| - 1]);
        assert b[..|b| - 1] + [b[|b| - 1]] == b;
      }
    }
  }

  lemma {:induction false} SubsequenceExtend<T>(a: seq<T>, b: seq<T>, x: T)
    requires IsSubsequence(a, b)
    ensures IsSubsequence(a, b + [x])
    decreases |a| + |b|, 1
  {
    assert (b + [x])[..|b|] == b;
    if a != [] && a[|a| - 1] == x {
      SubsequenceDropLast(a, b);
    }
  }

  /** Array.prototype.filter: the items that pass, in their order. */
  function Select<T>(items: seq<T>, keep: T -> bool): (r: seq<T>)
    ensures |r| <= |items|
    ensures forall i :: 0 <= i < |r| ==> r[i] in items && keep(r[i])
    ensures forall i :: 0 <= i < |items| && keep(items[i]) ==> items[i] in r
  {
    if items == [] then []
    else
      var init := Select(items[..|items| - 1], keep);
      var x := items[|items| - 1];
      if keep(x) then init + [x] else init
  }

  /** The filtered items form an order-preserving subsequence. */
  lemma {:induction false} SelectIsSubsequence<T>(items: seq<T>, keep: T -> bool)
    ensures IsSubsequence(Select(items, keep), items)
  {
    if items != [] {
      var init, x := items[..|items| - 1], items[|items| - 1];
      SelectIsSubsequence(init, keep);
      var r := Select(init, keep);
      assert init + [x] == items;
      if keep(x) {
        assert (r + [x])[..|r|] == r;
      } else {
        SubsequenceExtend(r, init, x);
      }
    }
  }

  /** A filter that every item passes returns the items unchanged. */
  lemma {:induction false} SelectAll<T>(items: seq<T>, keep: T -> bool)
    requires forall x :: x in items ==> keep(x)
    ensures Select(items, keep) == items
  {
    if items != [] {
      SelectAll(items[..|items| - 1], keep);
      assert items[..|items| - 1] + [items[|items| - 1]] == items;
    }
  }

  lemma SelectStep<T>(items: seq<T>, keep: T -> bool, x: T)
    ensures Select(items + [x], keep) == if keep(x) then Select(items, keep) + [x] else Select(items, keep)
  {
    assert (items + [x])[..|items|] == items;
  }

  /** The number of items of xs that are members of s. */
  function CountIn<T(==)>(xs: seq<T>, s: seq<T>): (n: nat)
    ensures n <= |xs|
  {
    if xs == [] then 0
    else CountIn(xs[..|xs| - 1], s) + (if xs[|xs| - 1] in s then 1 else 0)
  }

  /** For a sequence without repetitions, CountIn is the size of the
      intersection of the two collections. */
  lemma {:induction false} CountInIsIntersection<T>(xs: seq<T>, s: seq<T>)
    requires NoDups(xs)
    ensures CountIn(xs, s) == |set x | x in xs && x in s|
  {
    if xs != [] {
      var init, y := xs[..|xs| - 1], xs[|xs| - 1];
      CountInIsIntersection(init, s);
      var a := set x | x in init && x in s;
      var b := set x | x in xs && x in s;
      assert y !in init;
      assert forall x :: x in xs <==> x in init || x == y;
      if y in s {
        assert b == a + {y};
      } else {
        assert b == a;
      }
    }
  }

  // ========================================= grouping in first-seen order

  /** The keys of a sequence of items, in item order. */
  function MapKeys<T, K>(items: seq<T>, keyOf: T -> K): (ks: seq<K>)
    ensures |ks| == |items|
    ensures forall i :: 0 <= i < |items| ==> ks[i] == keyOf(items[i])
  {
    if items == [] then [] else MapKeys(items[..|items| - 1], keyOf) + [keyOf(items[|items| - 1])]
  }

  /** The distinct keys in first-seen order (Object.keys of the groups). */
  function KeysOf<T, K(==)>(items: seq<T>, keyOf: T -> K): seq<K> {
    Unique(MapKeys(items, keyOf))
  }

  /** The items whose key is k, in item order. */
  function Group<T, K(==)>(items: seq<T>, keyOf: T -> K, k: K): (g: seq<T>)
    ensures |g| <= |items|
    ensures forall x :: x in g ==> x in items && keyOf(x) == k
  {
    if items == [] then []
    else
      var init := Group(items[..|items| - 1], keyOf, k);
      var x := items[|items| - 1];
      if keyOf(x) == k then init + [x] else init
  }

  lemma {:induction false} GroupIsSubsequence<T, K>(items: seq<T>, keyOf: T -> K, k: K)
    ensures IsSubsequence(Group(items, keyOf, k), items)
  {
    if items != [] {
      var init := items[..|items| - 1];
      GroupIsSubsequence(init, keyOf, k);
      var g := Group(init, keyOf, k);
      var x := items[|items| - 1];
      assert init + [x] == items;
      if keyOf(x) == k {
        assert (g + [x])[..|g|] == g;
      } else {
        SubsequenceExtend(g, init, x);
      }
    }
  }

  lemma {:induction false} GroupContainsAll<T, K>(items: seq<T>, keyOf: T -> K, x: T)
    requires x in items
    ensures x in Group(items, keyOf, keyOf(x))
  {
    var init := items[..|items| - 1];
    assert items == init + [items[|items| - 1]];
    if x != items[|items| - 1] {
      GroupContainsAll(init, keyOf, x);
    }
  }

  lemma {:induction false} GroupOfAbsentKey<T, K>(items: seq<T>, keyOf: T -> K, k: K)
    requires k !in MapKeys(items, keyOf)
    ensures Group(items, keyOf, k) == []
  {
    if items != [] {
      var init := items[..|items| - 1];
      assert MapKeys(items, keyOf) == MapKeys(init, keyOf) + [keyOf(items[|items| - 1])];
      GroupOfAbsentKey(init, keyOf, k);
    }
  }

  function SumValues<T>(xs: seq<T>, val: T -> real): real {
    if xs == [] then 0.0 else SumValues(xs[..|xs| - 1], val) + val(xs[|xs| - 1])
  }

  /** The sum over the keys ks of the values in each key's group. */
  function SumGroups<T, K(==)>(items: seq<T>, keyOf: T -> K, val: T -> real, ks: seq<K>): real {
    if ks == [] then 0.0
    else SumGroups(items, keyOf, val, ks[..|ks| - 1]) + SumValues(Group(items, keyOf, ks[|ks| - 1]), val)
  }

  lemma {:induction false} SumGroupsStep<T, K>(items: seq<T>, keyOf: T -> K, val: T -> real, x: T, ks: seq<K>)
    requires NoDups(ks)
    ensures SumGroups(items + [x], keyOf, val, ks)
      == SumGroups(items, keyOf, val, ks) + (if keyOf(x) in ks then val(x) else 0.0)
  {
    var items' := items + [x];
    assert items'[..|items'| - 1] == items;
    if ks != [] {
      var init, k := ks[..|ks| - 1], ks[|ks| - 1];
      assert ks == init + [k];
      SumGroupsStep(items, keyOf, val, x, init);
      var g := Group(items, keyOf, k);
      if keyOf(x) == k {
        assert Group(items', keyOf, k) == g + [x];
        assert (g + [x])[..|g|] == g;
        assert k !in init;
      }
    }
  }

  lemma {:induction false} SumGroupsAppend<T, K>(items: seq<T>, keyOf: T -> K, val: T -> real, ks: seq<K>, ks': seq<K>)
    ensures SumGroups(items, keyOf, val, ks + ks')
      == SumGroups(items, keyOf, val, ks) + SumGroups(items, keyOf, val, ks')
  {
    if ks' == [] {
      assert ks + ks' == ks;
    } else {
      var init, k := ks'[..|ks'| - 1], ks'[|ks'| - 1];
      assert ks + ks' == (ks + init) + [k];
      SumGroupsAppend(items, keyOf, val, ks, init);
    }
  }

  /** Summing the groups over the keys in any order gives the same total. */
  lemma {:induction false} SumGroupsPermutation<T, K>(items: seq<T>, keyOf: T -> K, val: T -> real, ks: seq<K>, ks': seq<K>)
    requires multiset(ks) == multiset(ks')
    ensures SumGroups(items, keyOf, val, ks) == SumGroups(items, keyOf, val, ks')
    decreases |ks|
  {
    if ks == [] {
      assert |ks'| == |multiset(ks')|;
    } else {
      var init, k := ks[..|ks| - 1], ks[|ks| - 1];
      assert ks == init + [k];
      assert k in multiset(ks');
      var i :| 0 <= i < |ks'| && ks'[i] == k;
      var rest := ks'[..i] + ks'[i + 1..];
      assert ks' == ks'[..i] + [k] + ks'[i + 1..];
      assert multiset(ks) == multiset(init) + multiset{k};
      assert multiset(ks') == multiset(ks'[..i]) + multiset{k} + multiset(ks'[i + 1..]);
      assert multiset(rest) == multiset(ks'[..i]) + multiset(ks'[i + 1..]);
      assert multiset(init) == multiset(ks) - multiset{k};
      assert multiset(rest) == multiset(ks') - multiset{k};
      SumGroupsPermutation(items, keyOf, val, init, rest);
      SumGroupsAppend(items, keyOf, val, ks'[..i] + [k], ks'[i + 1..]);
      SumGroupsAppend(items, keyOf, val, ks'[..i], [k]);
      SumGroupsAppend(items, keyOf, val, ks'[..i], ks'[i + 1..]);
      assert SumGroups(items, keyOf, val, [k]) == SumValues(Group(items, keyOf, k), val) by {
        assert [k][..0] == [];
      }
    }
  }

  lemma KeysOfStep<T, K>(items: seq<T>, keyOf: T -> K, x: T)
    ensures KeysOf(items + [x], keyOf) == SetAdd(KeysOf(items, keyOf), keyOf(x))
  {
    assert (items + [x])[..|items|] == items;
  }

  lemma GroupStep<T, K>(items: seq<T>, keyOf: T -> K, x: T, k: K)
    ensures Group(items + [x], keyOf, k)
      == if keyOf(x) == k then Group(items, keyOf, k) + [x] else Group(items, keyOf, k)
  {
    assert (items + [x])[..|items|] == items;
  }

  lemma KeysOfMembers<T, K>(items: seq<T>, keyOf: T -> K, k: K)
    ensures k in KeysOf(items, keyOf) <==> k in MapKeys(items, keyOf)
  {
    var ks := MapKeys(items, keyOf);
    if k in ks {
      var i :| 0 <= i < |ks| && ks[i] == k;
    }
  }

  /** A listed key has at least one item. */
  lemma GroupOfListedKey<T, K>(items: seq<T>, keyOf: T -> K, k: K)
    requires k in KeysOf(items, keyOf)
    ensures |Group(items, keyOf, k)| >= 1
  {
    KeysOfMembers(items, keyOf, k);
    var ks := MapKeys(items, keyOf);
    var i :| 0 <= i < |ks| && ks[i] == k;
    GroupContainsAll(items, keyOf, items[i]);
  }

  /** Grouping loses and duplicates nothing: the groups of the distinct keys
      together carry every item's value exactly once. */
  lemma {:induction false} GroupsPartition<T, K>(items: seq<T>, keyOf: T -> K, val: T -> real)
    ensures SumGroups(items, keyOf, val, KeysOf(items, keyOf)) == SumValues(items, val)
  {
    if items != [] {
      var init, x := items[..|items| - 1], items[|items| - 1];
      assert items == init + [x];
      GroupsPartition(init, keyOf, val);
      var ks := KeysOf(init, keyOf);
      KeysOfStep(init, keyOf, x);
      SumGroupsStep(init, keyOf, val, x, ks);
      if keyOf(x) !in ks {
        NewKeyGroup(init, keyOf, val, x);
      }
    }
  }

  /** The group of a key first seen at the last item holds just that item. */
  lemma NewKeyGroup<T, K>(init: seq<T>, keyOf: T -> K, val: T -> real, x: T)
    requires keyOf(x) !in KeysOf(init, keyOf)
    ensures var ks := KeysOf(init, keyOf);
      SumGroups(init + [x], keyOf, val, ks + [keyOf(x)]) == SumGroups(init + [x], keyOf, val, ks) + val(x)
  {
    var ks, k := KeysOf(init, keyOf), keyOf(x);
    assert (ks + [k])[..|ks|] == ks;
    KeysOfMembers(init, keyOf, k);
    GroupOfAbsentKey(init, keyOf, k);
    GroupStep(init, keyOf, x, k);
    assert Group(init + [x], keyOf, k) == [x];
    assert [x][..0] == [];
    assert SumValues([x], val) == val(x);
  }

  function One<T>(x: T): real {
    1.0
  }

  lemma {:induction false} SumOfOnes<T>(xs: seq<T>)
    ensures SumValues(xs, One) == |xs| as real
  {
    if xs != [] {
      SumOfOnes(xs[..|xs| - 1]);
    }
  }

  /** The state groupBy has reached after `items`: the keys in first-seen
      order, each mapped to its group. */
  ghost predicate GroupsOf<T, K(!new)>(items: seq<T>, keyOf: T -> K, keys: seq<K>, groups: map<K, seq<T>>) {
    && keys == KeysOf(items, keyOf)
    && (forall k :: k in groups <==> k in keys)
    && (forall k :: k in groups ==> groups[k] == Group(items, keyOf, k))
  }

  /** The key of one more item is listed when it is new. */
  lemma KeysOfGrows<T, K>(items: seq<T>, keyOf: T -> K, keys: seq<K>, x: T, known: bool)
    requires keys == KeysOf(items, keyOf) && (known <==> keyOf(x) in keys)
    ensures KeysOf(items + [x], keyOf) == if known then keys else keys + [keyOf(x)]
  {
    KeysOfStep(items, keyOf, x);
  }

  /** Adding a key to a map and, when new, to the key list keeps the two
      in step. */
  lemma KeySetGrows<K(!new), V>(keys: seq<K>, m: map<K, V>, k: K, v: V)
    requires forall k' :: k' in m <==> k' in keys
    ensures var keys' := if k in m then keys else keys + [k];
      forall k' :: k' in m[k := v] <==> k' in keys'
  {
  }

  /** One more item joins the group of its key, which starts empty when the
      key is new. */
  lemma GroupsGrow<T, K(!new)>(items: seq<T>, keyOf: T -> K, groups: map<K, seq<T>>, x: T)
    requires forall k :: k in groups ==> groups[k] == Group(items, keyOf, k)
    requires keyOf(x) !in groups ==> keyOf(x) !in KeysOf(items, keyOf)
    ensures var k := keyOf(x); var groups' := groups[k := (if k in groups then groups[k] else []) + [x]];
      forall k' :: k' in groups' ==> groups'[k'] == Group(items + [x], keyOf, k')
  {
    var k := keyOf(x);
    if k !in groups {
      KeysOfMembers(items, keyOf, k);
      GroupOfAbsentKey(items, keyOf, k);
    }
    forall k' ensures Group(items + [x], keyOf, k')
      == if keyOf(x) == k' then Group(items, keyOf, k') + [x] else Group(items, keyOf, k') {
      GroupStep(items, keyOf, x, k');
    }
  }

  lemma GroupsOfAppend<T, K(!new)>(items: seq<T>, keyOf: T -> K, keys: seq<K>, groups: map<K, seq<T>>, x: T,
                                 keys': seq<K>, groups': map<K, seq<T>>)
    requires GroupsOf(items, keyOf, keys, groups)
    requires keys' == if keyOf(x) in groups then keys else keys + [keyOf(x)]
    requires groups' == groups[keyOf(x) := (if keyOf(x) in groups then groups[keyOf(x)] else []) + [x]]
    ensures GroupsOf(items + [x], keyOf, keys', groups')
  {
    var k := keyOf(x);
    KeysOfGrows(items, keyOf, keys, x, k in groups);
    KeySetGrows(keys, groups, k, (if k in groups then groups[k] else []) + [x]);
    GroupsGrow(items, keyOf, groups, x);
  }

  /** The loop step over `items[i]`. */
  lemma GroupsOfStep<T, K(!new)>(items: seq<T>, keyOf: T -> K, i: nat, keys: seq<K>, groups: map<K, seq<T>>,
                               keys': seq<K>, groups': map<K, seq<T>>)
    requires i < |items| && GroupsOf(items[..i], keyOf, keys, groups)
    requires keys' == if keyOf(items[i]) in groups then keys else keys + [keyOf(items[i])]
    requires groups' == groups[keyOf(items[i]) := (if keyOf(items[i]) in groups then groups[keyOf(items[i])] else []) + [items[i]]]
    ensures GroupsOf(items[..i + 1], keyOf, keys', groups')
  {
    GroupsOfAppend(items[..i], keyOf, keys, groups, items[i], keys', groups');
    GroupsOfPrefix(items, keyOf, i, keys', groups');
  }

  lemma GroupsOfPrefix<T, K(!new)>(items: seq<T>, keyOf: T -> K, i: nat, keys: seq<K>, groups: map<K, seq<T>>)
    requires i < |items| && GroupsOf(items[..i] + [items[i]], keyOf, keys, groups)
    ensures GroupsOf(items[..i + 1], keyOf, keys, groups)
  {
    assert items[..i + 1] == items[..i] + [items[i]];
  }

  /** groupBy: each item lands in the group of its key, the groups keep the
      item order, and the keys are listed in first-seen order. */
  method GroupBy<T, K(==,!new)>(items: seq<T>, keyOf: T -> K) returns (keys: seq<K>, groups: map<K, seq<T>>)
    ensures keys == KeysOf(items, keyOf)
    ensures forall k :: k in groups <==> k in keys
    ensures forall k :: k in groups ==> groups[k] == Group(items, keyOf, k)
  {
    keys, groups := [], map[];
    var i := 0;
    while i < |items|
      invariant 0 <= i <= |items|
      invariant GroupsOf(items[..i], keyOf, keys, groups)
    {
      var x := items[i];
      var k := keyOf(x);
      var g: seq<T> := [];
      ghost var keys0, groups0 := keys, groups;
      if k in groups {
        g := groups[k];
      } else {
        keys := keys + [k];
      }
      groups := groups[k := g + [x]];
      GroupsOfStep(items, keyOf, i, keys0, groups0, keys, groups);
      i := i + 1;
    }
    assert items[..i] == items;
  }

  // =================================================== folding per key

  /** `items.forEach(x => { acc = step(acc, x); })` from `start`. */
  function FoldL<T, A>(items: seq<T>, start: A, step: (A, T) -> A): A {
    if items == [] then start else step(FoldL(items[..|items| - 1], start, step), items[|items| - 1])
  }

  lemma FoldLStep<T, A>(items: seq<T>, start: A, step: (A, T) -> A, x: T)
    ensures FoldL(items + [x], start, step) == step(FoldL(items, start, step), x)
  {
    assert (items + [x])[..|items|] == items;
  }

  /** The state of a per-key accumulation after `items`: the keys in
      first-seen order, each mapped to the fold of its own group. */
  ghost predicate FoldsOf<T, K(!new), A>(items: seq<T>, keyOf: T -> K, start: A, step: (A, T) -> A,
                                         keys: seq<K>, acc: map<K, A>) {
    && keys == KeysOf(items, keyOf)
    && (forall k :: k in acc <==> k in keys)
    && (forall k :: k in acc ==> acc[k] == FoldL(Group(items, keyOf, k), start, step))
  }

  /** One more item is folded into the accumulator of its key, which starts
      from `start` when the key is new; the others are untouched. */
  lemma FoldsGrow<T, K(!new), A>(items: seq<T>, keyOf: T -> K, start: A, step: (A, T) -> A,
                                 acc: map<K, A>, x: T, acc': map<K, A>)
    requires forall k :: k in acc ==> acc[k] == FoldL(Group(items, keyOf, k), start, step)
    requires keyOf(x) !in acc ==> keyOf(x) !in KeysOf(items, keyOf)
    requires acc' == acc[keyOf(x) := step(if keyOf(x) in acc then acc[keyOf(x)] else start, x)]
    ensures forall k :: k in acc' ==> acc'[k] == FoldL(Group(items + [x], keyOf, k), start, step)
  {
    var k := keyOf(x);
    if k !in acc {
      KeysOfMembers(items, keyOf, k);
      GroupOfAbsentKey(items, keyOf, k);
    }
    forall k' ensures FoldL(Group(items + [x], keyOf, k'), start, step)
      == if k == k' then step(FoldL(Group(items, keyOf, k'), start, step), x)
         else FoldL(Group(items, keyOf, k'), start, step) {
      GroupStep(items, keyOf, x, k');
      FoldLStep(Group(items, keyOf, k'), start, step, x);
    }
  }

  lemma FoldsOfAppend<T, K(!new), A>(items: seq<T>, keyOf: T -> K, start: A, step: (A, T) -> A,
                                     keys: seq<K>, acc: map<K, A>, x: T, keys': seq<K>, acc': map<K, A>)
    requires FoldsOf(items, keyOf, start, step, keys, acc)
    requires keys' == if keyOf(x) in acc then keys else keys + [keyOf(x)]
    requires acc' == acc[keyOf(x) := step(if keyOf(x) in acc then acc[keyOf(x)] else start, x)]
    ensures FoldsOf(items + [x], keyOf, start, step, keys', acc')
  {
    var k := keyOf(x);
    KeysOfGrows(items, keyOf, keys, x, k in acc);
    KeySetGrows(keys, acc, k, step(if k in acc then acc[k] else start, x));
    FoldsGrow(items, keyOf, start, step, acc, x, acc');
  }

  lemma FoldsOfPrefix<T, K(!new), A>(items: seq<T>, keyOf: T -> K, start: A, step: (A, T) -> A, i: nat,
                                     keys: seq<K>, acc: map<K, A>)
    requires i < |items| && FoldsOf(items[..i] + [items[i]], keyOf, start, step, keys, acc)
    ensures FoldsOf(items[..i + 1], keyOf, start, step, keys, acc)
  {
    assert items[..i + 1] == items[..i] + [items[i]];
  }

  /** `(acc[key] ??= start); acc[key] = step(acc[key], x)` over the items:
      the keys in first-seen order, each with the fold of its items. */
  method FoldByKey<T, K(==,!new), A>(items: seq<T>, keyOf: T -> K, start: A, step: (A, T) -> A)
    returns (keys: seq<K>, acc: map<K, A>)
    ensures keys == KeysOf(items, keyOf)
    ensures forall k :: k in acc <==> k in keys
    ensures forall k :: k in acc ==> acc[k] == FoldL(Group(items, keyOf, k), start, step)
  {
    keys, acc := [], map[];
    var i := 0;
    while i < |items|
      invariant 0 <= i <= |items|
      invariant FoldsOf(items[..i], keyOf, start, step, keys, acc)
    {
      var x := items[i];
      var k := keyOf(x);
      var a := start;
      ghost var keys0, acc0 := keys, acc;
      if k in acc {
        a := acc[k];
      } else {
        keys := keys + [k];
      }
      acc := acc[k := step(a, x)];
      assert acc == acc0[k := step(if k in acc0 then acc0[k] else start, x)];
      FoldsOfAppend(items[..i], keyOf, start, step, keys0, acc0, x, keys, acc);
      FoldsOfPrefix(items, keyOf, start, step, i, keys, acc);
      i := i + 1;
    }
    assert items[..i] == items;
  }

  lemma SelectPrefix<T>(items: seq<T>, keep: T -> bool, i: nat)
    requires i < |items|
    ensures Select(items[..i + 1], keep)
      == if keep(items[i]) then Select(items[..i], keep) + [items[i]] else Select(items[..i], keep)
  {
    assert items[..i + 1] == items[..i] + [items[i]];
    SelectStep(items[..i], keep, items[i]);
  }

  /** The same accumulation in a loop that returns early on the items that
      fail `keep`: it folds exactly the items that pass. */
  method FoldByKeyWhere<T, K(==,!new), A>(items: seq<T>, keep: T -> bool, keyOf: T -> K, start: A, step: (A, T) -> A)
    returns (keys: seq<K>, acc: map<K, A>)
    ensures keys == KeysOf(Select(items, keep), keyOf)
    ensures forall k :: k in acc <==> k in keys
    ensures forall k :: k in acc ==> acc[k] == FoldL(Group(Select(items, keep), keyOf, k), start, step)
  {
    keys, acc := [], map[];
    var i := 0;
    while i < |items|
      invariant 0 <= i <= |items|
      invariant FoldsOf(Select(items[..i], keep), keyOf, start, step, keys, acc)
    {
      var x := items[i];
      SelectPrefix(items, keep, i);
      if keep(x) {
        var k := keyOf(x);
        var a := start;
        ghost var keys0, acc0 := keys, acc;
        if k in acc {
          a := acc[k];
        } else {
          keys := keys + [k];
        }
        acc := acc[k := step(a, x)];
        assert acc == acc0[k := step(if k in acc0 then acc0[k] else start, x)];
        FoldsOfAppend(Select(items[..i], keep), keyOf, start, step, keys0, acc0, x, keys, acc);
      }
      i := i + 1;
    }
    assert items[..i] == items;
  }

  /** A key is listed for the passing items exactly when some passing
      item has it. */
  lemma KeysOfSelect<T, K>(items: seq<T>, keep: T -> bool, keyOf: T -> K, k: K)
    ensures k in KeysOf(Select(items, keep), keyOf) <==>
      exists i :: 0 <= i < |items| && keep(items[i]) && keyOf(items[i]) == k
  {
    var passed := Select(items, keep);
    KeysOfMembers(passed, keyOf, k);
    var ks := MapKeys(passed, keyOf);
    if k in ks {
      var j :| 0 <= j < |ks| && ks[j] == k;
      var i :| 0 <= i < |items| && items[i] == passed[j];
    }
    if exists i :: 0 <= i < |items| && keep(items[i]) && keyOf(items[i]) == k {
      var i :| 0 <= i < |items| && keep(items[i]) && keyOf(items[i]) == k;
      var j :| 0 <= j < |passed| && passed[j] == items[i];
      assert ks[j] == k;
    }
  }

  /** Collecting one part of each distinct key gives the parts of the
      items' keys. */
  lemma PartsOfKeysOf<T, K, P>(items: seq<T>, keyOf: T -> K, part: K -> P, f: T -> P, p: P)
    requires forall x :: part(keyOf(x)) == f(x)
    ensures p in Unique(MapKeys(KeysOf(items, keyOf), part)) <==> p in MapKeys(items, f)
  {
    var keys := KeysOf(items, keyOf);
    var ks, ps, fs := MapKeys(items, keyOf), MapKeys(keys, part), MapKeys(items, f);
    if p in Unique(ps) {
      var j :| 0 <= j < |ps| && ps[j] == p;
      assert keys[j] in ks;
      var m :| 0 <= m < |ks| && ks[m] == keys[j];
      assert fs[m] == p;
    }
    if p in fs {
      var m :| 0 <= m < |fs| && fs[m] == p;
      assert ks[m] in keys;
      var j :| 0 <= j < |keys| && keys[j] == ks[m];
      assert ps[j] == p;
    }
  }

  /** Two collections with the same elements counted alike hold the same
      members. */
  lemma SameMembers<T>(a: seq<T>, b: seq<T>)
    requires multiset(a) == multiset(b)
    ensures forall x :: x in a <==> x in b
  {
    forall x ensures x in a <==> x in b {
      assert x in a <==> x in multiset(a);
      assert x in b <==> x in multiset(b);
    }
  }

  /** A sequence without repetitions holds each of its members once. */
  lemma {:induction false} NoDupsCount<T>(a: seq<T>, x: T)
    requires NoDups(a)
    ensures multiset(a)[x] == if x in a then 1 else 0
  {
    if a != [] {
      var init, y := a[..|a| - 1], a[|a| - 1];
      assert a == init + [y];
      NoDupsCount(init, x);
    }
  }

  /** Two sequences without repetitions and with the same members are
      permutations of each other. */
  lemma NoDupsSameMembers<T>(a: seq<T>, b: seq<T>)
    requires NoDups(a) && NoDups(b)
    requires forall x :: x in a <==> x in b
    ensures multiset(a) == multiset(b)
  {
    forall x ensures multiset(a)[x] == multiset(b)[x] {
      NoDupsCount(a, x);
      NoDupsCount(b, x);
    }
  }

  /** `Object.keys(groups).sort()` on keys without repetitions: the same
      keys, in strictly ascending order. */
  method SortKeys(keys: seq<string>) returns (sorted: seq<string>)
    requires NoDups(keys)
    ensures StrictlySorted(sorted) && NoDups(sorted)
    ensures forall k :: k in sorted <==> k in keys
  {
    sorted := SortStrings(keys);
    SameMembers(sorted, keys);
    SortedNoDups(sorted);
  }

  lemma SortedNoDups(s: seq<string>)
    requires StrictlySorted(s)
    ensures NoDups(s)
  {
    forall i, j | 0 <= i < j < |s| ensures s[i] != s[j] {
      StrLessIrreflexive(s[i]);
    }
  }

  /** A filter that no item passes returns nothing. */
  lemma {:induction false} SelectNone<T>(items: seq<T>, keep: T -> bool)
    requires forall i :: 0 <= i < |items| ==> !keep(items[i])
    ensures Select(items, keep) == []
  {
    if items != [] {
      SelectNone(items[..|items| - 1], keep);
    }
  }

  /** The counting step `count = (count || 0) + 1`. */
  function Tick<T>(n: nat, x: T): nat {
    n + 1
  }

  /** Counting with Tick from 0 gives the number of items. */
  lemma {:induction false} FoldTickCounts<T>(items: seq<T>)
    ensures FoldL(items, 0, Tick) == |items|
  {
    if items != [] {
      FoldTickCounts(items[..|items| - 1]);
    }
  }

  /** groupBy places every item in exactly one group: the group sizes add up
      to the number of items. */
  lemma GroupBySizes<T, K>(items: seq<T>, keyOf: T -> K)
    ensures SumGroups(items, keyOf, One, KeysOf(items, keyOf)) == |items| as real
  {
    GroupsPartition(items, keyOf, One);
    SumOfOnes(items);
  }

  /** `values.reduce((a, b) => a + b, 0)` */
  function Total(values: seq<real>): real {
    if values == [] then 0.0 else Total(values[..|values| - 1]) + values[|values| - 1]
  }

  /** A list holding, key by key, the sum of each key's group totals the
      same as summing the groups directly. */
  lemma {:induction false} TotalOfGroups<T, K>(items: seq<T>, keyOf: T -> K, val: T -> real, ks: seq<K>, values: seq<real>)
    requires |values| == |ks|
    requires forall i :: 0 <= i < |ks| ==> values[i] == SumValues(Group(items, keyOf, ks[i]), val)
    ensures Total(values) == SumGroups(items, keyOf, val, ks)
  {
    if ks != [] {
      TotalOfGroups(items, keyOf, val, ks[..|ks| - 1], values[..|values| - 1]);
    }
  }

  /** Totalling the values of the items is summing over the items. */
  lemma {:induction false} TotalOfMapped<T>(items: seq<T>, val: T -> real)
    ensures Total(MapKeys(items, val)) == SumValues(items, val)
  {
    if items != [] {
      var init := items[..|items| - 1];
      TotalOfMapped(init, val);
      assert MapKeys(items, val)[..|items| - 1] == MapKeys(init, val);
    }
  }

  // ========================================================== sortBy

  /** The sortBy comparator says a goes after b. */
  predicate After<T>(a: T, b: T, key: T -> real, ascending: bool) {
    if ascending then key(a) > key(b) else key(a) < key(b)
  }

  predicate SortedBy<T>(s: seq<T>, key: T -> real, ascending: bool) {
    forall i, j :: 0 <= i < j < |s| ==> !After(s[i], s[j], key, ascending)
  }

  function InsertBy<T(==)>(x: T, s: seq<T>, key: T -> real, ascending: bool): (r: seq<T>)
    requires SortedBy(s, key, ascending)
    ensures SortedBy(r, key, ascending)
    ensures multiset(r) == multiset(s) + multiset{x}
  {
    if s == [] then [x]
    else if After(s[0], x, key, ascending) then [x] + s
    else
      var rest := InsertBy(x, s[1..], key, ascending);
      assert s == [s[0]] + s[1..];
      assert forall y :: y in multiset(rest) ==> y == x || y in s[1..];
      assert forall j :: 0 <= j < |rest| ==> !After(s[0], rest[j], key, ascending) by {
        forall j | 0 <= j < |rest| ensures !After(s[0], rest[j], key, ascending) {
          assert rest[j] in multiset(rest);
        }
      }
      [s[0]] + rest
  }

  /** sortBy: a sorted copy (ascending for "asc", descending otherwise) that
      is a permutation of the input; the input sequence is a value and is
      left as it was. */
  function SortBy<T(==)>(xs: seq<T>, key: T -> real, order: string): (r: seq<T>)
    ensures multiset(r) == multiset(xs)
    ensures SortedBy(r, key, order == "asc")
  {
    if xs == [] then []
    else
      var init := xs[..|xs| - 1];
      assert xs == init + [xs[|xs| - 1]];
      InsertBy(xs[|xs| - 1], SortBy(init, key, order), key, order == "asc")
  }

  // ================================================== truncate, isEmpty

  /** truncate: strings longer than maxLength keep maxLength - 3 characters
      (none when that is negative) followed by "...". */
  function Truncate(s: string, maxLength: int): (r: string)
    ensures s == "" ==> r == ""
    ensures |s| <= maxLength ==> r == s
    ensures |s| > maxLength && s != "" ==> |r| >= 3 && r[|r| - 3..] == "..."
    ensures |s| > maxLength >= 3 ==> |r| == maxLength && r[..maxLength - 3] == s[..maxLength - 3]
    ensures s != "" && |s| > maxLength && maxLength < 3 ==> r == "..."
  {
    if s == "" then ""
    else if |s| <= maxLength then s
    else s[..if maxLength - 3 < 0 then 0 else maxLength - 3] + "..."
  }

  /** isEmpty: missing, or nothing but whitespace. */
  predicate IsEmpty(s: string) {
    s == "" || |Trim(s)| == 0
  }

  lemma {:induction false} TrimStartBlank(s: string)
    ensures TrimStart(s) == [] <==> forall i :: 0 <= i < |s| ==> IsSpace(s[i])
  {
    if s != [] && IsSpace(s[0]) {
      TrimStartBlank(s[1..]);
      assert forall i :: 1 <= i < |s| ==> s[i] == s[1..][i - 1];
    }
  }

  lemma {:induction false} TrimEndOfNonBlank(s: string)
    requires s != [] && !IsSpace(s[0])
    ensures TrimEnd(s) != []
  {
    if |s| > 1 && IsSpace(s[|s| - 1]) {
      TrimEndOfNonBlank(s[..|s| - 1]);
    }
  }

  /** isEmpty holds exactly of the strings made only of whitespace. */
  lemma IsEmptyIffBlank(s: string)
    ensures IsEmpty(s) <==> forall i :: 0 <= i < |s| ==> IsSpace(s[i])
  {
    TrimStartBlank(s);
    if TrimStart(s) != [] {
      TrimEndOfNonBlank(TrimStart(s));
    }
  }
}
