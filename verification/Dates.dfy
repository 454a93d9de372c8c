/** The long forms of a release date, and the ISO form they are turned into. */
module Dates {
  import opened Wrappers
  import opened Text

  predicate IsIsoDate(s: string) {
    && |s| == 10 && s[4] == '-' && s[7] == '-'
    && forall i | 0 <= i < 10 && i != 4 && i != 7 :: IsDigit(s[i])
  }

  // --- words ---------------------------------------------------------------------

  /** How many characters come before the first white space. */
  function WordLength(s: string): nat
    ensures WordLength(s) <= |s|
  {
    if s != "" && !IsSpace(s[0]) then 1 + WordLength(s[1..]) else 0
  }

  /** `str.split` without a separator. */
  function Words(s: string): seq<string>
    decreases |s|
  {
    if s == "" then []
    else if IsSpace(s[0]) then Words(s[1..])
    else [s[..WordLength(s)]] + Words(s[WordLength(s)..])
  }

  lemma {:induction false} OneWord(s: string)
    requires s != "" && forall c <- s :: !IsSpace(c)
    ensures WordLength(s) == |s| && Words(s) == [s]
  {
    if |s| > 1 {
      OneWord(s[1..]);
    }
    assert s[|s|..] == "" && s[..|s|] == s;
  }

  lemma {:induction false} WordStops(a: string, c: char, b: string)
    requires IsSpace(c) && forall x <- a :: !IsSpace(x)
    ensures WordLength(a + [c] + b) == |a|
  {
    if a != "" {
      assert (a + [c] + b)[1..] == a[1..] + [c] + b;
      WordStops(a[1..], c, b);
    }
  }

  lemma {:induction false} WordEnds(s: string)
    ensures forall x <- s[..WordLength(s)] :: !IsSpace(x)
    ensures WordLength(s) < |s| ==> IsSpace(s[WordLength(s)])
  {
    if s != "" && !IsSpace(s[0]) {
      WordEnds(s[1..]);
      var n := WordLength(s[1..]);
      assert s[..n + 1] == [s[0]] + s[1..][..n];
    }
  }

  /** The words of a text that white space divides are those of its parts. */
  lemma {:induction false} WordsApart(a: string, c: char, b: string)
    requires IsSpace(c)
    ensures Words(a + [c] + b) == Words(a) + Words(b)
    decreases |a|
  {
    var s := a + [c] + b;
    if a == "" {
      assert s[1..] == b;
    } else if IsSpace(a[0]) {
      assert s[1..] == a[1..] + [c] + b;
      WordsApart(a[1..], c, b);
    } else {
      WordsApartLater(a, c, b);
    }
  }

  lemma {:induction false} WordsApartLater(a: string, c: char, b: string)
    requires IsSpace(c) && a != "" && !IsSpace(a[0])
    ensures Words(a + [c] + b) == Words(a) + Words(b)
    decreases |a|, 0
  {
    var s, n := a + [c] + b, WordLength(a);
    WordEnds(a);
    if n == |a| {
      WordStops(a, c, b);
      assert s[..n] == a && s[n..] == [c] + b && ([c] + b)[1..] == b;
      assert a[..n] == a && a[n..] == "";
    } else {
      var (word, rest) := (a[..n], a[n + 1..]);
      assert a[n..] == [a[n]] + rest;
      assert s == word + [a[n]] + (rest + [c] + b);
      WordStops(word, a[n], rest + [c] + b);
      assert s[..n] == word && s[n..] == a[n..] + [c] + b;
      WordsApart(a[n..], c, b);
    }
  }

  // --- numbers ---------------------------------------------------------------------

  predicate AllDigits(s: string) {
    forall c <- s :: IsDigit(c)
  }

  function Digit(n: nat): (c: char)
    requires n < 10
    ensures IsDigit(c)
  {
    '0' + n as char
  }

  function Power(k: nat): (p: nat)
    ensures p >= 1
  {
    if k == 0 then 1 else 10 * Power(k - 1)
  }

  function Number(s: string): (n: nat)
    requires AllDigits(s)
    ensures n < Power(|s|)
  {
    if s == "" then 0
    else
      assert s[|s| - 1] in s;
      Number(s[..|s| - 1]) * 10 + (s[|s| - 1] as nat - '0' as nat)
  }

  /** `n` in decimal, with zeros ahead to `width` digits. */
  function Padded(n: nat, width: nat): (s: string)
    ensures |s| >= width && AllDigits(s)
    decreases width, n
  {
    if width == 0 && n == 0 then ""
    else Padded(n / 10, if width == 0 then 0 else width - 1) + [Digit(n % 10)]
  }

  lemma {:induction false} PaddedFits(n: nat, width: nat, k: nat)
    requires width <= k && n < Power(k)
    ensures |Padded(n, width)| <= k
    decreases k
  {
    if k > 0 && (width > 0 || n > 0) {
      PaddedFits(n / 10, if width == 0 then 0 else width - 1, k - 1);
    }
  }

  lemma {:induction false} PaddedFills(n: nat, width: nat, k: nat)
    requires n >= Power(k)
    ensures |Padded(n, width)| > k
    decreases k
  {
    if k > 0 {
      PaddedFills(n / 10, if width == 0 then 0 else width - 1, k - 1);
    }
  }

  /** A number written in decimal is read back. */
  lemma {:induction false} NumberOfPadded(n: nat, width: nat)
    ensures Number(Padded(n, width)) == n
    decreases width, n
  {
    if width > 0 || n > 0 {
      var before := Padded(n / 10, if width == 0 then 0 else width - 1);
      NumberOfPadded(n / 10, if width == 0 then 0 else width - 1);
      assert Padded(n, width)[..|before|] == before;
    }
  }

  function Value(c: char): nat
    requires IsDigit(c)
  {
    c as nat - '0' as nat
  }

  /** What the digits of a day and of a year stand for. */
  lemma NumberByPlace(s: string)
    requires AllDigits(s)
    ensures |s| == 1 ==> IsDigit(s[0]) && Number(s) == Value(s[0])
    ensures |s| == 2 ==> IsDigit(s[0]) && IsDigit(s[1]) && Number(s) == 10 * Value(s[0]) + Value(s[1])
    ensures |s| == 4 ==>
              && (forall i | 0 <= i < 4 :: IsDigit(s[i]))
              && Number(s) == 1000 * Value(s[0]) + 100 * Value(s[1]) + 10 * Value(s[2]) + Value(s[3])
  {
    assert forall i | 0 <= i < |s| :: s[i] in s;
    if |s| == 1 {
      assert s[..0] == "";
    } else if |s| == 2 {
      assert s[..1][..0] == "";
    } else if |s| == 4 {
      assert s[..3][..2] == s[..2] && s[..2][..1] == s[..1] && s[..1][..0] == "";
    }
  }

  // --- the calendar --------------------------------------------------------------------

  const MONTHS: seq<string> := [
    "january", "february", "march", "april", "may", "june",
    "july", "august", "september", "october", "november", "december"]

  function LowerAscii(s: string): string {
    if s == "" then ""
    else [if IsUpper(s[0]) then s[0] - 'A' + 'a' else s[0]] + LowerAscii(s[1..])
  }

  /** The month of this name, in full or cut to three letters, from `k` on. */
  function Month(word: string, k: nat): (month: Option<nat>)
    ensures month.Some? ==> 1 <= month.value <= |MONTHS|
    decreases |MONTHS| - k
  {
    if k >= |MONTHS| then None
    else if word == MONTHS[k] || (|MONTHS[k]| >= 3 && word == MONTHS[k][..3]) then Some(k + 1)
    else Month(word, k + 1)
  }

  predicate Leap(year: nat) {
    year % 4 == 0 && (year % 100 != 0 || year % 400 == 0)
  }

  function DaysIn(year: nat, month: nat): nat {
    if month == 2 then if Leap(year) then 29 else 28
    else if month == 4 || month == 6 || month == 9 || month == 11 then 30
    else 31
  }

  datatype Date = Date(year: nat, month: nat, day: nat)

  /** A day, a month by its name and a year of four digits. */
  function LongDate(value: string): (date: Option<Date>)
    ensures date.Some? ==>
              1 <= date.value.year < 10_000 && 1 <= date.value.month <= 12 && 1 <= date.value.day <= 31
  {
    var words := Words(value);
    if |words| != 3 then None
    else
      var (d, m, y) := (words[0], Month(LowerAscii(words[1]), 0), words[2]);
      if !(1 <= |d| <= 2 && AllDigits(d) && m.Some? && |y| == 4 && AllDigits(y)) then None
      else
        assert Power(1) == 10 && Power(2) == 100;
        var (day, year) := (Number(d), Number(y));
        if year == 0 || day == 0 || day > DaysIn(year, m.value) then None
        else Some(Date(year, m.value, day))
  }

  /** The ISO form; whether years below 1000 get four digits is the platform's. */
  function IsoForm(date: Date, pads: bool): string {
    Padded(date.year, if pads then 4 else 1) + "-" + Padded(date.month, 2) + "-" + Padded(date.day, 2)
  }

  function ToIso(raw: string, pads: bool): Option<string> {
    var value := Strip(raw);
    if IsIsoDate(value) then Some(value)
    else match LongDate(value)
      case Some(date) => Some(IsoForm(date, pads))
      case None => None
  }

  // --- which day it is ---------------------------------------------------------------

  /** Letter by letter the same, but for capitals. */
  predicate SameLetters(word: string, name: string) {
    && |word| == |name|
    && forall i | 0 <= i < |word| ::
         word[i] == name[i] || (IsUpper(word[i]) && word[i] as int + 32 == name[i] as int)
  }

  /** `word` is the name of month `month`, in full or cut to three letters. */
  predicate Names(word: string, month: nat) {
    && 1 <= month <= 12
    && (SameLetters(word, MONTHS[month - 1]) || SameLetters(word, MONTHS[month - 1][..3]))
  }

  /** The text is a day, the name of a month and a year, and there is such a day. */
  predicate Writes(text: string, date: Date) {
    && |Words(text)| == 3
    && (var (d, m, y) := (Words(text)[0], Words(text)[1], Words(text)[2]);
        && 1 <= |d| <= 2 && AllDigits(d) && Number(d) == date.day
        && Names(m, date.month)
        && |y| == 4 && AllDigits(y) && Number(y) == date.year)
    && 1 <= date.day <= MonthLengths(date.year)[date.month - 1] && 1 <= date.year
  }

  function MonthLengths(year: nat): seq<nat> {
    [31, if year % 400 == 0 || (year % 4 == 0 && year % 100 != 0) then 29 else 28, 31,
     30, 31, 30, 31, 31, 30, 31, 30, 31]
  }

  lemma {:induction false} LowerAsciiIs(word: string, name: string)
    requires forall c <- name :: IsLower(c)
    ensures LowerAscii(word) == name <==> SameLetters(word, name)
  {
    if word != "" && name != "" {
      LowerAsciiIs(word[1..], name[1..]);
      assert LowerAscii(word) == name <==>
             LowerAscii(word)[0] == name[0] && LowerAscii(word[1..]) == name[1..];
      assert SameLetters(word, name) ==> SameLetters(word[1..], name[1..]);
      if SameLetters(word[1..], name[1..]) && LowerAscii(word)[0] == name[0] {
        assert forall i | 1 <= i < |word| :: word[i] == word[1..][i - 1] && name[i] == name[1..][i - 1];
      }
      assert name[0] in name;
    }
  }

  lemma MonthsAreLower(k: nat)
    requires k < 12
    ensures |MONTHS| == 12 && |MONTHS[k]| >= 3 && forall c <- MONTHS[k] :: IsLower(c)
  {
  }

  /** No two months begin with the same three letters. */
  lemma MonthsDiffer(j: nat, k: nat)
    requires j < 12 && k < 12 && MONTHS[j][..3] == MONTHS[k][..3]
    ensures j == k
  {
    MonthsAreLower(j);
    MonthsAreLower(k);
    var (a, b) := (MONTHS[j], MONTHS[k]);
    assert a[0] == a[..3][0] && a[1] == a[..3][1] && a[2] == a[..3][2];
    assert b[0] == b[..3][0] && b[1] == b[..3][1] && b[2] == b[..3][2];
  }

  predicate IsMonth(word: string, k: nat)
    requires k < 12
  {
    |MONTHS[k]| >= 3 && (word == MONTHS[k] || word == MONTHS[k][..3])
  }

  lemma {:induction false} MonthFound(word: string, from: nat)
    requires from <= 12
    ensures match Month(word, from)
            case Some(month) => from < month <= 12 && IsMonth(word, month - 1)
            case None => forall k | from <= k < 12 :: !IsMonth(word, k)
    decreases 12 - from
  {
    if from < 12 {
      MonthsAreLower(from);
      MonthFound(word, from + 1);
    }
  }

  /** The name of a month, however it is written, is that month. */
  lemma MonthByName(word: string, month: nat)
    ensures Month(LowerAscii(word), 0) == Some(month) <==> Names(word, month)
  {
    var lower := LowerAscii(word);
    MonthFound(lower, 0);
    forall k | 0 <= k < 12
      ensures IsMonth(lower, k) <==> Names(word, k + 1)
    {
      MonthsAreLower(k);
      LowerAsciiIs(word, MONTHS[k]);
      LowerAsciiIs(word, MONTHS[k][..3]);
    }
    if Names(word, month) {
      assert IsMonth(lower, month - 1);
      var found := Month(lower, 0).value;
      MonthsDiffer(found - 1, month - 1);
    }
  }

  lemma MonthsInOrder()
    ensures Names("January", 1) && Names("feb", 2) && Names("March", 3) && Names("APR", 4) && Names("May", 5)
    ensures Names("June", 6) && Names("jul", 7) && Names("August", 8) && Names("sep", 9) && Names("October", 10)
    ensures Names("nov", 11) && Names("December", 12)
  {
  }

  /** A long date is accepted exactly if it writes a day there is, and is that day. */
  lemma LongDateIsTheDay(text: string, date: Date)
    ensures LongDate(text) == Some(date) <==> Writes(text, date)
  {
    if |Words(text)| == 3 {
      var (d, m, y) := (Words(text)[0], Words(text)[1], Words(text)[2]);
      MonthByName(m, date.month);
      assert Power(1) == 10 && Power(2) == 100 && Power(4) == 10_000;
    }
  }

  /** The year, month and day of a date in the form that is written. */
  predicate Reads(iso: string, date: Date) {
    var n := |iso|;
    && n >= 7 && iso[n - 3] == '-' && iso[n - 6] == '-'
    && AllDigits(iso[..n - 6]) && Number(iso[..n - 6]) == date.year
    && AllDigits(iso[n - 5..n - 3]) && Number(iso[n - 5..n - 3]) == date.month
    && AllDigits(iso[n - 2..]) && Number(iso[n - 2..]) == date.day
  }

  lemma IsoFormReads(date: Date, pads: bool)
    requires 1 <= date.year && date.month < 100 && date.day < 100
    ensures Reads(IsoForm(date, pads), date)
  {
    TwoDigits(date.month);
    TwoDigits(date.day);
    var width := if pads then 4 else 1;
    NumberOfPadded(date.year, width);
    NumberOfPadded(date.month, 2);
    NumberOfPadded(date.day, 2);
    Dashed(Padded(date.year, width), Padded(date.month, 2), Padded(date.day, 2));
  }

  lemma Dashed(y: string, m: string, d: string)
    requires |m| == 2 && |d| == 2 && y != ""
    ensures var (iso, n) := (y + "-" + m + "-" + d, |y| + 6);
            && |iso| == n && n >= 7 && iso[n - 3] == '-' && iso[n - 6] == '-'
            && iso[..n - 6] == y && iso[n - 5..n - 3] == m && iso[n - 2..] == d
  {
  }

  /** What is read as a date is one in ISO form, as it is, or the day that a long
      date writes, with its year, month and day where they belong. */
  lemma DateIsTheDay(raw: string, pads: bool)
    ensures var value := Strip(raw);
            match ToIso(raw, pads)
            case Some(iso) =>
              if IsIsoDate(value) then iso == value
              else exists date: Date :: Writes(value, date) && Reads(iso, date)
            case None => !IsIsoDate(value) && forall date: Date :: !Writes(value, date)
  {
    var value := Strip(raw);
    if !IsIsoDate(value) {
      match LongDate(value)
      case Some(date) =>
        LongDateIsTheDay(value, date);
        IsoFormReads(date, pads);
      case None =>
        forall date: Date
          ensures !Writes(value, date)
        {
          LongDateIsTheDay(value, date);
        }
    }
  }

  // --- what comes out ----------------------------------------------------------------

  predicate DateText(s: string) {
    s != "" && forall c <- s :: IsDigit(c) || c == '-'
  }

  lemma IsoFormIsIso(date: Date, pads: bool)
    requires 1 <= date.year < 10_000 && date.month <= 12 && date.day <= 31
    ensures DateText(IsoForm(date, pads))
    ensures IsIsoDate(IsoForm(date, pads)) <==> pads || date.year >= 1000
  {
    TwoDigits(date.month);
    TwoDigits(date.day);
    YearLength(date.year, pads);
    var (year, month, day) := (Padded(date.year, if pads then 4 else 1), Padded(date.month, 2), Padded(date.day, 2));
    IsoText(year, month, day);
  }

  lemma IsoText(year: string, month: string, day: string)
    requires AllDigits(year) && AllDigits(month) && AllDigits(day) && |month| == 2 && |day| == 2
    ensures var s := year + "-" + month + "-" + day;
            DateText(s) && (IsIsoDate(s) <==> |year| == 4)
  {
    var s := year + "-" + month + "-" + day;
    assert forall i | 0 <= i < |year| :: s[i] == year[i] && year[i] in year;
    assert month[0] in month && month[1] in month && day[0] in day && day[1] in day;
  }

  lemma TwoDigits(n: nat)
    requires n < 100
    ensures |Padded(n, 2)| == 2
  {
    assert Power(1) == 10;
    PaddedFits(n, 2, 2);
  }

  lemma YearLength(year: nat, pads: bool)
    requires 1 <= year < 10_000
    ensures |Padded(year, if pads then 4 else 1)| == 4 <==> pads || year >= 1000
  {
    assert Power(1) == 10 && Power(2) == 100 && Power(3) == 1000;
    PaddedFits(year, if pads then 4 else 1, 4);
    if year >= 1000 {
      PaddedFills(year, if pads then 4 else 1, 3);
    } else {
      PaddedFits(year, 1, 3);
    }
  }

  /** A date in ISO form comes from one in that form, or from a long date of a
      year from 1000 on, or of any year if the platform pads. */
  lemma WhenIso(raw: string, pads: bool)
    requires ToIso(raw, pads).Some?
    ensures var date := ToIso(raw, pads).value;
            && DateText(date)
            && (IsIsoDate(Strip(raw)) || LongDate(Strip(raw)).Some?)
            && (IsIsoDate(date) <==>
                IsIsoDate(Strip(raw)) || pads || LongDate(Strip(raw)).value.year >= 1000)
  {
    var value := Strip(raw);
    if IsIsoDate(value) {
      assert forall c <- value :: exists i | 0 <= i < |value| :: value[i] == c;
    } else {
      IsoFormIsIso(LongDate(value).value, pads);
    }
  }

  /** No other text is read back: only a date in ISO form is. */
  lemma DateTextThroughIso(date: string, pads: bool)
    requires DateText(date)
    ensures ToIso(date, pads) == if IsIsoDate(date) then Some(date) else None
  {
    assert date[0] in date && date[|date| - 1] in date;
    TrimStrips(date);
    OneWord(date);
  }
}
