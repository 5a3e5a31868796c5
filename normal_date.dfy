/** `getNormalDate` of `lib/getNormalDate.tsx`.

    Parsing a date string and the `Intl.DateTimeFormat` rendering belong to
    the JavaScript runtime, which is not part of this model: a parsed date is
    a value carrying its day of the month and its rendered text, and parsing
    is a parameter. What is modelled is the guard order, the ordinal suffix,
    and where the suffix goes: right after the first stand-alone number of
    one or two digits in the rendered text (the `\b(\d{1,2})\b` match). */
module NormalDate {
  import opened Wrappers
  import opened Strings

  /** A `Date`: an invalid one (`getTime()` is `NaN`), or a valid one with its
      `getDate()` and its en-US rendering with weekday, month, day and year. */
  datatype Date = Invalid | Valid(day: nat, formatted: string)

  /** The argument: `null`/`undefined`, a string, or a `Date`. */
  datatype DateInput = Absent | Text(text: string) | Value(date: Date)

  /** The suffix chosen for the day of the month. */
  function OrdinalSuffix(day: int): string
  {
    if day == 1 || day == 21 || day == 31 then "st"
    else if day == 2 || day == 22 then "nd"
    else if day == 3 || day == 23 then "rd"
    else "th"
  }

  /** The English rule for ordinals in general: 11, 12 and 13 (and every
      number ending in them) take "th"; otherwise the last digit decides. */
  function EnglishOrdinal(n: nat): string
  {
    if 11 <= n % 100 <= 13 then "th"
    else if n % 10 == 1 then "st"
    else if n % 10 == 2 then "nd"
    else if n % 10 == 3 then "rd"
    else "th"
  }

  /** On every day a month can have, the suffix is the English ordinal's. */
  lemma SuffixIsEnglish(day: nat)
    requires 1 <= day <= 31
    ensures OrdinalSuffix(day) == EnglishOrdinal(day)
  {
  }

  /** Days 11, 12 and 13 take "th", although they end in 1, 2 and 3. */
  lemma TeensTakeTh(day: nat)
    requires 11 <= day <= 13
    ensures OrdinalSuffix(day) == "th" && day % 10 in {1, 2, 3}
  {
  }

  /** `[A-Za-z0-9_]`, the characters `\b` treats as word characters. */
  predicate IsWordChar(c: char)
  {
    IsAsciiLetter(c) || IsDigit(c) || c == '_'
  }

  /** `\b(\d{1,2})\b` matches at `i` with `k` digits: a word boundary before,
      `k` digits, and a word boundary after. */
  predicate DayAt(s: string, i: nat, k: nat)
  {
    && 1 <= k <= 2
    && i + k <= |s|
    && (i == 0 || !IsWordChar(s[i - 1]))
    && (forall j :: i <= j < i + k ==> IsDigit(s[j]))
    && (i + k == |s| || !IsWordChar(s[i + k]))
  }

  /** The first match at or after `from`: the leftmost position, and at that
      position the longer match first, as the regular-expression engine tries them. */
  function FindDay(s: string, from: nat): (r: Option<(nat, nat)>)
    requires from <= |s|
    ensures r.Some? ==> from <= r.value.0 && DayAt(s, r.value.0, r.value.1)
    ensures r.Some? ==> forall i, k :: from <= i < r.value.0 && 1 <= k <= 2 ==> !DayAt(s, i, k)
    ensures r.None? ==> forall i, k :: from <= i < |s| && 1 <= k <= 2 ==> !DayAt(s, i, k)
    decreases |s| - from
  {
    if from == |s| then None
    else if DayAt(s, from, 2) then Some((from, 2))
    else if DayAt(s, from, 1) then Some((from, 1))
    else FindDay(s, from + 1)
  }

  /** `.replace(/\b(\d{1,2})\b/, "$1" + suffix)`: the suffix goes right after
      the first match; without a match the text is unchanged. */
  function InsertAfterDay(s: string, suffix: string): (r: string)
    ensures FindDay(s, 0).None? ==> r == s
    ensures FindDay(s, 0).Some? ==>
      var e := FindDay(s, 0).value.0 + FindDay(s, 0).value.1;
      && |r| == |s| + |suffix|
      && r[..e] == s[..e] && r[e..e + |suffix|] == suffix && r[e + |suffix|..] == s[e..]
  {
    match FindDay(s, 0)
    case None => s
    case Some((i, k)) => s[..i + k] + suffix + s[i + k..]
  }

  /** Taking the inserted suffix back out gives the rendered text again. */
  lemma InsertAfterDayRemovable(s: string, suffix: string)
    requires FindDay(s, 0).Some?
    ensures var e := FindDay(s, 0).value.0 + FindDay(s, 0).value.1;
      var r := InsertAfterDay(s, suffix);
      r[..e] + r[e + |suffix|..] == s
  {
    var e := FindDay(s, 0).value.0 + FindDay(s, 0).value.1;
    assert s[..e] + s[e..] == s;
  }

  /** `getNormalDate(inputDate)`, with `parse` standing for `new Date(string)`. */
  function GetNormalDate(input: DateInput, parse: string -> Date): (r: string)
    ensures input.Absent? || input == Text("") ==> r == "N/A"
    ensures input.Value? && input.date.Invalid? ==> r == "Invalid date"
    ensures input.Text? && input.text != "" && parse(input.text).Invalid? ==> r == "Invalid date"
    ensures input.Value? && input.date.Valid? ==>
      r == InsertAfterDay(input.date.formatted, OrdinalSuffix(input.date.day))
    ensures input.Text? && input.text != "" && parse(input.text).Valid? ==>
      r == InsertAfterDay(parse(input.text).formatted, OrdinalSuffix(parse(input.text).day))
  {
    match input
    case Absent => "N/A"
    case Text(s) =>
      if s == "" then "N/A" else Render(parse(s))
    case Value(d) => Render(d)
  }

  /** The formatting step once the input is a `Date`. */
  function Render(d: Date): (r: string)
    ensures d.Invalid? ==> r == "Invalid date"
    ensures d.Valid? && FindDay(d.formatted, 0).None? ==> r == d.formatted
    ensures d.Valid? ==> |r| == |d.formatted| || |r| == |d.formatted| + 2
  {
    match d
    case Invalid => "Invalid date"
    case Valid(day, formatted) => InsertAfterDay(formatted, OrdinalSuffix(day))
  }

  /** The search skips a stretch without digits. */
  lemma {:induction false} SkipNonDigits(s: string, from: nat, to: nat)
    requires from <= to <= |s|
    requires forall j :: from <= j < to ==> !IsDigit(s[j])
    ensures FindDay(s, from) == FindDay(s, to)
    decreases |s| - from
  {
    if from < to {
      SkipNonDigits(s, from + 1, to);
    }
  }

  /** In a rendering such as "Mon, Jan 1, 2024" the match is the day. */
  lemma DayIsFirstMatch()
    ensures FindDay("Mon, Jan 1, 2024", 0) == Some((9, 1))
  {
    var s := "Mon, Jan 1, 2024";
    assert s[..9] == "Mon, Jan " && s[9] == '1' && s[10] == ',';
    forall j | 0 <= j < 9 ensures !IsDigit(s[j]) {
      assert s[j] == s[..9][j];
    }
    SkipNonDigits(s, 0, 9);
    assert DayAt(s, 9, 1) && !DayAt(s, 9, 2);
  }

  /** So the suffix lands on the day, not on the year. */
  lemma DaySuffixLandsOnDay()
    ensures InsertAfterDay("Mon, Jan 1, 2024", "st") == "Mon, Jan 1st, 2024"
  {
    DayIsFirstMatch();
    var s := "Mon, Jan 1, 2024";
    assert s[..10] == "Mon, Jan 1" && s[10..] == ", 2024";
  }
}
