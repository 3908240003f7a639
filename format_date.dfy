/** `formatRelativeTime` over a whole number of days elapsed: the bucket a day
    count falls into, its English rendering, and a reading of that rendering back. */
module FormatDate {
  import opened Wrappers
  import opened Numbers
  import Strings

  /** The six shapes of the result, with the count they show. */
  datatype RelativeTime =
    | Today
    | Yesterday
    | DaysAgo(days: int)
    | WeeksAgo(weeks: int)
    | MonthsAgo(months: int)
    | YearsAgo(years: int)

  /** The if-chain on the day count; the counts are `Math.floor` of a non-negative
      quotient, which is integer division. */
  function Bucket(days: int): (b: RelativeTime)
    ensures b.Today? <==> days == 0
    ensures b.Yesterday? <==> days == 1
    ensures b.DaysAgo? <==> days < 7 && days != 0 && days != 1
    ensures b.WeeksAgo? <==> 7 <= days < 30
    ensures b.MonthsAgo? <==> 30 <= days < 365
    ensures b.YearsAgo? <==> 365 <= days
    ensures b.DaysAgo? ==> b.days == days
    ensures b.WeeksAgo? ==> b.weeks * 7 <= days < (b.weeks + 1) * 7 && 1 <= b.weeks <= 4
    ensures b.MonthsAgo? ==> b.months * 30 <= days < (b.months + 1) * 30 && 1 <= b.months <= 12
    ensures b.YearsAgo? ==> b.years * 365 <= days < (b.years + 1) * 365 && 1 <= b.years
  {
    if days == 0 then Today
    else if days == 1 then Yesterday
    else if days < 7 then DaysAgo(days)
    else if days < 30 then WeeksAgo(days / 7)
    else if days < 365 then MonthsAgo(days / 30)
    else YearsAgo(days / 365)
  }

  /** The template `${n} <unit> ago`. */
  function Counted(n: int, unit: string): string
  {
    IntToDecimal(n) + " " + unit + " ago"
  }

  /** The string of each branch. */
  function Render(b: RelativeTime): string
  {
    match b
    case Today => "Today"
    case Yesterday => "Yesterday"
    case DaysAgo(n) => Counted(n, "days")
    case WeeksAgo(n) => Counted(n, "weeks")
    case MonthsAgo(n) => Counted(n, "months")
    case YearsAgo(n) => Counted(n, "years")
  }

  /** `formatRelativeTime` for a day count: one of the two words exactly for 0 and 1
      days, a counted phrase otherwise. */
  function FormatRelativeTime(days: int): (s: string)
    ensures s == "Today" <==> days == 0
    ensures s == "Yesterday" <==> days == 1
  {
    var b := Bucket(days);
    assert b.DaysAgo? || b.WeeksAgo? || b.MonthsAgo? || b.YearsAgo? ==> |Render(b)| > |"Yesterday"|;
    Render(b)
  }

  /** Read a rendering back: one word, or a number, a unit and "ago". */
  function ReadRelative(s: string): Option<RelativeTime>
  {
    var words := Strings.Split(s, ' ');
    if words == ["Today"] then Some(Today)
    else if words == ["Yesterday"] then Some(Yesterday)
    else if |words| == 3 && words[2] == "ago" && ParseInt(words[0]).Finite? then
      var n := ParseInt(words[0]).value;
      if words[1] == "days" then Some(DaysAgo(n))
      else if words[1] == "weeks" then Some(WeeksAgo(n))
      else if words[1] == "months" then Some(MonthsAgo(n))
      else if words[1] == "years" then Some(YearsAgo(n))
      else None
    else None
  }

  /** Three space-free words joined by single spaces split back into them. */
  lemma SplitThree(a: string, b: string, c: string)
    requires ' ' !in a && ' ' !in b && ' ' !in c
    ensures Strings.Split(a + [' '] + b + [' '] + c, ' ') == [a, b, c]
  {
    var parts := [a, b, c];
    assert parts[1..] == [b, c] && parts[1..][1..] == [c];
    assert Strings.Join([c], ' ') == c;
    assert Strings.Join([b, c], ' ') == b + [' '] + c;
    assert Strings.Join(parts, ' ') == a + [' '] + (b + [' '] + c);
    assert a + [' '] + b + [' '] + c == a + [' '] + (b + [' '] + c);
    Strings.SplitJoin(parts, ' ');
  }

  /** The words of a count, a unit and "ago". */
  lemma CountedWords(n: int, unit: string)
    requires ' ' !in unit
    ensures Strings.Split(Counted(n, unit), ' ') == [IntToDecimal(n), unit, "ago"]
    ensures ParseInt(IntToDecimal(n)) == Finite(n)
  {
    var ago := "ago";
    NumToStringHasNo(Finite(n), ' ');
    assert NumToString(Finite(n)) == IntToDecimal(n);
    assert " ago" == [' '] + ago;
    assert Counted(n, unit) == IntToDecimal(n) + [' '] + unit + [' '] + ago;
    SplitThree(IntToDecimal(n), unit, ago);
    ParseIntOfDecimal(n);
  }

  /** A day count, a unit and "ago" read back as the bucket with that unit. */
  lemma ReadCounted(n: int, unit: string)
    requires unit in {"days", "weeks", "months", "years"}
    ensures ReadRelative(Counted(n, unit)) == Some(
        if unit == "days" then DaysAgo(n) else if unit == "weeks" then WeeksAgo(n)
        else if unit == "months" then MonthsAgo(n) else YearsAgo(n))
  {
    CountedWords(n, unit);
  }

  /** The two one-word results read back. */
  lemma ReadWords()
    ensures ReadRelative("Today") == Some(Today)
    ensures ReadRelative("Yesterday") == Some(Yesterday)
  {
    Strings.SplitJoin(["Today"], ' ');
    Strings.SplitJoin(["Yesterday"], ' ');
  }

  /** The rendering loses nothing: reading it back gives the bucket. */
  lemma ReadRender(b: RelativeTime)
    ensures ReadRelative(Render(b)) == Some(b)
  {
    match b
    case Today => ReadWords();
    case Yesterday => ReadWords();
    case DaysAgo(n) => ReadCounted(n, "days");
    case WeeksAgo(n) => ReadCounted(n, "weeks");
    case MonthsAgo(n) => ReadCounted(n, "months");
    case YearsAgo(n) => ReadCounted(n, "years");
  }

  /** Distinct buckets render differently. */
  lemma RenderInjective(a: RelativeTime, b: RelativeTime)
    ensures Render(a) == Render(b) <==> a == b
  {
    ReadRender(a);
    ReadRender(b);
  }

  /** Every result other than Today and Yesterday ends in " ago". */
  lemma EndsInAgo(days: int)
    requires days != 0 && days != 1
    ensures var s := FormatRelativeTime(days);
      |s| >= 4 && s[|s| - 4..] == " ago"
  {
  }

  /** The sample values: 0, 1, a negative count, and the first day of each larger
      bucket. */
  lemma Samples()
    ensures FormatRelativeTime(0) == "Today" && FormatRelativeTime(1) == "Yesterday"
    ensures FormatRelativeTime(-3) == "-3 days ago"
    ensures FormatRelativeTime(7) == "1 weeks ago"
    ensures FormatRelativeTime(30) == "1 months ago"
    ensures FormatRelativeTime(365) == "1 years ago"
  {
  }
}
