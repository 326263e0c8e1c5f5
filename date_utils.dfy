/**
 * Display helpers over dates: the due-status classifier, relative-time text,
 * a child's age in years, months and days, and its formatted form. The wall
 * clock is a parameter: callers pass today's date or the whole-day difference
 * between a date and now.
 */
module DateUtils {
  import opened Dates
  import opened Text

  datatype Status = Upcoming | Due | Overdue

  datatype DueStatus = DueStatus(status: Status, text: string, color: string)

  /** The one display colour of each status. */
  function StatusColor(s: Status): string
  {
    match s
    case Overdue => "text-red-500 bg-red-50"
    case Due => "text-amber-500 bg-amber-50"
    case Upcoming => "text-blue-500 bg-blue-50"
  }

  /**
   * `getVaccinationDueStatus`, given `diffDays`, the scheduled date minus now
   * in days, rounded to the nearest whole day.
   */
  function VaccinationDueStatus(diffDays: int): (r: DueStatus)
    ensures r.status == Overdue <==> diffDays < 0
    ensures r.status == Due <==> 0 <= diffDays <= 7
    ensures r.status == Upcoming <==> diffDays > 7
    ensures r.color == StatusColor(r.status)
  {
    if diffDays < 0 then
      var absDiffDays := -diffDays;
      var text :=
        if absDiffDays < 7 then "Overdue by " + Plural(absDiffDays, "day")
        else if absDiffDays < 30 then "Overdue by " + Plural(absDiffDays / 7, "week")
        else "Overdue by " + Plural(absDiffDays / 30, "month");
      DueStatus(Overdue, text, "text-red-500 bg-red-50")
    else if diffDays <= 7 then
      var text :=
        if diffDays == 0 then "Due today"
        else if diffDays == 1 then "Due tomorrow"
        else "Due in " + IntToString(diffDays) + " days";
      DueStatus(Due, text, "text-amber-500 bg-amber-50")
    else
      var text :=
        if diffDays < 30 then "Due in " + IntToString(diffDays) + " days"
        else if diffDays < 60 then "Due in about a month"
        else "Due in about " + IntToString(diffDays / 30) + " months";
      DueStatus(Upcoming, text, "text-blue-500 bg-blue-50")
  }

  /** Length in days of the units the overdue text counts in. */
  function UnitDays(unit: string): int
  {
    if unit == "day" then 1 else if unit == "week" then 7 else 30
  }

  /**
   * The overdue text counts whole units of the largest unit (day, week or
   * month of 30 days) that fits into the lateness at least once: the count is
   * at least 1, and count units never exceed the lateness and fall short of it by
   * less than one unit. The unit is singular exactly when the count is 1.
   */
  lemma OverdueText(diffDays: int)
    requires diffDays < 0
    ensures var n := -diffDays;
            var unit := if n < 7 then "day" else if n < 30 then "week" else "month";
            var count := n / UnitDays(unit);
            && VaccinationDueStatus(diffDays).text == "Overdue by " + Plural(count, unit)
            && 1 <= count
            && count * UnitDays(unit) <= n < (count + 1) * UnitDays(unit)
            && (unit == "day" ==> n < 7)
            && (unit == "week" ==> 7 <= n < 30)
            && (unit == "month" ==> 30 <= n)
  {
  }

  /**
   * Within a week the text names the day: today, tomorrow, or in N days. These
   * clauses follow the branches of the status function; what they add is that
   * the day count shown is the difference itself, rendered as a natural.
   */
  lemma DueText(diffDays: int)
    requires 0 <= diffDays <= 7
    ensures diffDays == 0 ==> VaccinationDueStatus(diffDays).text == "Due today"
    ensures diffDays == 1 ==> VaccinationDueStatus(diffDays).text == "Due tomorrow"
    ensures 2 <= diffDays ==> VaccinationDueStatus(diffDays).text == "Due in " + NatToString(diffDays) + " days"
  {
  }

  /**
   * Past a week the text gives exact days below 30, "about a month" below 60,
   * and otherwise a whole number (at least 2) of 30-day months. The branches
   * are those of the status function; the point is the bound on the month count.
   */
  lemma UpcomingText(diffDays: int)
    requires diffDays > 7
    ensures diffDays < 30 ==> VaccinationDueStatus(diffDays).text == "Due in " + NatToString(diffDays) + " days"
    ensures 30 <= diffDays < 60 ==> VaccinationDueStatus(diffDays).text == "Due in about a month"
    ensures 60 <= diffDays ==>
      && VaccinationDueStatus(diffDays).text == "Due in about " + NatToString(diffDays / 30) + " months"
      && 2 <= diffDays / 30
      && 30 * (diffDays / 30) <= diffDays < 30 * (diffDays / 30 + 1)
  {
  }

  /** The text alone tells the status: no text is shown for two different statuses. */
  lemma TextDeterminesStatus(d1: int, d2: int)
    requires VaccinationDueStatus(d1).text == VaccinationDueStatus(d2).text
    ensures VaccinationDueStatus(d1).status == VaccinationDueStatus(d2).status
  {
    if d1 < 0 && d2 >= 0 {
      OverdueStandsApart(d1, d2);
    } else if d2 < 0 && d1 >= 0 {
      OverdueStandsApart(d2, d1);
    } else if 0 <= d1 <= 7 && d2 > 7 {
      DueBeforeUpcoming(d1, d2);
    } else if 0 <= d2 <= 7 && d1 > 7 {
      DueBeforeUpcoming(d2, d1);
    }
  }

  lemma OverdueStandsApart(d1: int, d2: int)
    requires d1 < 0 <= d2
    ensures VaccinationDueStatus(d1).text != VaccinationDueStatus(d2).text
  {
    assert VaccinationDueStatus(d1).text[0] == 'O';
    assert VaccinationDueStatus(d2).text[0] == 'D';
  }

  lemma DueBeforeUpcoming(d1: int, d2: int)
    requires 0 <= d1 <= 7 && d2 > 7
    ensures VaccinationDueStatus(d1).text != VaccinationDueStatus(d2).text
  {
    var t1, t2 := VaccinationDueStatus(d1).text, VaccinationDueStatus(d2).text;
    if d1 <= 1 {
      assert t1[4] == 't';
      assert t2[4] == 'i';
    } else if d2 < 30 {
      if t1 == t2 {
        SameAffixes("Due in ", NatToString(d1), NatToString(d2), " days");
        NatToStringInjective(d1, d2);
      }
    } else {
      assert t2[7] == 'a';
      assert IsDigit(t1[7]);
    }
  }

  /** `getRelativeTime`, given `diffDays`, the date minus now in whole days rounded up. */
  function RelativeTime(diffDays: int): string
  {
    if diffDays == 0 then "Today"
    else if diffDays == 1 then "Tomorrow"
    else if diffDays == -1 then "Yesterday"
    else if diffDays > 0 then
      if diffDays <= 30 then "In " + IntToString(diffDays) + " days"
      else if diffDays <= 60 then "In about a month"
      else "In about " + IntToString(diffDays / 30) + " months"
    else
      var absDiffDays := -diffDays;
      if absDiffDays <= 30 then IntToString(absDiffDays) + " days ago"
      else if absDiffDays <= 60 then "About a month ago"
      else "About " + IntToString(absDiffDays / 30) + " months ago"
  }

  /** How far away a distance of `n` days (at least 2) is, as the future text words it. */
  function Distance(n: int): string
    requires n >= 2
  {
    if n <= 30 then NatToString(n) + " days"
    else if n <= 60 then "about a month"
    else "about " + NatToString(n / 30) + " months"
  }

  function Capitalised(s: string): string
  {
    if |s| > 0 && 'a' <= s[0] <= 'z' then [((s[0] as int) - ('a' as int) + ('A' as int)) as char] + s[1..] else s
  }

  /** The one-day neighbours of today have their own words. */
  lemma RelativeTimeNearby()
    ensures RelativeTime(0) == "Today"
    ensures RelativeTime(1) == "Tomorrow"
    ensures RelativeTime(-1) == "Yesterday"
  {
  }

  /**
   * Past and future mirror each other: `n` days ahead reads "In <distance>",
   * `n` days back reads "<Distance> ago", with the same distance; a distance is
   * exact up to 30 days, about a month up to 60, and whole 30-day months beyond.
   */
  lemma RelativeTimeMirror(n: int)
    requires n >= 2
    ensures RelativeTime(n) == "In " + Distance(n)
    ensures RelativeTime(-n) == Capitalised(Distance(n)) + " ago"
  {
    if n <= 30 {
      FutureDays(n);
      MirrorDays(n);
    } else if n <= 60 {
      MirrorAboutAMonth(n);
    } else {
      FutureMonths(n);
      MirrorMonths(n);
    }
  }

  lemma FutureDays(n: int)
    requires 2 <= n <= 30
    ensures RelativeTime(n) == "In " + Distance(n)
  {
    var digits := NatToString(n);
    assert RelativeTime(n) == "In " + digits + " days";
    assert Distance(n) == digits + " days";
    assert "In " + digits + " days" == "In " + (digits + " days");
  }

  lemma FutureMonths(n: int)
    requires n > 60
    ensures RelativeTime(n) == "In " + Distance(n)
  {
    var digits := NatToString(n / 30);
    var into, about, inAbout, months := "In ", "about ", "In about ", " months";
    assert RelativeTime(n) == inAbout + digits + months;
    assert Distance(n) == about + digits + months;
    Regroup(into, about, inAbout, digits, months);
  }

  lemma Regroup(i: string, a: string, p: string, x: string, m: string)
    requires p == i + a
    ensures p + x + m == i + (a + x + m)
  {
  }

  lemma MirrorAboutAMonth(n: int)
    requires 30 < n <= 60
    ensures RelativeTime(n) == "In " + Distance(n)
    ensures RelativeTime(-n) == Capitalised(Distance(n)) + " ago"
  {
    var phrase := "about a month";
    assert Distance(n) == phrase;
    assert RelativeTime(n) == "In about a month";
    assert "In " + phrase == "In about a month";
    PastAboutAMonth(n);
  }

  lemma PastAboutAMonth(n: int)
    requires 30 < n <= 60
    ensures RelativeTime(-n) == Capitalised("about a month") + " ago"
  {
    var phrase := "about a month";
    assert RelativeTime(-n) == "About a month ago";
    assert Capitalised(phrase) == ['A'] + phrase[1..];
    assert ['A'] + phrase[1..] == "About a month";
  }

  lemma MirrorDays(n: int)
    requires 2 <= n <= 30
    ensures RelativeTime(-n) == Capitalised(Distance(n)) + " ago"
  {
    var digits := NatToString(n);
    assert IsDigit(digits[0]);
    assert Capitalised(digits + " days") == digits + " days";
  }

  lemma MirrorMonths(n: int)
    requires n > 60
    ensures RelativeTime(-n) == Capitalised(Distance(n)) + " ago"
  {
    var digits := NatToString(n / 30);
    var phrase := "about " + digits + " months";
    assert Distance(n) == phrase;
    assert phrase[0] == 'a';
    assert phrase[1..] == "bout " + digits + " months";
    assert Capitalised(phrase) == ['A'] + phrase[1..];
    assert ['A'] + ("bout " + digits + " months") == "About " + digits + " months";
    assert RelativeTime(-n) == "About " + digits + " months ago";
  }

  datatype Age = Age(years: int, months: int, days: int)

  /** Length of the month before `d`'s month: `new Date(year, month, 0).getDate()`. */
  function PreviousMonthLength(d: Date): int
  {
    if d.month == 0 then DaysInMonth(d.year - 1, 11) else DaysInMonth(d.year, d.month - 1)
  }

  /**
   * `calculateAge`: the differences of the year, month and day fields, with a
   * month borrowed when the day of birth has not come yet this month and a year
   * borrowed when the month has not.
   */
  function CalculateAge(birthDate: Date, today: Date): (a: Age)
    ensures 0 <= a.months <= 11
    ensures 12 * a.years + a.months
            == 12 * (today.year - birthDate.year) + (today.month - birthDate.month)
               - (if today.day < birthDate.day then 1 else 0)
    ensures a.days == today.day - birthDate.day
                      + (if today.day < birthDate.day then PreviousMonthLength(today) else 0)
  {
    var years := today.year - birthDate.year;
    var months := today.month - birthDate.month;
    var days := today.day - birthDate.day;
    var (months, days) := if days < 0 then (months - 1, days + PreviousMonthLength(today)) else (months, days);
    var (years, months) := if months < 0 then (years - 1, months + 12) else (years, months);
    Age(years, months, days)
  }

  /** The day borrow can leave the day count negative: 31 January to 1 March 2023 gives -2 days. */
  lemma AgeDaysCanStayNegative()
    ensures CalculateAge(CalendarDate(2023, 0, 31), CalendarDate(2023, 2, 1)) == Age(0, 1, -2)
  {
  }

  /** `formatChildAge`: years and months, each unit singular exactly when its count is 1. */
  function FormatChildAge(birthDate: Date, today: Date): string
  {
    var a := CalculateAge(birthDate, today);
    if a.years == 0 then Plural(a.months, "month")
    else if a.months == 0 then Plural(a.years, "year")
    else Plural(a.years, "year") + ", " + Plural(a.months, "month")
  }

  /**
   * The text shows months only under one year (never more than 11 of them),
   * years only on a whole number of years, and both otherwise. The three shapes
   * are the branches of the formatter; the point is the month bound, which comes
   * from the age computation.
   */
  lemma FormatChildAgeCases(birthDate: Date, today: Date)
    ensures var a := CalculateAge(birthDate, today);
            var text := FormatChildAge(birthDate, today);
            && (a.years == 0 ==> text == Plural(a.months, "month") && 0 <= a.months <= 11)
            && (a.years != 0 && a.months == 0 ==> text == Plural(a.years, "year"))
            && (a.years != 0 && a.months != 0 ==> text == Plural(a.years, "year") + ", " + Plural(a.months, "month"))
  {
  }
}
