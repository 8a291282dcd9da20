/** The recurrence evaluator and the date helpers of the finance app:
    deciding whether a recurring template is due today, rendering a rule as
    text, bucketing a date relative to now and grouping items by that bucket.

    Clock reads are parameters: a `Moment` is a millisecond timestamp together
    with the local-calendar projections the code reads from a `Date`. */
module Format {
  import opened Common

  /** `24 * 60 * 60 * 1000`, one day in milliseconds. */
  const MsPerDay: int := 86400000

  /** A point in time: `getTime()` plus `getDate()` (day of month),
      `getDay()` (0 = Sunday), `getMonth()` and `getFullYear()` in local time. */
  datatype Moment = Moment(epochMs: int, date: int, weekday: int, month: int, year: int)

  /** `a.toDateString() === b.toDateString()`: that string shows exactly the
      weekday, month, day of month and year. */
  predicate SameDay(a: Moment, b: Moment) {
    a.weekday == b.weekday && a.month == b.month && a.date == b.date && a.year == b.year
  }

  /** Like the equality of the two date strings it stands for, `SameDay` is
      reflexive, symmetric and transitive, and ignores the time of day. */
  lemma SameDayIsEquivalence(a: Moment, b: Moment, c: Moment)
    ensures SameDay(a, a)
    ensures SameDay(a, b) ==> SameDay(b, a)
    ensures SameDay(a, b) && SameDay(b, c) ==> SameDay(a, c)
    ensures SameDay(a, a.(epochMs := b.epochMs))
  {
  }

  // ---------------------------------------------------------------------------
  // Numbers as text (`${n}` for an integral number)
  // ---------------------------------------------------------------------------

  predicate IsDigit(c: char) {
    '0' <= c <= '9'
  }

  function DigitChar(d: int): (c: char)
    requires 0 <= d < 10
    ensures IsDigit(c) && (c as int) - ('0' as int) == d
  {
    ('0' as int + d) as char
  }

  /** Decimal digits of `n`, most significant first, no leading zeros. */
  function NatToString(n: nat): (s: string)
    ensures |s| > 0 && forall i :: 0 <= i < |s| ==> IsDigit(s[i])
    decreases n
  {
    if n < 10 then [DigitChar(n)] else NatToString(n / 10) + [DigitChar(n % 10)]
  }

  /** The number a string of decimal digits denotes. */
  function DigitsValue(s: string): nat
    requires forall i :: 0 <= i < |s| ==> IsDigit(s[i])
    decreases |s|
  {
    if s == [] then 0
    else
      assert IsDigit(s[|s| - 1]);
      DigitsValue(s[..|s| - 1]) * 10 + ((s[|s| - 1] as int) - ('0' as int))
  }

  lemma {:induction false} DigitsValueOfNatToString(n: nat)
    ensures DigitsValue(NatToString(n)) == n
    decreases n
  {
    if n >= 10 {
      var s := NatToString(n);
      assert s[..|s| - 1] == NatToString(n / 10);
      DigitsValueOfNatToString(n / 10);
    }
  }

  /** Reads back an optionally signed decimal numeral. */
  function ParseInt(s: string): Option<int> {
    if |s| > 1 && s[0] == '-' && forall i :: 1 <= i < |s| ==> IsDigit(s[i]) then
      var magnitude: int := DigitsValue(s[1..]);
      Some(-magnitude)
    else if |s| > 0 && forall i :: 0 <= i < |s| ==> IsDigit(s[i]) then
      Some(DigitsValue(s))
    else
      None
  }

  /** `${n}`: a minus sign for negative numbers, then the decimal digits. */
  function IntToString(n: int): (s: string)
    ensures |s| > 0 && (IsDigit(s[0]) || s[0] == '-')
    ensures forall i :: 1 <= i < |s| ==> IsDigit(s[i])
    ensures ParseInt(s) == Some(n)
  {
    if n < 0 then
      var digits := NatToString(-n);
      DigitsValueOfNatToString(-n);
      assert ("-" + digits)[1..] == digits;
      "-" + digits
    else
      DigitsValueOfNatToString(n);
      NatToString(n)
  }

  /** Different numbers never render alike. */
  lemma IntToStringInjective(a: int, b: int)
    requires IntToString(a) == IntToString(b)
    ensures a == b
  {
    assert ParseInt(IntToString(a)) == Some(a);
  }

  // ---------------------------------------------------------------------------
  // Recurrence rules
  // ---------------------------------------------------------------------------

  /** `Recurrence.frequency`; `Unrecognized` stands for any other stored value,
      which both `switch` statements send to their `default` branch. */
  datatype Frequency = Daily | Weekly | Biweekly | Monthly | Unrecognized

  /** A rule: `dayOfWeek` (0 = Sunday) for the weekly kinds, `dayOfMonth` for monthly. */
  datatype Recurrence = Recurrence(frequency: Frequency, dayOfWeek: Option<int>, dayOfMonth: Option<int>)

  /** `r.dayOfWeek ?? 1`: Monday when unset. */
  function WeekdayOf(r: Recurrence): int {
    r.dayOfWeek.GetOr(1)
  }

  /** `r.dayOfMonth ?? 1`: the first when unset. */
  function DayOfMonthOf(r: Recurrence): int {
    r.dayOfMonth.GetOr(1)
  }

  /** `lastExec && sameDay(last, today)`: the guard against a second run on one day. */
  predicate RanToday(lastExec: Option<Moment>, today: Moment) {
    lastExec.Some? && SameDay(lastExec.value, today)
  }

  /** `shouldExecToday(r, lastExec)` evaluated at the instant `today`. */
  function ShouldExecToday(r: Recurrence, lastExec: Option<Moment>, today: Moment): (due: bool)
    ensures due ==> !RanToday(lastExec, today)
    ensures due ==> r.frequency != Unrecognized
  {
    if RanToday(lastExec, today) then false
    else
      match r.frequency
      case Daily => true
      case Monthly =>
        today.date == DayOfMonthOf(r) &&
        (lastExec.None? || lastExec.value.month != today.month || lastExec.value.year != today.year)
      case Weekly =>
        today.weekday == WeekdayOf(r) &&
        (lastExec.None? || today.epochMs - lastExec.value.epochMs >= 6 * MsPerDay)
      case Biweekly =>
        today.weekday == WeekdayOf(r) &&
        (lastExec.None? || today.epochMs - lastExec.value.epochMs >= 13 * MsPerDay)
      case Unrecognized => false
  }

  /** Whatever the frequency, a rule that already ran on today's calendar day
      (at any hour) is not due again. */
  lemma SameDayGuard(r: Recurrence, last: Moment, today: Moment)
    requires SameDay(last, today)
    ensures !ShouldExecToday(r, Some(last), today)
  {
  }

  /** A daily rule is due on every day it has not already run. */
  lemma DailyDue(r: Recurrence, lastExec: Option<Moment>, today: Moment)
    requires r.frequency == Daily
    ensures ShouldExecToday(r, lastExec, today) <==> !RanToday(lastExec, today)
  {
  }

  /** A monthly rule is due exactly when today is its day of the month and it
      has not run in this calendar month; the same-day guard never decides
      a monthly rule, since a run today is a run this month. */
  lemma MonthlyDue(r: Recurrence, lastExec: Option<Moment>, today: Moment)
    requires r.frequency == Monthly
    ensures ShouldExecToday(r, lastExec, today) <==>
            today.date == DayOfMonthOf(r) &&
            (lastExec.None? || lastExec.value.month != today.month || lastExec.value.year != today.year)
  {
  }

  /** Consequently a monthly rule fires at most once per calendar month. */
  lemma MonthlyAtMostOncePerMonth(r: Recurrence, last: Moment, today: Moment)
    requires r.frequency == Monthly
    requires last.month == today.month && last.year == today.year
    ensures !ShouldExecToday(r, Some(last), today)
  {
  }

  /** The waiting period of a weekly kind, in whole days. */
  function MinGapDays(f: Frequency): int
    requires f == Weekly || f == Biweekly
  {
    if f == Weekly then 6 else 13
  }

  /** A weekly (biweekly) rule is due exactly when today is its weekday and,
      if it ran before on another day, at least 6 (13) days of milliseconds
      have passed since then. */
  lemma WeeklyDue(r: Recurrence, lastExec: Option<Moment>, today: Moment)
    requires r.frequency == Weekly || r.frequency == Biweekly
    ensures ShouldExecToday(r, lastExec, today) <==>
            today.weekday == WeekdayOf(r) &&
            (lastExec.None? ||
             (!SameDay(lastExec.value, today) &&
              today.epochMs - lastExec.value.epochMs >= MinGapDays(r.frequency) * MsPerDay))
  {
  }

  /** A last run stamped in the future keeps a weekly or biweekly rule from firing. */
  lemma FutureLastRunBlocksWeekly(r: Recurrence, last: Moment, today: Moment)
    requires r.frequency == Weekly || r.frequency == Biweekly
    requires last.epochMs > today.epochMs
    ensures !ShouldExecToday(r, Some(last), today)
  {
  }

  /** A biweekly rule that is due would also be due as a weekly rule. */
  lemma BiweeklyDueImpliesWeeklyDue(r: Recurrence, lastExec: Option<Moment>, today: Moment)
    requires r.frequency == Biweekly
    requires ShouldExecToday(r, lastExec, today)
    ensures ShouldExecToday(r.(frequency := Weekly), lastExec, today)
  {
  }

  /** Later on the same calendar day a due rule stays due: only the elapsed
      time of the weekly kinds depends on the hour, and it only grows. */
  lemma DueStaysDueLaterThatDay(r: Recurrence, lastExec: Option<Moment>, today: Moment, later: Moment)
    requires SameDay(today, later) && today.epochMs <= later.epochMs
    requires ShouldExecToday(r, lastExec, today)
    ensures ShouldExecToday(r, lastExec, later)
  {
  }

  /** The weekly boundary: with the weekday matching and the last run on
      another calendar day, exactly six days of milliseconds suffice and five
      do not. */
  lemma WeeklyBoundary(r: Recurrence, last: Moment, today: Moment)
    requires r.frequency == Weekly && today.weekday == WeekdayOf(r)
    requires !SameDay(last, today)
    ensures today.epochMs - last.epochMs == 6 * MsPerDay ==> ShouldExecToday(r, Some(last), today)
    ensures today.epochMs - last.epochMs == 5 * MsPerDay ==> !ShouldExecToday(r, Some(last), today)
  {
  }

  // ---------------------------------------------------------------------------
  // Rendering a rule
  // ---------------------------------------------------------------------------

  /** `DAY_NAMES`, Sunday first. */
  const DayNames: seq<string> := ["Domingo", "Lunes", "Martes", "Miércoles", "Jueves", "Viernes", "Sábado"]

  /** `DAY_NAMES[i]` in a template literal: an index outside the table reads
      `undefined`, which renders as that word. */
  function DayName(i: int): (name: string)
    ensures |name| > 0 && !IsDigit(name[0]) && name[0] != '-'
  {
    if 0 <= i < 7 then DayNames[i] else "undefined"
  }

  /** `formatRecurrence`. */
  function FormatRecurrence(r: Recurrence): (text: string)
    ensures FrequencyOfLabel(text) == r.frequency
  {
    match r.frequency
    case Monthly =>
      var n := IntToString(DayOfMonthOf(r));
      var text := "Cada " + n + "° del mes";
      assert text[..5] == "Cada " && text[5] == n[0];
      assert |n| > 1 ==> text[6] == n[1];
      assert |n| == 1 ==> text[6] == '°';
      text
    case Weekly =>
      var name := DayName(WeekdayOf(r));
      var text := "Cada " + name;
      assert text[..5] == "Cada " && text[5] == name[0];
      text
    case Biweekly =>
      var text := "Cada 2 semanas (" + DayName(WeekdayOf(r)) + ")";
      assert text[..5] == "Cada " && text[5] == '2' && text[6] == ' ';
      text
    case Daily => "Diario"
    case Unrecognized => ""
  }

  /** Recovers the frequency from a rendered label: the partner of
      `FormatRecurrence`, showing that the label never confuses two kinds. */
  function FrequencyOfLabel(text: string): Frequency {
    if text == "Diario" then Daily
    else if |text| > 6 && text[..5] == "Cada " && text[5] == '2' && text[6] == ' ' then Biweekly
    else if |text| > 5 && text[..5] == "Cada " && (IsDigit(text[5]) || text[5] == '-') then Monthly
    else if |text| > 5 && text[..5] == "Cada " then Weekly
    else Unrecognized
  }

  /** Two monthly rules with the same label fall on the same day of the month. */
  lemma MonthlyLabelDeterminesDay(r1: Recurrence, r2: Recurrence)
    requires r1.frequency == Monthly && r2.frequency == Monthly
    requires FormatRecurrence(r1) == FormatRecurrence(r2)
    ensures DayOfMonthOf(r1) == DayOfMonthOf(r2)
  {
    var n1, n2 := IntToString(DayOfMonthOf(r1)), IntToString(DayOfMonthOf(r2));
    var l1, l2 := "Cada " + n1 + "° del mes", "Cada " + n2 + "° del mes";
    assert |n1| == |n2|;
    assert n1 == l1[5..5 + |n1|];
    assert n2 == l2[5..5 + |n2|];
    IntToStringInjective(DayOfMonthOf(r1), DayOfMonthOf(r2));
  }

  /** Two weekly (or two biweekly) rules with in-range weekdays and the same
      label fall on the same weekday. */
  lemma WeeklyLabelDeterminesDay(r1: Recurrence, r2: Recurrence)
    requires r1.frequency == r2.frequency && (r1.frequency == Weekly || r1.frequency == Biweekly)
    requires 0 <= WeekdayOf(r1) < 7 && 0 <= WeekdayOf(r2) < 7
    requires FormatRecurrence(r1) == FormatRecurrence(r2)
    ensures WeekdayOf(r1) == WeekdayOf(r2)
  {
    var n1, n2 := DayName(WeekdayOf(r1)), DayName(WeekdayOf(r2));
    if r1.frequency == Weekly {
      assert n1 == ("Cada " + n1)[5..];
      assert n2 == ("Cada " + n2)[5..];
    } else {
      var l1, l2 := "Cada 2 semanas (" + n1 + ")", "Cada 2 semanas (" + n2 + ")";
      assert n1 == l1[16..|l1| - 1];
      assert n2 == l2[16..|l2| - 1];
    }
    assert n1 == n2;
  }

  // ---------------------------------------------------------------------------
  // Relative dates
  // ---------------------------------------------------------------------------

  /** `Math.floor((now - date) / MsPerDay)`: whole days elapsed, rounded down
      (so negative for a date in the future). */
  function WholeDaysBetween(date: Moment, now: Moment): (days: int)
    ensures days * MsPerDay <= now.epochMs - date.epochMs < (days + 1) * MsPerDay
  {
    (now.epochMs - date.epochMs) / MsPerDay
  }

  /** What `formatDate` returns: one of its relative texts, or the locale
      date it would format, reduced to the fields it shows (day, short month,
      and the year only when it is not the current one). */
  datatype DateLabel = Relative(text: string) | CalendarDate(day: int, month: int, year: Option<int>)

  /** `formatDate(date)` evaluated at the instant `now`. */
  function FormatDate(date: Moment, now: Moment): (shown: DateLabel)
    ensures shown.Relative? <==> WholeDaysBetween(date, now) < 7
    ensures shown.CalendarDate? ==> shown.day == date.date && shown.month == date.month &&
                                    (shown.year.Some? <==> date.year != now.year)
  {
    var days := WholeDaysBetween(date, now);
    if days == 0 then Relative("Hoy")
    else if days == 1 then Relative("Ayer")
    else if days < 7 then Relative("Hace " + IntToString(days) + " días")
    else CalendarDate(date.date, date.month, if date.year != now.year then Some(date.year) else None)
  }

  /** Anything from `now` back to just under one day earlier is "Hoy";
      from one day up to just under two days earlier is "Ayer". */
  lemma TodayAndYesterday(date: Moment, now: Moment)
    ensures 0 <= now.epochMs - date.epochMs < MsPerDay ==> FormatDate(date, now) == Relative("Hoy")
    ensures MsPerDay <= now.epochMs - date.epochMs < 2 * MsPerDay ==> FormatDate(date, now) == Relative("Ayer")
  {
    var days := WholeDaysBetween(date, now);
    if 0 <= now.epochMs - date.epochMs < MsPerDay {
      assert days == 0;
    }
    if MsPerDay <= now.epochMs - date.epochMs < 2 * MsPerDay {
      assert days == 1;
    }
  }

  /** A relative label names its day count unambiguously: two dates with the
      same relative label lie the same number of whole days back. */
  lemma RelativeLabelDeterminesDays(a: Moment, b: Moment, now: Moment)
    requires FormatDate(a, now) == FormatDate(b, now) && FormatDate(a, now).Relative?
    ensures WholeDaysBetween(a, now) == WholeDaysBetween(b, now)
  {
    var da, db := WholeDaysBetween(a, now), WholeDaysBetween(b, now);
    var ta, tb := FormatDate(a, now).text, FormatDate(b, now).text;
    if da != 0 && da != 1 && db != 0 && db != 1 {
      var na, nb := IntToString(da), IntToString(db);
      assert ta == "Hace " + na + " días" && tb == "Hace " + nb + " días";
      assert |na| == |nb|;
      assert na == ta[5..5 + |na|];
      assert nb == tb[5..5 + |nb|];
      IntToStringInjective(da, db);
    }
  }

  // ---------------------------------------------------------------------------
  // Grouping by relative date
  // ---------------------------------------------------------------------------

  /** The label `groupByDate` files an item under. */
  function LabelOf<T>(x: T, dateOf: T -> Moment, now: Moment): DateLabel {
    FormatDate(dateOf(x), now)
  }

  /** Whether an item is filed under `l`. */
  function HasLabel<T>(dateOf: T -> Moment, now: Moment, l: DateLabel): T -> bool {
    (x: T) => LabelOf(x, dateOf, now) == l
  }

  /** The items filed under `l`, in input order. */
  function Labelled<T(==,!new)>(items: seq<T>, dateOf: T -> Moment, now: Moment, l: DateLabel): seq<T> {
    Filter(items, HasLabel(dateOf, now, l))
  }

  /** A label no item carries has an empty group. */
  lemma LabelledEmpty<T(!new)>(items: seq<T>, dateOf: T -> Moment, now: Moment, l: DateLabel)
    requires forall i :: 0 <= i < |items| ==> LabelOf(items[i], dateOf, now) != l
    ensures Labelled(items, dateOf, now, l) == []
  {
    assert forall x :: x in items ==> !HasLabel(dateOf, now, l)(x);
    FilterKeepsNone(items, HasLabel(dateOf, now, l));
  }

  /** The distinct labels of `items` in order of first occurrence: the keys of
      the `groups` object in insertion order, which is the order
      `Object.entries` reports them in since no label is an integer-like key. */
  function LabelsInOrder<T>(items: seq<T>, dateOf: T -> Moment, now: Moment): seq<DateLabel>
    decreases |items|
  {
    if items == [] then []
    else
      var earlier := LabelsInOrder(items[..|items| - 1], dateOf, now);
      var l := LabelOf(items[|items| - 1], dateOf, now);
      if l in earlier then earlier else earlier + [l]
  }

  /** One entry of `groupByDate`'s result. */
  datatype Group<T> = Group(key: DateLabel, data: seq<T>)

  /** `groupByDate(items)` evaluated at the instant `now`: one pass filling a
      dictionary from label to items, then the dictionary's entries. */
  method GroupByDate<T(==,!new)>(items: seq<T>, dateOf: T -> Moment, now: Moment) returns (groups: seq<Group<T>>)
    ensures |groups| == |LabelsInOrder(items, dateOf, now)|
    ensures forall k :: 0 <= k < |groups| ==>
              groups[k].key == LabelsInOrder(items, dateOf, now)[k] &&
              groups[k].data == Labelled(items, dateOf, now, groups[k].key)
  {
    var byLabel: map<DateLabel, seq<T>> := map[];
    var keys: seq<DateLabel> := [];
    var i := 0;
    while i < |items|
      invariant 0 <= i <= |items|
      invariant keys == LabelsInOrder(items[..i], dateOf, now)
      invariant forall l :: l in byLabel <==> l in keys
      invariant forall l :: l in byLabel ==> byLabel[l] == Labelled(items[..i], dateOf, now, l)
    {
      ghost var done, next := items[..i], items[..i + 1];
      assert next == done + [items[i]] && next[..|next| - 1] == done;
      var l0 := LabelOf(items[i], dateOf, now);
      if l0 !in byLabel {
        LabelsAreItemLabels(done, dateOf, now);
        LabelledEmpty(done, dateOf, now, l0);
        byLabel := byLabel[l0 := []];
        keys := keys + [l0];
      }
      byLabel := byLabel[l0 := byLabel[l0] + [items[i]]];
      forall l | l in byLabel
        ensures byLabel[l] == Labelled(next, dateOf, now, l)
      {
        LabelledSnoc(done, items[i], dateOf, now, l);
      }
      i := i + 1;
    }
    assert items[..i] == items;
    groups := seq(|keys|, k requires 0 <= k < |keys| => Group(keys[k], byLabel[keys[k]]));
  }

  /** Filing one more item extends only that item's group, at its end. */
  lemma LabelledSnoc<T(!new)>(items: seq<T>, x: T, dateOf: T -> Moment, now: Moment, l: DateLabel)
    ensures Labelled(items + [x], dateOf, now, l) ==
            Labelled(items, dateOf, now, l) + (if LabelOf(x, dateOf, now) == l then [x] else [])
  {
    FilterSnoc(items, x, HasLabel(dateOf, now, l));
  }

  /** No label is reported twice. */
  lemma {:induction false} LabelsDistinct<T>(items: seq<T>, dateOf: T -> Moment, now: Moment)
    ensures forall i, j :: 0 <= i < j < |LabelsInOrder(items, dateOf, now)| ==>
              LabelsInOrder(items, dateOf, now)[i] != LabelsInOrder(items, dateOf, now)[j]
    decreases |items|
  {
    if items != [] {
      LabelsDistinct(items[..|items| - 1], dateOf, now);
    }
  }

  /** The labels reported are exactly the labels of the items. */
  lemma {:induction false} LabelsAreItemLabels<T>(items: seq<T>, dateOf: T -> Moment, now: Moment)
    ensures forall l :: l in LabelsInOrder(items, dateOf, now) <==>
              exists i :: 0 <= i < |items| && LabelOf(items[i], dateOf, now) == l
    decreases |items|
  {
    if items != [] {
      var init := items[..|items| - 1];
      LabelsAreItemLabels(init, dateOf, now);
      assert forall i :: 0 <= i < |init| ==> init[i] == items[i];
    }
  }

  /** Groups keep first-occurrence order: the labels of any prefix of the
      input come first, in the same order, among the labels of the whole input. */
  lemma {:induction false} LabelsPrefixStable<T>(items: seq<T>, n: nat, dateOf: T -> Moment, now: Moment)
    requires n <= |items|
    ensures LabelsInOrder(items[..n], dateOf, now) <= LabelsInOrder(items, dateOf, now)
    decreases |items|
  {
    if n < |items| {
      var init := items[..|items| - 1];
      assert init[..n] == items[..n];
      LabelsPrefixStable(init, n, dateOf, now);
    } else {
      assert items[..n] == items;
    }
  }

  /** Every group is non-empty, and an item is filed under a reported label
      exactly when that label is its own. */
  lemma GroupMembership<T(!new)>(items: seq<T>, dateOf: T -> Moment, now: Moment)
    ensures forall l :: l in LabelsInOrder(items, dateOf, now) ==> |Labelled(items, dateOf, now, l)| > 0
    ensures forall x, l :: x in Labelled(items, dateOf, now, l) <==> x in items && LabelOf(x, dateOf, now) == l
  {
    LabelsAreItemLabels(items, dateOf, now);
    forall l | l in LabelsInOrder(items, dateOf, now)
      ensures |Labelled(items, dateOf, now, l)| > 0
    {
      var i :| 0 <= i < |items| && LabelOf(items[i], dateOf, now) == l;
      assert items[i] in Labelled(items, dateOf, now, l);
    }
  }

  /** Total size of the groups for the labels `ls`. */
  function GroupSizes<T(==,!new)>(items: seq<T>, dateOf: T -> Moment, now: Moment, ls: seq<DateLabel>): nat
    decreases |ls|
  {
    if ls == [] then 0
    else GroupSizes(items, dateOf, now, ls[..|ls| - 1]) + |Labelled(items, dateOf, now, ls[|ls| - 1])|
  }

  /** One more item grows the groups of distinct labels `ls` by one exactly
      when its label is among them. */
  lemma {:induction false} GroupSizesSnoc<T(!new)>(items: seq<T>, x: T, dateOf: T -> Moment, now: Moment, ls: seq<DateLabel>)
    requires forall i, j :: 0 <= i < j < |ls| ==> ls[i] != ls[j]
    ensures GroupSizes(items + [x], dateOf, now, ls) ==
            GroupSizes(items, dateOf, now, ls) + (if LabelOf(x, dateOf, now) in ls then 1 else 0)
    decreases |ls|
  {
    if ls != [] {
      var init := ls[..|ls| - 1];
      GroupSizesSnoc(items, x, dateOf, now, init);
      LabelledSnoc(items, x, dateOf, now, ls[|ls| - 1]);
      assert forall l :: l in ls <==> l in init || l == ls[|ls| - 1];
      assert ls[|ls| - 1] !in init;
    }
  }

  /** `groupByDate` partitions its input: the group sizes add up to the
      number of items, so with distinct labels and each item in the group of
      its own label, every item lies in exactly one group, once. */
  lemma {:induction false} GroupsPartitionItems<T(!new)>(items: seq<T>, dateOf: T -> Moment, now: Moment)
    ensures GroupSizes(items, dateOf, now, LabelsInOrder(items, dateOf, now)) == |items|
    decreases |items|
  {
    if items != [] {
      var init, x := items[..|items| - 1], items[|items| - 1];
      var ls := LabelsInOrder(init, dateOf, now);
      GroupsPartitionItems(init, dateOf, now);
      LabelsDistinct(init, dateOf, now);
      assert items == init + [x];
      GroupSizesSnoc(init, x, dateOf, now, ls);
      var l := LabelOf(x, dateOf, now);
      if l !in ls {
        LabelsAreItemLabels(init, dateOf, now);
        LabelledSnoc(init, x, dateOf, now, l);
        LabelledEmpty(init, dateOf, now, l);
        assert (ls + [l])[..|ls|] == ls;
      }
    }
  }
}
