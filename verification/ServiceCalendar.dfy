// Service dates of a trip within a week, and the weekday codes of a definition.
module ServiceCalendar {
  import opened Wrappers
  import opened GoTime
  import StableSort

  datatype CalendarRow = CalendarRow(startDate: int, endDate: int, days: set<nat>)
  datatype CalendarException = CalendarException(date: int, exceptionType: string)

  // ---------------------------------------------------------------- service dates

  ghost predicate Covers(row: Option<CalendarRow>, day: int, zone: int) {
    row.Some? && row.value.startDate <= day <= row.value.endDate && Weekday(day, zone) in row.value.days
  }

  /** `exceptions[i]` is the last exception for that day. */
  ghost predicate IsLastFor(exceptions: seq<CalendarException>, i: int, day: int) {
    && 0 <= i < |exceptions| && exceptions[i].date == day
    && forall j :: i < j < |exceptions| ==> exceptions[j].date != day
  }

  /** The last exception of the day decides; without one, the calendar row does. */
  ghost predicate RunsOn(row: Option<CalendarRow>, exceptions: seq<CalendarException>, day: int, zone: int) {
    if exists i :: IsLastFor(exceptions, i, day)
    then exists i :: IsLastFor(exceptions, i, day) && exceptions[i].exceptionType == "1"
    else Covers(row, day, zone)
  }

  /** The midnights from `start` up to `end` on which the service runs. */
  ghost function ServiceDates(row: Option<CalendarRow>, exceptions: seq<CalendarException>,
                              start: int, end: int, zone: int): seq<int>
    decreases end - start
  {
    if start >= end then []
    else (if RunsOn(row, exceptions, start, zone) then [start] else [])
         + ServiceDates(row, exceptions, start + DAY, end, zone)
  }

  method ActiveOn(row: Option<CalendarRow>, exceptions: seq<CalendarException>, day: int, zone: int)
    returns (active: bool)
    ensures active <==> RunsOn(row, exceptions, day, zone)
  {
    active := false;
    if row.Some? && row.value.startDate <= day <= row.value.endDate {
      active := Weekday(day, zone) in row.value.days;
    }
    ghost var last := -1;
    for i := 0 to |exceptions|
      invariant -1 <= last < i
      invariant last == -1 ==> (active <==> Covers(row, day, zone))
      invariant last == -1 ==> forall j :: 0 <= j < i ==> exceptions[j].date != day
      invariant last >= 0 ==> IsLastFor(exceptions[..i], last, day)
      invariant last >= 0 ==> (active <==> exceptions[last].exceptionType == "1")
    {
      if exceptions[i].date == day {
        active := exceptions[i].exceptionType == "1";
        last := i;
      }
    }
    assert exceptions[..|exceptions|] == exceptions;
    assert last >= 0 ==> IsLastFor(exceptions, last, day);
  }

  method ActiveServiceDates(row: Option<CalendarRow>, exceptions: seq<CalendarException>,
                            weekStart: int, weekEnd: int, zone: int) returns (result: seq<int>)
    ensures result == ServiceDates(row, exceptions, weekStart, weekEnd, zone)
  {
    result := [];
    var dayCursor := weekStart;
    ghost var dates := ServiceDates(row, exceptions, weekStart, weekEnd, zone);
    hide ServiceDates, RunsOn;
    while dayCursor < weekEnd
      invariant result + ServiceDates(row, exceptions, dayCursor, weekEnd, zone) == dates
      decreases weekEnd - dayCursor
    {
      ServiceDatesStep(row, exceptions, dayCursor, weekEnd, zone);
      var active := ActiveOn(row, exceptions, dayCursor, zone);
      if active {
        result := result + [dayCursor];
      }
      dayCursor := dayCursor + DAY;
    }
    NoServiceDates(row, exceptions, dayCursor, weekEnd, zone);
  }

  lemma ServiceDatesStep(row: Option<CalendarRow>, exceptions: seq<CalendarException>, day: int, end: int, zone: int)
    requires day < end
    ensures ServiceDates(row, exceptions, day, end, zone)
         == (if RunsOn(row, exceptions, day, zone) then [day] else [])
            + ServiceDates(row, exceptions, day + DAY, end, zone)
  {
  }

  lemma NoServiceDates(row: Option<CalendarRow>, exceptions: seq<CalendarException>, day: int, end: int, zone: int)
    requires day >= end
    ensures ServiceDates(row, exceptions, day, end, zone) == []
  {
  }

  ghost predicate StrictlyIncreasing(s: seq<int>) {
    forall i, j :: 0 <= i < j < |s| ==> s[i] < s[j]
  }

  ghost predicate IsRunningDay(row: Option<CalendarRow>, exceptions: seq<CalendarException>, day: int,
                               start: int, end: int, zone: int) {
    start <= day < end && (day - start) % DAY == 0 && RunsOn(row, exceptions, day, zone)
  }

  lemma DaysAfterTheFirst(day: int, start: int)
    ensures start <= day && (day - start) % DAY == 0
       <==> day == start || (start + DAY <= day && (day - (start + DAY)) % DAY == 0)
  {
  }

  /** The calendar_dates.txt override: a day is listed exactly if its last exception adds it, or it has none and the row
      covers it. */
  lemma {:induction false} ServiceDatesAreTheRunningDays(row: Option<CalendarRow>, exceptions: seq<CalendarException>,
                                                         start: int, end: int, zone: int)
    ensures StrictlyIncreasing(ServiceDates(row, exceptions, start, end, zone))
    ensures forall day ::
              day in ServiceDates(row, exceptions, start, end, zone)
              <==> IsRunningDay(row, exceptions, day, start, end, zone)
    decreases end - start
  {
    if start < end {
      ServiceDatesAreTheRunningDays(row, exceptions, start + DAY, end, zone);
      var rest := ServiceDates(row, exceptions, start + DAY, end, zone);
      var first := if RunsOn(row, exceptions, start, zone) then [start] else [];
      forall i | 0 <= i < |rest| ensures rest[i] > start {
        assert rest[i] in rest;
        assert IsRunningDay(row, exceptions, rest[i], start + DAY, end, zone);
      }
      forall day ensures day in first + rest <==> IsRunningDay(row, exceptions, day, start, end, zone) {
        DaysAfterTheFirst(day, start);
        assert day in first + rest <==> day in first || day in rest;
        assert day in rest <==> IsRunningDay(row, exceptions, day, start + DAY, end, zone);
      }
    }
  }

  /** A date of the week is a midnight, some whole number of days after Monday. */
  lemma DateInWeek(row: Option<CalendarRow>, exceptions: seq<CalendarException>, start: int, day: int, zone: int)
    requires IsMondayMidnight(start, zone) && IsRunningDay(row, exceptions, day, start, start + 7 * DAY, zone)
    ensures 0 <= (day - start) / DAY < 7 && day == start + (day - start) / DAY * DAY
    ensures StartOfDay(day, zone) == day
    ensures WeekdayOrder(Weekday(day, zone)) == (day - start) / DAY
  {
    var k := (day - start) / DAY;
    assert day == start + k * DAY;
    WeekdayAfter(start, zone, k);
  }

  /** Within the week of `now` there are at most seven dates, no two on the same weekday. */
  lemma WeekHasAtMostSevenDates(row: Option<CalendarRow>, exceptions: seq<CalendarException>, now: int, zone: int)
    ensures var (start, end) := WeekBounds(now, zone);
      var dates := ServiceDates(row, exceptions, start, end, zone);
      && |dates| <= 7
      && (forall i :: 0 <= i < |dates| ==> start <= dates[i] < end && StartOfDay(dates[i], zone) == dates[i])
      && (forall i, j :: 0 <= i < j < |dates| ==>
          WeekdayOrder(Weekday(dates[i], zone)) < WeekdayOrder(Weekday(dates[j], zone)))
  {
    var start := WeekBounds(now, zone).0;
    WeekBoundsAreTheWeek(now, zone, start);
    ServiceDatesAreTheRunningDays(row, exceptions, start, start + 7 * DAY, zone);
    DatesOfAWeek(row, exceptions, start, ServiceDates(row, exceptions, start, start + 7 * DAY, zone), zone);
  }

  lemma DatesOfAWeek(row: Option<CalendarRow>, exceptions: seq<CalendarException>, start: int, dates: seq<int>,
                     zone: int)
    requires IsMondayMidnight(start, zone) && StrictlyIncreasing(dates)
    requires forall day :: day in dates ==> IsRunningDay(row, exceptions, day, start, start + 7 * DAY, zone)
    ensures |dates| <= 7
    ensures forall i :: 0 <= i < |dates| ==>
        start <= dates[i] < start + 7 * DAY && StartOfDay(dates[i], zone) == dates[i]
    ensures forall i, j :: 0 <= i < j < |dates| ==>
        WeekdayOrder(Weekday(dates[i], zone)) < WeekdayOrder(Weekday(dates[j], zone))
  {
    var orders := seq(|dates|, i requires 0 <= i < |dates| => WeekdayOrder(Weekday(dates[i], zone)));
    forall i | 0 <= i < |dates|
      ensures dates[i] == start + orders[i] * DAY && orders[i] < 7 && StartOfDay(dates[i], zone) == dates[i]
      ensures start <= dates[i] < start + 7 * DAY
    {
      assert dates[i] in dates;
      DateInWeek(row, exceptions, start, dates[i], zone);
    }
    forall i, j | 0 <= i < j < |dates| ensures orders[i] < orders[j] {
      assert dates[i] < dates[j];
    }
    if |dates| > 7 {
      IncreasingGrows(orders, 7);
    }
  }

  lemma {:induction false} IncreasingGrows(s: seq<nat>, k: nat)
    requires k < |s| && s[0] >= 0 && forall i, j :: 0 <= i < j < |s| ==> s[i] < s[j]
    ensures s[k] >= k
  {
    if k > 0 {
      IncreasingGrows(s, k - 1);
    }
  }

  // ---------------------------------------------------------------- weekday codes

  /** The codes "Mo" to "Su", the only ones weekdaysToCodes produces. */
  datatype DayCode = Mo | Tu | We | Th | Fr | Sa | Su

  /** weekdayOrder: Monday first, Sunday last. */
  function WeekdayOrder(day: nat): nat {
    if day == 0 then 6 else if day <= 6 then day - 1 else 7
  }

  function ServiceDayCodeOrder(code: DayCode): nat {
    match code
    case Mo => 0 case Tu => 1 case We => 2 case Th => 3 case Fr => 4 case Sa => 5 case Su => 6
  }

  /** The code of a weekday, Sunday being 0. */
  function CodeOf(day: nat): DayCode
    requires day < 7
  {
    match day case 0 => Su case 1 => Mo case 2 => Tu case 3 => We case 4 => Th case 5 => Fr case _ => Sa
  }

  function SortServiceDayCodes(codes: seq<DayCode>): seq<DayCode> {
    StableSort.Sort(ServiceDayCodeOrder, (a: nat, b: nat) => a < b, codes)
  }

  ghost predicate NoDuplicates<T>(s: seq<T>) { forall i, j :: 0 <= i < j < |s| ==> s[i] != s[j] }

  ghost function Elements<T>(s: seq<T>): set<T> { set x | x in s }

  function DayAt(k: nat): DayCode
    requires k < 7
    ensures ServiceDayCodeOrder(DayAt(k)) == k
  {
    CodeOf((k + 1) % 7)
  }

  /** The codes of `days` in week order, starting at position `k` of the week. */
  function InWeekOrder(days: set<DayCode>, k: nat): seq<DayCode>
    requires k <= 7
    decreases 7 - k
  {
    if k == 7 then [] else (if DayAt(k) in days then [DayAt(k)] else []) + InWeekOrder(days, k + 1)
  }

  /** The one list of a set of days: each once, Monday to Sunday. */
  function CanonicalDays(days: set<DayCode>): seq<DayCode> { InWeekOrder(days, 0) }

  ghost predicate InOrder(codes: seq<DayCode>) {
    forall i, j :: 0 <= i < j < |codes| ==> ServiceDayCodeOrder(codes[i]) < ServiceDayCodeOrder(codes[j])
  }

  lemma PrependInOrder(c: DayCode, rest: seq<DayCode>)
    requires InOrder(rest) && forall d :: d in rest ==> ServiceDayCodeOrder(d) > ServiceDayCodeOrder(c)
    ensures InOrder([c] + rest)
  {
    assert forall i :: 0 <= i < |rest| ==> rest[i] in rest;
  }

  lemma OrderIsInjective(c: DayCode, k: nat)
    requires k < 7
    ensures ServiceDayCodeOrder(c) == k <==> c == DayAt(k)
  {
  }

  lemma {:induction false} InWeekOrderIsOrdered(days: set<DayCode>, k: nat)
    requires k <= 7
    ensures InOrder(InWeekOrder(days, k))
    ensures forall c :: c in InWeekOrder(days, k) <==> c in days && ServiceDayCodeOrder(c) >= k
    decreases 7 - k
  {
    if k < 7 {
      InWeekOrderIsOrdered(days, k + 1);
      PrependInOrder(DayAt(k), InWeekOrder(days, k + 1));
      forall c { OrderIsInjective(c, k); }
      hide DayAt, ServiceDayCodeOrder, InOrder;
      assert [] + InWeekOrder(days, k + 1) == InWeekOrder(days, k + 1);
    } else {
      assert InWeekOrder(days, k) == [];
    }
  }

  /** A strictly ordered list is determined by its elements. */
  lemma {:induction false} OrderedListIsDetermined(r: seq<DayCode>, s: seq<DayCode>)
    requires InOrder(r) && InOrder(s) && forall c :: c in r <==> c in s
    ensures r == s
  {
    if r == [] {
      HasElementUnlessEmpty(s);
    } else {
      assert r[0] in s && s[0] in r;
      var i :| 0 <= i < |s| && s[i] == r[0];
      var j :| 0 <= j < |r| && r[j] == s[0];
      assert r[0] == s[0];
      forall c ensures c in r[1..] <==> c in s[1..] {
        TailMembership(r, c);
        TailMembership(s, c);
      }
      OrderedListIsDetermined(r[1..], s[1..]);
      assert r == [r[0]] + r[1..] && s == [s[0]] + s[1..];
    }
  }

  lemma HasElementUnlessEmpty(s: seq<DayCode>)
    ensures s == [] || exists c :: c in s
  {
    if s != [] {
      assert s[0] in s;
    }
  }

  lemma TailMembership(r: seq<DayCode>, c: DayCode)
    requires r != [] && InOrder(r)
    ensures c in r[1..] <==> c in r && c != r[0]
  {
    assert r == [r[0]] + r[1..];
    if c in r[1..] {
      var i :| 0 <= i < |r[1..]| && r[1..][i] == c;
      assert ServiceDayCodeOrder(r[0]) < ServiceDayCodeOrder(r[i + 1]);
    }
  }

  lemma SortedCodes(codes: seq<DayCode>)
    ensures var r := SortServiceDayCodes(codes);
      && multiset(r) == multiset(codes)
      && forall i, j :: 0 <= i < j < |r| ==> ServiceDayCodeOrder(r[i]) <= ServiceDayCodeOrder(r[j])
  {
    var less := (a: nat, b: nat) => a < b;
    var r := SortServiceDayCodes(codes);
    StableSort.SortSorts(ServiceDayCodeOrder, less, codes);
    StableSort.SortPermutes(ServiceDayCodeOrder, less, codes);
    forall i, j | 0 <= i < j < |r| ensures ServiceDayCodeOrder(r[i]) <= ServiceDayCodeOrder(r[j]) {
      assert !less(ServiceDayCodeOrder(r[j]), ServiceDayCodeOrder(r[i]));
    }
  }

  lemma OneOrderOneCode(c: DayCode, d: DayCode)
    requires c != d
    ensures ServiceDayCodeOrder(c) != ServiceDayCodeOrder(d)
  {
  }

  /** Sorting distinct codes puts them in strict week order. */
  lemma SortedCodesAreCanonical(codes: seq<DayCode>, days: set<DayCode>)
    requires NoDuplicates(codes) && forall c :: c in codes <==> c in days
    ensures SortServiceDayCodes(codes) == CanonicalDays(days)
  {
    var r := SortServiceDayCodes(codes);
    SortedCodes(codes);
    PermutedDistinct(codes, r);
    InWeekOrderIsOrdered(days, 0);
    hide ServiceDayCodeOrder, InWeekOrder, SortServiceDayCodes;
    forall i, j | 0 <= i < j < |r| ensures ServiceDayCodeOrder(r[i]) < ServiceDayCodeOrder(r[j]) {
      OneOrderOneCode(r[i], r[j]);
    }
    OrderedListIsDetermined(r, CanonicalDays(days));
  }

  lemma PermutedDistinct<T>(s: seq<T>, r: seq<T>)
    requires multiset(r) == multiset(s) && NoDuplicates(s)
    ensures NoDuplicates(r)
    ensures forall x :: x in r <==> x in s
  {
    forall x ensures x in r <==> x in s {
      assert x in r <==> x in multiset(r);
      assert x in s <==> x in multiset(s);
    }
    forall i, j | 0 <= i < j < |r| ensures r[i] != r[j] {
      if r[i] == r[j] {
        assert r == r[..i] + [r[i]] + r[i + 1..j] + [r[j]] + r[j + 1..];
        assert multiset(r)[r[i]] >= 2;
        DistinctCountsOnce(s, r[i]);
      }
    }
  }

  lemma {:induction false} DistinctCountsOnce<T>(s: seq<T>, x: T)
    requires NoDuplicates(s)
    ensures multiset(s)[x] == if x in s then 1 else 0
  {
    if s != [] {
      DistinctCountsOnce(s[1..], x);
      assert s == [s[0]] + s[1..];
    }
  }

  /** distinctWeekdays: the days that occur, Monday first. */
  method DistinctWeekdays(dates: seq<int>, zone: int) returns (result: seq<nat>)
    ensures NoDuplicates(result)
    ensures forall d :: d in result <==> exists i :: 0 <= i < |dates| && Weekday(dates[i], zone) == d
    ensures forall i, j :: 0 <= i < j < |result| ==> WeekdayOrder(result[i]) < WeekdayOrder(result[j])
  {
    var seen: set<nat> := {};
    result := [];
    for k := 0 to |dates|
      invariant NoDuplicates(result)
      invariant forall d :: d in seen <==> d in result
      invariant forall d :: d in result <==> exists i :: 0 <= i < k && Weekday(dates[i], zone) == d
    {
      if Weekday(dates[k], zone) !in seen {
        seen := seen + {Weekday(dates[k], zone)};
        result := result + [Weekday(dates[k], zone)];
      }
    }
    var less := (a: nat, b: nat) => a < b;
    ghost var unsorted := result;
    StableSort.SortSorts(WeekdayOrder, less, result);
    StableSort.SortPermutes(WeekdayOrder, less, result);
    result := StableSort.Sort(WeekdayOrder, less, result);
    PermutedDistinct(unsorted, result);
    forall i, j | 0 <= i < j < |result| ensures WeekdayOrder(result[i]) < WeekdayOrder(result[j]) {
      assert result[i] in unsorted && result[j] in unsorted;
      assert !less(WeekdayOrder(result[j]), WeekdayOrder(result[i])) && result[i] != result[j];
    }
  }

  method WeekdaysToCodes(days: seq<nat>) returns (result: seq<DayCode>)
    requires forall i :: 0 <= i < |days| ==> days[i] < 7
    ensures NoDuplicates(days) ==> result == CanonicalDays(set i | 0 <= i < |days| :: CodeOf(days[i]))
  {
    result := [];
    for k := 0 to |days|
      invariant |result| == k && forall i :: 0 <= i < k ==> result[i] == CodeOf(days[i])
    {
      result := result + [CodeOf(days[k])];
    }
    if NoDuplicates(days) {
      SortedCodesAreCanonical(result, set i | 0 <= i < |days| :: CodeOf(days[i]));
    }
    result := SortServiceDayCodes(result);
  }

  // ---------------------------------------------------------------- merging day lists

  /** The first occurrence of every item, in order. */
  function Dedup(items: seq<DayCode>): (r: seq<DayCode>)
    ensures NoDuplicates(r)
    ensures forall c :: c in r <==> c in items
  {
    if items == [] then []
    else
      var front := Dedup(items[..|items| - 1]);
      assert items == items[..|items| - 1] + [items[|items| - 1]];
      if items[|items| - 1] in front then front else front + [items[|items| - 1]]
  }

  function MergedDays(left: seq<DayCode>, right: seq<DayCode>): seq<DayCode> {
    SortServiceDayCodes(Dedup(left + right))
  }

  lemma DedupStep(items: seq<DayCode>, c: DayCode)
    ensures Dedup([]) == []
    ensures Dedup(items + [c]) == if c in Dedup(items) then Dedup(items) else Dedup(items) + [c]
  {
    assert (items + [c])[..|items|] == items;
  }

  lemma NextPrefix<T>(left: seq<T>, right: seq<T>, i: nat)
    requires i < |right|
    ensures left + right[..i + 1] == left + right[..i] + [right[i]]
  {
  }

  method MergeServiceDays(left: seq<DayCode>, right: seq<DayCode>) returns (result: seq<DayCode>)
    ensures result == MergedDays(left, right)
  {
    var seen: set<DayCode> := {};
    result := [];
    assert Dedup([] + left[..0]) == [];
    hide Dedup;
    for i := 0 to |left|
      invariant result == Dedup([] + left[..i])
      invariant forall c :: c in seen <==> c in result
    {
      NextPrefix([], left, i);
      DedupStep([] + left[..i], left[i]);
      if left[i] !in seen {
        seen := seen + {left[i]};
        result := result + [left[i]];
      }
    }
    assert left + right[..0] == [] + left[..|left|];
    for i := 0 to |right|
      invariant result == Dedup(left + right[..i])
      invariant forall c :: c in seen <==> c in result
    {
      NextPrefix(left, right, i);
      DedupStep(left + right[..i], right[i]);
      if right[i] !in seen {
        seen := seen + {right[i]};
        result := result + [right[i]];
      }
    }
    assert right[..|right|] == right;
    result := SortServiceDayCodes(result);
  }

  /** A merge gives the duplicate-free, week-ordered union. */
  lemma MergedDaysIsTheUnion(left: seq<DayCode>, right: seq<DayCode>)
    ensures MergedDays(left, right) == CanonicalDays(Elements(left) + Elements(right))
    ensures Elements(MergedDays(left, right)) == Elements(left) + Elements(right)
  {
    var days := Elements(left) + Elements(right);
    SortedCodesAreCanonical(Dedup(left + right), days);
    InWeekOrderIsOrdered(days, 0);
    assert Elements(CanonicalDays(days)) == days;
  }

  /** Any order and grouping of merges ends in the same list, and merging again changes nothing. */
  lemma MergeIsCommutativeAssociativeIdempotent(a: seq<DayCode>, b: seq<DayCode>, c: seq<DayCode>)
    ensures MergedDays(a, b) == MergedDays(b, a)
    ensures MergedDays(MergedDays(a, b), c) == MergedDays(a, MergedDays(b, c))
    ensures MergedDays(MergedDays(a, b), b) == MergedDays(a, b)
  {
    MergedDaysIsTheUnion(a, b);
    MergedDaysIsTheUnion(b, a);
    MergedDaysIsTheUnion(b, c);
    MergedDaysIsTheUnion(MergedDays(a, b), c);
    MergedDaysIsTheUnion(a, MergedDays(b, c));
    MergedDaysIsTheUnion(MergedDays(a, b), b);
    UnionLaws(Elements(a), Elements(b), Elements(c));
    hide MergedDays, CanonicalDays, Elements;
  }

  lemma UnionLaws(a: set<DayCode>, b: set<DayCode>, c: set<DayCode>)
    ensures a + b == b + a && (a + b) + c == a + (b + c) && (a + b) + b == a + b
  {
  }
}
