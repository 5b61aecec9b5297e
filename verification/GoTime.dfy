// Instants are nanoseconds since the start of year 1 in UTC, so Go's zero time is 0 and
// 1 January of year 1 is a Monday. A zone is a fixed offset. Durations are Go's int64.
module GoTime {
  import opened Wrappers
  import Text

  const ZERO_TIME: int := 0
  const MILLISECOND: int := 1_000_000
  const SECOND: int := 1000 * MILLISECOND
  const MINUTE: int := 60 * SECOND
  const HOUR: int := 60 * MINUTE
  const DAY: int := 24 * HOUR

  const MAX_DURATION: int := 0x7FFF_FFFF_FFFF_FFFF
  const MIN_DURATION: int := -0x8000_0000_0000_0000

  // ---------------------------------------------------------------- durations

  /** Two's complement wrap-around of an int64 result. */
  function Wrap(n: int): int {
    (n - MIN_DURATION) % 0x1_0000_0000_0000_0000 + MIN_DURATION
  }

  /** Time.Sub: the difference, saturated at the limits of int64. */
  function Sub(t: int, u: int): int {
    if t - u > MAX_DURATION then MAX_DURATION
    else if t - u < MIN_DURATION then MIN_DURATION
    else t - u
  }

  /** `d := t.Sub(u); if d < 0 { d = -d }`, including the negation of the least int64. */
  function Distance(t: int, u: int): int {
    var d := Sub(t, u);
    if d < 0 then Wrap(-d) else d
  }

  function Abs(n: int): int { if n < 0 then -n else n }

  /** The idiom computes a distance exactly while the difference fits; beyond it the sign is wrong or the value
      saturates. */
  lemma DistanceIsExact(t: int, u: int)
    ensures Distance(t, u) == Abs(t - u) <==> MIN_DURATION < t - u <= MAX_DURATION
    ensures t - u <= MIN_DURATION ==> Distance(t, u) == MIN_DURATION
  {
  }

  // ---------------------------------------------------------------- calendar days

  function StartOfDay(t: int, zone: int): int {
    (t + zone) / DAY * DAY - zone
  }

  /** Time.Weekday in the zone: Sunday is 0. */
  function Weekday(t: int, zone: int): (d: nat)
    ensures d < 7
  {
    ((t + zone) / DAY + 1) % 7
  }

  predicate SameDay(t: int, u: int, zone: int) {
    (t + zone) / DAY == (u + zone) / DAY
  }

  function WeekBounds(now: int, zone: int): (int, int) {
    var weekday := if Weekday(now, zone) == 0 then 7 else Weekday(now, zone);
    var start := StartOfDay(now, zone) - (weekday - 1) * DAY;
    (start, start + 7 * DAY)
  }

  ghost predicate IsMondayMidnight(t: int, zone: int) {
    StartOfDay(t, zone) == t && Weekday(t, zone) == 1
  }

  lemma SmallMultiple(d: int, k: int)
    requires d > 0 && -d < d * k < d
    ensures k == 0
  {
    assert k >= 1 ==> d * k >= d;
    assert k <= -1 ==> d * k <= -d;
  }

  lemma DivOfMultiple(q: int, d: int, r: int)
    requires 0 <= r < d
    ensures (q * d + r) / d == q
  {
    assert q * d + r == d * ((q * d + r) / d) + (q * d + r) % d;
    var k := (q * d + r) / d - q;
    assert d * k == r - (q * d + r) % d;
    SmallMultiple(d, k);
  }

  lemma DayOf(t: int, zone: int, d: int)
    ensures (t + zone) / DAY == d <==> d * DAY <= t + zone < (d + 1) * DAY
    ensures t == d * DAY - zone ==> StartOfDay(t, zone) == t && Weekday(t, zone) == (d + 1) % 7
  {
    if d * DAY <= t + zone < (d + 1) * DAY {
      DivOfMultiple(d, DAY, t + zone - d * DAY);
    }
  }

  lemma MondayMidnight(t: int, zone: int)
    ensures IsMondayMidnight(t, zone) <==> exists week :: t == week * 7 * DAY - zone
  {
    var d := (t + zone) / DAY;
    if IsMondayMidnight(t, zone) {
      assert d % 7 == 0 && t == d * DAY - zone;
      assert t == (d / 7) * 7 * DAY - zone;
    }
    if week :| t == week * 7 * DAY - zone {
      DayOf(t, zone, week * 7);
    }
  }

  lemma WeekBoundsStart(now: int, zone: int)
    ensures var (start, end) := WeekBounds(now, zone);
      && start == (now + zone) / DAY / 7 * 7 * DAY - zone && start <= now < end == start + 7 * DAY
  {
    var day := (now + zone) / DAY;
    DayOf(now, zone, day);
    assert (if (day + 1) % 7 == 0 then 7 else (day + 1) % 7) == day % 7 + 1;
  }

  /** The bounds are those of the one Monday-to-Monday week that contains the instant. */
  lemma WeekBoundsAreTheWeek(now: int, zone: int, monday: int)
    ensures var (start, end) := WeekBounds(now, zone);
      && IsMondayMidnight(start, zone) && start <= now < end == start + 7 * DAY
      && (IsMondayMidnight(monday, zone) && monday <= now < monday + 7 * DAY <==> monday == start)
  {
    var start := WeekBounds(now, zone).0;
    WeekBoundsStart(now, zone);
    MondayMidnight(start, zone);
    MondayMidnight(monday, zone);
    if IsMondayMidnight(monday, zone) && monday <= now < monday + 7 * DAY {
      var week :| monday == week * 7 * DAY - zone;
      SmallMultiple(7 * DAY, week - (now + zone) / DAY / 7);
    }
  }

  /** Consecutive midnights fall on consecutive weekdays. */
  lemma WeekdayAfter(monday: int, zone: int, k: nat)
    requires IsMondayMidnight(monday, zone)
    ensures StartOfDay(monday + k * DAY, zone) == monday + k * DAY
    ensures Weekday(monday + k * DAY, zone) == (k + 1) % 7
  {
    var d := (monday + zone) / DAY;
    assert monday + k * DAY == (d + k) * DAY - zone;
    DayOf(monday, zone, d);
    DayOf(monday + k * DAY, zone, d + k);
  }

  // ---------------------------------------------------------------- jitter

  /** jitterTime, where `draw` is what rand.Int63n returned. */
  function JitterTime(base: int, maxJitter: int, draw: int): int {
    if maxJitter <= 0 then base else base + (draw - maxJitter)
  }

  predicate IsDraw(maxJitter: int, draw: int) {
    maxJitter > 0 ==> 0 <= draw < 2 * maxJitter + 1
  }

  ghost predicate Within(t: int, base: int, maxJitter: int) {
    var reach := if maxJitter <= 0 then 0 else maxJitter;
    base - reach <= t <= base + reach
  }

  /** Every instant within the jitter of the base is drawn, and no other. */
  lemma JitterIsBounded(base: int, maxJitter: int, t: int)
    ensures Within(t, base, maxJitter)
       <==> exists draw :: IsDraw(maxJitter, draw) && JitterTime(base, maxJitter, draw) == t
  {
    if Within(t, base, maxJitter) {
      var draw := t - base + maxJitter;
      assert IsDraw(maxJitter, draw) && JitterTime(base, maxJitter, draw) == t;
    }
  }

  // ---------------------------------------------------------------- GTFS clocks

  /** strconv.Atoi on a 64-bit machine. */
  function Atoi(s: string): Option<int> {
    var signed := s != "" && (s[0] == '-' || s[0] == '+');
    var digits := if signed then s[1..] else s;
    if digits == "" || !Text.IsDigits(digits) then None
    else
      var value: int := Text.DecimalValue(digits);
      var n := if signed && s[0] == '-' then -value else value;
      if MIN_DURATION <= n <= MAX_DURATION then Some(n) else None
  }

  lemma AtoiRoundTrip(n: int)
    ensures Atoi(Text.FormatInt(n)) == if MIN_DURATION <= n <= MAX_DURATION then Some(n) else None
  {
    var s := Text.FormatInt(n);
    if n < 0 {
      Text.DecimalRoundTrip(-n);
      assert s[1..] == Text.Decimal(-n);
    } else {
      Text.DecimalRoundTrip(n);
      assert Text.IsDigit(s[0]);
    }
  }

  /** `s` writes `n` in decimal, with any number of leading zeros, and a sign if it likes. */
  ghost predicate IsWritten(s: string, n: int) { exists k :: IsWrittenWith(s, n, k) }

  ghost predicate IsWrittenWith(s: string, n: int, k: nat) {
    || (n >= 0 && (s == Text.Zeros(k) + Text.Decimal(n) || s == "+" + (Text.Zeros(k) + Text.Decimal(n))))
    || (n <= 0 && s == "-" + (Text.Zeros(k) + Text.Decimal(-n)))
  }

  /** For every string: it is read as a number exactly if it writes that number and the number fits 64 bits. */
  lemma AtoiReads(s: string, n: int)
    ensures Atoi(s) == Some(n) <==> IsWritten(s, n) && MIN_DURATION <= n <= MAX_DURATION
  {
    if Atoi(s) == Some(n) {
      AtoiReadsWritten(s, n);
    }
    if k: nat :| IsWrittenWith(s, n, k) {
      WrittenIsRead(s, n, k);
    }
  }

  lemma AtoiReadsWritten(s: string, n: int)
    requires Atoi(s) == Some(n)
    ensures IsWritten(s, n) && MIN_DURATION <= n <= MAX_DURATION
  {
    var signed := s[0] == '-' || s[0] == '+';
    var digits := if signed then s[1..] else s;
    var k := Text.DigitsArePadded(digits);
    hide Text.Decimal, Text.DecimalValue, Text.Zeros, Text.IsDigits;
    assert signed ==> s == [s[0]] + digits;
    assert IsWrittenWith(s, n, k);
  }

  lemma WrittenIsRead(s: string, n: int, k: nat)
    requires IsWrittenWith(s, n, k)
    ensures Atoi(s) == if MIN_DURATION <= n <= MAX_DURATION then Some(n) else None
  {
    var m := if n < 0 then -n else n;
    var digits := Text.Zeros(k) + Text.Decimal(m);
    assert (n == m && (s == digits || s == "+" + digits)) || (n == -m && s == "-" + digits);
    Text.LeadingZeros(k, Text.Decimal(m));
    Text.DecimalRoundTrip(m);
    hide *;
    DigitsAreRead(digits, m);
  }

  lemma DigitsAreRead(digits: string, m: int)
    requires digits != "" && Text.IsDigits(digits) && Text.DecimalValue(digits) == m
    ensures Atoi(digits) == Atoi("+" + digits) == if m <= MAX_DURATION then Some(m) else None
    ensures Atoi("-" + digits) == if MIN_DURATION <= -m then Some(-m) else None
  {
    hide Text.DecimalValue;
    assert Text.IsDigit(digits[0]);
    assert ("+" + digits)[1..] == digits && ("-" + digits)[1..] == digits;
  }

  /** strings.Split on a one-character separator. */
  function Split(s: string, separator: char): (parts: seq<string>)
    ensures parts != []
  {
    if s == "" then [""]
    else
      var rest := Split(s[1..], separator);
      if s[0] == separator then [""] + rest else [[s[0]] + rest[0]] + rest[1..]
  }

  lemma {:induction false} SplitFirst(part: string, rest: string, separator: char)
    requires separator !in part
    ensures Split(part, separator) == [part]
    ensures Split(part + [separator] + rest, separator) == [part] + Split(rest, separator)
  {
    var s := part + [separator] + rest;
    if part == "" {
      assert s[0] == separator && s[1..] == rest;
    } else {
      SplitFirst(part[1..], rest, separator);
      assert s[1..] == part[1..] + [separator] + rest;
      assert part == [part[0]] + part[1..];
      assert s[0] == part[0] != separator;
    }
  }

  /** Go's `/` and `%` on integers, which truncate towards zero, by 24. */
  function Div24(n: int): int { if n < 0 then -((-n) / 24) else n / 24 }
  function Mod24(n: int): int { if n < 0 then -((-n) % 24) else n % 24 }

  /** parseGTFSClock: hours may pass 24, which moves the instant to a later day. */
  function ParseGTFSClock(baseDate: int, clock: string, zone: int): Option<int> {
    InstantOfParts(baseDate, Split(Text.TrimSpace(clock), ':'), zone)
  }

  function InstantOfParts(baseDate: int, parts: seq<string>, zone: int): Option<int> {
    if |parts| != 3 then None
    else
      var (hour, minute, second) := (Atoi(parts[0]), Atoi(parts[1]), Atoi(parts[2]));
      if hour.None? || minute.None? || second.None? then None
      else
        Some(StartOfDay(baseDate, zone) + Mod24(hour.value) * HOUR + minute.value * MINUTE + second.value * SECOND
             + Div24(hour.value) * DAY)
  }

  function FormatClock(hour: int, minute: int, second: int): string {
    Text.FormatInt(hour) + ":" + (Text.FormatInt(minute) + ":" + Text.FormatInt(second))
  }

  lemma NoColonInNumber(n: int)
    ensures ':' !in Text.FormatInt(n) && Text.FormatInt(n) != ""
    ensures !Text.IsSpace(Text.FormatInt(n)[0]) && !Text.IsSpace(Text.FormatInt(n)[|Text.FormatInt(n)| - 1])
  {
    var s := Text.FormatInt(n);
    var digits := Text.Decimal(if n < 0 then -n else n);
    assert forall i :: 0 <= i < |digits| ==> Text.IsDigit(digits[i]);
    assert s == digits || s == "-" + digits;
    assert s[|s| - 1] == digits[|digits| - 1];
  }

  lemma ClockParts(hour: int, minute: int, second: int)
    ensures Split(Text.TrimSpace(FormatClock(hour, minute, second)), ':')
         == [Text.FormatInt(hour), Text.FormatInt(minute), Text.FormatInt(second)]
  {
    NoColonInNumber(hour);
    NoColonInNumber(minute);
    NoColonInNumber(second);
    JoinedParts(Text.FormatInt(hour), Text.FormatInt(minute), Text.FormatInt(second));
  }

  lemma JoinedParts(h: string, m: string, s: string)
    requires ':' !in h && ':' !in m && ':' !in s && h != "" && s != ""
    requires !Text.IsSpace(h[0]) && !Text.IsSpace(s[|s| - 1])
    ensures Split(Text.TrimSpace(h + ":" + (m + ":" + s)), ':') == [h, m, s]
  {
    var clock := h + [':'] + (m + [':'] + s);
    assert clock[0] == h[0] && clock[|clock| - 1] == s[|s| - 1];
    Text.TrimSpaceKeepsTrimmed(clock);
    SplitFirst(h, m + [':'] + s, ':');
    SplitFirst(m, s, ':');
    SplitFirst(s, "", ':');
  }

  lemma TruncatedHours(hour: int)
    ensures Mod24(hour) * HOUR + Div24(hour) * DAY == hour * HOUR
  {
    assert Mod24(hour) + 24 * Div24(hour) == hour;
  }

  lemma InstantOfNumbers(baseDate: int, parts: seq<string>, hour: int, minute: int, second: int, zone: int)
    requires |parts| == 3 && Atoi(parts[0]) == Some(hour) && Atoi(parts[1]) == Some(minute)
        && Atoi(parts[2]) == Some(second)
    ensures InstantOfParts(baseDate, parts, zone)
         == Some(StartOfDay(baseDate, zone) + hour * HOUR + minute * MINUTE + second * SECOND)
  {
    TruncatedHours(hour);
  }

  /** A written clock is read back as that many hours, minutes and seconds after local midnight, past midnight too. */
  lemma ClockRoundTrip(baseDate: int, hour: int, minute: int, second: int, zone: int)
    requires MIN_DURATION <= hour <= MAX_DURATION
    requires MIN_DURATION <= minute <= MAX_DURATION
    requires MIN_DURATION <= second <= MAX_DURATION
    ensures ParseGTFSClock(baseDate, FormatClock(hour, minute, second), zone)
         == Some(StartOfDay(baseDate, zone) + hour * HOUR + minute * MINUTE + second * SECOND)
  {
    ClockParts(hour, minute, second);
    AtoiRoundTrip(hour);
    AtoiRoundTrip(minute);
    AtoiRoundTrip(second);
    InstantOfNumbers(baseDate, [Text.FormatInt(hour), Text.FormatInt(minute), Text.FormatInt(second)], hour, minute,
                     second, zone);
  }

  // ---------------------------------------------------------------- every clock

  /** The parts and the separators between them make up the string again, and no part holds a separator. */
  function Joined(parts: seq<string>, separator: char): string
    requires parts != []
  {
    if |parts| == 1 then parts[0] else parts[0] + [separator] + Joined(parts[1..], separator)
  }

  lemma {:induction false} SplitIsJoined(s: string, separator: char)
    ensures var parts := Split(s, separator);
      Joined(parts, separator) == s && forall i :: 0 <= i < |parts| ==> separator !in parts[i]
  {
    if s != "" {
      SplitIsJoined(s[1..], separator);
      var rest, parts := Split(s[1..], separator), Split(s, separator);
      assert s == [s[0]] + s[1..];
      if s[0] == separator {
        assert parts[1..] == rest;
      } else {
        assert parts[1..] == rest[1..];
      }
    }
  }

  /** Three numbers with colons between them, and spaces around at most. */
  ghost predicate IsClock(clock: string, hour: int, minute: int, second: int) {
    exists h, m, s :: IsClockOf(clock, h, m, s) && AreWritten(h, m, s, hour, minute, second)
  }

  ghost predicate AreWritten(h: string, m: string, s: string, hour: int, minute: int, second: int) {
    IsWritten(h, hour) && IsWritten(m, minute) && IsWritten(s, second)
  }

  predicate IsClockOf(clock: string, h: string, m: string, s: string) {
    Text.TrimSpace(clock) == h + ":" + (m + ":" + s)
  }

  predicate FitsInt64(n: int) { MIN_DURATION <= n <= MAX_DURATION }

  /** So many hours, minutes and seconds after the local midnight of the date. */
  function AfterMidnight(date: int, zone: int, hour: int, minute: int, second: int): int {
    StartOfDay(date, zone) + hour * HOUR + minute * MINUTE + second * SECOND
  }

  lemma NoColonWritten(s: string, n: int)
    requires IsWritten(s, n)
    ensures ':' !in s
  {
    var k :| IsWrittenWith(s, n, k);
    var digits := Text.Decimal(if n < 0 then -n else n);
    hide Text.Decimal;
    assert ':' !in digits;
    assert ':' !in Text.Zeros(k) + digits;
  }

  lemma ThreeParts(clock: string)
    ensures var parts := Split(Text.TrimSpace(clock), ':');
      |parts| == 3 ==> IsClockOf(clock, parts[0], parts[1], parts[2])
  {
    var parts := Split(Text.TrimSpace(clock), ':');
    SplitIsJoined(Text.TrimSpace(clock), ':');
    if |parts| == 3 {
      assert parts[1..][1..][0] == parts[2];
      assert Joined(parts[1..], ':') == parts[1] + ":" + parts[2];
      assert parts[0] + ":" + (parts[1] + ":" + parts[2]) == parts[0] + [':'] + (parts[1] + ":" + parts[2]);
    }
  }

  lemma PartsOfClock(clock: string, h: string, m: string, s: string)
    requires IsClockOf(clock, h, m, s) && ':' !in h && ':' !in m && ':' !in s
    ensures Split(Text.TrimSpace(clock), ':') == [h, m, s]
  {
    assert h + ":" + (m + ":" + s) == h + [':'] + (m + [':'] + s);
    SplitFirst(h, m + [':'] + s, ':');
    SplitFirst(m, s, ':');
    SplitFirst(s, "", ':');
  }

  /** The clock names the instant `t` of the date: so many hours, minutes and seconds after midnight. */
  ghost predicate ReadsAs(clock: string, date: int, zone: int, t: int) {
    exists hour, minute, second :: IsClock(clock, hour, minute, second)
        && IsInstant(hour, minute, second, date, zone, t)
  }

  /** The numbers fit 64 bits and name the instant. */
  ghost predicate IsInstant(hour: int, minute: int, second: int, date: int, zone: int, t: int) {
    && FitsInt64(hour) && FitsInt64(minute) && FitsInt64(second)
    && t == AfterMidnight(date, zone, hour, minute, second)
  }

  /** Every string is read as exactly the instant it names as a clock, or not at all. */
  lemma ClockIsRead(date: int, clock: string, zone: int, t: int)
    ensures ParseGTFSClock(date, clock, zone) == Some(t) <==> ReadsAs(clock, date, zone, t)
  {
    hide ParseGTFSClock, AfterMidnight, IsClock, FitsInt64;
    if ParseGTFSClock(date, clock, zone) == Some(t) {
      ReadIsClock(date, clock, zone, t);
    }
    if hour, minute, second :|
       IsClock(clock, hour, minute, second) && IsInstant(hour, minute, second, date, zone, t) {
      WrittenClock(date, clock, zone, hour, minute, second);
    }
  }

  lemma ReadIsClock(date: int, clock: string, zone: int, t: int)
    requires ParseGTFSClock(date, clock, zone) == Some(t)
    ensures ReadsAs(clock, date, zone, t)
  {
    var parts := Split(Text.TrimSpace(clock), ':');
    ThreeParts(clock);
    hide Split, Text.TrimSpace, Atoi, IsClockOf, IsWritten;
    var hour, minute, second := Atoi(parts[0]).value, Atoi(parts[1]).value, Atoi(parts[2]).value;
    AtoiReads(parts[0], hour);
    AtoiReads(parts[1], minute);
    AtoiReads(parts[2], second);
    InstantOfNumbers(date, parts, hour, minute, second, zone);
    assert AreWritten(parts[0], parts[1], parts[2], hour, minute, second);
    assert IsClock(clock, hour, minute, second);
    assert IsInstant(hour, minute, second, date, zone, t);
  }

  lemma WrittenClock(date: int, clock: string, zone: int, hour: int, minute: int, second: int)
    requires IsClock(clock, hour, minute, second) && FitsInt64(hour) && FitsInt64(minute) && FitsInt64(second)
    ensures ParseGTFSClock(date, clock, zone) == Some(AfterMidnight(date, zone, hour, minute, second))
  {
    hide ParseGTFSClock, AfterMidnight, AreWritten, IsClockOf;
    var h, m, s :| IsClockOf(clock, h, m, s) && AreWritten(h, m, s, hour, minute, second);
    WrittenParts(date, clock, zone, hour, minute, second, h, m, s);
  }

  lemma WrittenParts(date: int, clock: string, zone: int, hour: int, minute: int, second: int, h: string, m: string,
                     s: string)
    requires IsClockOf(clock, h, m, s) && AreWritten(h, m, s, hour, minute, second)
    requires FitsInt64(hour) && FitsInt64(minute) && FitsInt64(second)
    ensures ParseGTFSClock(date, clock, zone) == Some(AfterMidnight(date, zone, hour, minute, second))
  {
    hide Split, Text.TrimSpace, Atoi, IsClockOf, InstantOfParts, StartOfDay, IsWritten;
    WrittenPart(h, hour);
    WrittenPart(m, minute);
    WrittenPart(s, second);
    PartsOfClock(clock, h, m, s);
    InstantOfNumbers(date, [h, m, s], hour, minute, second, zone);
  }

  lemma WrittenPart(s: string, n: int)
    requires IsWritten(s, n) && FitsInt64(n)
    ensures ':' !in s && Atoi(s) == Some(n)
  {
    NoColonWritten(s, n);
    AtoiReads(s, n);
  }
}
