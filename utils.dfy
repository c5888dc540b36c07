/** The charging-restriction predicate and the random draws of src/utils.js.
    Randomness is an explicit stream `draws` of reals in [0, 1), read at a
    position; every draw returns the position after it. A JavaScript Date is
    a `Moment`, its calendar fields already extracted, or `Invalid`. */
module Utils {
  import opened Types
  import opened RealArith

  // ---------------------------------------------------------------------
  // Random draws
  // ---------------------------------------------------------------------

  type Draws = nat -> real

  /** What Math.random() promises of each value it returns. */
  predicate IsDraw(r: real) {
    0.0 <= r < 1.0
  }

  ghost predicate ValidDraws(draws: Draws) {
    forall i: nat :: IsDraw(draws(i))
  }

  /** random(min, max) = Math.floor(Math.random() * (max - min) + min), src/utils.js:1-3. */
  function Random(min: real, max: real, r: real): int {
    (Scaled(r, max - min) + min).Floor
  }

  /** For min < max the value lies in [floor(min), max). */
  lemma RandomBounds(min: real, max: real, r: real)
    requires min < max && IsDraw(r)
    ensures min.Floor <= Random(min, max, r)
    ensures (Random(min, max, r) as real) < max
  {
    ScaledDraw(r, max - min);
  }

  /** On whole numbers, random(min, max) lies in [min, max). */
  lemma RandomInRange(min: int, max: int, r: real)
    requires min < max && IsDraw(r)
    ensures min <= Random(min as real, max as real, r) < max
  {
    RandomBounds(min as real, max as real, r);
    assert (min as real).Floor == min;
  }

  /** The largest whole number below k that is at most r * n, found by counting
      down from k - 1 (0 when there is none). */
  function SlotBelow(r: real, n: nat, k: nat): (i: nat)
    requires k >= 1
    ensures i < k
  {
    if k == 1 || ((k - 1) as real) <= Scaled(r, n as real) then k - 1 else SlotBelow(r, n, k - 1)
  }

  /** Math.floor(r * n): the slot of [0, 1) cut into n equal slots that holds r. */
  function DrawIndex(r: real, n: nat): (i: nat)
    requires IsDraw(r) && n > 0
    ensures i < n
  {
    SlotBelow(r, n, n)
  }

  /** Counting down from k - 1 stops at min(k - 1, floor(r * n)). */
  lemma {:induction false} SlotBelowFloor(r: real, n: nat, k: nat)
    requires IsDraw(r) && k >= 1
    ensures SlotBelow(r, n, k) == if Scaled(r, n as real).Floor < k - 1 then Scaled(r, n as real).Floor else k - 1
  {
    ScaledNonNegative(r, n as real);
    if k > 1 && !(((k - 1) as real) <= Scaled(r, n as real)) {
      SlotBelowFloor(r, n, k - 1);
    }
  }

  /** DrawIndex is Math.floor(r * n). */
  lemma DrawIndexFloor(r: real, n: nat)
    requires IsDraw(r) && n > 0
    ensures DrawIndex(r, n) == Scaled(r, n as real).Floor
  {
    SlotBelowFloor(r, n, n);
    ScaledDraw(r, n as real);
  }

  /** A draw in [j/n, (j+1)/n) gives index j. */
  lemma DrawIndexSlot(r: real, j: nat, n: nat)
    requires IsDraw(r) && n > 0
    requires (j as real) / (n as real) <= r < ((j + 1) as real) / (n as real)
    ensures DrawIndex(r, n) == j
  {
    DrawIndexFloor(r, n);
    ScaledLe((j as real) / (n as real), r, n as real);
    ScaledLt(r, ((j + 1) as real) / (n as real), n as real);
    ScaledQuotient(j as real, n as real);
    ScaledQuotient((j + 1) as real, n as real);
  }

  // ---------------------------------------------------------------------
  // Activity draw, src/utils.js:14-32
  // ---------------------------------------------------------------------

  /** values.filter(val => val !== excluded); `None` stands for an excluded
      value that matches nothing (undefined or null). */
  function Without(values: seq<Activity>, excluded: Option<Activity>): (kept: seq<Activity>)
    ensures forall a :: a in kept <==> a in values && Some(a) != excluded
    ensures |kept| <= |values|
  {
    if |values| == 0 then []
    else (if Some(values[0]) == excluded then [] else [values[0]]) + Without(values[1..], excluded)
  }

  /** True when a date and restrictions are both given and charging is not allowed then. */
  predicate RestrictedAt(date: Option<Moment>, restrictions: Option<Restrictions>) {
    date.Some? && restrictions.Some? && !IsChargingAllowed(date.value, restrictions)
  }

  lemma EveryActivityListed()
    ensures forall a: Activity :: a in [Discharge, Idle, Charge]
  {
    forall a: Activity ensures a in [Discharge, Idle, Charge] {
      match a
      case Discharge =>
      case Idle =>
      case Charge =>
    }
  }

  /** The values the draw chooses among, in the source's order. */
  function Admissible(excluded: Option<Activity>, date: Option<Moment>, restrictions: Option<Restrictions>): (values: seq<Activity>)
    ensures forall a :: a in values <==> Some(a) != excluded && (RestrictedAt(date, restrictions) ==> a != Charge)
    ensures 0 < |values|
  {
    if RestrictedAt(date, restrictions) then
      var values := Without([Discharge, Idle], excluded);
      assert forall a :: a in [Discharge, Idle] <==> a != Charge;
      assert Discharge in values || Idle in values;
      values
    else
      var values := Without([Discharge, Idle, Charge], excluded);
      EveryActivityListed();
      assert Discharge in values || Idle in values;
      values
  }

  /** A random activity different from `excluded`, never Charge at a restricted moment.
      Returns the activity and the position of the next unused draw. */
  function GenerateRandomActivity(excluded: Option<Activity>, date: Option<Moment>,
                                  restrictions: Option<Restrictions>, draws: Draws, pos: nat): (r: (Activity, nat))
    requires IsDraw(draws(pos))
    ensures Some(r.0) != excluded
    ensures RestrictedAt(date, restrictions) ==> r.0 != Charge
    ensures r.1 == if RestrictedAt(date, restrictions) && excluded in {Some(Discharge), Some(Idle)} then pos else pos + 1
    ensures pos <= r.1 <= pos + 1
  {
    var values := Admissible(excluded, date, restrictions);
    if RestrictedAt(date, restrictions) && |values| == 1 then
      (values[0], pos)
    else
      (values[DrawIndex(draws(pos), |values|)], pos + 1)
  }

  /** The draw is uniform over the admissible values: a draw in [j/n, (j+1)/n)
      selects the j-th of the n admissible values. */
  lemma DrawSelectsSlot(excluded: Option<Activity>, date: Option<Moment>,
                        restrictions: Option<Restrictions>, draws: Draws, pos: nat, j: nat)
    requires IsDraw(draws(pos))
    requires j < |Admissible(excluded, date, restrictions)|
    requires var n := |Admissible(excluded, date, restrictions)| as real;
             (j as real) / n <= draws(pos) < ((j + 1) as real) / n
    ensures GenerateRandomActivity(excluded, date, restrictions, draws, pos).0 == Admissible(excluded, date, restrictions)[j]
  {
    DrawIndexSlot(draws(pos), j, |Admissible(excluded, date, restrictions)|);
  }

  // ---------------------------------------------------------------------
  // Parsing of the restriction strings, src/utils.js:34-42
  // ---------------------------------------------------------------------

  /** A JavaScript number as the predicates see it: NaN, or a whole number. */
  datatype Number = NaN | Num(value: int)

  predicate IsDigit(c: char) {
    '0' <= c <= '9'
  }

  predicate AllDigits(s: string) {
    forall i :: 0 <= i < |s| ==> IsDigit(s[i])
  }

  function DigitsValue(s: string): nat
    requires AllDigits(s)
  {
    if |s| == 0 then 0 else DigitsValue(s[..|s| - 1]) * 10 + (s[|s| - 1] as int - '0' as int)
  }

  /** Number(s) for the strings the restrictions hold: a (possibly empty) run
      of decimal digits is its value; anything else is NaN. */
  function ToNumber(s: string): (n: Number)
    ensures n.Num? <==> AllDigits(s)
  {
    if AllDigits(s) then Num(DigitsValue(s)) else NaN
  }

  /** s.split(sep). */
  function SplitOn(s: string, sep: char): (parts: seq<string>)
    ensures |parts| >= 1
  {
    if |s| == 0 then [""]
    else if s[0] == sep then [""] + SplitOn(s[1..], sep)
    else
      var rest := SplitOn(s[1..], sep);
      [[s[0]] + rest[0]] + rest[1..]
  }

  function Join(parts: seq<string>, sep: char): string
    requires |parts| >= 1
  {
    if |parts| == 1 then parts[0] else parts[0] + [sep] + Join(parts[1..], sep)
  }

  /** Splitting loses nothing: joining the parts back gives the string, and no part holds the separator. */
  lemma {:induction false} SplitOnJoin(s: string, sep: char)
    ensures Join(SplitOn(s, sep), sep) == s
    ensures forall k :: 0 <= k < |SplitOn(s, sep)| ==> sep !in SplitOn(s, sep)[k]
  {
    if |s| > 0 {
      SplitOnJoin(s[1..], sep);
      var rest := SplitOn(s[1..], sep);
      if s[0] == sep {
        assert SplitOn(s, sep) == [""] + rest;
        assert Join([""] + rest, sep) == "" + [sep] + Join(rest, sep);
        assert s == [sep] + s[1..];
      } else {
        var parts := [[s[0]] + rest[0]] + rest[1..];
        assert SplitOn(s, sep) == parts;
        if |rest| == 1 {
          assert Join(parts, sep) == [s[0]] + rest[0];
        } else {
          assert parts[1..] == rest[1..];
          assert Join(parts, sep) == [s[0]] + rest[0] + [sep] + Join(rest[1..], sep);
          assert Join(rest, sep) == rest[0] + [sep] + Join(rest[1..], sep);
        }
        assert s == [s[0]] + s[1..];
        forall k | 0 <= k < |parts| ensures sep !in parts[k] {
          if k > 0 { assert parts[k] == rest[k]; }
        }
      }
    }
  }

  lemma {:induction false} SplitOnPrefix(a: string, sep: char, rest: string)
    requires sep !in a
    ensures SplitOn(a + [sep] + rest, sep) == [a] + SplitOn(rest, sep)
  {
    if |a| == 0 {
      assert a + [sep] + rest == [sep] + rest;
    } else {
      SplitOnPrefix(a[1..], sep, rest);
      assert (a + [sep] + rest)[1..] == a[1..] + [sep] + rest;
      assert [a[0]] + a[1..] == a;
    }
  }

  lemma {:induction false} SplitOnNone(a: string, sep: char)
    requires sep !in a
    ensures SplitOn(a, sep) == [a]
  {
    if |a| > 0 {
      SplitOnNone(a[1..], sep);
      assert [a[0]] + a[1..] == a;
    }
  }

  datatype TimeOfDay = TimeOfDay(hours: Number, minutes: Number)
  datatype MonthDay = MonthDay(month: Number, day: Number)

  /** const [hours, minutes] = timeStr.split(':').map(Number); a missing part is undefined, which compares like NaN. */
  function ParseTime(timeStr: string): (t: TimeOfDay)
    ensures forall h, m :: AllDigits(h) && AllDigits(m) && timeStr == h + ":" + m ==>
              t == TimeOfDay(Num(DigitsValue(h)), Num(DigitsValue(m)))
  {
    ParseFieldsProperty(timeStr, ':');
    var parts := SplitOn(timeStr, ':');
    TimeOfDay(ToNumber(parts[0]), if |parts| >= 2 then ToNumber(parts[1]) else NaN)
  }

  /** const [month, day] = dateStr.split('-').map(Number). */
  function ParseDate(dateStr: string): (d: MonthDay)
    ensures forall m, dd :: AllDigits(m) && AllDigits(dd) && dateStr == m + "-" + dd ==>
              d == MonthDay(Num(DigitsValue(m)), Num(DigitsValue(dd)))
  {
    ParseFieldsProperty(dateStr, '-');
    var parts := SplitOn(dateStr, '-');
    MonthDay(ToNumber(parts[0]), if |parts| >= 2 then ToNumber(parts[1]) else NaN)
  }

  lemma ParseFieldsProperty(s: string, sep: char)
    requires !IsDigit(sep)
    ensures forall a, b :: AllDigits(a) && AllDigits(b) && s == a + [sep] + b ==> SplitOn(s, sep) == [a, b]
  {
    forall a, b | AllDigits(a) && AllDigits(b) && s == a + [sep] + b
      ensures SplitOn(s, sep) == [a, b]
    {
      assert sep !in a && sep !in b;
      SplitOnPrefix(a, sep, b);
      SplitOnNone(b, sep);
    }
  }

  // ---------------------------------------------------------------------
  // The restriction predicate, src/utils.js:44-112
  // ---------------------------------------------------------------------

  /** The calendar fields of a JavaScript Date (month 1-12, weekday 0 = Sunday),
      or an invalid date, whose every getter returns NaN. */
  datatype Moment = Invalid | At(month: int, day: int, weekday: int, hours: int, minutes: int)

  /** chargingRestrictions; `allowWeekends` None is an absent field, which defaults to true. */
  datatype Restrictions = Restrictions(startDate: string, endDate: string,
                                       startTime: string, endTime: string,
                                       allowWeekends: Option<bool>)

  /** The base date (input[0].start, or the clock when there is none) advanced by
      setMinutes(getMinutes() + offset): the moment `offset` minutes later. */
  type Calendar = int -> Moment

  // JavaScript's comparisons: false whenever either side is NaN.
  predicate Lt(a: Number, b: Number) { a.Num? && b.Num? && a.value < b.value }
  predicate Le(a: Number, b: Number) { a.Num? && b.Num? && a.value <= b.value }
  predicate Same(a: Number, b: Number) { a.Num? && b.Num? && a.value == b.value }

  /** hours * 60 + minutes, NaN if either is. */
  function MinuteOfDay(t: TimeOfDay): Number {
    if t.hours.Num? && t.minutes.Num? then Num(t.hours.value * 60 + t.minutes.value) else NaN
  }

  function MomentTime(date: Moment): TimeOfDay {
    if date.At? then TimeOfDay(Num(date.hours), Num(date.minutes)) else TimeOfDay(NaN, NaN)
  }

  function MomentDate(date: Moment): MonthDay {
    if date.At? then MonthDay(Num(date.month), Num(date.day)) else MonthDay(NaN, NaN)
  }

  /** startTime <= time of day < endTime, in minutes. */
  predicate IsWithinTimeRange(date: Moment, startTime: string, endTime: string) {
    var total := MinuteOfDay(MomentTime(date));
    Le(MinuteOfDay(ParseTime(startTime)), total) && Lt(total, MinuteOfDay(ParseTime(endTime)))
  }

  predicate IsWithinDateRange(date: Moment, startDate: string, endDate: string) {
    var start := ParseDate(startDate);
    var end := ParseDate(endDate);
    var d := MomentDate(date);
    if Lt(end.month, start.month) then
      // the range crosses the year boundary
      if Lt(end.month, d.month) && Lt(d.month, start.month) then false
      else if Same(d.month, start.month) then Le(start.day, d.day)
      else if Same(d.month, end.month) then Le(d.day, end.day)
      else Lt(start.month, d.month) || Lt(d.month, end.month)
    else
      if Lt(d.month, start.month) || Lt(end.month, d.month) then false
      else if Same(d.month, start.month) && Lt(d.day, start.day) then false
      else if Same(d.month, end.month) && Lt(end.day, d.day) then false
      else true
  }

  predicate IsWeekend(date: Moment) {
    date.At? && (date.weekday == 0 || date.weekday == 6)
  }

  predicate IsChargingAllowed(date: Moment, restrictions: Option<Restrictions>) {
    if restrictions.None? then true
    else
      var r := restrictions.value;
      if r.allowWeekends.GetOr(true) && IsWeekend(date) then true
      else !(IsWithinDateRange(date, r.startDate, r.endDate) && IsWithinTimeRange(date, r.startTime, r.endTime))
  }

  // ---------------------------------------------------------------------
  // Properties of the restriction predicate
  // ---------------------------------------------------------------------

  /** Lexicographic order of (month, day) pairs: the reference meaning of a date range. */
  predicate NotBefore(m1: int, d1: int, m2: int, d2: int) {
    m1 > m2 || (m1 == m2 && d1 >= d2)
  }

  /** A month-day window, inclusive at both ends; one whose start month is after its
      end month wraps around the new year. */
  predicate InSeason(month: int, day: int, sm: int, sd: int, em: int, ed: int) {
    if sm > em then NotBefore(month, day, sm, sd) || NotBefore(em, ed, month, day)
    else NotBefore(month, day, sm, sd) && NotBefore(em, ed, month, day)
  }

  /** IsWithinDateRange agrees with the lexicographic reference, wrapping or not. */
  lemma DateRangeIsSeason(date: Moment, startDate: string, endDate: string, sm: int, sd: int, em: int, ed: int)
    requires date.At?
    requires ParseDate(startDate) == MonthDay(Num(sm), Num(sd))
    requires ParseDate(endDate) == MonthDay(Num(em), Num(ed))
    ensures IsWithinDateRange(date, startDate, endDate) <==> InSeason(date.month, date.day, sm, sd, em, ed)
  {
  }

  /** A range that wraps the year: months strictly between its end and start
      months are outside; in the start month the day must be at least the start day;
      in the end month at most the end day; every other month is inside. */
  lemma WrappingDateRange(date: Moment, startDate: string, endDate: string, sm: int, sd: int, em: int, ed: int)
    requires date.At?
    requires ParseDate(startDate) == MonthDay(Num(sm), Num(sd))
    requires ParseDate(endDate) == MonthDay(Num(em), Num(ed))
    requires sm > em
    ensures em < date.month < sm ==> !IsWithinDateRange(date, startDate, endDate)
    ensures date.month == sm ==> (IsWithinDateRange(date, startDate, endDate) <==> date.day >= sd)
    ensures date.month == em ==> (IsWithinDateRange(date, startDate, endDate) <==> date.day <= ed)
    ensures (date.month > sm || date.month < em) ==> IsWithinDateRange(date, startDate, endDate)
  {
  }

  /** A range within one year includes both end days and nothing outside its months. */
  lemma NonWrappingDateRange(date: Moment, startDate: string, endDate: string, sm: int, sd: int, em: int, ed: int)
    requires date.At?
    requires ParseDate(startDate) == MonthDay(Num(sm), Num(sd))
    requires ParseDate(endDate) == MonthDay(Num(em), Num(ed))
    requires sm <= em
    ensures (date.month < sm || date.month > em) ==> !IsWithinDateRange(date, startDate, endDate)
    ensures NotBefore(em, ed, sm, sd) ==> IsWithinDateRange(At(sm, sd, date.weekday, date.hours, date.minutes), startDate, endDate)
    ensures NotBefore(em, ed, sm, sd) ==> IsWithinDateRange(At(em, ed, date.weekday, date.hours, date.minutes), startDate, endDate)
  {
  }

  /** The time window is half-open: its start minute is inside, its end minute outside,
      and a window whose start equals its end restricts nothing. */
  lemma TimeWindowHalfOpen(date: Moment, startTime: string, endTime: string, sh: int, smin: int, eh: int, emin: int)
    requires ParseTime(startTime) == TimeOfDay(Num(sh), Num(smin))
    requires ParseTime(endTime) == TimeOfDay(Num(eh), Num(emin))
    ensures date.At? ==> (IsWithinTimeRange(date, startTime, endTime) <==>
                          sh * 60 + smin <= date.hours * 60 + date.minutes < eh * 60 + emin)
    ensures date.At? && date.hours * 60 + date.minutes == sh * 60 + smin < eh * 60 + emin ==>
              IsWithinTimeRange(date, startTime, endTime)
    ensures date.At? && date.hours * 60 + date.minutes == eh * 60 + emin ==> !IsWithinTimeRange(date, startTime, endTime)
    ensures sh * 60 + smin == eh * 60 + emin ==> !IsWithinTimeRange(date, startTime, endTime)
  {
  }

  /** Without restrictions charging is always allowed, and an invalid date fails open. */
  lemma AllowedWithoutRestrictionsOrDate(date: Moment, restrictions: Option<Restrictions>)
    ensures IsChargingAllowed(date, None)
    ensures IsChargingAllowed(Invalid, restrictions)
  {
  }

  /** With allowWeekends absent or true, Saturdays and Sundays are always allowed;
      with it false, a weekend day follows the date and time rules like any other. */
  lemma WeekendExemption(date: Moment, r: Restrictions)
    ensures r.allowWeekends != Some(false) && IsWeekend(date) ==> IsChargingAllowed(date, Some(r))
    ensures r.allowWeekends == Some(false) ==>
              (IsChargingAllowed(date, Some(r)) <==>
               !(IsWithinDateRange(date, r.startDate, r.endDate) && IsWithinTimeRange(date, r.startTime, r.endTime)))
  {
  }

  /** For well-formed restrictions and a valid date, charging is refused exactly when the
      day is not weekend-exempt, its month-day lies in the season and its time in the window. */
  lemma ChargingAllowedCharacterisation(date: Moment, r: Restrictions,
                                        sm: int, sd: int, em: int, ed: int,
                                        sh: int, smin: int, eh: int, emin: int)
    requires date.At?
    requires ParseDate(r.startDate) == MonthDay(Num(sm), Num(sd))
    requires ParseDate(r.endDate) == MonthDay(Num(em), Num(ed))
    requires ParseTime(r.startTime) == TimeOfDay(Num(sh), Num(smin))
    requires ParseTime(r.endTime) == TimeOfDay(Num(eh), Num(emin))
    ensures !IsChargingAllowed(date, Some(r)) <==>
              !(r.allowWeekends != Some(false) && (date.weekday == 0 || date.weekday == 6)) &&
              InSeason(date.month, date.day, sm, sd, em, ed) &&
              sh * 60 + smin <= date.hours * 60 + date.minutes < eh * 60 + emin
  {
    DateRangeIsSeason(date, r.startDate, r.endDate, sm, sd, em, ed);
    TimeWindowHalfOpen(date, r.startTime, r.endTime, sh, smin, eh, emin);
  }

  /** The restriction used in the source's tests: November 1 to March 31, 07:00 to 20:00. */
  const WinterDays := Restrictions("11-01", "03-31", "07:00", "20:00", None)

  /** A field of two decimal digits, a separator and another two digits splits into
      the two fields, and each field has the value its digits spell. */
  lemma TwoDigitFields(s: string, sep: char, d1: char, d2: char, d3: char, d4: char)
    requires !IsDigit(sep) && IsDigit(d1) && IsDigit(d2) && IsDigit(d3) && IsDigit(d4)
    requires s == [d1, d2, sep, d3, d4]
    ensures s == [d1, d2] + [sep] + [d3, d4]
    ensures AllDigits([d1, d2]) && AllDigits([d3, d4])
    ensures DigitsValue([d1, d2]) == (d1 as int - '0' as int) * 10 + (d2 as int - '0' as int)
    ensures DigitsValue([d3, d4]) == (d3 as int - '0' as int) * 10 + (d4 as int - '0' as int)
  {
    assert [d1, d2][..1] == [d1] && [d1][..0] == [];
    assert DigitsValue([d1]) == d1 as int - '0' as int;
    assert [d3, d4][..1] == [d3] && [d3][..0] == [];
    assert DigitsValue([d3]) == d3 as int - '0' as int;
  }

  lemma WinterDaysStartDate() ensures ParseDate(WinterDays.startDate) == MonthDay(Num(11), Num(1)) {
    TwoDigitFields(WinterDays.startDate, '-', '1', '1', '0', '1');
  }

  lemma WinterDaysEndDate() ensures ParseDate(WinterDays.endDate) == MonthDay(Num(3), Num(31)) {
    TwoDigitFields(WinterDays.endDate, '-', '0', '3', '3', '1');
  }

  lemma WinterDaysStartTime() ensures ParseTime(WinterDays.startTime) == TimeOfDay(Num(7), Num(0)) {
    TwoDigitFields(WinterDays.startTime, ':', '0', '7', '0', '0');
  }

  lemma WinterDaysEndTime() ensures ParseTime(WinterDays.endTime) == TimeOfDay(Num(20), Num(0)) {
    TwoDigitFields(WinterDays.endTime, ':', '2', '0', '0', '0');
  }

  /** The restriction of the source's tests, read as a rule on calendar fields. */
  lemma WinterDaysRule(date: Moment)
    requires date.At?
    ensures IsChargingAllowed(date, Some(WinterDays)) <==>
              (date.weekday == 0 || date.weekday == 6) ||
              !(InSeason(date.month, date.day, 11, 1, 3, 31) && 7 * 60 <= date.hours * 60 + date.minutes < 20 * 60)
  {
    WinterDaysStartDate();
    WinterDaysEndDate();
    WinterDaysStartTime();
    WinterDaysEndTime();
    ChargingAllowedCharacterisation(date, WinterDays, 11, 1, 3, 31, 7, 0, 20, 0);
  }

  /** The boundary cases of the source's tests: year wrap, start minute, end minute, end day. */
  lemma WinterDaysExamples()
    ensures !IsChargingAllowed(At(1, 15, 1, 12, 0), Some(WinterDays))
    ensures IsChargingAllowed(At(1, 15, 1, 21, 0), Some(WinterDays))
    ensures !IsChargingAllowed(At(3, 31, 1, 12, 0), Some(WinterDays))
    ensures IsChargingAllowed(At(4, 1, 2, 0, 0), Some(WinterDays))
    ensures !IsChargingAllowed(At(1, 15, 1, 7, 0), Some(WinterDays))
    ensures IsChargingAllowed(At(1, 15, 1, 20, 0), Some(WinterDays))
    ensures IsChargingAllowed(At(10, 31, 4, 12, 0), Some(WinterDays))
  {
    WinterDaysRule(At(1, 15, 1, 12, 0));
    WinterDaysRule(At(1, 15, 1, 21, 0));
    WinterDaysRule(At(3, 31, 1, 12, 0));
    WinterDaysRule(At(4, 1, 2, 0, 0));
    WinterDaysRule(At(1, 15, 1, 7, 0));
    WinterDaysRule(At(1, 15, 1, 20, 0));
    WinterDaysRule(At(10, 31, 4, 12, 0));
  }
}
