/** Reading a cron expression and a clock phrase. */
module CronParse {
  import opened Wrappers
  import opened Text
  import opened Calendar
  import opened Cron

  // --- one field --------------------------------------------------------------

  /** First value, last value and step of one comma-separated part. */
  datatype Range = Range(start: nat, end: nat, step: nat)

  /** `text.split(sep, 1)` when `sep` occurs: what is before and what is after the first one. */
  function Cut(text: string, sep: char): (string, string)
    requires sep in text
  {
    (text[..Find(text, sep)], text[Find(text, sep) + 1..])
  }

  /** The base of a part: `*`, nothing, `a-b` or one number. */
  function ParseBase(base: string, lo: int, hi: int): Option<(int, int)> {
    if base == "*" || base == "" then Some((lo, hi))
    else if '-' in base then
      match (PyInt(Cut(base, '-').0), PyInt(Cut(base, '-').1))
      case (Some(a), Some(b)) => Some((a, b))
      case _ => None
    else
      match PyInt(base)
      case Some(a) => Some((a, a))
      case None => None
  }

  function ParsePart(raw: string, lo: nat, hi: nat): (r: Option<Range>)
    ensures r.Some? ==> InField(r.value, lo, hi)
  {
    var part := Strip(raw);
    var step := if '/' in part then PyInt(Cut(part, '/').1) else Some(1);
    var base := if '/' in part then Cut(part, '/').0 else part;
    if step.None? || step.value <= 0 then None
    else
      match ParseBase(base, lo, hi)
      case None => None
      case Some((start, end)) =>
        if start < lo || end > hi || start > end then None else Some(Range(start, end, step.value))
  }

  predicate InField(r: Range, lo: nat, hi: nat) {
    lo <= r.start <= r.end <= hi && r.step > 0
  }

  predicate Hits(r: Range, v: nat) {
    && r.step > 0 && r.start <= v <= r.end && (v - r.start) % r.step == 0
  }

  /** `range(start, end + 1, step)` as a set of field values. */
  function Values(r: Range): set<nat> {
    set v: nat | v <= r.end && Hits(r, v)
  }

  function Union(ranges: seq<Option<Range>>): Option<set<nat>> {
    if ranges == [] then Some({})
    else
      match (Union(ranges[..|ranges| - 1]), ranges[|ranges| - 1])
      case (Some(vs), Some(r)) => Some(vs + Values(r))
      case _ => None
  }

  function ParseParts(parts: seq<string>, lo: nat, hi: nat): (ranges: seq<Option<Range>>)
    ensures |ranges| == |parts|
    ensures forall i :: 0 <= i < |parts| ==> ranges[i] == ParsePart(parts[i], lo, hi)
    ensures forall r <- ranges :: r.Some? ==> InField(r.value, lo, hi)
  {
    seq(|parts|, i requires 0 <= i < |parts| => ParsePart(parts[i], lo, hi))
  }

  /** What `_parse_field` returns; None where it raises. */
  function FieldOf(field: string, lo: nat, hi: nat): Option<set<nat>> {
    Union(ParseParts(Split(field, ','), lo, hi))
  }

  lemma UnionSnoc(ranges: seq<Option<Range>>, r: Option<Range>)
    ensures Union(ranges + [r]) ==
            (if Union(ranges).Some? && r.Some? then Some(Union(ranges).value + Values(r.value)) else None)
  {
    assert (ranges + [r])[..|ranges|] == ranges;
  }

  lemma {:induction false} UnionFails(ranges: seq<Option<Range>>, i: nat)
    requires i <= |ranges| && Union(ranges[..i]).None?
    ensures Union(ranges).None?
    decreases |ranges|
  {
    if i == |ranges| {
      assert ranges[..i] == ranges;
    } else {
      assert ranges[..|ranges| - 1][..i] == ranges[..i];
      UnionFails(ranges[..|ranges| - 1], i);
    }
  }

  /** `_parse_field`: a set filled part by part. */
  method ParseField(field: string, lo: nat, hi: nat) returns (r: Option<set<nat>>)
    ensures r == FieldOf(field, lo, hi)
  {
    var parts := Split(field, ',');
    ghost var ranges := ParseParts(parts, lo, hi);
    var values: set<nat> := {};
    for i := 0 to |parts|
      invariant Union(ranges[..i]) == Some(values)
    {
      var range := ParsePart(parts[i], lo, hi);
      assert range == ranges[i];
      assert ranges[..i + 1] == ranges[..i] + [range];
      UnionSnoc(ranges[..i], range);
      if range.None? {
        UnionFails(ranges, i + 1);
        return None;
      }
      values := values + Values(range.value);
    }
    assert ranges[..|parts|] == ranges;
    return Some(values);
  }

  /** A parsed field is never empty and never leaves its range. */
  lemma FieldInRange(field: string, lo: nat, hi: nat)
    requires FieldOf(field, lo, hi).Some?
    ensures FieldOf(field, lo, hi).value != {}
    ensures forall v <- FieldOf(field, lo, hi).value :: lo <= v <= hi
  {
    UnionInRange(ParseParts(Split(field, ','), lo, hi), lo, hi);
  }

  lemma {:induction false} UnionInRange(ranges: seq<Option<Range>>, lo: nat, hi: nat)
    requires Union(ranges).Some? && forall r <- ranges :: r.Some? ==> InField(r.value, lo, hi)
    ensures ranges != [] ==> Union(ranges).value != {}
    ensures forall v <- Union(ranges).value :: lo <= v <= hi
  {
    if ranges != [] {
      UnionInRange(ranges[..|ranges| - 1], lo, hi);
      var r := ranges[|ranges| - 1];
      assert r in ranges;
      assert Hits(r.value, r.value.start);
      assert r.value.start in Values(r.value);
    }
  }

  /** A value is in the field exactly when one of its parts steps onto it. */
  lemma FieldMembers(field: string, lo: nat, hi: nat, v: nat)
    requires FieldOf(field, lo, hi).Some?
    ensures v in FieldOf(field, lo, hi).value <==>
              exists part :: part in Split(field, ',') && ParsePart(part, lo, hi).Some?
                && Hits(ParsePart(part, lo, hi).value, v)
  {
    var parts := Split(field, ',');
    var ranges := ParseParts(parts, lo, hi);
    UnionMembers(ranges, v);
    if v in Union(ranges).value {
      var i :| 0 <= i < |ranges| && ranges[i].Some? && Hits(ranges[i].value, v);
      assert parts[i] in parts;
    }
    if part :| part in parts && ParsePart(part, lo, hi).Some? && Hits(ParsePart(part, lo, hi).value, v) {
      var i :| 0 <= i < |parts| && parts[i] == part;
      assert ranges[i].Some? && Hits(ranges[i].value, v);
    }
  }

  lemma {:induction false} UnionMembers(ranges: seq<Option<Range>>, v: nat)
    requires Union(ranges).Some?
    ensures v in Union(ranges).value <==>
              exists i :: 0 <= i < |ranges| && ranges[i].Some? && Hits(ranges[i].value, v)
  {
    if ranges != [] {
      var n := |ranges| - 1;
      UnionMembers(ranges[..n], v);
      assert v in Union(ranges).value <==> v in Union(ranges[..n]).value || Hits(ranges[n].value, v);
      assert forall i :: 0 <= i < n ==> ranges[..n][i] == ranges[i];
    }
  }

  // --- printing and reading back -----------------------------------------------

  /** A decimal numeral holds no separator of the cron syntax. */
  lemma DecimalPlain(n: nat)
    ensures var s := Decimal(n);
            && ',' !in s && '/' !in s && '-' !in s && s != "*" && s != "" && NoSpace(s)
  {
    var s := Decimal(n);
    DigitsPlain(s, 10);
    assert DigitValue(',').None? && DigitValue('/').None? && DigitValue('-').None? && DigitValue('*').None?;
    assert s == "*" ==> '*' in s;
  }

  lemma OneNumber(n: nat, lo: nat, hi: nat)
    requires lo <= n <= hi
    ensures ParsePart(Decimal(n), lo, hi) == Some(Range(n, n, 1))
  {
    DecimalPlain(n);
    StripNoSpace(Decimal(n));
    PyIntDecimal(n);
  }

  function Decimals(values: seq<nat>): (parts: seq<string>)
    ensures |parts| == |values| && forall i :: 0 <= i < |values| ==> parts[i] == Decimal(values[i])
  {
    seq(|values|, i requires 0 <= i < |values| => Decimal(values[i]))
  }

  /** Every list of allowed values, printed with commas, is read back as that set. */
  lemma FieldRoundTrip(values: seq<nat>, lo: nat, hi: nat)
    requires values != [] && forall v <- values :: lo <= v <= hi
    ensures FieldOf(Join(Decimals(values), ','), lo, hi) == Some(SetOf(values))
  {
    var parts := Decimals(values);
    forall p | p in parts ensures ',' !in p {
      var i :| 0 <= i < |parts| && parts[i] == p;
      DecimalPlain(values[i]);
    }
    SplitJoin(parts, ',');
    forall i | 0 <= i < |values| ensures ParsePart(parts[i], lo, hi) == Some(Range(values[i], values[i], 1)) {
      assert values[i] in values;
      OneNumber(values[i], lo, hi);
    }
    assert ParseParts(parts, lo, hi) == Singles(values);
    UnionOfSingles(values);
  }

  function Singles(values: seq<nat>): seq<Option<Range>> {
    seq(|values|, i requires 0 <= i < |values| => Some(Range(values[i], values[i], 1)))
  }

  function SetOf(values: seq<nat>): set<nat> {
    set v | v in values
  }

  lemma {:induction false} UnionOfSingles(values: seq<nat>)
    ensures Union(Singles(values)) == Some(SetOf(values))
  {
    if values == [] {
      assert Singles(values) == [] && SetOf(values) == {};
    } else {
      var front, last := values[..|values| - 1], values[|values| - 1];
      UnionOfSingles(front);
      assert Singles(values) == Singles(front) + [Some(Range(last, last, 1))];
      UnionSnoc(Singles(front), Some(Range(last, last, 1)));
      OneValue(last);
      assert values == front + [last];
      assert SetOf(values) == SetOf(front) + {last};
    }
  }

  lemma OneValue(n: nat)
    ensures Values(Range(n, n, 1)) == {n}
  {
    assert Hits(Range(n, n, 1), n);
  }

  // --- the expression -------------------------------------------------------------

  /** `parse_cron`; None where it raises. */
  function ParseCron(expr: string): Option<Cron> {
    ParseFields(Words(expr))
  }

  function ParseFields(fields: seq<string>): Option<Cron> {
    if |fields| != 5 then None
    else
      match (FieldOf(fields[0], 0, 59), FieldOf(fields[1], 0, 23), FieldOf(fields[2], 1, 31),
             FieldOf(fields[3], 1, 12), FieldOf(fields[4], 0, 6))
      case (Some(minutes), Some(hours), Some(doms), Some(months), Some(dows)) =>
        Some(Cron(minutes, hours, doms, months, dows, Strip(fields[2]) == "*", Strip(fields[4]) == "*"))
      case _ => None
  }

  /** `parse_cron` only returns what `SatisfiableFires` asks for. */
  lemma ParsedIsWellFormed(expr: string)
    requires ParseCron(expr).Some?
    ensures WellFormed(ParseCron(expr).value)
  {
    var fields := Words(expr);
    FieldInRange(fields[0], 0, 59);
    FieldInRange(fields[1], 0, 23);
    FieldInRange(fields[2], 1, 31);
    FieldInRange(fields[3], 1, 12);
    FieldInRange(fields[4], 0, 6);
  }

  /** From text to fire time: a satisfiable expression without the leap-day gap always has one. */
  lemma ParsedExpressionFires(expr: string, after: nat)
    requires ParseCron(expr).Some? && after >= DAY * MICROS
    requires Satisfiable(ParseCron(expr).value) && !OnlyLeapDay(ParseCron(expr).value)
    ensures NextCron(ParseCron(expr).value, after).Some?
  {
    ParsedIsWellFormed(expr);
    SatisfiableFires(ParseCron(expr).value, after);
  }

  // --- clock phrases ----------------------------------------------------------------

  datatype DayWord = Today | Tomorrow | Bare
  datatype Meridiem = Am | Pm | NoMeridiem

  /** The hour on the 24-hour clock, not yet checked. */
  function Hour24(hour: nat, meridiem: Meridiem): nat {
    if meridiem == Pm && hour != 12 then hour + 12
    else if meridiem == Am && hour == 12 then 0
    else hour
  }

  /** `_from_clock`: the minute a clock phrase names, seen from the instant `ref`. */
  method FromClock(word: DayWord, hour: nat, minute: nat, meridiem: Meridiem, ref: nat)
    returns (r: Option<nat>)
    ensures r == ClockMinute(word, hour, minute, meridiem, ref)
  {
    var h := hour;
    if meridiem == Pm && h != 12 {
      h := h + 12;
    } else if meridiem == Am && h == 12 {
      h := 0;
    }
    if h > 23 || minute > 59 {
      return None;
    }
    var target := ref / (DAY * MICROS) * DAY + h * 60 + minute;
    if word == Tomorrow {
      target := target + DAY;
    } else if word != Today && target * MICROS <= ref {
      target := target + DAY;
    }
    return Some(target);
  }

  function ClockMinute(word: DayWord, hour: nat, minute: nat, meridiem: Meridiem, ref: nat): Option<nat> {
    var h := Hour24(hour, meridiem);
    if h > 23 || minute > 59 then None
    else
      var target := ref / (DAY * MICROS) * DAY + h * 60 + minute;
      if word == Tomorrow || (word == Bare && target * MICROS <= ref) then Some(target + DAY) else Some(target)
  }

  /** The daily expression for one time of day. */
  function DailyExpression(hour: nat, minute: nat): string {
    Join([Decimal(minute), Decimal(hour), "*", "*", "*"], ' ')
  }

  /** What `*` stands for. */
  function Every(lo: nat, hi: nat): set<nat> {
    Values(Range(lo, hi, 1))
  }

  function Daily(hour: nat, minute: nat): Cron {
    Cron({minute}, {hour}, Every(1, 31), Every(1, 12), Every(0, 6), true, true)
  }

  lemma StarField(lo: nat, hi: nat)
    requires lo <= hi
    ensures FieldOf("*", lo, hi) == Some(Every(lo, hi))
  {
    var star := "*";
    assert |star| == 1 && star[0] == '*';
    assert ',' !in star && '/' !in star;
    assert Split(star, ',') == [star];
    StripNoSpace(star);
    assert ParsePart(star, lo, hi) == Some(Range(lo, hi, 1));
    assert ParseParts([star], lo, hi) == [] + [Some(Range(lo, hi, 1))];
    UnionSnoc([], Some(Range(lo, hi, 1)));
    assert Union([]) == Some({});
    assert {} + Every(lo, hi) == Every(lo, hi);
  }

  lemma NumberField(n: nat, lo: nat, hi: nat)
    requires lo <= n <= hi
    ensures FieldOf(Decimal(n), lo, hi) == Some({n})
  {
    FieldRoundTrip([n], lo, hi);
    assert Decimals([n]) == [Decimal(n)];
    assert Join([Decimal(n)], ',') == Decimal(n);
    assert SetOf([n]) == {n};
  }

  lemma DailyWords(hour: nat, minute: nat)
    ensures Words(DailyExpression(hour, minute)) == [Decimal(minute), Decimal(hour), "*", "*", "*"]
  {
    var words := [Decimal(minute), Decimal(hour), "*", "*", "*"];
    DecimalPlain(minute);
    DecimalPlain(hour);
    WordsJoin(words);
  }

  lemma DailyParses(hour: nat, minute: nat)
    requires hour <= 23 && minute <= 59
    ensures ParseCron(DailyExpression(hour, minute)) == Some(Daily(hour, minute))
  {
    DailyWords(hour, minute);
    DailyFields(hour, minute, Decimal(hour), Decimal(minute));
  }

  lemma DailyFields(hour: nat, minute: nat, hourText: string, minuteText: string)
    requires hour <= 23 && minute <= 59 && hourText == Decimal(hour) && minuteText == Decimal(minute)
    ensures ParseFields([minuteText, hourText, "*", "*", "*"]) == Some(Daily(hour, minute))
  {
    NumberField(minute, 0, 59);
    NumberField(hour, 0, 23);
    StarField(1, 31);
    StarField(1, 12);
    StarField(0, 6);
    StripNoSpace("*");
  }

  /** A bare clock phrase gives the same minute as the daily expression for that time. */
  lemma ClockIsDailyCron(hour: nat, minute: nat, meridiem: Meridiem, ref: nat, h: nat, daily: string)
    requires h == Hour24(hour, meridiem) && daily == DailyExpression(h, minute)
    requires ref >= DAY * MICROS && h <= 23 && minute <= 59
    ensures ParseCron(daily).Some?
    ensures ClockMinute(Bare, hour, minute, meridiem, ref) == NextCron(ParseCron(daily).value, ref)
  {
    DailyParses(h, minute);
    ClockIsDailyScan(h, minute, ref);
    SameClock(hour, minute, meridiem, ref);
  }

  lemma SameClock(hour: nat, minute: nat, meridiem: Meridiem, ref: nat)
    ensures ClockMinute(Bare, hour, minute, meridiem, ref) ==
            ClockMinute(Bare, Hour24(hour, meridiem), minute, NoMeridiem, ref)
  {
  }

  lemma ClockIsDailyScan(h: nat, minute: nat, ref: nat)
    requires ref >= DAY * MICROS && h <= 23 && minute <= 59
    ensures ClockMinute(Bare, h, minute, NoMeridiem, ref) == NextCron(Daily(h, minute), ref)
  {
    var c := Daily(h, minute);
    var target := ClockMinute(Bare, h, minute, NoMeridiem, ref).value;
    var first := FirstMinute(ref);
    var today := ref / (DAY * MICROS);
    TodayHolds(ref);
    DailyFires(c, h, minute);
    JoinMinute(today, h, minute);
    JoinMinute(today + 1, h, minute);
    StrictlyAfter(ref, target);
    StrictlyAfter(ref, today * DAY + h * 60 + minute);
    assert first <= target <= first + MAX_SCAN_DAYS * DAY && Fires(target, c);
    forall u | first <= u < target ensures !Fires(u, c) {
      NoEarlier(h, minute, ref, u);
    }
    ScanSkips(c, first, target, first + MAX_SCAN_DAYS * DAY);
  }

  /** Between the reference and the target no minute has the wanted time of day. */
  lemma NoEarlier(h: nat, minute: nat, ref: nat, u: nat)
    requires ref >= DAY * MICROS && h <= 23 && minute <= 59
    requires FirstMinute(ref) <= u < ClockMinute(Bare, h, minute, NoMeridiem, ref).value
    ensures !(u % DAY / 60 == h && u % 60 == minute)
  {
    var today := ref / (DAY * MICROS);
    TodayHolds(ref);
    SplitMinute(u);
    StrictlyAfter(ref, today * DAY + h * 60 + minute);
    assert u / DAY == today || u / DAY == today + 1;
  }

  lemma TodayHolds(ref: nat)
    requires ref >= DAY * MICROS
    ensures var today := ref / (DAY * MICROS);
            1 <= today && today * DAY + 1 <= FirstMinute(ref) <= today * DAY + DAY
  {
  }

  lemma DailyFires(c: Cron, hour: nat, minute: nat)
    requires hour <= 23 && minute <= 59
    requires c == Daily(hour, minute)
    ensures forall t :: t >= DAY ==> (Fires(t, c) <==> t % DAY / 60 == hour && t % 60 == minute)
  {
    forall n: nat | n >= 1 ensures DayMatches(n, c) {
      assert Hits(Range(1, 12, 1), DateOf(n).month);
    }
  }

  /** The 12-hour clock: 12am is midnight, 12pm is noon, and only 0 to 12 can be pm. */
  lemma TwelveHourClock(hour: nat)
    ensures 1 <= hour <= 12 ==> Hour24(hour, Am) == hour % 12 && Hour24(hour, Pm) == hour % 12 + 12
    ensures Hour24(hour, Pm) <= 23 <==> hour <= 12
  {
  }
}
