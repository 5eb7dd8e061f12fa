/**
 * Validation of a supplement form as it reaches the API: the checks of
 * `validateSupplementInput` in lib/supplements.ts, the same checks plus the
 * missed-days check in lib/utils/validation.ts, and `isValidDateString`.
 * The body is any JSON object; `new Date(value)` is a parameter giving the
 * time value or nothing for an invalid date, and printing a number is a
 * parameter too.
 */
module Validation {
  import opened Common
  import opened Strings
  import opened JsText

  // ---------------------------------------------------------------------------
  // One check per field
  // ---------------------------------------------------------------------------

  type Body = map<string, JsValue>

  /** Some character of `s` is not whitespace. */
  predicate HasText(s: string)
  {
    exists i | 0 <= i < |s| :: !IsWhitespace(s[i])
  }

  /** The name must be a string that is not blank. */
  function NameErrors(data: Body): (r: seq<string>)
    ensures r == [] || r == ["Name is required and must be a non-empty string"]
  {
    var name := Field(data, "name");
    if !Truthy(name) || !name.JStr? || |Trim(name.s)| == 0 then ["Name is required and must be a non-empty string"]
    else []
  }

  lemma NameErrorsMeaning(data: Body)
    ensures NameErrors(data) == [] <==> Field(data, "name").JStr? && HasText(Field(data, "name").s)
  {
    var name := Field(data, "name");
    if name.JStr? {
      BlankMeaning(name.s);
      assert Truthy(name) <==> name.s != "";
    }
  }

  /** Text that is empty or trims to nothing is exactly text without a non-whitespace character. */
  lemma BlankMeaning(s: string)
    ensures (s == "" || |Trim(s)| == 0) <==> !HasText(s)
  {
    TrimEmptyIffBlank(s);
  }

  /** Capsules per take must be a number of at least one. */
  function CapsulesErrors(data: Body): (r: seq<string>)
    ensures r == [] <==> Field(data, "capsules_per_take").JNum? && Field(data, "capsules_per_take").n >= 1.0
    ensures |r| <= 1
  {
    var capsules := Field(data, "capsules_per_take");
    if !Truthy(capsules) || !capsules.JNum? || capsules.n < 1.0 then ["Capsules per take must be a positive number"]
    else []
  }

  /** A value `validTimes.includes` accepts: the text of one of the four slots. */
  predicate IsTimeName(v: JsValue)
  {
    v.JStr? && ParseTimeOfDay(v.s).Some?
  }

  /** `items.filter(keep)`: the elements `keep` holds of, in order. */
  function Kept(items: seq<JsValue>, keep: JsValue -> bool): (r: seq<JsValue>)
    ensures |r| <= |items|
    ensures forall k | 0 <= k < |r| :: keep(r[k])
  {
    if |items| == 0 then []
    else
      var last := items[|items| - 1];
      Kept(items[..|items| - 1], keep) + (if keep(last) then [last] else [])
  }

  /** The filter keeps exactly the elements it holds of. */
  lemma {:induction false} KeptMembers(items: seq<JsValue>, keep: JsValue -> bool, x: JsValue)
    ensures x in Kept(items, keep) <==> x in items && keep(x)
    decreases |items|
  {
    if |items| > 0 {
      var init := items[..|items| - 1];
      KeptMembers(init, keep, x);
      assert items == init + [items[|items| - 1]];
    }
  }

  /** The filter keeps nothing exactly when it holds of no element. */
  lemma {:induction false} KeptEmpty(items: seq<JsValue>, keep: JsValue -> bool)
    ensures Kept(items, keep) == [] <==> forall k | 0 <= k < |items| :: !keep(items[k])
    decreases |items|
  {
    if |items| > 0 {
      var init := items[..|items| - 1];
      KeptEmpty(init, keep);
      assert forall k | 0 <= k < |init| :: init[k] == items[k];
    }
  }

  predicate NamesNoSlot(v: JsValue)
  {
    !IsTimeName(v)
  }

  /** The elements of `time_of_day` that name no slot, in order. */
  function InvalidTimes(items: seq<JsValue>): (r: seq<JsValue>)
    ensures forall k | 0 <= k < |r| :: !IsTimeName(r[k])
  {
    Kept(items, NamesNoSlot)
  }

  /** The filter keeps exactly the elements that name no slot. */
  lemma InvalidTimesMembers(items: seq<JsValue>, x: JsValue)
    ensures x in InvalidTimes(items) <==> x in items && !IsTimeName(x)
  {
    KeptMembers(items, NamesNoSlot, x);
  }

  /** The filter finds nothing exactly when every element names a slot. */
  lemma InvalidTimesEmpty(items: seq<JsValue>)
    ensures InvalidTimes(items) == [] <==> forall k | 0 <= k < |items| :: IsTimeName(items[k])
  {
    KeptEmpty(items, NamesNoSlot);
  }

  /** At least one slot, and every element must name a slot. */
  function TimeOfDayErrors(data: Body, numText: real -> string): (r: seq<string>)
    ensures |r| <= 1
  {
    var times := Field(data, "time_of_day");
    if !Truthy(times) || !times.JArray? || |times.items| == 0 then ["At least one time of day must be specified"]
    else
      var invalidTimes := InvalidTimes(times.items);
      if |invalidTimes| > 0 then ["Invalid time of day values: " + JoinValues(invalidTimes, ", ", numText)]
      else []
  }

  lemma TimeOfDayErrorsMeaning(data: Body, numText: real -> string)
    ensures var v := Field(data, "time_of_day");
      TimeOfDayErrors(data, numText) == [] <==>
        v.JArray? && |v.items| > 0 && forall k | 0 <= k < |v.items| :: IsTimeName(v.items[k])
  {
    var v := Field(data, "time_of_day");
    if v.JArray? {
      InvalidTimesEmpty(v.items);
    }
  }

  /** The start date must be a string that makes a valid date. */
  function StartDateErrors(data: Body, newDate: JsValue -> Option<int>): (r: seq<string>)
    ensures |r| <= 1
    ensures var v := Field(data, "start_date");
      r == [] <==> v.JStr? && v.s != "" && newDate(v).Some?
  {
    var start := Field(data, "start_date");
    if !Truthy(start) || !start.JStr? then ["Start date is required"]
    else if newDate(start).None? then ["Start date must be a valid date"]
    else []
  }

  /**
   * A non-empty string end date must make a valid date that is later than the
   * start date; an invalid start date compares false and lets any valid end
   * date through.
   */
  function EndDateErrors(data: Body, newDate: JsValue -> Option<int>): (r: seq<string>)
    ensures |r| <= 1
    ensures var e := Field(data, "end_date"); var s := newDate(Field(data, "start_date"));
      r == [] <==> !(e.JStr? && e.s != "") || (newDate(e).Some? && (s.None? || s.value < newDate(e).value))
  {
    var end := Field(data, "end_date");
    if Truthy(end) && end.JStr? then
      var endDate := newDate(end);
      var startDate := newDate(Field(data, "start_date"));
      if endDate.None? then ["End date must be a valid date"]
      else if startDate.Some? && endDate.value <= startDate.value then ["End date must be after start date"]
      else []
    else []
  }

  /** An optional text field, when present and truthy, must be a string. */
  function StringFieldErrors(data: Body, key: string, message: string): (r: seq<string>)
    ensures r == [] <==> !Truthy(Field(data, key)) || Field(data, key).JStr?
    ensures r != [] ==> r == [message]
  {
    var v := Field(data, key);
    if Truthy(v) && !v.JStr? then [message] else []
  }

  /**
   * Every error of the shared checks, in the order they are pushed. Each
   * check adds at most one error, so there are never more than nine.
   */
  function ValidationErrors(data: Body, newDate: JsValue -> Option<int>, numText: real -> string): (r: seq<string>)
    ensures |r| <= 9
  {
    var name := NameErrors(data);
    var capsules := CapsulesErrors(data);
    var times := TimeOfDayErrors(data, numText);
    var start := StartDateErrors(data, newDate);
    var end := EndDateErrors(data, newDate);
    var recommendation := StringFieldErrors(data, "recommendation", "Recommendation must be a string");
    var reason := StringFieldErrors(data, "reason", "Reason must be a string");
    var url := StringFieldErrors(data, "source_url", "Source URL must be a string");
    var sourceName := StringFieldErrors(data, "source_name", "Source name must be a string");
    ConcatOfNine(name, capsules, times, start, end, recommendation, reason, url, sourceName);
    name + capsules + times + start + end + recommendation + reason + url + sourceName
  }

  /** Missed days, when present, must be an array whose every element passes the filter. */
  function MissedDaysErrors(data: Body): (r: seq<string>)
    ensures |r| <= 1
  {
    var missed := Field(data, "missed_days");
    if Truthy(missed) && !missed.JArray? then ["Missed days must be an array"]
    else if Truthy(missed) && missed.JArray? then
      if |InvalidMissedDays(missed.items)| > 0 then ["All missed days must be non-empty strings"] else []
    else []
  }

  /** `missed_days.filter(...)`: the days that are not non-blank strings, in order. */
  function InvalidMissedDays(items: seq<JsValue>): (r: seq<JsValue>)
    ensures forall k | 0 <= k < |r| :: BlankDay(r[k])
  {
    Kept(items, BlankDay)
  }

  /** The filter finds nothing exactly when every day passes. */
  lemma InvalidMissedDaysEmpty(items: seq<JsValue>)
    ensures InvalidMissedDays(items) == [] <==> forall k | 0 <= k < |items| :: !BlankDay(items[k])
  {
    KeptEmpty(items, BlankDay);
  }

  /** Missed days pass exactly when they are absent or an array of strings with text. */
  lemma MissedDaysErrorsMeaning(data: Body)
    ensures var v := Field(data, "missed_days");
      MissedDaysErrors(data) == [] <==> (!Truthy(v)
        || (v.JArray? && forall k | 0 <= k < |v.items| :: v.items[k].JStr? && HasText(v.items[k].s)))
  {
    var v := Field(data, "missed_days");
    if Truthy(v) && v.JArray? {
      InvalidMissedDaysEmpty(v.items);
      forall k | 0 <= k < |v.items| {
        BlankDayMeaning(v.items[k]);
      }
    }
  }

  /** A missed day the filter rejects: not a string, or blank once trimmed. */
  predicate BlankDay(v: JsValue)
  {
    !v.JStr? || |Trim(v.s)| == 0
  }

  lemma BlankDayMeaning(v: JsValue)
    ensures BlankDay(v) <==> !(v.JStr? && HasText(v.s))
  {
    if v.JStr? {
      TrimEmptyIffBlank(v.s);
    }
  }

  // ---------------------------------------------------------------------------
  // The validators
  // ---------------------------------------------------------------------------

  datatype ValidationResult = ValidationResult(valid: bool, errors: Option<seq<string>>)

  /** `{ valid: errors.length === 0, errors: errors.length > 0 ? errors : undefined }`. */
  function ResultOf(errors: seq<string>): (r: ValidationResult)
    ensures r.valid <==> errors == []
    ensures r.errors.None? <==> r.valid
    ensures r.errors.Some? ==> r.errors.value == errors
  {
    ValidationResult(|errors| == 0, if |errors| > 0 then Some(errors) else None)
  }

  /** The name check's push. */
  method CheckName(errors: seq<string>, data: Body) returns (result: seq<string>)
    ensures result == errors + NameErrors(data)
  {
    result := errors;
    var name := Field(data, "name");
    if !Truthy(name) || !name.JStr? || |Trim(name.s)| == 0 {
      result := result + ["Name is required and must be a non-empty string"];
    }
  }

  /** The capsules check's push. */
  method CheckCapsules(errors: seq<string>, data: Body) returns (result: seq<string>)
    ensures result == errors + CapsulesErrors(data)
  {
    result := errors;
    var capsules := Field(data, "capsules_per_take");
    if !Truthy(capsules) || !capsules.JNum? || capsules.n < 1.0 {
      result := result + ["Capsules per take must be a positive number"];
    }
  }

  /** The time-of-day check's push. */
  method CheckTimeOfDay(errors: seq<string>, data: Body, numText: real -> string) returns (result: seq<string>)
    ensures result == errors + TimeOfDayErrors(data, numText)
  {
    result := errors;
    var times := Field(data, "time_of_day");
    if !Truthy(times) || !times.JArray? || |times.items| == 0 {
      result := result + ["At least one time of day must be specified"];
    } else {
      var invalidTimes := InvalidTimes(times.items);
      if |invalidTimes| > 0 {
        result := result + ["Invalid time of day values: " + JoinValues(invalidTimes, ", ", numText)];
      }
    }
  }

  /** The start-date check's push. */
  method CheckStartDate(errors: seq<string>, data: Body, newDate: JsValue -> Option<int>) returns (result: seq<string>)
    ensures result == errors + StartDateErrors(data, newDate)
  {
    result := errors;
    var start := Field(data, "start_date");
    if !Truthy(start) || !start.JStr? {
      result := result + ["Start date is required"];
    } else if newDate(start).None? {
      result := result + ["Start date must be a valid date"];
    }
  }

  /** The end-date check's push. */
  method CheckEndDate(errors: seq<string>, data: Body, newDate: JsValue -> Option<int>) returns (result: seq<string>)
    ensures result == errors + EndDateErrors(data, newDate)
  {
    result := errors;
    var end := Field(data, "end_date");
    if Truthy(end) && end.JStr? {
      var endDate := newDate(end);
      var startDate := newDate(Field(data, "start_date"));
      if endDate.None? {
        result := result + ["End date must be a valid date"];
      } else if startDate.Some? && endDate.value <= startDate.value {
        result := result + ["End date must be after start date"];
      }
    }
  }

  /** An optional text field's push. */
  method CheckStringField(errors: seq<string>, data: Body, key: string, message: string) returns (result: seq<string>)
    ensures result == errors + StringFieldErrors(data, key, message)
  {
    result := errors;
    var v := Field(data, key);
    if Truthy(v) && !v.JStr? {
      result := result + [message];
    }
  }

  /** The pushes both validators share, one field after another. */
  method CollectFieldErrors(data: Body, newDate: JsValue -> Option<int>, numText: real -> string)
    returns (errors: seq<string>)
    ensures errors == ValidationErrors(data, newDate, numText)
  {
    errors := CheckName([], data);
    assert errors == NameErrors(data);
    errors := CheckCapsules(errors, data);
    errors := CheckTimeOfDay(errors, data, numText);
    errors := CheckStartDate(errors, data, newDate);
    errors := CheckEndDate(errors, data, newDate);
    errors := CheckStringField(errors, data, "recommendation", "Recommendation must be a string");
    errors := CheckStringField(errors, data, "reason", "Reason must be a string");
    errors := CheckStringField(errors, data, "source_url", "Source URL must be a string");
    errors := CheckStringField(errors, data, "source_name", "Source name must be a string");
  }

  /** `validateSupplementInput` of lib/supplements.ts. */
  method ValidateSupplementInput(data: Body, newDate: JsValue -> Option<int>, numText: real -> string)
    returns (r: ValidationResult)
    ensures r == ResultOf(ValidationErrors(data, newDate, numText))
  {
    var errors := CollectFieldErrors(data, newDate, numText);
    r := ValidationResult(|errors| == 0, if |errors| > 0 then Some(errors) else None);
  }

  /** The missed-days check's push. */
  method CheckMissedDays(errors: seq<string>, data: Body) returns (result: seq<string>)
    ensures result == errors + MissedDaysErrors(data)
  {
    result := errors;
    var missed := Field(data, "missed_days");
    if Truthy(missed) && !missed.JArray? {
      result := result + ["Missed days must be an array"];
    } else if Truthy(missed) && missed.JArray? {
      var invalidDates := InvalidMissedDays(missed.items);
      if |invalidDates| > 0 {
        result := result + ["All missed days must be non-empty strings"];
      }
    }
  }

  /** `validateSupplementInput` of lib/utils/validation.ts: the same checks, then missed days. */
  method ValidateSupplementInputWithMissedDays(data: Body, newDate: JsValue -> Option<int>, numText: real -> string)
    returns (r: ValidationResult)
    ensures r == ResultOf(ValidationErrors(data, newDate, numText) + MissedDaysErrors(data))
  {
    var errors := CollectFieldErrors(data, newDate, numText);
    errors := CheckMissedDays(errors, data);
    r := ValidationResult(|errors| == 0, if |errors| > 0 then Some(errors) else None);
  }

  // ---------------------------------------------------------------------------
  // What the validators promise
  // ---------------------------------------------------------------------------

  /** The form passes exactly when every field holds what the form asks for. */
  predicate WellFormed(data: Body, newDate: JsValue -> Option<int>)
  {
    var name := Field(data, "name");
    var capsules := Field(data, "capsules_per_take");
    var times := Field(data, "time_of_day");
    var start := Field(data, "start_date");
    var end := Field(data, "end_date");
    && name.JStr? && HasText(name.s)
    && capsules.JNum? && capsules.n >= 1.0
    && times.JArray? && |times.items| > 0 && (forall k | 0 <= k < |times.items| :: IsTimeName(times.items[k]))
    && start.JStr? && start.s != "" && newDate(start).Some?
    && (!(end.JStr? && end.s != "") || (newDate(end).Some? && newDate(start).value < newDate(end).value))
    && (!Truthy(Field(data, "recommendation")) || Field(data, "recommendation").JStr?)
    && (!Truthy(Field(data, "reason")) || Field(data, "reason").JStr?)
    && (!Truthy(Field(data, "source_url")) || Field(data, "source_url").JStr?)
    && (!Truthy(Field(data, "source_name")) || Field(data, "source_name").JStr?)
  }

  lemma ValidIffWellFormed(data: Body, newDate: JsValue -> Option<int>, numText: real -> string)
    ensures ValidationErrors(data, newDate, numText) == [] <==> WellFormed(data, newDate)
  {
    NameErrorsMeaning(data);
    TimeOfDayErrorsMeaning(data, numText);
    NoneOfNine(NameErrors(data), CapsulesErrors(data), TimeOfDayErrors(data, numText),
      StartDateErrors(data, newDate), EndDateErrors(data, newDate),
      StringFieldErrors(data, "recommendation", "Recommendation must be a string"),
      StringFieldErrors(data, "reason", "Reason must be a string"),
      StringFieldErrors(data, "source_url", "Source URL must be a string"),
      StringFieldErrors(data, "source_name", "Source name must be a string"));
  }

  lemma NoneOfNine(a: seq<string>, b: seq<string>, c: seq<string>, d: seq<string>, e: seq<string>,
                   f: seq<string>, g: seq<string>, h: seq<string>, i: seq<string>)
    ensures a + b + c + d + e + f + g + h + i == []
      <==> a == [] && b == [] && c == [] && d == [] && e == [] && f == [] && g == [] && h == [] && i == []
  {
    assert |a + b + c + d + e + f + g + h + i| == |a| + |b| + |c| + |d| + |e| + |f| + |g| + |h| + |i|;
  }

  lemma ConcatOfNine(a: seq<string>, b: seq<string>, c: seq<string>, d: seq<string>, e: seq<string>,
                     f: seq<string>, g: seq<string>, h: seq<string>, i: seq<string>)
    requires |a| <= 1 && |b| <= 1 && |c| <= 1 && |d| <= 1 && |e| <= 1
    requires |f| <= 1 && |g| <= 1 && |h| <= 1 && |i| <= 1
    ensures |a + b + c + d + e + f + g + h + i| <= 9
  {
  }

  /** An end date on or before a valid start date is reported as such. */
  lemma EndNotAfterStartReported(data: Body, newDate: JsValue -> Option<int>, numText: real -> string)
    requires Field(data, "end_date").JStr? && Field(data, "end_date").s != ""
    requires newDate(Field(data, "end_date")).Some? && newDate(Field(data, "start_date")).Some?
    requires newDate(Field(data, "end_date")).value <= newDate(Field(data, "start_date")).value
    ensures "End date must be after start date" in ValidationErrors(data, newDate, numText)
  {
    assert EndDateErrors(data, newDate) == ["End date must be after start date"];
  }

  /** Without missed days the two validators agree. */
  lemma ValidatorsAgreeWithoutMissedDays(data: Body, newDate: JsValue -> Option<int>, numText: real -> string)
    requires !Truthy(Field(data, "missed_days"))
    ensures ValidationErrors(data, newDate, numText) + MissedDaysErrors(data) == ValidationErrors(data, newDate, numText)
  {
  }

  // ---------------------------------------------------------------------------
  // isValidDateString
  // ---------------------------------------------------------------------------

  predicate IsDigit(c: char) { '0' <= c <= '9' }

  predicate AllDigits(s: string) { forall i | 0 <= i < |s| :: IsDigit(s[i]) }

  /** The text `/^\d{4}-\d{2}-\d{2}$/` accepts. */
  predicate DateShape(s: string)
  {
    |s| == 10 && s[4] == '-' && s[7] == '-'
    && AllDigits(s[..4]) && AllDigits(s[5..7]) && AllDigits(s[8..])
  }

  /** `n` written with exactly `width` digits, keeping the low ones. */
  function PadDigits(n: nat, width: nat): (r: string)
    ensures |r| == width && AllDigits(r)
  {
    if width == 0 then "" else PadDigits(n / 10, width - 1) + [DigitChar(n % 10)]
  }

  function Pow10(k: nat): (r: nat)
    ensures r >= 1
  {
    if k == 0 then 1 else 10 * Pow10(k - 1)
  }

  lemma DivModTen(a: nat, d: nat)
    requires d < 10
    ensures (a * 10 + d) / 10 == a && (a * 10 + d) % 10 == d
  {
  }

  /** Padding the value of a digit string gives the string back. */
  lemma {:induction false} PadDigitsOfValue(s: string)
    requires AllDigits(s)
    ensures PadDigits(DigitsValue(s), |s|) == s
    decreases |s|
  {
    if |s| > 0 {
      var init := s[..|s| - 1];
      var d := s[|s| - 1] as int - '0' as int;
      PadDigitsOfValue(init);
      DivModTen(DigitsValue(init), d);
      assert DigitChar(d) == s[|s| - 1];
      assert s == init + [s[|s| - 1]];
    }
  }

  /** Reading a padded number back gives the number when it fits. */
  lemma {:induction false} ValueOfPadDigits(n: nat, width: nat)
    requires n < Pow10(width)
    ensures DigitsValue(PadDigits(n, width)) == n
    decreases width
  {
    if width > 0 {
      var r := PadDigits(n, width);
      ValueOfPadDigits(n / 10, width - 1);
      assert r[..|r| - 1] == PadDigits(n / 10, width - 1);
      assert DigitChar(n % 10) as int - '0' as int == n % 10;
    }
  }

  predicate IsLeapYear(y: int)
  {
    (y % 4 == 0 && y % 100 != 0) || y % 400 == 0
  }

  /** The number of days in a month of the Gregorian calendar. */
  function DaysInMonth(year: int, month: int): (r: int)
    requires 1 <= month <= 12
    ensures 28 <= r <= 31
    ensures month == 12 ==> r == 31
  {
    if month == 2 then (if IsLeapYear(year) then 29 else 28)
    else if month == 4 || month == 6 || month == 9 || month == 11 then 30
    else 31
  }

  datatype CalendarDate = CalendarDate(year: nat, month: nat, day: nat)

  /**
   * The UTC calendar day V8 makes of a date-only ISO string: a month outside
   * 1-12 or a day outside 1-31 is an invalid date; a day past the end of its
   * month runs on into the next month.
   */
  function ParseIsoDate(year: nat, month: nat, day: nat): (r: Option<CalendarDate>)
    ensures r.Some? ==> 1 <= month <= 12 && 1 <= r.value.month <= 12 && r.value.year == year
    ensures r.Some? && day <= DaysInMonth(year, month) ==> r.value == CalendarDate(year, month, day)
    ensures r.Some? && day > DaysInMonth(year, month) ==> r.value.month == month + 1
  {
    if month < 1 || month > 12 || day < 1 || day > 31 then None
    else if day <= DaysInMonth(year, month) then Some(CalendarDate(year, month, day))
    else Some(CalendarDate(year, month + 1, day - DaysInMonth(year, month)))
  }

  /** The date part of `toISOString()` for a year of at most four digits. */
  function IsoDateText(c: CalendarDate): string
  {
    PadDigits(c.year, 4) + "-" + PadDigits(c.month, 2) + "-" + PadDigits(c.day, 2)
  }

  /**
   * `isValidDateString`: the shape, then a date whose ISO text is the input.
   * A passing string has a month from 1 to 12 and a day from 1 to 31;
   * `ValidDateStringIffRealDay` bounds the day by its month.
   */
  function IsValidDateString(s: string): (r: bool)
    ensures r ==> DateShape(s) && 1 <= DigitsValue(s[5..7]) <= 12 && 1 <= DigitsValue(s[8..]) <= 31
  {
    if !DateShape(s) then false
    else
      match ParseIsoDate(DigitsValue(s[..4]), DigitsValue(s[5..7]), DigitsValue(s[8..]))
      case None => false
      case Some(c) => IsoDateText(c) == s
  }

  /** The text of a well-shaped date is its three padded parts. */
  lemma ShapeIsPaddedParts(s: string)
    requires DateShape(s)
    ensures IsoDateText(CalendarDate(DigitsValue(s[..4]), DigitsValue(s[5..7]), DigitsValue(s[8..]))) == s
  {
    PadDigitsOfValue(s[..4]);
    PadDigitsOfValue(s[5..7]);
    PadDigitsOfValue(s[8..]);
    assert s == s[..4] + "-" + s[5..7] + "-" + s[8..];
  }

  /**
   * A string passes exactly when it has the YYYY-MM-DD shape and names a day
   * that exists: a month from 1 to 12 and a day within that month, leap years
   * included. A day that V8 would roll into the next month is refused.
   */
  lemma ValidDateStringIffRealDay(s: string)
    ensures IsValidDateString(s) <==>
      DateShape(s)
      && 1 <= DigitsValue(s[5..7]) <= 12
      && 1 <= DigitsValue(s[8..]) <= DaysInMonth(DigitsValue(s[..4]), DigitsValue(s[5..7]))
  {
    if DateShape(s) {
      var y, m, d := DigitsValue(s[..4]), DigitsValue(s[5..7]), DigitsValue(s[8..]);
      ShapeIsPaddedParts(s);
      if 1 <= m <= 12 && 1 <= d <= 31 && d > DaysInMonth(y, m) {
        RolledMonthShows(ParseIsoDate(y, m, d).value);
      }
    }
  }

  /** The month field of the ISO text shows the month itself. */
  lemma RolledMonthShows(c: CalendarDate)
    requires c.month <= 13
    ensures DigitsValue(IsoDateText(c)[5..7]) == c.month
  {
    var text := IsoDateText(c);
    assert text[5..7] == PadDigits(c.month, 2);
    assert Pow10(2) == 100;
    ValueOfPadDigits(c.month, 2);
  }
}
