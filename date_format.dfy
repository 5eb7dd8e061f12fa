/**
 * The date helpers of lib/utils.ts: the English ordinal suffix of a day, and
 * the guards of the long and short formatters. `Intl.DateTimeFormat`, the
 * local day of a time value and `new Date(text)` are parameters.
 */
module DateFormat {
  import opened Common
  import opened Strings

  // ---------------------------------------------------------------------------
  // Ordinal suffix
  // ---------------------------------------------------------------------------

  /** JavaScript's `a % 10`: the sign follows the dividend. */
  function JsRemTen(a: int): (r: int)
    ensures -9 <= r <= 9
    ensures a >= 0 ==> r == a % 10
  {
    if a >= 0 then a % 10 else -((-a) % 10)
  }

  /** `getOrdinalSuffix`: "th" for 11 to 13, otherwise by the last digit. */
  function GetOrdinalSuffix(day: int): (r: string)
    ensures r in {"st", "nd", "rd", "th"}
    ensures 11 <= day <= 13 ==> r == "th"
    ensures !(11 <= day <= 13) && day >= 0 ==>
      (r == "st" <==> day % 10 == 1) && (r == "nd" <==> day % 10 == 2) && (r == "rd" <==> day % 10 == 3)
    ensures day < 0 ==> r == "th"
  {
    if 11 <= day <= 13 then "th"
    else
      var lastDigit := JsRemTen(day);
      if lastDigit == 1 then "st"
      else if lastDigit == 2 then "nd"
      else if lastDigit == 3 then "rd"
      else "th"
  }

  /** The days of a month read "1st", "2nd", "3rd", "11th", "12th", "13th", "21st", "22nd", "23rd", "31st". */
  lemma OrdinalSuffixOfMonthDays()
    ensures GetOrdinalSuffix(1) == "st" && GetOrdinalSuffix(2) == "nd" && GetOrdinalSuffix(3) == "rd"
    ensures GetOrdinalSuffix(4) == "th" && GetOrdinalSuffix(11) == "th" && GetOrdinalSuffix(12) == "th"
    ensures GetOrdinalSuffix(13) == "th" && GetOrdinalSuffix(21) == "st" && GetOrdinalSuffix(22) == "nd"
    ensures GetOrdinalSuffix(23) == "rd" && GetOrdinalSuffix(31) == "st"
  {
  }

  // ---------------------------------------------------------------------------
  // First occurrence and String.prototype.replace
  // ---------------------------------------------------------------------------

  /** The first index at or after `from` where `pat` occurs, if any. */
  function IndexFrom(s: string, pat: string, from: nat): (r: Option<nat>)
    requires from <= |s| + 1
    ensures r.Some? ==> from <= r.value && OccursAt(s, pat, r.value)
    ensures r.Some? ==> forall j | from <= j < r.value :: !OccursAt(s, pat, j)
    ensures r.None? ==> forall j | from <= j <= |s| :: !OccursAt(s, pat, j)
    decreases |s| + 1 - from
  {
    if from > |s| then None
    else if OccursAt(s, pat, from) then Some(from)
    else IndexFrom(s, pat, from + 1)
  }

  /** `s.replace(pat, rep)` with a text pattern: only the first occurrence is replaced. */
  function ReplaceFirst(s: string, pat: string, rep: string): (r: string)
    ensures !Contains(s, pat) ==> r == s
  {
    match IndexFrom(s, pat, 0)
    case None => s
    case Some(i) => s[..i] + rep + s[i + |pat|..]
  }

  /** Replacing a first occurrence keeps what comes before it and puts `rep` in its place. */
  lemma ReplaceFirstAtLeftmost(s: string, pat: string, rep: string, i: nat)
    requires OccursAt(s, pat, i)
    requires forall j | 0 <= j < i :: !OccursAt(s, pat, j)
    ensures ReplaceFirst(s, pat, rep) == s[..i] + rep + s[i + |pat|..]
    ensures OccursAt(ReplaceFirst(s, pat, rep), rep, i)
  {
    var r := ReplaceFirst(s, pat, rep);
    assert r[i..i + |rep|] == rep;
  }

  // ---------------------------------------------------------------------------
  // The formatters
  // ---------------------------------------------------------------------------

  /** What a formatter receives: nothing, a text, or a Date object (an invalid one has no time value). */
  datatype DateInput = NoDate | DateText(text: string) | DateObject(time: Option<int>)

  /** `!date`: null, undefined and the empty text are falsy; a Date object never is. */
  predicate Falsy(date: DateInput)
  {
    date.NoDate? || (date.DateText? && date.text == "")
  }

  /** The time value a formatter works on, if the input is truthy and valid. */
  function TimeOf(date: DateInput, parseDate: string -> Option<int>): (r: Option<int>)
    ensures Falsy(date) ==> r.None?
    ensures date.DateText? && date.text != "" ==> r == parseDate(date.text)
    ensures date.DateObject? ==> r == date.time
  {
    match date
    case NoDate => None
    case DateText(text) => if text == "" then None else parseDate(text)
    case DateObject(time) => time
  }

  /**
   * `formatDateLong`: "" for a falsy or invalid input; otherwise the formatted
   * text with its first " D," turned into " Dth," (with the day's suffix).
   */
  function FormatDateLong(date: DateInput, parseDate: string -> Option<int>, longFormat: int -> string, dayOf: int -> nat): (r: string)
    ensures TimeOf(date, parseDate).None? ==> r == ""
    ensures var t := TimeOf(date, parseDate);
      t.Some? && !Contains(longFormat(t.value), " " + NatToString(dayOf(t.value)) + ",") ==> r == longFormat(t.value)
  {
    match TimeOf(date, parseDate)
    case None => ""
    case Some(t) =>
      var formatted := longFormat(t);
      var day := dayOf(t);
      var dayText := NatToString(day);
      ReplaceFirst(formatted, " " + dayText + ",", " " + dayText + GetOrdinalSuffix(day) + ",")
  }

  /** The long format of a day puts its ordinal where the formatter put the plain day. */
  lemma LongFormatAddsOrdinal(t: int, parseDate: string -> Option<int>, longFormat: int -> string, dayOf: int -> nat, i: nat)
    requires var pat := " " + NatToString(dayOf(t)) + ",";
      OccursAt(longFormat(t), pat, i) && forall j | 0 <= j < i :: !OccursAt(longFormat(t), pat, j)
    ensures var r := FormatDateLong(DateObject(Some(t)), parseDate, longFormat, dayOf);
      OccursAt(r, " " + NatToString(dayOf(t)) + GetOrdinalSuffix(dayOf(t)) + ",", i)
      && r[..i] == longFormat(t)[..i]
  {
    var dayText := NatToString(dayOf(t));
    ReplaceFirstAtLeftmost(longFormat(t), " " + dayText + ",", " " + dayText + GetOrdinalSuffix(dayOf(t)) + ",", i);
  }

  /** `formatDateShort`: "" for a falsy or invalid input, the formatter's text otherwise. */
  function FormatDateShort(date: DateInput, parseDate: string -> Option<int>, shortFormat: int -> string): (r: string)
    ensures TimeOf(date, parseDate).None? ==> r == ""
    ensures TimeOf(date, parseDate).Some? ==> r == shortFormat(TimeOf(date, parseDate).value)
  {
    match TimeOf(date, parseDate)
    case None => ""
    case Some(t) => shortFormat(t)
  }

  /** `formatDisplayDate`, the deprecated name of the long format. */
  function FormatDisplayDate(date: DateInput, parseDate: string -> Option<int>, longFormat: int -> string, dayOf: int -> nat): (r: string)
    ensures r == FormatDateLong(date, parseDate, longFormat, dayOf)
  {
    FormatDateLong(date, parseDate, longFormat, dayOf)
  }

  /** Both formatters give "" for null, undefined, the empty text and an unparseable text. */
  lemma FormattersBlankOnBadInput(date: DateInput, parseDate: string -> Option<int>,
                                  longFormat: int -> string, shortFormat: int -> string, dayOf: int -> nat)
    requires Falsy(date) || (date.DateText? && parseDate(date.text).None?) || date == DateObject(None)
    ensures FormatDateLong(date, parseDate, longFormat, dayOf) == ""
    ensures FormatDateShort(date, parseDate, shortFormat) == ""
  {
  }
}
