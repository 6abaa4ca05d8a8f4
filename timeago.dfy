/**
 * The relative-time formatter `timeAgo`, of which article.js, finance.js and index.js each
 * carry an identical copy. Date parsing and the clock are outside the model: the caller
 * supplies the elapsed milliseconds `now - postDate` (absent when the string is not a date)
 * and the post date already printed in the absolute "D Mon YYYY" form.
 */
module RelativeTime {
  import opened Wrappers
  import opened Text

  /** What `new Date(dateStr)` and `new Date()` contribute: for each date string, the
      milliseconds elapsed since it (`None` when `new Date` gives an invalid date) and the
      date printed as day, short English month name and year. */
  datatype Clock = Clock(elapsedMs: string -> Option<int>, calendar: string -> string)

  const SecondMs: int := 1000
  const MinuteMs: int := 60 * SecondMs
  const HourMs: int := 60 * MinuteMs
  const DayMs: int := 24 * HourMs

  /** `n + (n === 1 ? one : many)`. */
  function Counted(n: nat, one: string, many: string): string {
    NatToString(n) + (if n == 1 then one else many)
  }

  /** `timeAgo(dateStr)`: successive floor divisions of the elapsed milliseconds into seconds,
      minutes, hours and days, then the first bucket that applies. JavaScript's `Math.floor`
      of a quotient by a positive divisor is Dafny's `/`, for negative differences too. */
  function TimeAgo(dateStr: string, elapsed: Option<int>, calendar: string): (r: string)
    ensures dateStr == "" ==> r == ""
    ensures dateStr != "" && elapsed.None? ==> r == dateStr
  {
    if dateStr == "" then ""
    else
      match elapsed
      case None => dateStr
      case Some(diffMs) =>
        var diffSec := diffMs / 1000;
        var diffMin := diffSec / 60;
        var diffHr := diffMin / 60;
        var diffDay := diffHr / 24;
        if diffSec < 60 then "just now"
        else if diffMin < 60 then Counted(diffMin, " min ago", " mins ago")
        else if diffHr < 24 then Counted(diffHr, " hr ago", " hrs ago")
        else if diffDay == 1 then "yesterday"
        else calendar
  }

  /** `timeAgo` as a card calls it, with the clock's reading of the date string. */
  function TimeAgoAt(dateStr: string, clock: Clock): (r: string)
    ensures dateStr == "" ==> r == ""
    ensures dateStr != "" && clock.elapsedMs(dateStr).None? ==> r == dateStr
    ensures dateStr != "" && clock.elapsedMs(dateStr).Some? && clock.elapsedMs(dateStr).value >= 2 * DayMs ==> r == clock.calendar(dateStr)
  {
    TimeAgo(dateStr, clock.elapsedMs(dateStr), clock.calendar(dateStr))
  }

  /** Reference reading of the formatter, by thresholds on the elapsed milliseconds
      instead of chained floor divisions. */
  function Described(diffMs: int, calendar: string): string {
    if diffMs < MinuteMs then "just now"
    else if diffMs < HourMs then Counted(diffMs / MinuteMs, " min ago", " mins ago")
    else if diffMs < DayMs then Counted(diffMs / HourMs, " hr ago", " hrs ago")
    else if diffMs < 2 * DayMs then "yesterday"
    else calendar
  }

  /** The chained floor divisions pick the same bucket, with the same count, as the
      thresholds on milliseconds. */
  lemma TimeAgoIsDescribed(dateStr: string, diffMs: int, calendar: string)
    requires dateStr != ""
    ensures TimeAgo(dateStr, Some(diffMs), calendar) == Described(diffMs, calendar)
  {
    var diffSec := diffMs / 1000;
    var diffMin := diffSec / 60;
    var diffHr := diffMin / 60;
    assert diffMin == diffMs / MinuteMs;
    assert diffHr == diffMs / HourMs;
  }

  /** None of the counted forms reads "just now" or "yesterday": they start with a digit. */
  lemma CountedIsNotAWord(one: string, many: string)
    ensures forall n: nat :: Counted(n, one, many) != "just now" && Counted(n, one, many) != "yesterday"
  {
    forall n: nat
      ensures Counted(n, one, many) != "just now" && Counted(n, one, many) != "yesterday"
    {
      assert IsDigit(Counted(n, one, many)[0]);
    }
  }

  /** "just now" exactly for differences under a minute, future dates included. */
  lemma JustNowExactly(dateStr: string, diffMs: int, calendar: string)
    requires dateStr != "" && calendar != "just now"
    ensures TimeAgo(dateStr, Some(diffMs), calendar) == "just now" <==> diffMs < 60_000
  {
    TimeAgoIsDescribed(dateStr, diffMs, calendar);
    CountedIsNotAWord(" min ago", " mins ago");
    CountedIsNotAWord(" hr ago", " hrs ago");
  }

  /** From one to 59 whole minutes: the number of whole minutes, singular only for one. */
  lemma MinuteBucket(dateStr: string, diffMs: int, calendar: string)
    requires dateStr != "" && 60_000 <= diffMs < 3_600_000
    ensures 1 <= diffMs / 60_000 <= 59
    ensures TimeAgo(dateStr, Some(diffMs), calendar)
         == NatToString(diffMs / 60_000) + (if diffMs < 120_000 then " min ago" else " mins ago")
  {
    TimeAgoIsDescribed(dateStr, diffMs, calendar);
  }

  /** From one to 23 whole hours: the number of whole hours, singular only for one. */
  lemma HourBucket(dateStr: string, diffMs: int, calendar: string)
    requires dateStr != "" && 3_600_000 <= diffMs < 86_400_000
    ensures 1 <= diffMs / 3_600_000 <= 23
    ensures TimeAgo(dateStr, Some(diffMs), calendar)
         == NatToString(diffMs / 3_600_000) + (if diffMs < 7_200_000 then " hr ago" else " hrs ago")
  {
    TimeAgoIsDescribed(dateStr, diffMs, calendar);
  }

  /** "yesterday" exactly from 24 hours up to (not including) 48 hours. */
  lemma YesterdayExactly(dateStr: string, diffMs: int, calendar: string)
    requires dateStr != "" && calendar != "yesterday"
    ensures TimeAgo(dateStr, Some(diffMs), calendar) == "yesterday"
        <==> 86_400_000 <= diffMs < 172_800_000
  {
    TimeAgoIsDescribed(dateStr, diffMs, calendar);
    CountedIsNotAWord(" min ago", " mins ago");
    CountedIsNotAWord(" hr ago", " hrs ago");
  }

  /** From 48 hours on, the absolute date. */
  lemma AbsoluteFromTwoDays(dateStr: string, diffMs: int, calendar: string)
    requires dateStr != "" && diffMs >= 172_800_000
    ensures TimeAgo(dateStr, Some(diffMs), calendar) == calendar
  {
    TimeAgoIsDescribed(dateStr, diffMs, calendar);
  }
}
