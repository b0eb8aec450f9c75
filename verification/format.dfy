/** The locale-independent helpers of `src/utils/format.ts`: the "time ago"
    bucketing and text truncation. Clock readings are integer milliseconds
    passed in by the caller. */
module Format {
  import opened Seqs
  import opened Text

  /** The unit `getTimeAgo` reports in, and the count shown with it. */
  datatype TimeAgo = SecondsAgo(n: int) | MinutesAgo(n: int) | HoursAgo(n: int) | DaysAgo(n: int)
  {
    /** Seconds in the unit. */
    function UnitSeconds(): nat
    {
      match this
      case SecondsAgo(_) => 1
      case MinutesAgo(_) => 60
      case HoursAgo(_) => 3600
      case DaysAgo(_) => 86400
    }
  }

  /** `Math.floor((now - past) / 1000)`: whole seconds elapsed, rounded down
      (towards minus infinity when `past` lies in the future). */
  function SecondsBetween(nowMs: int, pastMs: int): (d: int)
    ensures d * 1000 <= nowMs - pastMs < (d + 1) * 1000
  {
    (nowMs - pastMs) / 1000
  }

  /** Bucketing of `getTimeAgo` for `d` whole seconds elapsed: the largest of
      seconds, minutes, hours and days that `d` reaches, and `d` rounded down
      to whole units of it. */
  function GetTimeAgo(d: int): (r: TimeAgo)
    ensures r.SecondsAgo? <==> d < 60
    ensures r.MinutesAgo? <==> 60 <= d < 3600
    ensures r.HoursAgo? <==> 3600 <= d < 86400
    ensures r.DaysAgo? <==> 86400 <= d
    ensures r.n * r.UnitSeconds() <= d < (r.n + 1) * r.UnitSeconds()
    ensures !r.SecondsAgo? ==> r.n >= 1
  {
    if d < 60 then SecondsAgo(d)
    else if d < 3600 then MinutesAgo(d / 60)
    else if d < 86400 then HoursAgo(d / 3600)
    else DaysAgo(d / 86400)
  }

  /** The Thai label `getTimeAgo` builds from a bucket. */
  function TimeAgoLabel(t: TimeAgo): string
  {
    match t
    case SecondsAgo(n) => IntToString(n) + " วินาทีที่แล้ว"
    case MinutesAgo(n) => IntToString(n) + " นาทีที่แล้ว"
    case HoursAgo(n) => IntToString(n) + " ชั่วโมงที่แล้ว"
    case DaysAgo(n) => IntToString(n) + " วันที่แล้ว"
  }

  /** Moving on in time never moves the label to a smaller unit. */
  lemma TimeAgoUnitMonotone(d1: int, d2: int)
    requires d1 <= d2
    ensures GetTimeAgo(d1).UnitSeconds() <= GetTimeAgo(d2).UnitSeconds()
  {
  }

  /** `truncateText(text, maxLength)`: the text itself when it fits, otherwise
      `text.slice(0, maxLength) + '...'` (a negative `maxLength` counts back
      from the end, as `slice` does). */
  function TruncateText(text: string, maxLength: int): (r: string)
    ensures |text| <= maxLength ==> r == text
    ensures |text| > maxLength >= 0 ==> r == text[..maxLength] + "..." && |r| == maxLength + 3
    ensures maxLength < 0 ==> r == text[..(if |text| + maxLength >= 0 then |text| + maxLength else 0)] + "..."
    ensures maxLength >= 0 ==>
      var keep := if |text| <= maxLength then |text| else maxLength;
      StartsWith(r, text[..keep])
  {
    if |text| <= maxLength then text else JsSlice(text, 0, maxLength) + "..."
  }

  /** The truncated result can equal the input without the text fitting: this
      happens exactly when the text is three characters too long and already
      ends in "...". */
  lemma TruncateUnchangedIff(text: string, maxLength: nat)
    ensures TruncateText(text, maxLength) == text <==>
      |text| <= maxLength || (|text| == maxLength + 3 && text[maxLength..] == "...")
  {
    if |text| > maxLength && TruncateText(text, maxLength) == text {
      assert text[maxLength..] == TruncateText(text, maxLength)[maxLength..];
    }
    if |text| > maxLength && |text| == maxLength + 3 && text[maxLength..] == "..." {
      assert text == text[..maxLength] + text[maxLength..];
    }
  }
}
