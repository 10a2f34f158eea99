/** The contact detail view: the relative time of each call, the colour of
    its status badge, its duration line, and the contact name handed to the
    call-log dialog. Times are integers in milliseconds and the current time
    is a parameter. */
module ContactDetail {
  import opened Text
  import opened Models
  import opened Durations

  const MinuteMs: nat := 60000
  const HourMs: nat := 3600000
  const DayMs: nat := 86400000

  /** The cascade of floors in `formatTimeAgo` is a single floor by the
      product of the divisors. Dafny's `/` with a positive divisor is
      `Math.floor` of the quotient, negative dividends included. */
  lemma FloorCascade(d: int)
    ensures (d / 1000) / 60 == d / MinuteMs
    ensures ((d / 1000) / 60) / 60 == d / HourMs
    ensures (((d / 1000) / 60) / 60) / 24 == d / DayMs
  {
  }

  /** `${n} <word>${n > 1 ? 's' : ''} ago`. */
  function Ago(n: nat, word: string): (r: string)
    ensures |r| > |NatToString(n)| + 1 + |word|
    ensures r[..|NatToString(n)| + 1 + |word|] == NatToString(n) + " " + word
    ensures r[|NatToString(n)| + 1 + |word|] == 's' <==> n > 1
    ensures |r| == |NatToString(n)| + 1 + |word| + (if n > 1 then 1 else 0) + 4
    ensures r[|r| - 4..] == " ago"
  {
    NatToString(n) + " " + word + (if n > 1 then "s" else "") + " ago"
  }

  /** `formatTimeAgo(date)`: the elapsed time floored to seconds, then
      minutes, hours and days, reported in the largest non-zero unit. */
  function FormatTimeAgo(now: int, date: int): (r: string)
    ensures r == "just now" <==> now - date < MinuteMs
    ensures r != "just now" ==> |r| > 4 && r[|r| - 4..] == " ago"
  {
    FloorCascade(now - date);
    var seconds := (now - date) / 1000;
    var minutes := seconds / 60;
    var hours := minutes / 60;
    var days := hours / 24;
    if days > 0 then Ago(days, "day")
    else if hours > 0 then Ago(hours, "hour")
    else if minutes > 0 then Ago(minutes, "minute")
    else "just now"
  }

  /** The cascade of floors picks the unit by direct comparison of the
      elapsed time with a day, an hour and a minute, and the number shown is
      the elapsed time divided directly by that unit, rounded down. Future
      dates show "just now". */
  lemma FormatTimeAgoBuckets(now: int, date: int)
    ensures var d := now - date;
      && (d >= DayMs ==> FormatTimeAgo(now, date) == Ago(d / DayMs, "day"))
      && (HourMs <= d < DayMs ==> FormatTimeAgo(now, date) == Ago(d / HourMs, "hour"))
      && (MinuteMs <= d < HourMs ==> FormatTimeAgo(now, date) == Ago(d / MinuteMs, "minute"))
      && (d < MinuteMs ==> FormatTimeAgo(now, date) == "just now")
  {
    var d := now - date;
    FloorCascade(d);
    var minutes := d / MinuteMs;
    var hours := d / HourMs;
    var days := d / DayMs;
    assert days > 0 <==> d >= DayMs;
    assert hours > 0 <==> d >= HourMs;
    assert minutes > 0 <==> d >= MinuteMs;
  }

  /** `getCallStatusColor(status)`: total, with gray for every status other
      than the three known ones. */
  function CallStatusColor(status: string): (r: string)
    ensures status == "completed" <==> r == "bg-green-100 text-green-800 border-green-300"
    ensures status == "missed" <==> r == "bg-red-100 text-red-800 border-red-300"
    ensures status == "scheduled" <==> r == "bg-blue-100 text-blue-800 border-blue-300"
    ensures status != "completed" && status != "missed" && status != "scheduled"
        <==> r == "bg-gray-100 text-gray-800 border-gray-300"
  {
    match status
    case "completed" => "bg-green-100 text-green-800 border-green-300"
    case "missed" => "bg-red-100 text-red-800 border-red-300"
    case "scheduled" => "bg-blue-100 text-blue-800 border-blue-300"
    case _ => "bg-gray-100 text-gray-800 border-gray-300"
  }

  /** The duration line as written, `{call.duration && (<p>…</p>)}`: React
      renders nothing for an absent duration but renders the number 0 itself
      as text when the duration is 0. */
  function DurationLineAsWritten(duration: Option<nat>): (r: string)
    ensures r == "" <==> duration.None?
    ensures duration == Some(0) ==> r == "0"
    ensures duration.Some? && duration.value > 0 ==> r == DurationLine(duration)
  {
    if duration.None? then ""
    else if duration.value == 0 then NatToString(0)
    else "Duration: " + MinSecText(duration.value)
  }

  /** A zero duration leaves a stray "0" in the card. */
  lemma ZeroDurationShowsZero()
    ensures DurationLineAsWritten(Some(0)) == "0"
    ensures DurationLineAsWritten(Some(0)) != DurationLine(Some(0))
  {
  }

  /** The duration line as intended: nothing unless there is a non-zero
      duration, then the minutes and seconds. */
  function DurationLine(duration: Option<nat>): (r: string)
    ensures r == "" <==> duration.None? || duration.value == 0
    ensures r != "" ==> r == "Duration: " + MinSecText(duration.value)
  {
    if duration.None? || duration.value == 0 then "" else "Duration: " + MinSecText(duration.value)
  }

  /** Two calls show the same duration line exactly when neither has a
      duration to show or both have the same number of seconds. */
  lemma DurationLineFaithful(d1: Option<nat>, d2: Option<nat>)
    ensures DurationLine(d1) == DurationLine(d2)
        <==> ((d1.None? || d1.value == 0) && (d2.None? || d2.value == 0))
             || (d1.Some? && d2.Some? && d1.value == d2.value)
  {
    if DurationLine(d1) == DurationLine(d2) && DurationLine(d1) != "" {
      var t1, t2 := MinSecText(d1.value), MinSecText(d2.value);
      assert t1 == DurationLine(d1)[10..];
      assert t2 == DurationLine(d2)[10..];
      MinSecTextInjective(d1.value, d2.value);
    }
  }

  /** `call.userName || 'Unknown user'`. */
  function CallUserName(userName: Option<string>): (r: string)
    ensures Truthy(userName) ==> r == userName.value
    ensures !Truthy(userName) ==> r == "Unknown user"
  {
    OrElse(userName, "Unknown user")
  }

  /** `${contact.firstName} ${contact.lastName}`.trim(). */
  function ContactName(firstName: string, lastName: string): (r: string)
    ensures IsTrimmed(r)
  {
    Trim(firstName + " " + lastName)
  }

  /** For names without surrounding whitespace, the dialog shows both names
      separated by one space, or the one that is present. */
  lemma ContactNameOfTrimmedParts(firstName: string, lastName: string)
    requires IsTrimmed(firstName) && IsTrimmed(lastName)
    ensures ContactName(firstName, lastName)
      == if firstName == [] then lastName
         else if lastName == [] then firstName
         else firstName + " " + lastName
  {
    var s := firstName + " " + lastName;
    if firstName == [] && lastName == [] {
      TrimBetween(s, 0, 0);
    } else if firstName == [] {
      assert s[1..] == lastName;
      TrimBetween(s, 1, |s|);
    } else if lastName == [] {
      assert s[..|firstName|] == firstName;
      TrimBetween(s, 0, |firstName|);
    } else {
      assert s[0] == firstName[0] && s[|s| - 1] == lastName[|lastName| - 1];
      TrimBetween(s, 0, |s|);
    }
  }
}
