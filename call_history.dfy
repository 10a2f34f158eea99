/** The call history card: each call's icon colour, caller name and status
    line. */
module CallHistory {
  import opened Text
  import opened Models
  import opened Durations

  /** `formatDuration(seconds)`: seconds alone under a minute, otherwise
      minutes and seconds. */
  function FormatDuration(n: nat): (r: string)
    ensures n < 60 ==> r == NatToString(n) + "s"
    ensures n >= 60 ==> r == MinSecText(n)
  {
    if Minutes(n) == 0 then NatToString(Seconds(n)) + "s" else MinSecText(n)
  }

  /** Distinct durations are rendered differently. */
  lemma FormatDurationInjective(n1: nat, n2: nat)
    requires FormatDuration(n1) == FormatDuration(n2)
    ensures n1 == n2
  {
    var r := FormatDuration(n1);
    if n1 < 60 && n2 < 60 {
      DigitRunUnique(NatToString(n1), "s", NatToString(n2), "s");
      NatToStringInjective(n1, n2);
    } else if n1 >= 60 && n2 >= 60 {
      MinSecTextInjective(n1, n2);
    } else if n1 < 60 {
      var m2 := NatToString(Minutes(n2));
      DigitRunUnique(NatToString(n1), "s", m2, "m " + NatToString(Seconds(n2)) + "s");
    } else {
      var m1 := NatToString(Minutes(n1));
      DigitRunUnique(NatToString(n2), "s", m1, "m " + NatToString(Seconds(n1)) + "s");
    }
  }

  /** `getStatusColor(status)`. */
  function StatusColor(status: string): (r: string)
    ensures status == "completed" <==> r == "bg-green-500"
    ensures status == "missed" <==> r == "bg-red-500"
    ensures status == "scheduled" <==> r == "bg-blue-500"
    ensures status != "completed" && status != "missed" && status != "scheduled" <==> r == "bg-gray-500"
  {
    match status
    case "completed" => "bg-green-500"
    case "missed" => "bg-red-500"
    case "scheduled" => "bg-blue-500"
    case _ => "bg-gray-500"
  }

  /** `userMap[call.userId] || 'Unknown user'`. */
  function CallerName(userMap: map<string, string>, userId: string): (r: string)
    ensures userId in userMap && userMap[userId] != "" ==> r == userMap[userId]
    ensures userId !in userMap || userMap[userId] == "" ==> r == "Unknown user"
  {
    if userId in userMap && userMap[userId] != "" then userMap[userId] else "Unknown user"
  }

  /** The status line: the capitalised status, " call", and the duration in
      parentheses when there is a non-zero one. The line goes on past " call"
      exactly when the call has a non-zero duration. */
  function StatusLine(call: CallLog): (r: string)
    ensures |r| >= |call.status| + 5
    ensures r[..|call.status| + 5] == Capitalize(call.status) + " call"
    ensures |r| == |call.status| + 5 <==> call.duration.None? || call.duration.value == 0
    ensures call.duration.Some? && call.duration.value != 0 ==>
      r[|call.status| + 5..] == " (" + FormatDuration(call.duration.value) + ")"
  {
    Capitalize(call.status) + " call"
      + (if call.duration.Some? && call.duration.value != 0 then " (" + FormatDuration(call.duration.value) + ")" else "")
  }
}
