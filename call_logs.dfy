/** The call-logs page: the duration and notes cells of each row. The page's
    call figures are `Tally.CountCalls` over the caller's logs. */
module CallLogsPage {
  import opened Text
  import opened Models
  import opened Durations

  /** `formatDuration(seconds?)`: "N/A" for an absent or zero duration,
      otherwise minutes and seconds, even under a minute ("0m 45s"). */
  function FormatDuration(seconds: Option<nat>): (r: string)
    ensures r == "N/A" <==> seconds.None? || seconds.value == 0
    ensures r != "N/A" ==> r == MinSecText(seconds.value)
  {
    if seconds.None? || seconds.value == 0 then "N/A" else MinSecText(seconds.value)
  }

  /** Two rows show the same duration text exactly when both have no
      duration to show or both have the same number of seconds. */
  lemma FormatDurationFaithful(d1: Option<nat>, d2: Option<nat>)
    ensures FormatDuration(d1) == FormatDuration(d2)
        <==> ((d1.None? || d1.value == 0) && (d2.None? || d2.value == 0))
             || (d1.Some? && d2.Some? && d1.value == d2.value)
  {
    if FormatDuration(d1) == FormatDuration(d2) && FormatDuration(d1) != "N/A" {
      MinSecTextInjective(d1.value, d2.value);
    }
  }

  /** Under a minute the minutes part is still shown, as "0m". */
  lemma FormatDurationUnderAMinute(n: nat)
    requires 0 < n < 60
    ensures FormatDuration(Some(n)) == "0m " + NatToString(n) + "s"
  {
    assert Minutes(n) == 0 && Seconds(n) == n;
  }

  /** `log.notes || "No notes"`. */
  function NotesCell(notes: Option<string>): (r: string)
    ensures Truthy(notes) ==> r == notes.value
    ensures !Truthy(notes) ==> r == "No notes"
  {
    OrElse(notes, "No notes")
  }
}
