/** Counting the records with a given status, as the pages do with
    `list.filter(x => x.status === s).length`, and the guarded ratio the
    dashboard pages display as a percentage. */
module Tally {
  import opened Text
  import opened Models

  /** Counts of three different statuses never add up to more than the
      number of entries. */
  lemma {:induction false} ThreeCountsBounded(statuses: seq<string>, a: string, b: string, c: string)
    requires a != b && b != c && a != c
    ensures Occurrences(statuses, a) + Occurrences(statuses, b) + Occurrences(statuses, c) <= |statuses|
  {
    if statuses != [] {
      ThreeCountsBounded(statuses[..|statuses| - 1], a, b, c);
    }
  }

  /** A count is the number of positions holding the status. */
  lemma {:induction false} CountIsPositions(statuses: seq<string>, s: string)
    ensures Occurrences(statuses, s) == |set k | 0 <= k < |statuses| && statuses[k] == s|
  {
    if statuses != [] {
      var init := statuses[..|statuses| - 1];
      CountIsPositions(init, s);
      var before := set k | 0 <= k < |init| && init[k] == s;
      var after := set k | 0 <= k < |statuses| && statuses[k] == s;
      if statuses[|statuses| - 1] == s {
        assert after == before + {|statuses| - 1};
      } else {
        assert after == before;
      }
    }
  }

  /** A percentage as the pages show it: zero when there is nothing to divide
      by, otherwise the ratio of a count to a positive total. */
  datatype Rate = ZeroRate | Ratio(part: nat, total: nat)

  /** `total > 0 ? (part / total * 100).toFixed(1) : 0`, with the rounding
      left to the display. */
  function GuardedRate(part: nat, total: nat): (r: Rate)
    ensures total == 0 <==> r == ZeroRate
    ensures r.Ratio? ==> r.total > 0 && r.part == part && r.total == total
  {
    if total > 0 then Ratio(part, total) else ZeroRate
  }

  /** The statuses of a list of call logs, in order. */
  function CallStatuses(calls: seq<CallLog>): (r: seq<string>)
    ensures |r| == |calls|
    ensures forall k :: 0 <= k < |calls| ==> r[k] == calls[k].status
  {
    seq(|calls|, k requires 0 <= k < |calls| => calls[k].status)
  }

  /** The call figures the call-logs and reports pages display. */
  datatype CallCounts = CallCounts(total: nat, completed: nat, missed: nat, scheduled: nat)

  function CountCalls(calls: seq<CallLog>): CallCounts
  {
    var s := CallStatuses(calls);
    CallCounts(|calls|, Occurrences(s, "completed"), Occurrences(s, "missed"), Occurrences(s, "scheduled"))
  }

  /** Each figure counts the logs whose status is exactly the one named; each
      is at most the number of logs, and so is their sum. */
  lemma CallCountsBounded(calls: seq<CallLog>)
    ensures var c := CountCalls(calls);
      && c.total == |calls|
      && c.completed == |set k | 0 <= k < |calls| && calls[k].status == "completed"|
      && c.missed == |set k | 0 <= k < |calls| && calls[k].status == "missed"|
      && c.scheduled == |set k | 0 <= k < |calls| && calls[k].status == "scheduled"|
      && c.completed + c.missed + c.scheduled <= c.total
  {
    var s := CallStatuses(calls);
    ThreeCountsBounded(s, "completed", "missed", "scheduled");
    CountIsPositions(s, "completed");
    CountIsPositions(s, "missed");
    CountIsPositions(s, "scheduled");
    assert (set k | 0 <= k < |s| && s[k] == "completed") == (set k | 0 <= k < |calls| && calls[k].status == "completed");
    assert (set k | 0 <= k < |s| && s[k] == "missed") == (set k | 0 <= k < |calls| && calls[k].status == "missed");
    assert (set k | 0 <= k < |s| && s[k] == "scheduled") == (set k | 0 <= k < |calls| && calls[k].status == "scheduled");
  }
}
