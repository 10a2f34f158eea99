/** The figures of the reports page: the status count map, the conversion
    and follow-up rates, the number of recent calls and the call tallies
    over them. The store returns the caller's call logs newest first; the
    page keeps at most thirty of them. */
module Reports {
  import opened Models
  import Tally
  import StatusCounts

  /** The `.limit(30)` on the recent call logs. */
  const RecentCallsLimit: nat := 30

  /** The first `n` entries, or all of them when there are fewer. */
  function Limit(calls: seq<CallLog>, n: nat): (r: seq<CallLog>)
    ensures |r| <= n && |r| <= |calls|
    ensures |r| == n || |r| == |calls|
    ensures r == calls[..|r|]
  {
    if |calls| <= n then calls else calls[..n]
  }

  datatype Report = Report(
    totalContacts: nat,
    counts: map<string, nat>,
    conversionRate: Tally.Rate,
    followUpRate: Tally.Rate,
    recentCalls: seq<CallLog>,
    calls: Tally.CallCounts)

  /** The page's figures from the caller's contact total, the aggregation
      groups and the caller's call logs newest first. */
  function BuildReport(totalContacts: nat, groups: seq<StatusCounts.Group>, callsNewestFirst: seq<CallLog>): Report
  {
    var counts := StatusCounts.Fold(groups);
    var recent := Limit(callsNewestFirst, RecentCallsLimit);
    Report(totalContacts, counts,
           StatusCounts.RateOf(counts, "converted", totalContacts),
           StatusCounts.RateOf(counts, "follow-up", totalContacts),
           recent, Tally.CountCalls(recent))
  }

  /** Both rates are zero exactly when there are no contacts; the "Recent
      Calls" figure is at most thirty; the completed, missed and scheduled
      tallies count the recent calls with that status and together do not
      exceed their number. */
  lemma ReportFigures(totalContacts: nat, groups: seq<StatusCounts.Group>, callsNewestFirst: seq<CallLog>)
    ensures var r := BuildReport(totalContacts, groups, callsNewestFirst);
      && (totalContacts == 0 <==> r.conversionRate == Tally.ZeroRate)
      && (totalContacts == 0 <==> r.followUpRate == Tally.ZeroRate)
      && "converted" in r.counts && "follow-up" in r.counts
      && (r.conversionRate.Ratio? ==> r.conversionRate.part == r.counts["converted"])
      && (r.followUpRate.Ratio? ==> r.followUpRate.part == r.counts["follow-up"])
      && |r.recentCalls| <= RecentCallsLimit
      && r.recentCalls == callsNewestFirst[..|r.recentCalls|]
      && r.calls.total == |r.recentCalls|
      && r.calls.completed + r.calls.missed + r.calls.scheduled <= r.calls.total
  {
    var r := BuildReport(totalContacts, groups, callsNewestFirst);
    StatusCounts.FoldKeys(groups);
    Tally.CallCountsBounded(r.recentCalls);
  }
}
