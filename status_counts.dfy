/** The per-status contact counts of the dashboard and reports pages: a map
    that starts with the five known statuses at zero and is then overwritten,
    key by key, by the groups the store's aggregation returns. */
module StatusCounts {
  import opened Models
  import Tally

  /** One aggregation group: the status shared by its contacts (absent or
      empty for contacts without one) and how many contacts it holds. */
  datatype Group = Group(id: Option<string>, count: nat)

  /** The zero-initialised count map. */
  function Initial(): (m: map<string, nat>)
    ensures m.Keys == {"new", "called", "follow-up", "not-interested", "converted"}
    ensures forall s :: s in m ==> m[s] == 0
  {
    map["new" := 0, "called" := 0, "follow-up" := 0, "not-interested" := 0, "converted" := 0]
  }

  /** One step of the `forEach`: a group with a truthy id writes its count
      under that id, any other group is ignored. */
  function Apply(counts: map<string, nat>, g: Group): map<string, nat>
  {
    if Truthy(g.id) then counts[g.id.value := g.count] else counts
  }

  /** The map after the groups have been applied in order. */
  function Fold(groups: seq<Group>): map<string, nat>
  {
    if groups == [] then Initial()
    else Apply(Fold(groups[..|groups| - 1]), groups[|groups| - 1])
  }

  /** The loop that builds the map. */
  method BuildStatusCounts(groups: seq<Group>) returns (counts: map<string, nat>)
    ensures counts == Fold(groups)
  {
    counts := Initial();
    for i := 0 to |groups|
      invariant counts == Fold(groups[..i])
    {
      assert groups[..i + 1][..i] == groups[..i];
      var g := groups[i];
      if Truthy(g.id) {
        counts := counts[g.id.value := g.count];
      }
    }
    assert groups[..|groups|] == groups;
  }

  /** The index of the last group whose id is `s`, or -1 when there is none. */
  function LastWith(groups: seq<Group>, s: string): (r: int)
    ensures -1 <= r < |groups|
    ensures r >= 0 ==> groups[r].id == Some(s)
    ensures forall j :: r < j < |groups| ==> groups[j].id != Some(s)
  {
    if groups == [] then -1
    else if groups[|groups| - 1].id == Some(s) then |groups| - 1
    else LastWith(groups[..|groups| - 1], s)
  }

  /** The keys are the five known statuses plus every truthy group id,
      unknown ones included. */
  lemma {:induction false} FoldKeys(groups: seq<Group>)
    ensures Fold(groups).Keys
      == Initial().Keys + (set k | 0 <= k < |groups| && Truthy(groups[k].id) :: groups[k].id.value)
  {
    if groups != [] {
      var init := groups[..|groups| - 1];
      FoldKeys(init);
      var g := groups[|groups| - 1];
      var before := set k | 0 <= k < |init| && Truthy(init[k].id) :: init[k].id.value;
      var after := set k | 0 <= k < |groups| && Truthy(groups[k].id) :: groups[k].id.value;
      if Truthy(g.id) {
        assert after == before + {g.id.value};
      } else {
        assert after == before;
      }
    }
  }

  /** The value of a non-empty status is the count of the last group that
      names it (the last write wins); a known status no group names stays 0. */
  lemma {:induction false} FoldValue(groups: seq<Group>, s: string)
    requires s != ""
    ensures LastWith(groups, s) >= 0 ==> s in Fold(groups) && Fold(groups)[s] == groups[LastWith(groups, s)].count
    ensures LastWith(groups, s) < 0 ==> (s in Fold(groups) <==> s in Initial())
    ensures LastWith(groups, s) < 0 && s in Initial() ==> Fold(groups)[s] == 0
  {
    if groups != [] {
      FoldValue(groups[..|groups| - 1], s);
    }
  }

  /** An empty id never becomes a key. */
  lemma {:induction false} EmptyIdIgnored(groups: seq<Group>)
    ensures "" !in Fold(groups)
  {
    if groups != [] {
      EmptyIdIgnored(groups[..|groups| - 1]);
    }
  }

  /** `(statusCounts.converted || 0) / totalContacts`, guarded by
      `totalContacts > 0`. */
  function RateOf(counts: map<string, nat>, status: string, total: nat): (r: Tally.Rate)
    ensures total == 0 <==> r == Tally.ZeroRate
    ensures r.Ratio? ==> r.total == total && r.part == (if status in counts then counts[status] else 0)
  {
    Tally.GuardedRate(if status in counts then counts[status] else 0, total)
  }
}
