/** The district and region tables. A cell that the page shows as "N/A" is None. */
module Tables {
  import opened Wrappers
  import opened Records
  import opened VoteOrder
  import opened Sequences

  datatype DistrictRow = DistrictRow(
    name: string,
    registeredVoters: nat,
    votesCast: nat,
    turnout: real,
    winnerName: Option<string>,
    winnerPercentage: Option<real>)

  /** The result rows that belong to candidate `id`. */
  function ForCandidate(id: string): CandidateResult -> bool
  {
    (r: CandidateResult) => r.candidateId == id
  }

  /** `renderDistrictTable`, one row: the winner's name through the candidate map,
      and the percentage of the first result row filed under the stored winner id. */
  function DistrictTableRow(d: DistrictResult, m: map<string, Candidate>): (row: DistrictRow)
    ensures row.name == d.name && row.registeredVoters == d.registeredVoters
    ensures row.votesCast == d.votesCast && row.turnout == d.turnout
    ensures row.winnerName.None? <==> d.winnerId !in m
    ensures row.winnerName.Some? ==> row.winnerName.value == m[d.winnerId].name
    ensures row.winnerPercentage.None? <==> forall j :: 0 <= j < |d.results| ==> d.results[j].candidateId != d.winnerId
    ensures row.winnerPercentage.Some? ==>
      exists i :: (0 <= i < |d.results|
        && d.results[i].candidateId == d.winnerId
        && row.winnerPercentage.value == d.results[i].percentage
        && forall j :: 0 <= j < i ==> d.results[j].candidateId != d.winnerId)
  {
    var name := match LookupCandidate(m, d.winnerId)
      case Some(c) => Some(c.name)
      case None => None;
    var pct := match FirstIndex(d.results, ForCandidate(d.winnerId))
      case Some(i) => Some(d.results[i].percentage)
      case None => None;
    DistrictRow(d.name, d.registeredVoters, d.votesCast, d.turnout, name, pct)
  }

  /** The whole district table: one row per district, in document order. */
  function DistrictTable(ds: seq<DistrictResult>, m: map<string, Candidate>): (rows: seq<DistrictRow>)
    ensures |rows| == |ds|
    ensures forall i :: 0 <= i < |ds| ==> rows[i] == DistrictTableRow(ds[i], m)
  {
    seq(|ds|, i requires 0 <= i < |ds| => DistrictTableRow(ds[i], m))
  }

  datatype RegionRow = RegionRow(
    name: string,
    districts: nat,
    registeredVoters: nat,
    turnout: real,
    winnerName: Option<string>,
    winnerPercentage: real)

  /** `region.candidate_results.sort((a, b) => b.votes - a.votes)[0]`: the head of
      the stable descending sort. On an empty list `renderRegionTable` dereferences
      `undefined`, so it is required non-empty here. */
  function RegionWinner(rows: seq<CandidateResult>): (w: CandidateResult)
    requires |rows| > 0
    ensures exists i :: (0 <= i < |rows| && rows[i] == w
      && (forall j :: 0 <= j < |rows| ==> rows[j].votes <= w.votes)
      && (forall j :: 0 <= j < i ==> rows[j].votes < w.votes))
  {
    SortDescHeadIsFirstMax(rows, ResultVotes);
    SortDesc(rows, ResultVotes)[0]
  }

  /** The example of a tie: [(A, 100), (B, 150), (C, 150)] yields B, not C. */
  lemma RegionWinnerTieExample()
    ensures RegionWinner([CandidateResult("A", 100, 25.0), CandidateResult("B", 150, 37.5),
                          CandidateResult("C", 150, 37.5)]).candidateId == "B"
  {
  }

  /** `renderRegionTable`, one row. */
  function RegionTableRow(r: RegionResult, m: map<string, Candidate>): (row: RegionRow)
    requires |r.results| > 0
    ensures row.name == r.name && row.districts == r.districts
    ensures row.registeredVoters == r.registeredVoters && row.turnout == r.turnout
    ensures row.winnerPercentage == RegionWinner(r.results).percentage
    ensures row.winnerName.None? <==> RegionWinner(r.results).candidateId !in m
    ensures row.winnerName.Some? ==> row.winnerName.value == m[RegionWinner(r.results).candidateId].name
  {
    var w := RegionWinner(r.results);
    var name := match LookupCandidate(m, w.candidateId)
      case Some(c) => Some(c.name)
      case None => None;
    RegionRow(r.name, r.districts, r.registeredVoters, r.turnout, name, w.percentage)
  }

  /** The whole region table. A region without result rows makes `renderRegionTable` throw a
      TypeError while mapping, so no table is produced at all (None). */
  function RegionTable(regions: seq<RegionResult>, m: map<string, Candidate>): (rows: Option<seq<RegionRow>>)
    ensures rows.None? <==> exists i :: 0 <= i < |regions| && |regions[i].results| == 0
    ensures rows.Some? ==> (|rows.value| == |regions|
      && forall i :: 0 <= i < |regions| ==> rows.value[i] == RegionTableRow(regions[i], m))
  {
    if exists i :: 0 <= i < |regions| && |regions[i].results| == 0 then None
    else Some(seq(|regions|, i requires 0 <= i < |regions| => RegionTableRow(regions[i], m)))
  }
}
