/** The loaded election documents, restricted to the fields the dashboard's
    selection and lookup rules read, and the identifier-to-candidate lookup table
    built once after loading. */
module Records {
  import opened Wrappers

  /** One entry of the national `candidates` list. Vote counts are whole numbers;
      percentages are precomputed upstream and only displayed. */
  datatype Candidate = Candidate(
    id: string,
    name: string,
    party: string,
    votes: nat,
    percentage: real,
    color: string,
    photo: string)

  /** One per-candidate row of a district or region (`candidate_results`). */
  datatype CandidateResult = CandidateResult(candidateId: string, votes: nat, percentage: real)

  /** The national document: the candidate list and the declared winner's id
      (`winner.candidate_id`). */
  datatype National = National(candidates: seq<Candidate>, winnerId: string)

  datatype DistrictResult = DistrictResult(
    name: string,
    registeredVoters: nat,
    votesCast: nat,
    turnout: real,
    winnerId: string,
    results: seq<CandidateResult>)

  /** A region carries no winner of its own; it is derived when the table is drawn. */
  datatype RegionResult = RegionResult(
    name: string,
    districts: nat,
    registeredVoters: nat,
    turnout: real,
    results: seq<CandidateResult>)

  /** The sort keys: vote counts. */
  function CandidateVotes(c: Candidate): nat { c.votes }
  function ResultVotes(r: CandidateResult): nat { r.votes }

  /** No candidate after index `i` shares its id. */
  predicate LastWithId(cands: seq<Candidate>, i: nat)
    requires i < |cands|
  {
    forall j :: i < j < |cands| ==> cands[j].id != cands[i].id
  }

  /** `candidatesMap`: filled by one pass over the candidate list, each candidate
      stored under its id, so a later candidate with the same id replaces an
      earlier one. */
  function CandidateMap(cands: seq<Candidate>): (m: map<string, Candidate>)
    ensures forall i :: 0 <= i < |cands| ==> cands[i].id in m
    ensures forall i :: 0 <= i < |cands| && LastWithId(cands, i) ==> m[cands[i].id] == cands[i]
  {
    if |cands| == 0 then map[]
    else
      var n := |cands| - 1;
      var m0 := CandidateMap(cands[..n]);
      StoreLast(cands[..n], cands[n], m0);
      assert cands == cands[..n] + [cands[n]];
      m0[cands[n].id := cands[n]]
  }

  /** One step of the pass: storing the next candidate keeps the facts about the
      earlier ones. */
  lemma StoreLast(prefix: seq<Candidate>, last: Candidate, m0: map<string, Candidate>)
    requires forall i :: 0 <= i < |prefix| ==> prefix[i].id in m0
    requires forall i :: 0 <= i < |prefix| && LastWithId(prefix, i) ==> m0[prefix[i].id] == prefix[i]
    ensures var cands, m := prefix + [last], m0[last.id := last];
      && (forall i :: 0 <= i < |cands| ==> cands[i].id in m)
      && (forall i :: 0 <= i < |cands| && LastWithId(cands, i) ==> m[cands[i].id] == cands[i])
  {
    var cands := prefix + [last];
    assert forall i :: 0 <= i < |prefix| ==> cands[i] == prefix[i];
    var m := m0[last.id := last];
    forall i | 0 <= i < |cands| && LastWithId(cands, i)
      ensures m[cands[i].id] == cands[i]
    {
      if i < |prefix| {
        assert cands[|prefix|] == last;
        assert last.id != prefix[i].id;
        assert LastWithId(prefix, i);
      }
    }
  }

  /** Every value stored in the map is a loaded candidate, filed under its own id;
      with the contract of CandidateMap, its keys are exactly the loaded ids. */
  lemma {:induction false} CandidateMapSound(cands: seq<Candidate>, id: string)
    requires id in CandidateMap(cands)
    ensures exists i :: 0 <= i < |cands| && cands[i] == CandidateMap(cands)[id] && cands[i].id == id
  {
    var n := |cands| - 1;
    if cands[n].id != id {
      CandidateMapSound(cands[..n], id);
      var i :| 0 <= i < n && cands[..n][i] == CandidateMap(cands[..n])[id] && cands[..n][i].id == id;
      assert cands[i] == cands[..n][i];
    } else {
      assert cands[n] == CandidateMap(cands)[id];
    }
  }

  /** `candidatesMap[id]`, with a miss as None. */
  function LookupCandidate(m: map<string, Candidate>, id: string): Option<Candidate>
  {
    if id in m then Some(m[id]) else None
  }
}
