/** The candidate-level views: the ranked candidate list, the two chart series
    and the map legend. */
module Ranking {
  import opened Records
  import opened VoteOrder
  import opened Sequences
  import opened Names

  /** The aggregate pseudo-candidate left out of charts and legend. */
  const Others: string := "Others"

  /** The map legend lists at most this many candidates. */
  const LegendSize: nat := 4

  /** `c.name !== 'Others'`: the filter used by the charts and the legend. */
  predicate IsCharted(c: Candidate)
  {
    c.name != Others
  }

  /** One card of the candidate list. */
  datatype CandidateCard = CandidateCard(rank: nat, candidate: Candidate, isWinner: bool)

  /** The list renderer's outcome: the cards, and the national candidate list as the
      in-place sort leaves it for every later reader. */
  datatype RankedList = RankedList(sorted: seq<Candidate>, cards: seq<CandidateCard>)

  /** `renderCandidateList`: sort by votes descending (in place, stable), then one
      card per candidate with rank index + 1 and the winner flag. */
  function RankCandidates(cands: seq<Candidate>, winnerId: string): (r: RankedList)
    ensures multiset(r.sorted) == multiset(cands)
    ensures NonIncreasing(r.sorted, CandidateVotes)
    ensures forall k :: WithKey(r.sorted, CandidateVotes, k) == WithKey(cands, CandidateVotes, k)
    ensures |r.sorted| == |r.cards| == |cands|
    ensures forall i :: 0 <= i < |r.cards| ==> r.cards[i].rank == i + 1 && r.cards[i].candidate == r.sorted[i]
    ensures forall i :: 0 <= i < |r.cards| ==> (r.cards[i].isWinner <==> r.cards[i].candidate.id == winnerId)
  {
    var sorted := SortDesc(cands, CandidateVotes);
    assert forall k :: WithKey(sorted, CandidateVotes, k) == WithKey(cands, CandidateVotes, k) by {
      forall k {
        SortDescStable(cands, CandidateVotes, k);
      }
    }
    var cards := seq(|sorted|, i requires 0 <= i < |sorted| =>
      CandidateCard(i + 1, sorted[i], sorted[i].id == winnerId));
    RankedList(sorted, cards)
  }

  /** The candidates the charts draw: all but "Others", in list order. */
  function ChartCandidates(cands: seq<Candidate>): (r: seq<Candidate>)
    ensures forall i :: 0 <= i < |r| ==> r[i] in cands && r[i].name != Others
    ensures forall i :: 0 <= i < |cands| && cands[i].name != Others ==> cands[i] in r
  {
    Filter(cands, IsCharted)
  }

  /** A chart's parallel label, value and colour sequences. */
  datatype ChartSeries = ChartSeries(labels: seq<string>, data: seq<nat>, colors: seq<string>)

  /** The doughnut chart: full names as labels. */
  function PieSeries(cands: seq<Candidate>): (r: ChartSeries)
    ensures var kept := ChartCandidates(cands);
      && |r.labels| == |r.data| == |r.colors| == |kept|
      && forall i :: 0 <= i < |kept| ==>
           r.labels[i] == kept[i].name && r.data[i] == kept[i].votes && r.colors[i] == kept[i].color
  {
    var kept := ChartCandidates(cands);
    ChartSeries(
      seq(|kept|, i requires 0 <= i < |kept| => kept[i].name),
      seq(|kept|, i requires 0 <= i < |kept| => kept[i].votes),
      seq(|kept|, i requires 0 <= i < |kept| => kept[i].color))
  }

  /** The bar chart: same values and colours, labelled with the last name token. */
  function BarSeries(cands: seq<Candidate>): (r: ChartSeries)
    ensures var kept := ChartCandidates(cands);
      && |r.labels| == |r.data| == |r.colors| == |kept|
      && forall i :: 0 <= i < |kept| ==>
           r.labels[i] == LastToken(kept[i].name) && r.data[i] == kept[i].votes && r.colors[i] == kept[i].color
  {
    var kept := ChartCandidates(cands);
    ChartSeries(
      seq(|kept|, i requires 0 <= i < |kept| => LastToken(kept[i].name)),
      seq(|kept|, i requires 0 <= i < |kept| => kept[i].votes),
      seq(|kept|, i requires 0 <= i < |kept| => kept[i].color))
  }

  /** The charts hold exactly the candidates not named "Others": each charted
      candidate is a loaded one, and every loaded candidate not named "Others" is
      charted, as often as it is loaded. */
  lemma ChartCandidatesExact(cands: seq<Candidate>)
    ensures forall i :: 0 <= i < |ChartCandidates(cands)| ==>
      ChartCandidates(cands)[i] in cands && ChartCandidates(cands)[i].name != Others
    ensures forall i :: 0 <= i < |cands| && cands[i].name != Others ==>
      multiset(ChartCandidates(cands))[cands[i]] == multiset(cands)[cands[i]]
  {
    FilterMultiset(cands, IsCharted);
  }

  /** The charts keep input order: the charted candidates of a list split in two
      are those of the first part followed by those of the second. */
  lemma ChartCandidatesKeepOrder(a: seq<Candidate>, b: seq<Candidate>)
    ensures ChartCandidates(a + b) == ChartCandidates(a) + ChartCandidates(b)
  {
    FilterAppend(a, b, IsCharted);
  }

  /** The chart values plus the votes of any "Others" rows add up to the total of
      the candidate list: nothing but "Others" is dropped from the charts. */
  lemma ChartVotesAddUp(cands: seq<Candidate>)
    ensures SumOf(PieSeries(cands).data, n => n) + SumOf(Filter(cands, c => !IsCharted(c)), CandidateVotes)
      == SumOf(cands, CandidateVotes)
  {
    var kept := ChartCandidates(cands);
    SumOfPartition(cands, IsCharted, c => !IsCharted(c), CandidateVotes);
    SumOfProjection(kept, PieSeries(cands).data);
  }

  lemma {:induction false} SumOfProjection(kept: seq<Candidate>, data: seq<nat>)
    requires |data| == |kept|
    requires forall i :: 0 <= i < |kept| ==> data[i] == kept[i].votes
    ensures SumOf(data, n => n) == SumOf(kept, CandidateVotes)
  {
    if |kept| > 0 {
      SumOfProjection(kept[1..], data[1..]);
    }
  }

  /** `addMapLegend`'s selection: filter out "Others", sort by votes descending,
      keep the first four. */
  function LegendCandidates(cands: seq<Candidate>): (r: seq<Candidate>)
    ensures var kept := ChartCandidates(cands);
      && |r| == (if |kept| < LegendSize then |kept| else LegendSize)
      && multiset(r) <= multiset(kept)
      && (forall i :: 0 <= i < |r| ==> r[i].name != Others)
      && NonIncreasing(r, CandidateVotes)
  {
    var kept := ChartCandidates(cands);
    var sorted := SortDesc(kept, CandidateVotes);
    var n := if |sorted| < LegendSize then |sorted| else LegendSize;
    TopOfSorted(kept, sorted, n);
    sorted[..n]
  }

  /** A prefix of a non-increasing permutation of the charted candidates is itself
      non-increasing, drawn from them, and free of "Others". */
  lemma TopOfSorted(kept: seq<Candidate>, sorted: seq<Candidate>, n: nat)
    requires forall i :: 0 <= i < |kept| ==> kept[i].name != Others
    requires multiset(sorted) == multiset(kept)
    requires NonIncreasing(sorted, CandidateVotes)
    requires n <= |sorted|
    ensures multiset(sorted[..n]) <= multiset(kept)
    ensures forall i :: 0 <= i < n ==> sorted[..n][i].name != Others
    ensures NonIncreasing(sorted[..n], CandidateVotes)
  {
    assert sorted == sorted[..n] + sorted[n..];
    forall i | 0 <= i < n
      ensures sorted[..n][i].name != Others
    {
      assert sorted[i] in multiset(kept);
    }
  }

  /** Nothing left out of the legend beats what is in it: a charted candidate that
      the legend lists fewer times than it is loaded has at most as many votes as
      every legend entry. */
  lemma LegendHoldsTheLeaders(cands: seq<Candidate>)
    ensures forall c :: multiset(LegendCandidates(cands))[c] < multiset(ChartCandidates(cands))[c] ==>
      forall i :: 0 <= i < |LegendCandidates(cands)| ==> LegendCandidates(cands)[i].votes >= c.votes
  {
    var kept := ChartCandidates(cands);
    var sorted := SortDesc(kept, CandidateVotes);
    var top := LegendCandidates(cands);
    assert top == sorted[..|top|];
    forall c | multiset(top)[c] < multiset(kept)[c]
      ensures forall i :: 0 <= i < |top| ==> top[i].votes >= c.votes
    {
      PrefixDominatesRest(sorted, CandidateVotes, |top|, c);
    }
  }

  /** One legend line: a colour swatch and the last name token. */
  datatype LegendEntry = LegendEntry(color: string, caption: string)

  function Legend(cands: seq<Candidate>): (r: seq<LegendEntry>)
    ensures |r| == |LegendCandidates(cands)|
    ensures forall i :: 0 <= i < |r| ==>
      r[i].color == LegendCandidates(cands)[i].color && r[i].caption == LastToken(LegendCandidates(cands)[i].name)
  {
    var top := LegendCandidates(cands);
    seq(|top|, i requires 0 <= i < |top| => LegendEntry(top[i].color, LastToken(top[i].name)))
  }
}
