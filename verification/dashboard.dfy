/** The dashboard session: the three loaded documents with the candidate map, the
    startup render sequence of `initDashboard`, and the map view built on first
    display. */
module Dashboard {
  import opened Wrappers
  import opened Records
  import opened VoteOrder
  import opened Ranking
  import opened Tables
  import opened GeoJoin

  /** The session state: the loaded documents and the lookup built from them. */
  datatype Session = Session(
    national: National,
    districts: seq<DistrictResult>,
    regions: seq<RegionResult>,
    candidateMap: map<string, Candidate>)

  /** `loadAllData` after the three documents arrived: the candidate map is filled
      from the national candidate list. */
  function Load(national: National, districts: seq<DistrictResult>, regions: seq<RegionResult>): (s: Session)
    ensures s.national == national && s.districts == districts && s.regions == regions
    ensures forall i :: 0 <= i < |national.candidates| ==> national.candidates[i].id in s.candidateMap
    ensures forall i :: 0 <= i < |national.candidates| && LastWithId(national.candidates, i) ==>
      s.candidateMap[national.candidates[i].id] == national.candidates[i]
    ensures forall id :: id in s.candidateMap ==>
      exists i :: 0 <= i < |national.candidates| && national.candidates[i].id == id && s.candidateMap[id] == national.candidates[i]
  {
    var m := CandidateMap(national.candidates);
    assert forall id :: id in m ==>
      exists i :: 0 <= i < |national.candidates| && national.candidates[i].id == id && m[id] == national.candidates[i]
    by {
      forall id | id in m {
        CandidateMapSound(national.candidates, id);
      }
    }
    Session(national, districts, regions, m)
  }

  /** Everything the startup sequence draws. `regionRows` is None when the region
      table threw. */
  datatype View = View(
    cards: seq<CandidateCard>,
    pie: ChartSeries,
    bar: ChartSeries,
    districtRows: seq<DistrictRow>,
    regionRows: Option<seq<RegionRow>>)

  /** The outcome of the startup sequence: the session as the renderers leave it,
      what they drew, and whether the startup map check is reached. */
  datatype Startup = Startup(session: Session, view: View, checksMap: bool)

  /** `initDashboard` after loading: the candidate list (whose sort reorders the
      national candidate list in place), then the charts over the reordered list,
      then the district and region tables. A throwing region table ends the
      sequence before the map check is scheduled; what was drawn before it stays. */
  function RenderStartup(s: Session): (r: Startup)
    ensures r.session.districts == s.districts && r.session.regions == s.regions
    ensures r.session.candidateMap == s.candidateMap
    ensures r.session.national.winnerId == s.national.winnerId
    ensures multiset(r.session.national.candidates) == multiset(s.national.candidates)
    ensures NonIncreasing(r.session.national.candidates, CandidateVotes)
    ensures r.session.national.candidates == RankCandidates(s.national.candidates, s.national.winnerId).sorted
    ensures r.view.cards == RankCandidates(s.national.candidates, s.national.winnerId).cards
    ensures r.view.pie == PieSeries(r.session.national.candidates)
    ensures r.view.bar == BarSeries(r.session.national.candidates)
    ensures r.view.districtRows == DistrictTable(s.districts, s.candidateMap)
    ensures r.view.regionRows == RegionTable(s.regions, s.candidateMap)
    ensures r.checksMap <==> r.view.regionRows.Some?
    ensures r.checksMap <==> forall i :: 0 <= i < |s.regions| ==> |s.regions[i].results| > 0
  {
    var ranked := RankCandidates(s.national.candidates, s.national.winnerId);
    var s' := s.(national := s.national.(candidates := ranked.sorted));
    var regionRows := RegionTable(s.regions, s.candidateMap);
    var view := View(
      ranked.cards,
      PieSeries(ranked.sorted),
      BarSeries(ranked.sorted),
      DistrictTable(s.districts, s.candidateMap),
      regionRows);
    Startup(s', view, regionRows.Some?)
  }

  /** Over a list already non-increasing by votes, the chart values are
      non-increasing too. */
  lemma ChartOfRankedIsRanked(cands: seq<Candidate>)
    requires NonIncreasing(cands, CandidateVotes)
    ensures NonIncreasing(PieSeries(cands).data, n => n)
  {
    var kept := ChartCandidates(cands);
    FilterKeepsNonIncreasing(cands, IsCharted, CandidateVotes);
    assert forall i :: 0 <= i < |kept| ==> PieSeries(cands).data[i] == CandidateVotes(kept[i]);
  }

  /** Over a list already non-increasing by votes, the legend's own sort changes
      nothing: the legend is the first (up to) four charted candidates. */
  lemma LegendOfRankedIsChartPrefix(cands: seq<Candidate>)
    requires NonIncreasing(cands, CandidateVotes)
    ensures LegendCandidates(cands) == ChartCandidates(cands)[..|LegendCandidates(cands)|]
  {
    var kept := ChartCandidates(cands);
    FilterKeepsNonIncreasing(cands, IsCharted, CandidateVotes);
    SortDescOfSorted(kept, CandidateVotes);
  }

  /** Because the candidate list sorts in place before the charts are built, the
      chart values come out non-increasing, and the map legend is exactly the first
      (up to) four charted candidates. */
  lemma ChartsFollowRanking(s: Session)
    ensures var after := RenderStartup(s).session.national.candidates;
      var data := RenderStartup(s).view.pie.data;
      && NonIncreasing(data, n => n)
      && LegendCandidates(after) == ChartCandidates(after)[..|LegendCandidates(after)|]
  {
    var r := RenderStartup(s);
    var after := r.session.national.candidates;
    assert NonIncreasing(after, CandidateVotes) && r.view.pie == PieSeries(after);
    ChartOfRankedIsRanked(after);
    LegendOfRankedIsChartPrefix(after);
  }

  /** What the map shows once its boundary document has been fetched: nothing but a
      message when the fetch or parse failed, otherwise the joined features, their
      fills, and the legend. */
  datatype MapView =
    | MapUnavailable
    | MapShown(features: seq<Feature>, fills: seq<string>, legend: seq<LegendEntry>)

  /** The body of `initMap` past its guard. `geo` is the outcome of fetching the
      boundary document (None: the fetch or the parse failed). */
  function BuildMapView(s: Session, geo: Option<seq<Feature>>): (v: MapView)
    ensures geo.None? <==> v.MapUnavailable?
    ensures geo.Some? ==> (|v.features| == |v.fills| == |geo.value|
      && (forall i :: 0 <= i < |geo.value| ==>
            v.features[i] == Annotate(geo.value[i], s.districts)
            && v.fills[i] == FillColor(v.features[i], s.candidateMap))
      && v.legend == Legend(s.national.candidates))
  {
    match geo
    case None => MapUnavailable
    case Some(fs) =>
      var joined := AnnotateAll(fs, s.districts);
      MapShown(
        joined,
        seq(|joined|, i requires 0 <= i < |joined| => FillColor(joined[i], s.candidateMap)),
        Legend(s.national.candidates))
  }
}
