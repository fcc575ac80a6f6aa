# Election dashboard view-model

A Dafny model of the selection and lookup rules inside `election_dashboard.js`, the
browser dashboard that renders a pre-tabulated election results dataset (national
totals, per-district and per-region results, district boundaries). The DOM, Chart.js
and Leaflet glue is stripped away; what remains is a pure view-model over the loaded
records:

- the candidate map built after loading (`wrappers.dfy`, `records.dfy`);
- the ranked candidate list: a stable descending sort by votes, ranks 1..n and the
  winner flag (`vote_order.dfy`, `ranking.dfy`);
- the doughnut and bar chart series, which leave out the "Others" bucket, and the
  bar label, which is the last space-separated token of a name (`names.dfy`, `ranking.dfy`);
- the map legend: the top four charted candidates by votes (`ranking.dfy`);
- the district table, with its "N/A" fallbacks, and the region table, whose winner
  is the first row of a stable descending sort (`tables.dfy`);
- the join of boundary features to district results by case-insensitive name, and
  the fill colour of each feature (`geo_join.dfy`);
- the startup render order, including the in-place sort that later readers see,
  and the map view built on first display (`dashboard.dfy`);
- the tab controller and the one-shot map initialisation guard (`tabs.dfy`).

Vote counts are `nat`. Names and ids are `string`. Percentages and turnout are
`real`; they are only carried and displayed, never computed. A table cell that the
page shows as "N/A" is `None`.

Three behaviours of the code shape the model:

- `Array.prototype.sort` is stable, so ties keep input order in the candidate
  list, the legend and the region winner.
- Each renderer writes to the page as it runs. A region without result rows makes
  `renderRegionTable` throw after the banner, list, charts and district table were
  already drawn; `initDashboard` catches the throw and shows an alert (lines 40-43),
  so the startup map check (lines 34-38) is never scheduled. `Dashboard.RenderStartup` keeps the earlier views and reports
  the region table as `None`.
- The region winner is the head of an in-place stable sort of the region's rows,
  and `Tables.RegionWinner` proves it is the first-seen maximum.

## Model

| member | source | states |
|---|---|---|
| Records.CandidateMap | election_dashboard.js:59-62 | every loaded candidate's id is a key; under an id sits the last candidate carrying it (a later duplicate replaces an earlier one) |
| Records.CandidateMapSound | election_dashboard.js:59-62 | every value in the map is some loaded candidate filed under its own id, so the keys are exactly the loaded ids |
| VoteOrder.SortDesc | election_dashboard.js:102 | the sort by `b.votes - a.votes` yields a permutation of its input that is non-increasing by votes |
| VoteOrder.SortDescStable | election_dashboard.js:102 | the sort is stable: for every vote count, candidates with that count keep their input order |
| VoteOrder.SortDescOfSorted | election_dashboard.js:329-332 | sorting a list that is already non-increasing by votes leaves it unchanged |
| VoteOrder.SortDescHeadIsFirstMax | election_dashboard.js:377 | the head of the stable descending sort is the first element with the largest vote count |
| Ranking.RankCandidates | election_dashboard.js:102-115 | the list is a stable, non-increasing permutation of the candidates; card i has rank i+1 and shows the i-th sorted candidate; a card is flagged winner exactly when its id equals the national winner id |
| Ranking.ChartCandidates | election_dashboard.js:135 | every charted candidate is a loaded candidate not named "Others", and every loaded candidate not so named is charted |
| Ranking.ChartCandidatesExact | election_dashboard.js:135 | the charted candidates are loaded candidates not named "Others", and every such candidate is charted as many times as it is loaded |
| Ranking.ChartCandidatesKeepOrder | election_dashboard.js:135 | the chart filter preserves input order: it distributes over concatenation |
| Ranking.PieSeries | election_dashboard.js:135-143 | labels, values and colours have one entry per charted candidate; entry i is the i-th charted candidate's name, votes and colour |
| Ranking.BarSeries | election_dashboard.js:181-186 | as the doughnut series, but label i is the last name token of the i-th charted candidate |
| Ranking.ChartVotesAddUp | election_dashboard.js:135-142 | chart values plus the votes of "Others" rows add up to the votes of the whole candidate list |
| Names.LastToken | election_dashboard.js:181 | the bar label is the longest space-free suffix of the name: the text after the last space, or the whole name when it has no space |
| Names.JoinSplit | election_dashboard.js:181 | splitting a name on spaces and joining the tokens with a space gives back the name |
| Names.SplitTokensHaveNoSpace | election_dashboard.js:181 | no token of the split contains a space |
| Names.LastOfSplit | election_dashboard.js:181 | the last token of the split is a space-free suffix preceded by a space unless it is the whole name |
| Ranking.LegendCandidates | election_dashboard.js:329-332 | the legend has min(4, number of charted candidates) entries, drawn from the charted candidates, none named "Others", non-increasing by votes |
| Ranking.LegendHoldsTheLeaders | election_dashboard.js:329-332 | every charted candidate left out of the legend has no more votes than any legend entry |
| Ranking.Legend | election_dashboard.js:334-341 | legend line i carries the colour and the last name token of the i-th selected candidate |
| Sequences.FirstIndex | election_dashboard.js:239-241 | `find` (here and at line 355) yields the first element satisfying the test, or nothing exactly when no element does |
| Tables.DistrictTableRow | election_dashboard.js:353-365 | the winner name is "N/A" exactly when the stored winner id is not a loaded candidate; the percentage is "N/A" exactly when no result row has the winner id, else it is the first such row's percentage |
| Tables.DistrictTable | election_dashboard.js:350-356 | one row per district, in document order |
| Tables.RegionWinner | election_dashboard.js:377 | the region winner is a row of the region with votes at least those of every row, and no earlier row has as many votes |
| Tables.RegionWinnerTieExample | election_dashboard.js:377 | of rows (A,100), (B,150), (C,150) the winner is B |
| Tables.RegionTableRow | election_dashboard.js:376-388 | the row shows the derived winner's percentage, and the winner's name or "N/A" when its id is not a loaded candidate |
| Tables.RegionTable | election_dashboard.js:373-390 | the table exists exactly when every region has at least one result row (an empty one makes `renderRegionTable` throw); it then holds one row per region, in order |
| Names.Upper | election_dashboard.js:238-240 | the upper-cased name has the same length and each character is upper-cased on its own, ASCII letters only |
| Names.SameNameIgnoringCase | election_dashboard.js:240 | a district name matches a feature name when both upper-cased are equal |
| Names.SameNameIgnoringCaseCharwise | election_dashboard.js:238-241 | two names match exactly when they have the same length and agree character by character up to ASCII case |
| Names.SameNameIgnoringCaseIsEquivalence | election_dashboard.js:238-241 | the case-insensitive match is reflexive, symmetric and transitive |
| Names.KampalaExample | election_dashboard.js:238-241 | "Kampala" matches "KAMPALA" but not "Kampala City" |
| GeoJoin.Annotate | election_dashboard.js:237-247 | the join never changes a feature's name |
| GeoJoin.AnnotateFirstMatch | election_dashboard.js:239-246 | a feature matching some district takes winner id, turnout and votes cast from the first matching district |
| GeoJoin.AnnotateNoMatch | election_dashboard.js:243 | a feature matching no district is left unchanged |
| GeoJoin.AnnotateAll | election_dashboard.js:237-248 | every feature of the boundary document is joined, in document order |
| GeoJoin.FillColor | election_dashboard.js:267-272 | the fill is the winner's colour when the feature's winner id is a loaded candidate, and `#cccccc` otherwise, including when it carries no winner id |
| GeoJoin.JoinedFill | election_dashboard.js:237-272 | a fresh feature is grey when no district matches its name or its first match's winner is unknown, and otherwise has that winner's colour |
| Dashboard.Load | election_dashboard.js:55-62 | the session keeps the three documents; every loaded candidate id is a key, the last loaded candidate with an id is stored under it, and every stored value is a loaded candidate filed under its own id |
| Dashboard.RenderStartup | election_dashboard.js:25-43 | after startup the national list is a non-increasing permutation of the loaded one; the candidate cards are the ranking's cards; the list is the ranking's stable order, so both charts are built in the same order as the cards, ties included; the district and region tables are built from the loaded documents; the map check is reached exactly when the region table was drawn, that is when every region has result rows |
| Dashboard.ChartsFollowRanking | election_dashboard.js:101-143 | since the list sort is in place, chart values are non-increasing and the map legend is exactly the first (up to) four charted candidates |
| Dashboard.ChartOfRankedIsRanked | election_dashboard.js:135-142 | over a list non-increasing by votes, the chart values are non-increasing |
| Dashboard.LegendOfRankedIsChartPrefix | election_dashboard.js:329-332 | over a list non-increasing by votes, the legend is the first (up to) four charted candidates in list order |
| Dashboard.BuildMapView | election_dashboard.js:232-263 | a failed boundary fetch gives the unavailable message; otherwise each feature is joined, filled by its winner's colour, and the legend is added |
| Tabs.InitMap | election_dashboard.js:222-225 | an existing map is returned unchanged; otherwise the map is created from the session and the boundary fetch |
| Tabs.InitMapIdempotent | election_dashboard.js:223 | initialising twice equals initialising once, whatever the second call would have fetched |
| Tabs.SwitchTab | election_dashboard.js:403-421 | a known section becomes the only active one; an unknown one leaves none active and the map untouched; the map section brings up the map `initMap` builds from the session and the boundary fetch; an existing map is never replaced |
| Tabs.StartupMapCheck | election_dashboard.js:34-38 | the startup timer brings up the map only when the map section is active, and then it is the map `initMap` builds from the session and the boundary fetch; an existing map is never replaced |
| Tabs.InitialisedMapIsFinal | election_dashboard.js:223 | once the map exists no sequence of clicks or timers replaces it or creates another |
| Tabs.AtMostOneMap | election_dashboard.js:222-225 | any interleaving of clicks and the startup timer creates at most one map, and a created map is present at the end |
| Tabs.MapTabClickInitialises | election_dashboard.js:418-421 | after a click on the map tab the map exists, whatever happened before |

## Left out

- Fetching and parsing of the three documents and the boundary file, `Promise.all`, and the alert and console error path (election_dashboard.js:41-42, 47-57, 64-68): network I/O and asynchronous control flow. The boundary fetch is a parameter of `Dashboard.BuildMapView` (None for a failed fetch or parse).
- All HTML string building and `innerHTML`, `textContent` and `classList` writes: DOM rendering. The views are returned as datatypes instead.
- The winner banner and the statistics block (election_dashboard.js:72-98): they only format fields with `toLocaleString` and `toFixed`.
- Chart.js and Leaflet construction, the tile layer, the view centre and zoom, popups and the mouseover and mouseout styling (election_dashboard.js:134, 137-139, 144-173, 176-180, 187-218, 225-230, 251-254, 273-277, 281-318, 322-326, 343-346): thin calls into libraries whose code is not part of this model.
- The tooltip percentage `value / total_valid_votes * 100` and all locale formatting: floating-point arithmetic and locale text. `Ranking.ChartVotesAddUp` states how the chart values relate to the list total instead.
- `setTimeout`, `Date` and `updateLastUpdated`: timing and wall-clock time. A scheduled `initMap` is modelled as running at the moment it is scheduled; the guard at line 223 makes the delay irrelevant to how many maps are created.
- The in-place sort of each region's `candidate_results` at line 377: no later code reads that reordered array, so the model returns the winner row only.
- The active class on the clicked tab button (`event.target`, line 416): DOM state.
- Tabs.SwitchTab: assumes every click comes after the three documents were loaded. Nothing stops a tab button from calling `switchTab` (lines 403-421) while `loadAllData` is still waiting for the three documents (lines 47-62). An earlier click on the map tab runs `initMap`: if the boundaries arrive before `districtData` is set, line 239 throws and line 261 shows "Map data not available"; if they arrive before `candidatesMap` is filled (lines 60-62), every district is filled `#cccccc`. In both cases the guard at line 223 keeps that map for the rest of the session. The model does not represent a session that is still loading.
- Names.Upper: upper-casing covers ASCII letters only; JavaScript's `toUpperCase` also maps other Unicode letters.
- Records.CandidateMap: ids are modelled as strings. A JavaScript object coerces keys to strings, and keys inherited from `Object.prototype` (such as "constructor") would also be found; the model's map holds loaded ids only. The `===` tests at lines 105 and 355 do no such coercion: with a numeric candidate id 1 and a string winner id "1", the dashboard shows the winner's name (line 354) but "N/A" for the percentage (line 355), while the model shows both.
- GeoJoin.FillColor: an unjoined feature has no `winner_id`, so `styleDistrict` looks up the key "undefined"; the model treats a missing winner id as absent from the candidate map.
