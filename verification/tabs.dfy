/** The tab controller and the one-shot map initialisation: the map moves from
    uninitialised to initialised once, and every later trigger is a no-op. */
module Tabs {
  import opened Wrappers
  import opened GeoJoin
  import opened Dashboard

  /** The section whose activation brings up the map. */
  const MapTab: string := "map"

  /** The module-level `map` handle: unset until the first initialisation. */
  datatype MapState = Uninitialised | Initialised(view: MapView)

  /** The visible section (None once every section was hidden and the requested one
      did not exist) and the map handle. */
  datatype Ui = Ui(active: Option<string>, mapState: MapState)

  /** `initMap`: returns straight away when a map exists; otherwise creates it,
      with `geo` the outcome of its boundary fetch. */
  function InitMap(st: MapState, s: Session, geo: Option<seq<Feature>>): (r: MapState)
    ensures st.Initialised? ==> r == st
    ensures st.Uninitialised? ==> r == Initialised(BuildMapView(s, geo))
  {
    match st
    case Initialised(_) => st
    case Uninitialised => Initialised(BuildMapView(s, geo))
  }

  /** Initialising twice is initialising once, whatever the second call would have
      fetched. */
  lemma InitMapIdempotent(st: MapState, s: Session, geo: Option<seq<Feature>>, s2: Session, geo2: Option<seq<Feature>>)
    ensures InitMap(InitMap(st, s, geo), s2, geo2) == InitMap(st, s, geo)
  {
  }

  /** `switchTab`: hide every section, show the requested one, and bring up the map
      the first time the map section is shown. A name with no section makes the
      lookup of its element throw after all sections were hidden, before the map
      check. */
  function SwitchTab(ui: Ui, tab: string, sections: set<string>, s: Session, geo: Option<seq<Feature>>): (r: Ui)
    ensures tab in sections ==> r.active == Some(tab)
    ensures tab !in sections ==> r.active.None? && r.mapState == ui.mapState
    ensures tab != MapTab ==> r.mapState == ui.mapState
    ensures tab == MapTab && tab in sections ==> r.mapState.Initialised?
    ensures tab == MapTab && tab in sections ==> r.mapState == InitMap(ui.mapState, s, geo)
    ensures ui.mapState.Initialised? ==> r.mapState == ui.mapState
  {
    if tab !in sections then ui.(active := None)
    else if tab == MapTab && ui.mapState.Uninitialised? then Ui(Some(tab), InitMap(ui.mapState, s, geo))
    else ui.(active := Some(tab))
  }

  /** The check scheduled at the end of a successful startup: bring up the map if
      its section is the visible one. */
  function StartupMapCheck(ui: Ui, s: Session, geo: Option<seq<Feature>>): (r: Ui)
    ensures r.active == ui.active
    ensures ui.active != Some(MapTab) ==> r == ui
    ensures ui.active == Some(MapTab) ==> r.mapState.Initialised?
    ensures ui.active == Some(MapTab) ==> r.mapState == InitMap(ui.mapState, s, geo)
    ensures ui.mapState.Initialised? ==> r == ui
  {
    if ui.active == Some(MapTab) then ui.(mapState := InitMap(ui.mapState, s, geo)) else ui
  }

  /** The two entry points that can reach `initMap`. */
  datatype Event = Click(tab: string) | StartupTimer

  function Step(ui: Ui, e: Event, sections: set<string>, s: Session, geo: Option<seq<Feature>>): Ui
  {
    match e
    case Click(tab) => SwitchTab(ui, tab, sections, s, geo)
    case StartupTimer => StartupMapCheck(ui, s, geo)
  }

  /** The state after a sequence of events. */
  function Run(ui: Ui, events: seq<Event>, sections: set<string>, s: Session, geo: Option<seq<Feature>>): Ui
    decreases |events|
  {
    if |events| == 0 then ui
    else Run(Step(ui, events[0], sections, s, geo), events[1..], sections, s, geo)
  }

  /** How many map instances a sequence of events creates. */
  function MapsCreated(ui: Ui, events: seq<Event>, sections: set<string>, s: Session, geo: Option<seq<Feature>>): nat
    decreases |events|
  {
    if |events| == 0 then 0
    else
      var next := Step(ui, events[0], sections, s, geo);
      (if ui.mapState.Uninitialised? && next.mapState.Initialised? then 1 else 0)
        + MapsCreated(next, events[1..], sections, s, geo)
  }

  /** Once the map exists, no event replaces it or creates another. */
  lemma {:induction false} InitialisedMapIsFinal(ui: Ui, events: seq<Event>, sections: set<string>, s: Session, geo: Option<seq<Feature>>)
    requires ui.mapState.Initialised?
    ensures Run(ui, events, sections, s, geo).mapState == ui.mapState
    ensures MapsCreated(ui, events, sections, s, geo) == 0
    decreases |events|
  {
    if |events| > 0 {
      InitialisedMapIsFinal(Step(ui, events[0], sections, s, geo), events[1..], sections, s, geo);
    }
  }

  /** However the startup timer and tab clicks interleave, at most one map is
      created, and a created map stays for the rest of the session. */
  lemma {:induction false} AtMostOneMap(ui: Ui, events: seq<Event>, sections: set<string>, s: Session, geo: Option<seq<Feature>>)
    ensures MapsCreated(ui, events, sections, s, geo) <= 1
    ensures MapsCreated(ui, events, sections, s, geo) == 1 ==> ui.mapState.Uninitialised? && Run(ui, events, sections, s, geo).mapState.Initialised?
    decreases |events|
  {
    if |events| > 0 {
      var next := Step(ui, events[0], sections, s, geo);
      if next.mapState.Initialised? {
        InitialisedMapIsFinal(next, events[1..], sections, s, geo);
      } else {
        AtMostOneMap(next, events[1..], sections, s, geo);
      }
    }
  }

  /** Clicking the map tab brings up the map, whatever happened before. */
  lemma MapTabClickInitialises(ui: Ui, events: seq<Event>, sections: set<string>, s: Session, geo: Option<seq<Feature>>)
    requires MapTab in sections
    ensures Run(ui, events + [Click(MapTab)], sections, s, geo).mapState.Initialised?
  {
    RunAppend(ui, events, [Click(MapTab)], sections, s, geo);
  }

  lemma {:induction false} RunAppend(ui: Ui, a: seq<Event>, b: seq<Event>, sections: set<string>, s: Session, geo: Option<seq<Feature>>)
    ensures Run(ui, a + b, sections, s, geo) == Run(Run(ui, a, sections, s, geo), b, sections, s, geo)
    decreases |a|
  {
    if |a| > 0 {
      assert (a + b)[1..] == a[1..] + b;
      RunAppend(Step(ui, a[0], sections, s, geo), a[1..], b, sections, s, geo);
    } else {
      assert a + b == b;
    }
  }
}
