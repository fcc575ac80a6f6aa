/** The choropleth: boundary features joined to district results by name, and the
    fill colour of each feature. */
module GeoJoin {
  import opened Wrappers
  import opened Records
  import opened Sequences
  import opened Names

  /** What the join writes into a feature's properties. */
  datatype Annotation = Annotation(winnerId: string, turnout: real, votesCast: nat)

  /** A boundary feature: its `ADM2_EN` name and the annotation it carries, if any. */
  datatype Feature = Feature(name: string, annotation: Option<Annotation>)

  /** The grey used when a feature has no known winner. */
  const NeutralFill: string := "#cccccc"

  /** The district results whose upper-cased name equals `name` upper-cased. */
  function NamedLike(name: string): DistrictResult -> bool
  {
    (d: DistrictResult) => SameNameIgnoringCase(d.name, name)
  }

  function AnnotationOf(d: DistrictResult): Annotation
  {
    Annotation(d.winnerId, d.turnout, d.votesCast)
  }

  /** One step of the join: `districts.find(...)` by case-insensitive name; on a hit
      the three properties are written, on a miss the feature is left as it is. */
  function Annotate(f: Feature, ds: seq<DistrictResult>): (g: Feature)
    ensures g.name == f.name
  {
    match FirstIndex(ds, NamedLike(f.name))
    case Some(i) => f.(annotation := Some(AnnotationOf(ds[i])))
    case None => f
  }

  /** A feature whose name matches some district takes its annotation from the
      first such district. */
  lemma AnnotateFirstMatch(f: Feature, ds: seq<DistrictResult>, i: nat)
    requires i < |ds| && SameNameIgnoringCase(ds[i].name, f.name)
    requires forall j :: 0 <= j < i ==> !SameNameIgnoringCase(ds[j].name, f.name)
    ensures Annotate(f, ds).annotation == Some(Annotation(ds[i].winnerId, ds[i].turnout, ds[i].votesCast))
  {
  }

  /** A feature whose name matches no district is left untouched. */
  lemma AnnotateNoMatch(f: Feature, ds: seq<DistrictResult>)
    requires forall j :: 0 <= j < |ds| ==> !SameNameIgnoringCase(ds[j].name, f.name)
    ensures Annotate(f, ds) == f
  {
  }

  /** The join over all features of the boundary document, in document order. */
  function AnnotateAll(fs: seq<Feature>, ds: seq<DistrictResult>): (gs: seq<Feature>)
    ensures |gs| == |fs|
    ensures forall i :: 0 <= i < |fs| ==> gs[i] == Annotate(fs[i], ds)
  {
    seq(|fs|, i requires 0 <= i < |fs| => Annotate(fs[i], ds))
  }

  /** `styleDistrict`'s fill: the winner's colour, or grey when the feature carries no
      winner id or the id is not in the candidate map. */
  function FillColor(f: Feature, m: map<string, Candidate>): (c: string)
    ensures f.annotation.None? ==> c == NeutralFill
    ensures f.annotation.Some? && f.annotation.value.winnerId !in m ==> c == NeutralFill
    ensures f.annotation.Some? && f.annotation.value.winnerId in m ==> c == m[f.annotation.value.winnerId].color
  {
    match f.annotation
    case None => NeutralFill
    case Some(a) =>
      match LookupCandidate(m, a.winnerId)
      case Some(w) => w.color
      case None => NeutralFill
  }

  /** The colour a fresh boundary feature ends up with: grey when no district matches
      its name, or when the first match's winner is not a loaded candidate; otherwise
      that winner's colour. */
  lemma JoinedFill(f: Feature, ds: seq<DistrictResult>, m: map<string, Candidate>)
    requires f.annotation.None?
    ensures (forall j :: 0 <= j < |ds| ==> !SameNameIgnoringCase(ds[j].name, f.name))
      ==> FillColor(Annotate(f, ds), m) == NeutralFill
    ensures forall i :: (0 <= i < |ds| && SameNameIgnoringCase(ds[i].name, f.name)
      && (forall j :: 0 <= j < i ==> !SameNameIgnoringCase(ds[j].name, f.name))
      ==> FillColor(Annotate(f, ds), m) == (if ds[i].winnerId in m then m[ds[i].winnerId].color else NeutralFill))
  {
    if forall j :: 0 <= j < |ds| ==> !SameNameIgnoringCase(ds[j].name, f.name) {
      AnnotateNoMatch(f, ds);
    }
    forall i | 0 <= i < |ds| && SameNameIgnoringCase(ds[i].name, f.name)
      && (forall j :: 0 <= j < i ==> !SameNameIgnoringCase(ds[j].name, f.name))
    {
      AnnotateFirstMatch(f, ds, i);
    }
  }
}
