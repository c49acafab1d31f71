/** The finding record every rule produces. */
module Findings {
  import opened Wrappers
  import opened Messages

  datatype Impact = Critical | Serious | Moderate | Minor

  function ImpactName(i: Impact): string {
    match i
    case Critical => "critical"
    case Serious => "serious"
    case Moderate => "moderate"
    case Minor => "minor"
  }

  /** One reported defect. `kind` is the record's `type` field and `criterion` its
      `wcagCriteria`; `suggestion` is `None` for the issues of the legacy checker,
      whose record has no such field. */
  datatype Finding = Finding(
    kind: Kind,
    element: string,
    path: string,
    description: Description,
    criterion: Criterion,
    impact: Impact,
    suggestion: Option<Suggestion>)

  /** What a check decides about one element: a finding still lacking its path. */
  datatype Report = Report(
    kind: Kind,
    element: string,
    description: Description,
    criterion: Criterion,
    impact: Impact,
    suggestion: Option<Suggestion>)
  {
    function At(path: string): Finding {
      Finding(kind, element, path, description, criterion, impact, suggestion)
    }
  }

  /** A finding without its path: the report it was made from. */
  function Unplaced(f: Finding): (r: Report)
    ensures r.At(f.path) == f
  {
    Report(f.kind, f.element, f.description, f.criterion, f.impact, f.suggestion)
  }

  /** The reports of one element, each completed with that element's path. */
  function AttachAll(reports: seq<Report>, path: string): seq<Finding> {
    if reports == [] then [] else [reports[0].At(path)] + AttachAll(reports[1..], path)
  }

  /** One finding per report, in the same order. */
  lemma {:induction false} AttachAllEach(reports: seq<Report>, path: string)
    ensures |AttachAll(reports, path)| == |reports|
    ensures forall i :: 0 <= i < |reports| ==> AttachAll(reports, path)[i] == reports[i].At(path)
  {
    if reports != [] {
      AttachAllEach(reports[1..], path);
    }
  }

  /** A finding is among an element's completed reports exactly when it carries
      that element's path and comes from one of them. */
  lemma AttachAllMember(reports: seq<Report>, path: string, f: Finding)
    ensures f in AttachAll(reports, path) <==> f.path == path && Unplaced(f) in reports
  {
    var fs := AttachAll(reports, path);
    AttachAllEach(reports, path);
    if f in fs {
      var j :| 0 <= j < |fs| && fs[j] == f;
      assert reports[j] == Unplaced(f);
    }
    if f.path == path && Unplaced(f) in reports {
      var j :| 0 <= j < |reports| && reports[j] == Unplaced(f);
      assert fs[j] == f;
    }
  }

  /** Completing reports distributes over concatenation. */
  lemma {:induction false} AttachAllConcat(a: seq<Report>, b: seq<Report>, path: string)
    ensures AttachAll(a + b, path) == AttachAll(a, path) + AttachAll(b, path)
  {
    if a != [] {
      assert (a + b)[0] == a[0];
      assert (a + b)[1..] == a[1..] + b;
      AttachAllConcat(a[1..], b, path);
    } else {
      assert a + b == b;
    }
  }

  /** The reports of the given kind, in order (`reports.filter(r => r.type === kind)`). */
  function OfKind(reports: seq<Report>, kind: Kind): (r: seq<Report>)
    ensures |r| <= |reports|
  {
    if reports == [] then []
    else (if reports[0].kind == kind then [reports[0]] else []) + OfKind(reports[1..], kind)
  }

  /** Selecting by kind keeps exactly the reports of that kind. */
  lemma {:induction false} OfKindMember(reports: seq<Report>, kind: Kind, x: Report)
    ensures x in OfKind(reports, kind) <==> x in reports && x.kind == kind
  {
    if reports != [] {
      OfKindMember(reports[1..], kind, x);
      assert reports == [reports[0]] + reports[1..];
    }
  }

  /** Selecting by kind distributes over concatenation. */
  lemma {:induction false} OfKindConcat(a: seq<Report>, b: seq<Report>, kind: Kind)
    ensures OfKind(a + b, kind) == OfKind(a, kind) + OfKind(b, kind)
  {
    if a != [] {
      var head := if a[0].kind == kind then [a[0]] else [];
      assert (a + b)[0] == a[0];
      assert (a + b)[1..] == a[1..] + b;
      assert OfKind(a + b, kind) == head + OfKind(a[1..] + b, kind);
      OfKindConcat(a[1..], b, kind);
      assert OfKind(a, kind) == head + OfKind(a[1..], kind);
    } else {
      assert a + b == b;
    }
  }

  /** Selecting the one kind every report has keeps them all. */
  lemma {:induction false} OfKindAll(reports: seq<Report>, kind: Kind)
    requires forall r :: r in reports ==> r.kind == kind
    ensures OfKind(reports, kind) == reports
  {
    if reports != [] {
      OfKindAll(reports[1..], kind);
      assert reports == [reports[0]] + reports[1..];
    }
  }

  /** Selecting a kind no report has keeps none. */
  lemma OfKindNone(reports: seq<Report>, kind: Kind)
    requires forall r :: r in reports ==> r.kind != kind
    ensures OfKind(reports, kind) == []
  {
    var r := OfKind(reports, kind);
    if r != [] {
      OfKindMember(reports, kind, r[0]);
    }
  }

  /** The criteria of the reports, in order. */
  function Criteria(reports: seq<Report>): (r: seq<Criterion>)
    ensures |r| == |reports|
    ensures forall i :: 0 <= i < |r| ==> r[i] == reports[i].criterion
  {
    if reports == [] then [] else [reports[0].criterion] + Criteria(reports[1..])
  }
}
