/**
 * The directed route graph of the navigator and how it is built from the
 * rows of the edge table: `add_attribute_to_edge` and the edge loop of
 * `read_from_csv_get_attribute`, including the accessibility penalty.
 *
 * Distances are whole hundredths of a mile, so the penalty of 10000 miles
 * is 1000000.
 */
module RouteGraph {
  import opened Wrappers
  import opened Errors
  import opened Direction

  /** A place of the park, by its name. */
  type Node = string

  /** The accessibility penalty, 10000 miles in hundredths of a mile. */
  const Penalty: int := 1000000

  /**
   * One edge of the undirected table graph, oriented (a, b) as the table
   * graph's edge iteration yields it, with the columns the core reads.
   */
  datatype EdgeRecord = EdgeRecord(
    a: Node,
    b: Node,
    biDir: int,        // bi_dir_indicator: 1 two-way, 0 one-way
    handicap: int,     // handicap_indicator: 0 marks a walkway that is not accessible
    direction: string,
    distance: int,
    path: string)

  /** The attributes of a directed edge that routing and narration read. */
  datatype Edge = Edge(direction: string, distance: int, path: string)

  type Key = (Node, Node)

  type EdgeMap = map<Key, Edge>

  /** The attributes a record copies onto the edges it adds. */
  function Attributes(rec: EdgeRecord): Edge {
    Edge(rec.direction, rec.distance, rec.path)
  }

  /** Directed edge k is one the record adds: both ways if two-way, only (b, a) if one-way. */
  predicate Adds(rec: EdgeRecord, k: Key) {
    || (rec.biDir == 1 && (k == (rec.a, rec.b) || k == (rec.b, rec.a)))
    || (rec.biDir == 0 && k == (rec.b, rec.a))
  }

  /**
   * Expansion of one record into directed edges. A two-way record adds
   * (a, b) with its own direction and (b, a) with the flipped direction;
   * a one-way record adds only the reversed edge (b, a); any other
   * indicator is an AttributeError. Every other edge is left alone.
   */
  function Expand(m: EdgeMap, rec: EdgeRecord): (r: Result<EdgeMap, NavError>)
    ensures r.Success? <==> rec.biDir == 0 || (rec.biDir == 1 && FlipDirection(rec.direction).Success?)
    ensures rec.biDir != 0 && rec.biDir != 1 ==> r == Failure(MalformedEdgeRecord(rec.biDir))
    ensures rec.biDir == 1 && FlipDirection(rec.direction).Failure? ==> r == Failure(FlipDirection(rec.direction).error)
    ensures r.Success? ==> forall k :: k in r.value <==> k in m || Adds(rec, k)
    ensures r.Success? ==> forall k :: k in m && !Adds(rec, k) ==> r.value[k] == m[k]
    ensures r.Success? && rec.biDir == 1 && rec.a != rec.b ==>
              (rec.a, rec.b) in r.value && r.value[(rec.a, rec.b)] == Attributes(rec)
    ensures r.Success? && rec.biDir == 1 ==>
              (rec.b, rec.a) in r.value &&
              r.value[(rec.b, rec.a)] == Attributes(rec).(direction := FlipDirection(rec.direction).value)
    ensures r.Success? && rec.biDir == 0 ==>
              (rec.b, rec.a) in r.value && r.value[(rec.b, rec.a)] == Attributes(rec)
  {
    if rec.biDir == 1 then
      match FlipDirection(rec.direction)
      case Failure(e) => Failure(e)
      case Success(flipped) =>
        Success(m[(rec.a, rec.b) := Attributes(rec)][(rec.b, rec.a) := Attributes(rec).(direction := flipped)])
    else if rec.biDir == 0 then
      Success(m[(rec.b, rec.a) := Attributes(rec)])
    else
      Failure(MalformedEdgeRecord(rec.biDir))
  }

  /** Sets the distance of edge k if the graph has it; an absent edge is skipped. */
  function SetDistance(m: EdgeMap, k: Key, d: int): (r: EdgeMap)
    ensures r.Keys == m.Keys
    ensures forall k' :: k' in m && k' != k ==> r[k'] == m[k']
    ensures k in m ==> r[k] == m[k].(distance := d)
  {
    if k in m then m[k := m[k].(distance := d)] else m
  }

  /**
   * The penalty for an inaccessible walkway between a and b: both
   * directions get the distance of (a, b) plus the penalty. Reading (a, b)
   * fails when the graph has no such edge.
   */
  function PenalizeBoth(m: EdgeMap, a: Node, b: Node): (r: Result<EdgeMap, NavError>)
    ensures r.Failure? <==> (a, b) !in m
    ensures r.Failure? ==> r.error == MissingEdge(a, b)
    ensures r.Success? ==> r.value.Keys == m.Keys
    ensures r.Success? ==> r.value[(a, b)] == m[(a, b)].(distance := m[(a, b)].distance + Penalty)
    ensures r.Success? && (b, a) in m ==> r.value[(b, a)] == m[(b, a)].(distance := m[(a, b)].distance + Penalty)
    ensures r.Success? ==> forall k :: k in m && k != (a, b) && k != (b, a) ==> r.value[k] == m[k]
  {
    if (a, b) !in m then
      Failure(MissingEdge(a, b))
    else
      var d := m[(a, b)].distance + Penalty;
      Success(SetDistance(SetDistance(m, (a, b), d), (b, a), d))
  }

  /** Whether the record is penalized: accessible routing and handicap_indicator 0. */
  predicate Penalized(rec: EdgeRecord, handicapMode: bool) {
    handicapMode && rec.handicap == 0
  }

  /** One iteration of the builder loop: expand the record, then penalize it if it is inaccessible. */
  function Step(m: EdgeMap, rec: EdgeRecord, handicapMode: bool): (r: Result<EdgeMap, NavError>)
    ensures r.Success? ==> Expand(m, rec).Success? && r.value.Keys == Expand(m, rec).value.Keys
    ensures r.Failure? && r.error.MissingEdge? ==>
              Penalized(rec, handicapMode) && r.error == MissingEdge(rec.a, rec.b)
  {
    match Expand(m, rec)
    case Failure(e) => Failure(e)
    case Success(m') =>
      if Penalized(rec, handicapMode) then PenalizeBoth(m', rec.a, rec.b) else Success(m')
  }

  /** The edges built from the records in order, or the first failure. */
  function BuildEdges(recs: seq<EdgeRecord>, handicapMode: bool): (r: Result<EdgeMap, NavError>)
    ensures r.Failure? && r.error.MissingEdge? ==> handicapMode
    ensures r.Failure? && r.error.MissingEdge? ==>
              exists i :: 0 <= i < |recs| && r.error == MissingEdge(recs[i].a, recs[i].b)
    decreases |recs|
  {
    if recs == [] then
      Success(map[])
    else
      match BuildEdges(recs[..|recs| - 1], handicapMode)
      case Failure(e) => Failure(e)
      case Success(m) => Step(m, recs[|recs| - 1], handicapMode)
  }

  /** The directed graph the builder fills in place, edge by edge. */
  class DiGraph {
    var edges: EdgeMap

    constructor ()
      ensures edges == map[]
    {
      edges := map[];
    }

    /** Adds the directed edges of one record and copies its attributes onto them. */
    method AddAttributeToEdge(rec: EdgeRecord) returns (outcome: Outcome<NavError>)
      modifies this
      ensures outcome.Pass? <==> Expand(old(edges), rec).Success?
      ensures outcome.Pass? ==> edges == Expand(old(edges), rec).value
      ensures outcome.Fail? ==> outcome.error == Expand(old(edges), rec).error && edges == old(edges)
    {
      if rec.biDir == 1 {
        var flipped := FlipDirection(rec.direction);
        if flipped.Failure? {
          return Fail(flipped.error);
        }
        edges := edges[(rec.a, rec.b) := Attributes(rec)];
        edges := edges[(rec.b, rec.a) := Attributes(rec).(direction := flipped.value)];
      } else if rec.biDir == 0 {
        edges := edges[(rec.b, rec.a) := Attributes(rec)];
      } else {
        return Fail(MalformedEdgeRecord(rec.biDir));
      }
      outcome := Pass;
    }

    /** Adds the penalty to both directions of the walkway between a and b. */
    method SetHandicapDistance(a: Node, b: Node) returns (outcome: Outcome<NavError>)
      modifies this
      ensures outcome.Pass? <==> PenalizeBoth(old(edges), a, b).Success?
      ensures outcome.Pass? ==> edges == PenalizeBoth(old(edges), a, b).value
      ensures outcome.Fail? ==> outcome.error == PenalizeBoth(old(edges), a, b).error && edges == old(edges)
    {
      if (a, b) !in edges {
        return Fail(MissingEdge(a, b));
      }
      var d := edges[(a, b)].distance + Penalty;
      edges := SetDistance(SetDistance(edges, (a, b), d), (b, a), d);
      outcome := Pass;
    }
  }

  /** A failure at some prefix of the records is the failure of the whole build. */
  lemma {:induction false} BuildFailurePersists(recs: seq<EdgeRecord>, n: nat, handicapMode: bool)
    requires n <= |recs|
    requires BuildEdges(recs[..n], handicapMode).Failure?
    ensures BuildEdges(recs, handicapMode) == BuildEdges(recs[..n], handicapMode)
    decreases |recs|
  {
    if n < |recs| {
      var init := recs[..|recs| - 1];
      assert init[..n] == recs[..n];
      BuildFailurePersists(init, n, handicapMode);
    } else {
      assert recs[..n] == recs;
    }
  }

  /**
   * Builds the directed graph from the records, in order: every record is
   * expanded and, in accessible routing mode, penalized when it is not
   * accessible. The first failure ends the build.
   */
  method BuildDiGraph(recs: seq<EdgeRecord>, handicapMode: bool) returns (r: Result<DiGraph, NavError>)
    ensures r.Success? <==> BuildEdges(recs, handicapMode).Success?
    ensures r.Success? ==> fresh(r.value) && r.value.edges == BuildEdges(recs, handicapMode).value
    ensures r.Failure? ==> r.error == BuildEdges(recs, handicapMode).error
  {
    var graph := new DiGraph();
    var i := 0;
    while i < |recs|
      invariant 0 <= i <= |recs|
      invariant BuildEdges(recs[..i], handicapMode) == Success(graph.edges)
    {
      var rec := recs[i];
      assert recs[..i + 1][..i] == recs[..i];
      var outcome := graph.AddAttributeToEdge(rec);
      if outcome.Fail? {
        BuildFailurePersists(recs, i + 1, handicapMode);
        return Failure(outcome.error);
      }
      if Penalized(rec, handicapMode) {
        outcome := graph.SetHandicapDistance(rec.a, rec.b);
        if outcome.Fail? {
          BuildFailurePersists(recs, i + 1, handicapMode);
          return Failure(outcome.error);
        }
      }
      i := i + 1;
    }
    assert recs[..i] == recs;
    r := Success(graph);
  }
}
