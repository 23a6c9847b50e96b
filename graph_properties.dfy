/**
 * What the builder guarantees about the graph it returns: which directed
 * edges exist, when the build succeeds, the attributes of every edge, and
 * how the accessible-routing graph differs from the normal one.
 */
module RouteGraphProperties {
  import opened Wrappers
  import opened Errors
  import opened Direction
  import opened RouteGraph

  /** The two records join the same pair of places, in either orientation. */
  predicate SamePair(r: EdgeRecord, s: EdgeRecord) {
    (r.a == s.a && r.b == s.b) || (r.a == s.b && r.b == s.a)
  }

  /**
   * The records come from a simple undirected graph: no two of them join
   * the same pair of places. The table graph's edge iteration yields each
   * undirected edge once, so its records always have this shape.
   */
  predicate Simple(recs: seq<EdgeRecord>) {
    forall i, j :: 0 <= i < j < |recs| ==> !SamePair(recs[i], recs[j])
  }

  /**
   * The record passes the builder on its own: a two-way record needs a
   * flippable direction, a one-way record must be accessible in accessible
   * routing mode unless it is a loop (the edge (a, b) it reads is otherwise
   * missing).
   */
  predicate Accepted(rec: EdgeRecord, handicapMode: bool) {
    || (rec.biDir == 1 && FlipDirection(rec.direction).Success?)
    || (rec.biDir == 0 && (Penalized(rec, handicapMode) ==> rec.a == rec.b))
  }

  /**
   * The edge the record leaves at key k once the build is over, defined
   * edge by edge: the flipped direction on the reverse of a two-way record,
   * and the true distance plus the penalty if the record is penalized.
   */
  function ExpectedEdge(rec: EdgeRecord, k: Key, handicapMode: bool): Edge
    requires rec.biDir == 1 ==> FlipDirection(rec.direction).Success?
  {
    var direction :=
      if rec.biDir == 1 && k == (rec.b, rec.a) then FlipDirection(rec.direction).value else rec.direction;
    var distance := rec.distance + if Penalized(rec, handicapMode) then Penalty else 0;
    Edge(direction, distance, rec.path)
  }

  /** The prefix of a simple record sequence is simple. */
  lemma {:induction false} SimplePrefix(recs: seq<EdgeRecord>, n: nat)
    requires Simple(recs) && n <= |recs|
    ensures Simple(recs[..n])
  {
    forall i, j | 0 <= i < j < n
      ensures !SamePair(recs[..n][i], recs[..n][j])
    {
      assert recs[..n][i] == recs[i] && recs[..n][j] == recs[j];
    }
  }

  /** The directed edges one record adds. */
  function RecordKeys(rec: EdgeRecord): (ks: set<Key>)
    ensures forall k :: k in ks <==> Adds(rec, k)
  {
    if rec.biDir == 1 then {(rec.a, rec.b), (rec.b, rec.a)}
    else if rec.biDir == 0 then {(rec.b, rec.a)}
    else {}
  }

  /** The directed edges a sequence of records adds, whatever the routing mode. */
  function AddedKeys(recs: seq<EdgeRecord>): set<Key>
    decreases |recs|
  {
    if recs == [] then {} else AddedKeys(recs[..|recs| - 1]) + RecordKeys(recs[|recs| - 1])
  }

  /** An edge is added by a record sequence exactly when one of its records adds it. */
  lemma {:induction false} AddedKeysIff(recs: seq<EdgeRecord>, k: Key)
    ensures k in AddedKeys(recs) <==> exists i :: 0 <= i < |recs| && Adds(recs[i], k)
    decreases |recs|
  {
    if recs != [] {
      var n := |recs| - 1;
      var init := recs[..n];
      AddedKeysIff(init, k);
      assert forall i :: 0 <= i < n ==> init[i] == recs[i];
      if k in AddedKeys(init) {
        var i :| 0 <= i < n && Adds(init[i], k);
        assert Adds(recs[i], k);
      }
    }
  }

  /** The keys of a built graph are the edges its records add. */
  lemma {:induction false} BuildKeys(recs: seq<EdgeRecord>, handicapMode: bool)
    requires BuildEdges(recs, handicapMode).Success?
    ensures BuildEdges(recs, handicapMode).value.Keys == AddedKeys(recs)
    decreases |recs|
  {
    if recs != [] {
      var n := |recs| - 1;
      BuildKeys(recs[..n], handicapMode);
      var m := BuildEdges(recs[..n], handicapMode).value;
      var m' := Expand(m, recs[n]).value;
      assert m'.Keys == m.Keys + RecordKeys(recs[n]);
    }
  }

  /** A built graph holds exactly the directed edges its records add. */
  lemma {:induction false} BuildEdgeKeys(recs: seq<EdgeRecord>, handicapMode: bool)
    requires BuildEdges(recs, handicapMode).Success?
    ensures forall k :: k in BuildEdges(recs, handicapMode).value <==>
                        exists i :: 0 <= i < |recs| && Adds(recs[i], k)
  {
    BuildKeys(recs, handicapMode);
    forall k ensures k in AddedKeys(recs) <==> exists i :: 0 <= i < |recs| && Adds(recs[i], k) {
      AddedKeysIff(recs, k);
    }
  }

  /** Two different records of a simple sequence join different pairs of places. */
  lemma SimpleDistinct(recs: seq<EdgeRecord>, i: nat, j: nat)
    requires Simple(recs) && i < |recs| && j < |recs| && i != j
    ensures !SamePair(recs[i], recs[j])
  {
    if j < i {
      assert !SamePair(recs[j], recs[i]);
    }
  }

  /** In a simple record sequence, no earlier record adds an edge between the last record's places. */
  lemma {:induction false} NoEarlierEdge(recs: seq<EdgeRecord>, handicapMode: bool, k: Key)
    requires Simple(recs) && |recs| > 0
    requires BuildEdges(recs[..|recs| - 1], handicapMode).Success?
    requires k == (recs[|recs| - 1].a, recs[|recs| - 1].b) || k == (recs[|recs| - 1].b, recs[|recs| - 1].a)
    ensures k !in BuildEdges(recs[..|recs| - 1], handicapMode).value
  {
    var n := |recs| - 1;
    var init := recs[..n];
    forall i | 0 <= i < n
      ensures !Adds(init[i], k)
    {
      assert init[i] == recs[i];
      assert !SamePair(recs[i], recs[n]);
    }
    BuildEdgeKeys(init, handicapMode);
  }

  /** Every record of the sequence is accepted on its own. */
  predicate AllAccepted(recs: seq<EdgeRecord>, handicapMode: bool) {
    forall i :: 0 <= i < |recs| ==> Accepted(recs[i], handicapMode)
  }

  /** All records are accepted exactly when those before the last one are, and the last one is. */
  lemma AllAcceptedSnoc(recs: seq<EdgeRecord>, handicapMode: bool)
    requires recs != []
    ensures AllAccepted(recs, handicapMode) <==>
            AllAccepted(recs[..|recs| - 1], handicapMode) && Accepted(recs[|recs| - 1], handicapMode)
  {
    assert forall i :: 0 <= i < |recs| - 1 ==> recs[..|recs| - 1][i] == recs[i];
  }

  /** One builder step on a graph without an edge between the record's places succeeds exactly when the record is accepted. */
  lemma StepSucceedsIff(m: EdgeMap, rec: EdgeRecord, handicapMode: bool)
    requires (rec.a, rec.b) !in m
    ensures Step(m, rec, handicapMode).Success? <==> Accepted(rec, handicapMode)
  {
    if Expand(m, rec).Success? && Penalized(rec, handicapMode) {
      var m' := Expand(m, rec).value;
      assert (rec.a, rec.b) in m' <==> Adds(rec, (rec.a, rec.b));
    }
  }

  /**
   * For a simple record sequence the build succeeds exactly when every
   * record is accepted on its own. In particular, in accessible routing
   * mode a one-way record that is not accessible makes the build fail.
   */
  lemma {:induction false} BuildSucceedsIff(recs: seq<EdgeRecord>, handicapMode: bool)
    requires Simple(recs)
    ensures BuildEdges(recs, handicapMode).Success? <==> AllAccepted(recs, handicapMode)
    decreases |recs|
  {
    if recs != [] {
      var n := |recs| - 1;
      var init := recs[..n];
      var r := recs[n];
      SimplePrefix(recs, n);
      BuildSucceedsIff(init, handicapMode);
      AllAcceptedSnoc(recs, handicapMode);
      if BuildEdges(init, handicapMode).Success? {
        NoEarlierEdge(recs, handicapMode, (r.a, r.b));
        StepSucceedsIff(BuildEdges(init, handicapMode).value, r, handicapMode);
      }
    }
  }

  /** One builder step leaves every edge its record does not touch as it was. */
  lemma StepKeepsOther(m: EdgeMap, rec: EdgeRecord, handicapMode: bool, k: Key)
    requires Step(m, rec, handicapMode).Success?
    requires k in m && !Adds(rec, k) && k != (rec.a, rec.b)
    ensures k in Step(m, rec, handicapMode).value && Step(m, rec, handicapMode).value[k] == m[k]
  {
    var m' := Expand(m, rec).value;
    assert k in m' && m'[k] == m[k];
  }

  /** One builder step gives a record new to the graph the edges it expects. */
  lemma StepAddsExpected(m: EdgeMap, rec: EdgeRecord, handicapMode: bool, k: Key)
    requires Step(m, rec, handicapMode).Success?
    requires (rec.a, rec.b) !in m && (rec.b, rec.a) !in m
    requires Adds(rec, k)
    ensures rec.biDir == 1 ==> FlipDirection(rec.direction).Success?
    ensures k in Step(m, rec, handicapMode).value &&
            Step(m, rec, handicapMode).value[k] == ExpectedEdge(rec, k, handicapMode)
  {
    var m' := Expand(m, rec).value;
    if Penalized(rec, handicapMode) {
      assert (rec.a, rec.b) in m' <==> Adds(rec, (rec.a, rec.b));
      assert m'[(rec.a, rec.b)].distance == rec.distance;
    }
  }

  /**
   * For a simple record sequence that builds, every directed edge a record
   * adds ends with that record's attributes: its own direction on (a, b),
   * the flipped direction on the reverse of a two-way record, and the
   * penalty on both directions when it is penalized.
   */
  lemma {:induction false} BuildCharacterization(recs: seq<EdgeRecord>, handicapMode: bool)
    requires Simple(recs)
    requires BuildEdges(recs, handicapMode).Success?
    ensures AllAccepted(recs, handicapMode)
    ensures forall i, k :: 0 <= i < |recs| && Adds(recs[i], k) ==>
              Accepted(recs[i], handicapMode) &&
              k in BuildEdges(recs, handicapMode).value &&
              BuildEdges(recs, handicapMode).value[k] == ExpectedEdge(recs[i], k, handicapMode)
    decreases |recs|
  {
    if recs != [] {
      var n := |recs| - 1;
      var init := recs[..n];
      var r := recs[n];
      SimplePrefix(recs, n);
      BuildCharacterization(init, handicapMode);
      var m := BuildEdges(init, handicapMode).value;
      var g := BuildEdges(recs, handicapMode).value;
      NoEarlierEdge(recs, handicapMode, (r.a, r.b));
      NoEarlierEdge(recs, handicapMode, (r.b, r.a));
      assert g == Step(m, r, handicapMode).value;
      StepSucceedsIff(m, r, handicapMode);
      AllAcceptedSnoc(recs, handicapMode);
      forall i, k | 0 <= i < |recs| && Adds(recs[i], k)
        ensures k in g && g[k] == ExpectedEdge(recs[i], k, handicapMode)
      {
        if i < n {
          assert init[i] == recs[i];
          assert !SamePair(recs[i], recs[n]);
          StepKeepsOther(m, r, handicapMode, k);
        } else {
          StepAddsExpected(m, r, handicapMode, k);
        }
      }
    }
  }

  /**
   * Spec of a two-way record, for a simple record sequence that builds:
   * both directed edges exist with the record's path and one and the same
   * distance, (a, b) keeps the record's direction and the two directions
   * are each other's opposites.
   */
  lemma {:induction false} TwoWayRecordEdges(recs: seq<EdgeRecord>, handicapMode: bool, i: nat)
    requires Simple(recs) && BuildEdges(recs, handicapMode).Success?
    requires i < |recs| && recs[i].biDir == 1 && recs[i].a != recs[i].b
    ensures var g, r := BuildEdges(recs, handicapMode).value, recs[i];
      && (r.a, r.b) in g && (r.b, r.a) in g
      && g[(r.a, r.b)].direction == r.direction
      && FlipDirection(g[(r.a, r.b)].direction) == Success(g[(r.b, r.a)].direction)
      && FlipDirection(g[(r.b, r.a)].direction) == Success(g[(r.a, r.b)].direction)
      && g[(r.a, r.b)].path == g[(r.b, r.a)].path == r.path
      && g[(r.a, r.b)].distance == g[(r.b, r.a)].distance
  {
    var r := recs[i];
    BuildCharacterization(recs, handicapMode);
    assert Adds(r, (r.a, r.b)) && Adds(r, (r.b, r.a));
    FlipInvolution(r.direction);
  }

  /** A one-way record between two different places leaves no edge (a, b) in the built graph. */
  lemma OneWayNoForwardEdge(recs: seq<EdgeRecord>, handicapMode: bool, i: nat)
    requires Simple(recs) && BuildEdges(recs, handicapMode).Success?
    requires i < |recs| && recs[i].biDir == 0 && recs[i].a != recs[i].b
    ensures (recs[i].a, recs[i].b) !in BuildEdges(recs, handicapMode).value
  {
    var r := recs[i];
    forall j | 0 <= j < |recs|
      ensures !Adds(recs[j], (r.a, r.b))
    {
      if j != i {
        SimpleDistinct(recs, i, j);
      }
    }
    BuildEdgeKeys(recs, handicapMode);
  }

  /** A one-way record between two different places leaves (b, a) with its own attributes. */
  lemma OneWayReverseEdge(recs: seq<EdgeRecord>, handicapMode: bool, i: nat)
    requires Simple(recs) && BuildEdges(recs, handicapMode).Success?
    requires i < |recs| && recs[i].biDir == 0 && recs[i].a != recs[i].b
    ensures (recs[i].b, recs[i].a) in BuildEdges(recs, handicapMode).value
    ensures BuildEdges(recs, handicapMode).value[(recs[i].b, recs[i].a)] == Attributes(recs[i])
  {
    var r := recs[i];
    BuildCharacterization(recs, handicapMode);
    assert Adds(r, (r.b, r.a)) && Accepted(r, handicapMode);
    assert BuildEdges(recs, handicapMode).value[(r.b, r.a)] == ExpectedEdge(r, (r.b, r.a), handicapMode);
  }

  /**
   * Spec of a one-way record, for a simple record sequence that builds: the
   * reversed edge (b, a) exists with the record's attributes, and (a, b)
   * does not exist at all.
   */
  lemma {:induction false} OneWayRecordEdges(recs: seq<EdgeRecord>, handicapMode: bool, i: nat)
    requires Simple(recs) && BuildEdges(recs, handicapMode).Success?
    requires i < |recs| && recs[i].biDir == 0 && recs[i].a != recs[i].b
    ensures var g, r := BuildEdges(recs, handicapMode).value, recs[i];
      && (r.b, r.a) in g
      && g[(r.b, r.a)] == Attributes(r)
      && (r.a, r.b) !in g
  {
    OneWayNoForwardEdge(recs, handicapMode, i);
    OneWayReverseEdge(recs, handicapMode, i);
  }

  /**
   * The accessible-routing graph of a simple record sequence differs from
   * the normal one only in distances: whenever it builds, the normal graph
   * builds too, with the same edges, directions and paths; every edge of a
   * penalized record carries exactly the penalty on top of the true
   * distance, and every other edge the true distance.
   */
  lemma {:induction false} ModesAgree(recs: seq<EdgeRecord>)
    requires Simple(recs) && BuildEdges(recs, true).Success?
    ensures BuildEdges(recs, false).Success?
    ensures BuildEdges(recs, true).value.Keys == BuildEdges(recs, false).value.Keys
    ensures forall i, k :: 0 <= i < |recs| && Adds(recs[i], k) ==>
              var h, n := BuildEdges(recs, true).value, BuildEdges(recs, false).value;
              && k in n && k in h
              && n[k].distance == recs[i].distance
              && h[k] == n[k].(distance := n[k].distance + if recs[i].handicap == 0 then Penalty else 0)
  {
    BuildSucceedsIff(recs, true);
    BuildSucceedsIff(recs, false);
    BuildCharacterization(recs, true);
    BuildCharacterization(recs, false);
    BuildEdgeKeys(recs, true);
    BuildEdgeKeys(recs, false);
  }
}
