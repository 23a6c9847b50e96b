/**
 * What narration promises: one instruction per consecutive pair of the
 * route, stopping at the first step that fails; a total that is the sum of
 * the reported distances; and, for a graph built in accessible routing
 * mode, exactly the instructions of the normal graph.
 */
module NarrationProperties {
  import opened Wrappers
  import opened Errors
  import opened Direction
  import opened RouteGraph
  import opened RouteGraphProperties
  import opened Narration

  /** Walking line i is the instruction for the pair (path[i], path[i + 1]). */
  lemma {:induction false} WalksLines(edges: EdgeMap, path: seq<Node>)
    ensures forall i :: 0 <= i < |Walks(edges, path).lines| ==>
              StepLine(edges, path[i], path[i + 1]) == Success(Walks(edges, path).lines[i])
    decreases |path|
  {
    if |path| > 1 {
      var init := path[..|path| - 1];
      WalksLines(edges, init);
      var prior := Walks(edges, init);
      var w := Walks(edges, path);
      forall i | 0 <= i < |w.lines|
        ensures StepLine(edges, path[i], path[i + 1]) == Success(w.lines[i])
      {
        if i < |prior.lines| {
          assert w.lines[i] == prior.lines[i];
          assert init[i] == path[i] && init[i + 1] == path[i + 1];
        }
      }
    }
  }

  /** A failure is the failure of the first pair after the lines printed. */
  lemma {:induction false} WalksFailure(edges: EdgeMap, path: seq<Node>)
    ensures Walks(edges, path).failure.Some? ==>
              |Walks(edges, path).lines| < Pairs(path) &&
              StepLine(edges, path[|Walks(edges, path).lines|], path[|Walks(edges, path).lines| + 1]) ==
              Failure(Walks(edges, path).failure.value)
    decreases |path|
  {
    if |path| > 1 {
      var init := path[..|path| - 1];
      WalksFailure(edges, init);
      var prior := Walks(edges, init);
      if prior.failure.Some? {
        var j := |prior.lines|;
        assert init[j] == path[j] && init[j + 1] == path[j + 1];
      }
    }
  }

  /**
   * Walking line i is the instruction for the pair (path[i], path[i + 1]);
   * without a failure there is one line per pair, and a failure is the
   * failure of the first pair after the lines printed.
   */
  lemma {:induction false} WalksSpec(edges: EdgeMap, path: seq<Node>)
    ensures var w := Walks(edges, path);
      && |w.lines| <= Pairs(path)
      && (forall i :: 0 <= i < |w.lines| ==> StepLine(edges, path[i], path[i + 1]) == Success(w.lines[i]))
      && (w.failure.None? ==> |w.lines| == Pairs(path))
      && (w.failure.Some? ==>
            |w.lines| < Pairs(path) &&
            StepLine(edges, path[|w.lines|], path[|w.lines| + 1]) == Failure(w.failure.value))
  {
    WalksLines(edges, path);
    WalksFailure(edges, path);
  }

  /**
   * The narration reaches the destination exactly when every consecutive
   * pair of the route is an edge whose direction is a compass code.
   */
  lemma {:induction false} NarrationSucceedsIff(edges: EdgeMap, path: seq<Node>, source: Node, target: Node)
    ensures Narrate(edges, path, source, target).failure.None? <==>
            forall i :: 0 <= i < |path| - 1 ==>
              (path[i], path[i + 1]) in edges && IsCompass(edges[(path[i], path[i + 1])].direction)
  {
    WalksSpec(edges, path);
    var w := Walks(edges, path);
    if w.failure.Some? {
      var j := |w.lines|;
      assert StepLine(edges, path[j], path[j + 1]).Failure?;
    } else {
      forall i | 0 <= i < |path| - 1
        ensures (path[i], path[i + 1]) in edges && IsCompass(edges[(path[i], path[i + 1])].direction)
      {
        assert StepLine(edges, path[i], path[i + 1]).Success?;
      }
    }
  }

  /** Every consecutive pair of the route is an edge of the graph. */
  predicate IsWalk(edges: EdgeMap, path: seq<Node>) {
    forall i :: 0 <= i < |path| - 1 ==> (path[i], path[i + 1]) in edges
  }

  /** The true length of a route: the reported distances of its edges, summed from the start. */
  function PathLength(edges: EdgeMap, path: seq<Node>): int
    requires IsWalk(edges, path)
    decreases |path|
  {
    if |path| <= 1 then 0
    else
      TrueDistance(edges[(path[0], path[1])].distance) + PathLength(edges, path[1..])
  }

  /** The total of two runs of lines is the sum of their totals. */
  lemma {:induction false} SumDistancesAppend(a: seq<Line>, b: seq<Line>)
    ensures SumDistances(a + b) == SumDistances(a) + SumDistances(b)
    decreases |b|
  {
    if b != [] {
      var b' := b[..|b| - 1];
      assert (a + b)[..|a + b| - 1] == a + b';
      SumDistancesAppend(a, b');
    } else {
      assert a + b == a;
    }
  }

  /** Lines that narrate the pairs of a route in order sum to the route's true length. */
  lemma {:induction false} SumOfStepLines(edges: EdgeMap, path: seq<Node>, lines: seq<Line>)
    requires |path| >= 1 && |lines| == |path| - 1
    requires forall i :: 0 <= i < |lines| ==> StepLine(edges, path[i], path[i + 1]) == Success(lines[i])
    ensures IsWalk(edges, path)
    ensures SumDistances(lines) == PathLength(edges, path)
    decreases |path|
  {
    assert forall i :: 0 <= i < |lines| ==> StepLine(edges, path[i], path[i + 1]).Success?;
    if |path| > 1 {
      var rest, tail := lines[1..], path[1..];
      forall i | 0 <= i < |rest|
        ensures StepLine(edges, tail[i], tail[i + 1]) == Success(rest[i])
      {
        assert rest[i] == lines[i + 1] && tail[i] == path[i + 1] && tail[i + 1] == path[i + 2];
      }
      SumOfStepLines(edges, tail, rest);
      SumDistancesAppend([lines[0]], rest);
      assert [lines[0]] + rest == lines;
      assert [lines[0]][..0] == [];
      assert StepLine(edges, path[0], path[1]) == Success(lines[0]);
    }
  }

  /**
   * A completed narration opens with the route's endpoints, gives one
   * instruction per consecutive pair of the route, announces the arrival
   * and reports the route's true length as the total.
   */
  lemma {:induction false} NarrationComplete(edges: EdgeMap, path: seq<Node>, source: Node, target: Node)
    requires |path| >= 1
    requires Narrate(edges, path, source, target).failure.None?
    ensures var lines := Narrate(edges, path, source, target).lines;
      && IsWalk(edges, path)
      && |lines| == |path| + 2
      && lines[0] == StartRoute(source, target)
      && (forall i :: 0 <= i < |path| - 1 ==> StepLine(edges, path[i], path[i + 1]) == Success(lines[i + 1]))
      && lines[|path|] == Arrived(target)
      && lines[|path| + 1] == TotalDistance(PathLength(edges, path))
  {
    WalksSpec(edges, path);
    var w := Walks(edges, path);
    SumOfStepLines(edges, path, w.lines);
    var lines := Narrate(edges, path, source, target).lines;
    assert lines == [StartRoute(source, target)] + w.lines + [Arrived(target), TotalDistance(SumDistances(w.lines))];
    forall i | 0 <= i < |path| - 1
      ensures StepLine(edges, path[i], path[i + 1]) == Success(lines[i + 1])
    {
      assert lines[i + 1] == w.lines[i];
    }
  }

  /** Two graphs that narrate every step alike narrate every route alike. */
  lemma {:induction false} WalksAgree(e1: EdgeMap, e2: EdgeMap, path: seq<Node>)
    requires forall i :: 0 <= i < |path| - 1 ==> StepLine(e1, path[i], path[i + 1]) == StepLine(e2, path[i], path[i + 1])
    ensures Walks(e1, path) == Walks(e2, path)
    decreases |path|
  {
    if |path| > 1 {
      var init := path[..|path| - 1];
      assert forall i :: 0 <= i < |init| ==> init[i] == path[i];
      WalksAgree(e1, e2, init);
      assert StepLine(e1, path[|path| - 2], path[|path| - 1]) == StepLine(e2, path[|path| - 2], path[|path| - 1]);
    }
  }

  /**
   * The penalty never shows in the narration: for a simple record sequence
   * with true distances below the penalty, the graph built in accessible
   * routing mode narrates every route exactly as the normal graph does.
   */
  lemma {:induction false} NarrationIgnoresPenalty(recs: seq<EdgeRecord>, path: seq<Node>, source: Node, target: Node)
    requires Simple(recs)
    requires forall i :: 0 <= i < |recs| ==> 0 <= recs[i].distance < Penalty
    requires BuildEdges(recs, true).Success?
    ensures BuildEdges(recs, false).Success?
    ensures Narrate(BuildEdges(recs, true).value, path, source, target) ==
            Narrate(BuildEdges(recs, false).value, path, source, target)
  {
    ModesAgree(recs);
    var h, n := BuildEdges(recs, true).value, BuildEdges(recs, false).value;
    BuildEdgeKeys(recs, false);
    forall i | 0 <= i < |path| - 1
      ensures StepLine(h, path[i], path[i + 1]) == StepLine(n, path[i], path[i + 1])
    {
      var k := (path[i], path[i + 1]);
      if k in n {
        var j :| 0 <= j < |recs| && Adds(recs[j], k);
        TrueDistanceRemovesPenalty(recs[j].distance);
        assert TrueDistance(h[k].distance) == TrueDistance(n[k].distance);
      }
    }
    WalksAgree(h, n, path);
  }

  /** The three walkways of the module's opening example, distances in hundredths of a mile. */
  function ExampleEdges(): EdgeMap {
    map[
      ("CarSpin", "Toonstreet3_Toonstreet1") := Edge("S", 10, "Toonstreet1"),
      ("Toonstreet3_Toonstreet1", "Toonstreet3_AdventureLand8") := Edge("E", 20, "Toonstreet3"),
      ("Toonstreet3_AdventureLand8", "DisneyGallery") := Edge("S", 10, "AdventureLand8")]
  }

  /** The route of the opening example, as the shortest-path search returns it. */
  function ExampleRoute(): seq<Node> {
    ["CarSpin", "Toonstreet3_Toonstreet1", "Toonstreet3_AdventureLand8", "DisneyGallery"]
  }

  /** Each leg of the opening example's route narrates its walkway. */
  lemma ExampleLegs()
    ensures |ExampleRoute()| == 4
    ensures StepLine(ExampleEdges(), ExampleRoute()[0], ExampleRoute()[1]) ==
            Success(Walk("Toonstreet1", 10, "South", "Toonstreet3_Toonstreet1"))
    ensures StepLine(ExampleEdges(), ExampleRoute()[1], ExampleRoute()[2]) ==
            Success(Walk("Toonstreet3", 20, "East", "Toonstreet3_AdventureLand8"))
    ensures StepLine(ExampleEdges(), ExampleRoute()[2], ExampleRoute()[3]) ==
            Success(Walk("AdventureLand8", 10, "South", "DisneyGallery"))
  {
    var edges, path := ExampleEdges(), ExampleRoute();
    StepLineWalk(edges, path[0], path[1], "South");
    StepLineWalk(edges, path[1], path[2], "East");
    StepLineWalk(edges, path[2], path[3], "South");
  }

  /**
   * The module's opening example: from CarSpin south along Toonstreet1,
   * east along Toonstreet3 and south along AdventureLand8 to DisneyGallery,
   * 0.1 + 0.2 + 0.1 = 0.4 miles.
   */
  lemma OpeningExample()
    ensures Narrate(ExampleEdges(), ExampleRoute(), "CarSpin", "DisneyGallery") == Walked([
              StartRoute("CarSpin", "DisneyGallery"),
              Walk("Toonstreet1", 10, "South", "Toonstreet3_Toonstreet1"),
              Walk("Toonstreet3", 20, "East", "Toonstreet3_AdventureLand8"),
              Walk("AdventureLand8", 10, "South", "DisneyGallery"),
              Arrived("DisneyGallery"),
              TotalDistance(40)], None)
  {
    var edges, path := ExampleEdges(), ExampleRoute();
    var l1 := Walk("Toonstreet1", 10, "South", "Toonstreet3_Toonstreet1");
    var l2 := Walk("Toonstreet3", 20, "East", "Toonstreet3_AdventureLand8");
    var l3 := Walk("AdventureLand8", 10, "South", "DisneyGallery");
    ExampleLegs();
    assert Walks(edges, path[..1]) == Walked([], None);
    WalksStep(edges, path, 1, [], l1);
    WalksStep(edges, path, 2, [l1], l2);
    WalksStep(edges, path, 3, [l1, l2], l3);
    assert path[..4] == path;
    SumDistancesSnoc([], l1);
    SumDistancesSnoc([l1], l2);
    SumDistancesSnoc([l1, l2], l3);
  }
}
