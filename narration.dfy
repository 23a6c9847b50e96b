/**
 * Turn-by-turn narration of a route (`turn_by_turn_instruction`): one
 * walking instruction per consecutive pair of the path, with the
 * accessibility penalty taken back out of each reported distance and a
 * running total. The printed lines are returned as values.
 */
module Narration {
  import opened Wrappers
  import opened Errors
  import opened Direction
  import opened RouteGraph

  /** One printed line of the narration. */
  datatype Line =
    | StartRoute(source: Node, target: Node)
    | Walk(path: string, distance: int, direction: string, to: Node)
    | Arrived(target: Node)
    | TotalDistance(distance: int)

  /** The walking lines printed so far, and the failure that stopped the narration, if any. */
  datatype Walked = Walked(lines: seq<Line>, failure: Option<NavError>)

  /** The distance reported for a stored distance: the penalty is subtracted once it is reached. */
  function TrueDistance(stored: int): (r: int)
    ensures 0 <= stored ==> 0 <= r <= stored
    ensures stored < 2 * Penalty ==> r < Penalty
  {
    if stored >= Penalty then stored - Penalty else stored
  }

  /** Reporting removes exactly the penalty an inaccessible walkway carries, and nothing from a true distance. */
  lemma TrueDistanceRemovesPenalty(d: int)
    requires 0 <= d < Penalty
    ensures TrueDistance(d) == d
    ensures TrueDistance(d + Penalty) == d
  {
  }

  /**
   * The instruction for walking from u to v: the edge's path name, its
   * reported distance and the word for its direction. A missing edge is a
   * KeyError, a direction without a word a ValueError.
   */
  function StepLine(edges: EdgeMap, u: Node, v: Node): (r: Result<Line, NavError>)
    ensures r.Success? <==> (u, v) in edges && IsCompass(edges[(u, v)].direction)
    ensures (u, v) !in edges ==> r == Failure(MissingEdge(u, v))
    ensures (u, v) in edges && !IsCompass(edges[(u, v)].direction) ==>
              r == Failure(InvalidDirection(edges[(u, v)].direction))
    ensures r.Success? ==> r.value.Walk? && r.value.to == v && r.value.path == edges[(u, v)].path
    ensures r.Success? ==> r.value.distance == TrueDistance(edges[(u, v)].distance)
  {
    if (u, v) !in edges then
      Failure(MissingEdge(u, v))
    else
      var e := edges[(u, v)];
      match DirectionNarrative(e.direction)
      case Failure(err) => Failure(err)
      case Success(word) => Success(Walk(e.path, TrueDistance(e.distance), word, v))
  }

  /** The number of consecutive pairs of a path. */
  function Pairs(path: seq<Node>): nat {
    if |path| == 0 then 0 else |path| - 1
  }

  /** The walking lines of a path, stopping at the first step that fails. */
  function Walks(edges: EdgeMap, path: seq<Node>): (r: Walked)
    ensures |r.lines| <= Pairs(path)
    ensures r.failure.None? ==> |r.lines| == Pairs(path)
    decreases |path|
  {
    if |path| <= 1 then
      Walked([], None)
    else
      var prior := Walks(edges, path[..|path| - 1]);
      if prior.failure.Some? then
        prior
      else
        match StepLine(edges, path[|path| - 2], path[|path| - 1])
        case Failure(e) => Walked(prior.lines, Some(e))
        case Success(line) => Walked(prior.lines + [line], None)
  }

  /** A failure at some prefix of the path is where the whole narration stops. */
  lemma {:induction false} WalksFailurePersists(edges: EdgeMap, path: seq<Node>, n: nat)
    requires n <= |path|
    requires Walks(edges, path[..n]).failure.Some?
    ensures Walks(edges, path) == Walks(edges, path[..n])
    decreases |path|
  {
    if n < |path| {
      var init := path[..|path| - 1];
      assert init[..n] == path[..n];
      WalksFailurePersists(edges, init, n);
    } else {
      assert path[..n] == path;
    }
  }

  /** The sum of the distances of the walking lines. */
  function SumDistances(lines: seq<Line>): int
    decreases |lines|
  {
    if lines == [] then 0
    else SumDistances(lines[..|lines| - 1]) + (if lines[|lines| - 1].Walk? then lines[|lines| - 1].distance else 0)
  }

  /** The whole narration: the opening line, the walks, and on success the arrival and the total. */
  function Narrate(edges: EdgeMap, path: seq<Node>, source: Node, target: Node): (r: Walked)
  {
    var w := Walks(edges, path);
    if w.failure.Some? then
      Walked([StartRoute(source, target)] + w.lines, w.failure)
    else
      Walked([StartRoute(source, target)] + w.lines + [Arrived(target), TotalDistance(SumDistances(w.lines))], None)
  }

  /** The line of an existing edge whose direction has a word. */
  lemma StepLineWalk(edges: EdgeMap, u: Node, v: Node, word: string)
    requires (u, v) in edges && DirectionNarrative(edges[(u, v)].direction) == Success(word)
    ensures StepLine(edges, u, v) == Success(Walk(edges[(u, v)].path, TrueDistance(edges[(u, v)].distance), word, v))
  {
  }

  /** The failure of a step whose direction has no word. */
  lemma StepLineBadDirection(edges: EdgeMap, u: Node, v: Node)
    requires (u, v) in edges && DirectionNarrative(edges[(u, v)].direction).Failure?
    ensures StepLine(edges, u, v) == Failure(DirectionNarrative(edges[(u, v)].direction).error)
  {
  }

  /** A step that succeeds extends the walking lines of the path so far by its line. */
  lemma WalksStep(edges: EdgeMap, path: seq<Node>, i: nat, walked: seq<Line>, line: Line)
    requires 1 <= i < |path|
    requires Walks(edges, path[..i]) == Walked(walked, None)
    requires StepLine(edges, path[i - 1], path[i]) == Success(line)
    ensures Walks(edges, path[..i + 1]) == Walked(walked + [line], None)
  {
    assert path[..i + 1][..i] == path[..i];
  }

  /** A step that fails ends the narration of the whole path with its failure. */
  lemma WalksStop(edges: EdgeMap, path: seq<Node>, i: nat, walked: seq<Line>)
    requires 1 <= i < |path|
    requires Walks(edges, path[..i]) == Walked(walked, None)
    requires StepLine(edges, path[i - 1], path[i]).Failure?
    ensures Walks(edges, path) == Walked(walked, Some(StepLine(edges, path[i - 1], path[i]).error))
  {
    assert path[..i + 1][..i] == path[..i];
    WalksFailurePersists(edges, path, i + 1);
  }

  /** A narration stopped by a failing step prints the opening line and the walks before it. */
  lemma NarrateStop(edges: EdgeMap, path: seq<Node>, source: Node, target: Node, i: nat, walked: seq<Line>)
    requires 1 <= i < |path|
    requires Walks(edges, path[..i]) == Walked(walked, None)
    requires StepLine(edges, path[i - 1], path[i]).Failure?
    ensures Narrate(edges, path, source, target) ==
            Walked([StartRoute(source, target)] + walked, Some(StepLine(edges, path[i - 1], path[i]).error))
  {
    WalksStop(edges, path, i, walked);
  }

  /** The step at i along an existing edge whose direction has a word adds its line to the walks and its distance to the total. */
  lemma WalksAdvance(edges: EdgeMap, path: seq<Node>, i: nat, walked: seq<Line>, word: string)
    requires 1 <= i < |path|
    requires Walks(edges, path[..i]) == Walked(walked, None)
    requires (path[i - 1], path[i]) in edges
    requires DirectionNarrative(edges[(path[i - 1], path[i])].direction) == Success(word)
    ensures var e := edges[(path[i - 1], path[i])];
            var line := Walk(e.path, TrueDistance(e.distance), word, path[i]);
            && Walks(edges, path[..i + 1]) == Walked(walked + [line], None)
            && SumDistances(walked + [line]) == SumDistances(walked) + TrueDistance(e.distance)
  {
    var e := edges[(path[i - 1], path[i])];
    var line := Walk(e.path, TrueDistance(e.distance), word, path[i]);
    StepLineWalk(edges, path[i - 1], path[i], word);
    WalksStep(edges, path, i, walked, line);
    SumDistancesSnoc(walked, line);
  }

  /** A missing edge at step i stops the narration with a KeyError for that pair. */
  lemma NarrateMissing(edges: EdgeMap, path: seq<Node>, source: Node, target: Node, i: nat, walked: seq<Line>)
    requires 1 <= i < |path|
    requires Walks(edges, path[..i]) == Walked(walked, None)
    requires (path[i - 1], path[i]) !in edges
    ensures Narrate(edges, path, source, target) ==
            Walked([StartRoute(source, target)] + walked, Some(MissingEdge(path[i - 1], path[i])))
  {
    NarrateStop(edges, path, source, target, i, walked);
  }

  /** A direction without a word at step i stops the narration with that ValueError. */
  lemma NarrateBadDirection(edges: EdgeMap, path: seq<Node>, source: Node, target: Node, i: nat, walked: seq<Line>)
    requires 1 <= i < |path|
    requires Walks(edges, path[..i]) == Walked(walked, None)
    requires (path[i - 1], path[i]) in edges
    requires DirectionNarrative(edges[(path[i - 1], path[i])].direction).Failure?
    ensures Narrate(edges, path, source, target) ==
            Walked([StartRoute(source, target)] + walked,
                   Some(DirectionNarrative(edges[(path[i - 1], path[i])].direction).error))
  {
    StepLineBadDirection(edges, path[i - 1], path[i]);
    NarrateStop(edges, path, source, target, i, walked);
  }

  /** A narration whose every step succeeds ends with the arrival and the total of its walks. */
  lemma NarrateDone(edges: EdgeMap, path: seq<Node>, source: Node, target: Node, walked: seq<Line>)
    requires Walks(edges, path) == Walked(walked, None)
    ensures Narrate(edges, path, source, target) ==
            Walked([StartRoute(source, target)] + walked + [Arrived(target), TotalDistance(SumDistances(walked))], None)
  {
  }

  /** The total grows by the distance of each walking line added. */
  lemma SumDistancesSnoc(lines: seq<Line>, line: Line)
    requires line.Walk?
    ensures SumDistances(lines + [line]) == SumDistances(lines) + line.distance
  {
    assert (lines + [line])[..|lines|] == lines;
  }

  /**
   * Narrates the route `path` from `source` to `target` over the graph,
   * step by step, keeping the running total of reported distances.
   */
  method TurnByTurnInstruction(graph: DiGraph, source: Node, target: Node, path: seq<Node>)
    returns (lines: seq<Line>, failure: Option<NavError>)
    ensures Walked(lines, failure) == Narrate(graph.edges, path, source, target)
  {
    var edges := graph.edges;
    var walked: seq<Line> := [];
    var total := 0;
    if |path| <= 1 {
      // a route of at most one place has no step to walk
      NarrateDone(edges, path, source, target, []);
      return [StartRoute(source, target), Arrived(target), TotalDistance(total)], None;
    }
    var i := 1;
    while i < |path|
      invariant 1 <= i <= |path|
      invariant Walks(edges, path[..i]) == Walked(walked, None)
      invariant total == SumDistances(walked)
    {
      var u, v := path[i - 1], path[i];
      if (u, v) !in edges {
        NarrateMissing(edges, path, source, target, i, walked);
        return [StartRoute(source, target)] + walked, Some(MissingEdge(u, v));
      }
      var e := edges[(u, v)];
      var distance := e.distance;
      if distance >= Penalty {
        distance := distance - Penalty;
      }
      total := total + distance;
      var word := DirectionNarrative(e.direction);
      if word.Failure? {
        NarrateBadDirection(edges, path, source, target, i, walked);
        return [StartRoute(source, target)] + walked, Some(word.error);
      }
      assert distance == TrueDistance(e.distance);
      WalksAdvance(edges, path, i, walked, word.value);
      walked := walked + [Walk(e.path, distance, word.value, v)];
      i := i + 1;
    }
    assert path[..i] == path;
    NarrateDone(edges, path, source, target, walked);
    lines := [StartRoute(source, target)] + walked + [Arrived(target), TotalDistance(total)];
    failure := None;
  }
}
