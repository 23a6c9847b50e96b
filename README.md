# Accessible theme-park routing core, modelled in Dafny

This project models the part of the park navigator (`A7_graphs_nav.py`) whose logic the
repository writes itself, between its calls into pandas, networkx and matplotlib:

- **Direction codec** (`direction.dfy`, module `Direction`): `simple_slip` (the opposite of
  N, E, S, W), `flip_direction` (the same, letter by letter, for one- and two-letter codes)
  and `direction_narrative` (the English word of the eight compass codes). Each raised
  `ValueError` is a `Failure(InvalidDirection(code))`.
- **Graph builder** (`graph.dfy`, module `RouteGraph`): the directed graph is a class
  `DiGraph` whose one field is a map from `(from, to)` to an edge record
  `{direction, distance, path}`. `AddAttributeToEdge` expands one row of the edge table in
  place. A two-way row (indicator 1) adds `(a, b)` with its own direction and `(b, a)` with
  the flipped direction. A one-way row (indicator 0) adds only the reversed edge `(b, a)`.
  Any other indicator is the `AttributeError`, here `MalformedEdgeRecord`.
  `SetHandicapDistance` is the accessibility penalty: both directions get the distance of
  `(a, b)` plus 10000 miles. `BuildDiGraph` is the builder loop over the rows. Each method
  is proved against a specification function (`Expand`, `PenalizeBoth`, `BuildEdges`).
- **Builder properties** (`graph_properties.dfy`, module `RouteGraphProperties`): which edges
  a built graph holds, when a build succeeds, the attributes of every edge, and how the
  accessible-mode graph differs from the normal one.
- **Narration** (`narration.dfy`, module `Narration`; properties in
  `narration_properties.dfy`): `TurnByTurnInstruction` walks the consecutive pairs of the
  route, strips the penalty from each stored distance, narrates the direction and keeps a
  running total. It returns the printed lines as values and is proved against the
  function `Narrate`.

Distances are whole hundredths of a mile. The penalty of 10000 miles is therefore
`Penalty == 1000000`, and no rounding is needed.

Source behaviours the model keeps on purpose:

- In accessible mode, a one-way row that is not accessible and joins two different places
  makes the build fail. The code
  reads the distance of `(a, b)`, and a one-way row only adds `(b, a)`, so the lookup raises
  `KeyError`. The model returns `Failure(MissingEdge(a, b))`. `BuildSucceedsIff` states
  exactly when a build succeeds. A one-way loop row adds `(a, a)`, so the lookup finds it
  and the build goes on.
- The penalty update skips an edge the graph lacks, as networkx's `set_edge_attributes` does.
- A two-way row whose two ends are the same place leaves one loop edge, and that edge carries
  the flipped direction, because the reverse edge is written last.
- A one-way row's direction is never checked while building. An invalid code only fails
  when a route is narrated along that edge.
- `flip_direction` accepts any one- or two-letter code made of N, E, S, W. For example,
  "NN" gives "SS", which `direction_narrative` then rejects.
- Narration lines printed before a failing step are kept, along with the failure.
- A stored distance of 10000 miles or more is reported with 10000 miles taken off.

The rows of the edge table reach the builder as `EdgeRecord` values, one per edge of
networkx's undirected table graph, in its iteration order and orientation. Such a sequence
never holds two rows for the same pair of places (`Simple`). The properties of the final
graph are proved for sequences of that shape.

## Model

| member | source | states |
|---|---|---|
| `Direction.SimpleSlip` | A7_graphs_nav.py:102-111 | succeeds exactly on N, E, S, W; the result is the other end of the same axis (never the input); anything else fails with InvalidDirection naming the input |
| `Direction.SimpleSlipInvolution` | A7_graphs_nav.py:93-111 | taking the opposite of a one-letter code twice gives the code back |
| `Direction.FlipDirection` | A7_graphs_nav.py:125-130 | on one letter it equals SimpleSlip; it succeeds exactly on codes of length 1 or 2 whose every letter is N, E, S or W, and then each letter of the result is SimpleSlip of the input's letter; a bad first letter, a bad second letter or a bad length each fail with the code the source names |
| `Direction.FlipInvolution` | A7_graphs_nav.py:114-130 | flipping twice gives back every code flipping accepts |
| `Direction.FlipCompassClosed` | A7_graphs_nav.py:118-130 | each of the eight compass codes flips to a different one of the eight |
| `Direction.DirectionNarrative` | A7_graphs_nav.py:229-234 | succeeds exactly on N, E, S, W, NW, NE, SW, SE; anything else fails with InvalidDirection |
| `Direction.NarrativeInjective` | A7_graphs_nav.py:229-230 | different compass codes are narrated by different words |
| `RouteGraph.Expand` | A7_graphs_nav.py:145-158 | succeeds exactly for indicator 0, or indicator 1 with a flippable direction; otherwise MalformedEdgeRecord or the flip's failure; the new edges are those of the old graph plus those the record adds (both ways if two-way, only (b, a) if one-way); (a, b) has the record's attributes, (b, a) the flipped direction on two-way rows and the record's attributes on one-way rows; every other edge is unchanged |
| `RouteGraph.SetDistance` | A7_graphs_nav.py:182-183 | only the distance of the named edge changes, and only if the edge exists; the set of edges is unchanged |
| `RouteGraph.PenalizeBoth` | A7_graphs_nav.py:181-183 | fails with MissingEdge(a, b) exactly when (a, b) is absent; otherwise (a, b) and an existing (b, a) both get the distance of (a, b) plus the penalty, and nothing else changes |
| `RouteGraph.DiGraph.constructor` | A7_graphs_nav.py:174 | the new graph has no edges |
| `RouteGraph.DiGraph.AddAttributeToEdge` | A7_graphs_nav.py:133-159 | the graph afterwards is Expand of the graph before; a failure is Expand's failure and leaves the graph as it was |
| `RouteGraph.DiGraph.SetHandicapDistance` | A7_graphs_nav.py:181-183 | the graph afterwards is PenalizeBoth of the graph before, or unchanged with MissingEdge(a, b) |
| `RouteGraph.Step` | A7_graphs_nav.py:177-183 | one iteration of the builder loop: expand the row, then penalize it if it is inaccessible in accessible mode; a success needs the expansion to succeed, and penalizing adds no edge to it; a MissingEdge failure only comes from penalizing the row's own (a, b) |
| `RouteGraph.BuildEdges` | A7_graphs_nav.py:176-183 | the builder loop over the rows in order, stopping at the first exception; a MissingEdge (KeyError) failure happens only in accessible mode and names the two places of one of the rows |
| `RouteGraph.BuildFailurePersists` | A7_graphs_nav.py:176-177 | a failure on a prefix of the rows is the failure of the whole build |
| `RouteGraph.BuildDiGraph` | A7_graphs_nav.py:174-183 | succeeds exactly when BuildEdges does, with a fresh graph holding BuildEdges' edges; otherwise returns the first row's failure |
| `RouteGraphProperties.AddedKeysIff` | A7_graphs_nav.py:176-177 | an edge is among those a row sequence adds exactly when one of its rows adds it |
| `RouteGraphProperties.BuildKeys` | A7_graphs_nav.py:176-183 | the edges of a built graph are those its rows add, in either routing mode |
| `RouteGraphProperties.BuildEdgeKeys` | A7_graphs_nav.py:176-183 | a built graph holds a directed edge exactly when some row adds it; in particular a one-way row alone never yields (a, b) |
| `RouteGraphProperties.NoEarlierEdge` | A7_graphs_nav.py:176-181 | in the table graph's rows, no earlier row adds an edge between the current row's places, so (a, b) exists before a one-way row only if nothing added it |
| `RouteGraphProperties.BuildSucceedsIff` | A7_graphs_nav.py:145-183 | for the table graph's rows, the build succeeds exactly when every row has indicator 1 with a flippable direction or indicator 0, and, in accessible mode, no inaccessible one-way row joins two different places |
| `RouteGraphProperties.BuildCharacterization` | A7_graphs_nav.py:145-183 | after a successful build, every edge a row adds carries that row's direction (flipped on the reverse of a two-way row), path, and distance plus the penalty exactly when the row is inaccessible and the mode is accessible |
| `RouteGraphProperties.TwoWayRecordEdges` | A7_graphs_nav.py:145-152 | a two-way row yields both directed edges, with the same path and distance; (a, b) keeps the row's direction and the two directions are each other's flips |
| `RouteGraphProperties.OneWayRecordEdges` | A7_graphs_nav.py:153-156 | a one-way row yields (b, a) with the row's attributes unchanged, and (a, b) is absent |
| `RouteGraphProperties.ModesAgree` | A7_graphs_nav.py:176-183 | if the accessible-mode build succeeds, the normal build succeeds with the same edges, directions and paths; normal distances are the row distances, and accessible distances add the penalty exactly on inaccessible rows |
| `Narration.TrueDistance` | A7_graphs_nav.py:301-302 | the reported distance of a stored distance: never negative for a non-negative stored distance, never more than it, and below the penalty whenever the stored distance is below twice the penalty |
| `Narration.TrueDistanceRemovesPenalty` | A7_graphs_nav.py:301-302 | a true distance below the penalty is reported unchanged, with or without the penalty added |
| `Narration.StepLine` | A7_graphs_nav.py:298-306 | the step from u to v succeeds exactly when the edge exists and its direction is a compass code; a missing edge is MissingEdge (KeyError), a bad code InvalidDirection; a successful line is a walk that names the edge's path and its distance with the penalty taken out, and ends at v |
| `Narration.StepLineWalk` | A7_graphs_nav.py:298-306 | along an existing edge whose code direction_narrative maps to a word, the step's line is exactly the walk along the edge's path, for its distance with the penalty taken out, in that word's direction, to v |
| `Narration.Walks` | A7_graphs_nav.py:296-306 | the walking lines of the loop over consecutive pairs, stopping at the first step that fails: at most one line per pair, and exactly one per pair when nothing failed |
| `Narration.WalksFailurePersists` | A7_graphs_nav.py:296-306 | a step that fails ends the narration: later pairs produce no lines |
| `Narration.SumDistances` | A7_graphs_nav.py:295-304 | the reference definition of the running total, with no contract of its own: the sum of the distances of the walking lines, starting from 0; SumDistancesAppend and SumOfStepLines state its properties |
| `Narration.Narrate` | A7_graphs_nav.py:294-308 | the reference definition of the whole output, with no contract of its own: the start line and the walks, then the arrival line and the total of the walks when no step failed; NarrationSucceedsIff and NarrationComplete state its properties |
| `Narration.TurnByTurnInstruction` | A7_graphs_nav.py:290-308 | the lines returned and the failure equal Narrate of the graph's edges and the route |
| `NarrationProperties.WalksSpec` | A7_graphs_nav.py:296-306 | walking line i is the instruction for (path[i], path[i+1]); without a failure there are len(path)-1 lines; a failure is that of the first pair after the lines printed |
| `NarrationProperties.NarrationSucceedsIff` | A7_graphs_nav.py:296-306 | the narration reaches the destination exactly when every consecutive pair of the route is an edge whose direction is a compass code |
| `NarrationProperties.SumDistancesAppend` | A7_graphs_nav.py:304 | the running total over two runs of lines is the sum of their totals |
| `NarrationProperties.SumOfStepLines` | A7_graphs_nav.py:295-304 | lines narrating a route's pairs in order make the route a walk of the graph and sum to its true length |
| `NarrationProperties.NarrationComplete` | A7_graphs_nav.py:294-308 | a completed narration is: the start line, one instruction per pair of the route, the arrival at the target, and a total equal to the route's true length |
| `NarrationProperties.WalksAgree` | A7_graphs_nav.py:296-306 | two graphs that narrate every step of a route alike narrate the whole route alike |
| `NarrationProperties.NarrationIgnoresPenalty` | A7_graphs_nav.py:299-302 | for the table graph's rows with true distances below the penalty, the accessible-mode graph narrates every route exactly as the normal graph does |
| `NarrationProperties.OpeningExample` | A7_graphs_nav.py:4-13 | the module docstring's route from CarSpin to DisneyGallery is narrated South 0.1, East 0.2, South 0.1 miles, total 0.4 |

## Left out

- Reading the edge and node tables (`pd.read_csv`, `from_pandas_edgelist`, lines 171-173) is
  library I/O. The builder takes the rows already parsed, as `EdgeRecord` values in the
  order and orientation of networkx's undirected edge iteration.
- Attaching node attributes (`set_node_attributes`, lines 186-188) is left out. It never
  changes edges. Duplicate or unknown node names are not validated, as in the code.
- `Edge` carries only direction, distance and path. The code also copies every other table
  column onto each edge, including the two indicators, but nothing downstream reads them.
- RouteGraph.DiGraph.AddAttributeToEdge: when flipping a two-way row's direction fails, the
  model leaves the graph unchanged. The code has already added both edges with some
  attributes copied. The builder drops the graph on any failure, so no caller can see this.
- `calculate_shortest_path` (line 288) is a call to networkx's `shortest_path`. The route is
  a parameter of `TurnByTurnInstruction`. Weight-minimality is not modelled.
- The `Navigation` object (lines 76-84) only stores its arguments, builds the graph and
  computes the route. The narration method takes the graph, the two endpoints and the route
  as parameters instead of reading them from fields.
- `connections` (lines 191-219) is networkx's max-flow edge connectivity over a graph read
  again from fixed files. It is left out.
- `get_all_attractions`, `list_all_attractions` and `draw_graph` (lines 236-279) are table
  reads, formatted printing and plotting. They are left out.
- The interactive loop under `__main__` (lines 310-362) is console I/O. It is left out.
- Floating-point miles and `round(..., 2)` (lines 302, 308) are not modelled. Whole
  hundredths of a mile are exact.
- Printing is not modelled. Each printed line is a `Line` value: start, walk, arrival, total.
- The code does not check that the penalty exceeds the total of all true distances, so the
  model does not either. `NarrationIgnoresPenalty` assumes every true distance is below the
  penalty.
