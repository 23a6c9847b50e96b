/** The failures of the routing core, one per exception the navigator raises. */
module Errors {

  datatype NavError =
      /** ValueError: a direction code outside the supported compass codes. */
    | InvalidDirection(code: string)
      /** AttributeError: a bi-directional indicator that is neither 1 nor 0. */
    | MalformedEdgeRecord(indicator: int)
      /** KeyError: the directed edge between the places named `from` and `to` is not in the graph. */
    | MissingEdge(from: string, to: string)
}
