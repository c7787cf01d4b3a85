/**
 What becomes of one request to another node, as its sender sees it and as it is.
 */
module Requests {
  /** Applied and acknowledged, applied but reported as an error, or not applied. */
  datatype Outcome = Applied | AppliedThenError | NotApplied
}
