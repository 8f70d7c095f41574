/** Failure values for the conditions the ship simulator reports by raising.
    The simulator raises `RuntimeError` (no open cell, no dead end, no robot)
    or fails on indexing an empty grid; here each becomes a `Failure`. */
module Wrappers {

  /** Why an operation produced no value. */
  datatype Failure =
    | EmptyGrid     // `grid[0]` on an empty grid, or `randrange(0)` on an empty row
    | NoOpenCells   // no OPEN cell to pick as a goal
    | NoDeadEnd     // no OPEN cell with exactly one OPEN neighbour
    | NoRobot       // no ROBOT cell to start a search from

  /** Either a value or the reason there is none. */
  datatype Result<+T> = Ok(value: T) | Err(error: Failure)
}
