/** Failure-carrying results shared by the forecast pipeline. */
module Outcomes {

  datatype Option<+T> = None | Some(value: T)

  /** The ways one forecast request can fail. */
  datatype Failure =
    | DateOutOfRange   // stepping back from 0001-01-01 (Python's OverflowError)
    | DataUnavailable  // "Data could not be retrieved for the specified date and run times"
    | PointOffGrid     // an aligned point whose label is not on the dataset's grid (KeyError)
    | InterpolationFailed  // xarray's `interp` raised on the sliced cell

  datatype Outcome<+T> = Ok(value: T) | Err(failure: Failure)
}
