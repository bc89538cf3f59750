/** Failure-carrying wrappers shared by the dashboard's computations. */
module Results {

  /** Why a computation could not produce a value (the dashboard raises or stops here). */
  datatype Error =
    | EmptyNavSeries   // `iloc[0]` / `iloc[-1]` on an empty NAV series raises
    | EmptyTable       // no regime rows: building the diagnostics frame keyed by state fails
    | NoNavColumn      // no column name mentions "nav": the dashboard stops

  datatype Option<+T> = None | Some(value: T)

  datatype Result<+T> = Success(value: T) | Failure(error: Error)
}
