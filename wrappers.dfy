/** Option, Go-style (value, error) results, and the error values of the scraper package. */
module Wrappers {

  datatype Option<+T> = None | Some(value: T)

  /** The error values the modelled Go code returns (Go's `error`, made concrete). */
  datatype Error =
    | UnknownName(name: string)             // region.Parse: the name is not in the table
    | InvalidRegion(id: int)                // AlertData.GetByRegion: no entry for the ID
    | BadTimeOfDay(text: string)            // parseMessage: "HH:MM:00" is not a time of day
    | NilUpdate                             // listenUpdates: the live feed delivered nil
    | Transport(message: string)            // an error returned by the chat-history request
    | Canceled                              // context.Canceled
    | Wrapped(prefix: string, inner: Error) // fmt.Errorf("<prefix>: %w", inner)

  /** A Go pair `(value, error)`: `err` is `None` exactly when Go returns a nil error. */
  datatype Result<T> = Result(value: T, err: Option<Error>) {
    predicate Ok() { err.None? }
  }
}
