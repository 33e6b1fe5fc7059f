/** Shared value types: an optional value (Python's `None` or a value) and the
    way a message handler ends. */
module Common {

  datatype Option<T> = None | Some(value: T)

  /** How one call of a message handler ends. `Handled` is a normal return;
      the other two are the exceptions the handler raises. */
  datatype Outcome =
    | Handled
      /** A side of the snapshot has no price levels: indexing the unzipped
          level list raises. */
    | MalformedSnapshot
      /** The signal local is read before any assignment to it. */
    | UnboundSignal
}
