/** The two failure-carrying wrappers the model needs: Rust's `Option` and `Result`. */
module Options {

  datatype Option<T> = None | Some(value: T) {

    /** The wrapped value, or `default` when there is none (Rust's `unwrap_or`). */
    function GetOr(default: T): T {
      if Some? then value else default
    }
  }

  datatype Result<T, E> = Ok(value: T) | Err(error: E)
}
