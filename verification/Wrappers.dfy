/** Results that may be missing, and results that may have failed. */
module Wrappers {
  datatype Option<+T> = None | Some(value: T)

  datatype Outcome<+T> = Ok(value: T) | Fail

  // Identifiers of users, worlds, documents and the like.
  type Id = string

  // How many rows a query returns when it is not told.
  const DEFAULT_LIMIT: nat := 1000

  function Take<T>(items: seq<T>, limit: nat): seq<T> {
    if |items| <= limit then items else items[..limit]
  }
}
