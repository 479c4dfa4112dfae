/** The two container shapes every other module shares. */
module Wrappers {

  /** A value that may be absent: a nullable column, an `undefined` field, a `null` result. */
  datatype Option<+T> = None | Some(value: T)

  /** An awaited write to the database. A write that throws may still have reached the
      table: only the reply is known to be missing. */
  datatype Write = Stored | Threw(message: string, applied: bool) {
    /** True when the row now holds what was written. */
    predicate Applied() {
      Stored? || applied
    }
  }
}
