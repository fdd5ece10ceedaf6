/** Small definitions shared by the forum components. */
module Shared {
  /** A value that may be absent (JavaScript `null`). */
  datatype Option<T> = None | Some(value: T)

  /** The two collection names a forum state is keyed by ("questions" and "thoughts"). */
  predicate IsCollectionKey(k: string)
  {
    k == "questions" || k == "thoughts"
  }
}
