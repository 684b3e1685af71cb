/** Optional values and the outcome of a call into an external collaborator. */
module Wrappers {

  /** A value that may be absent (`null` or `undefined` in the components). */
  datatype Option<+T> = None | Some(value: T)

  /** What a collaborator call (microphone, transcription, elaboration) comes back with:
      a resolved promise carrying a value, or a rejected one. */
  datatype Reply<+T> = Success(value: T) | Failure
}
