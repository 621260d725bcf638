/** What a validator comes to: a value, or the reason it refuses. */
module Judgement {

  datatype Judged<T, E> = Accepted(value: T) | Refused(refusal: E)
}
