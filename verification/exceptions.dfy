/** The .NET exceptions that the modelled code raises or lets through. */
module Exceptions {
  import opened Wrappers

  datatype Exc =
    /** NullReferenceException: a member used on a null reference. */
    | NullReference
    /** InvalidCastException: the cast of a non-dictionary to IDictionary. */
    | InvalidCast
    /** IndexOutOfRangeException: an array indexed past its end. */
    | IndexOutOfRange
    /** ArgumentOutOfRangeException: an IList<T> indexed past its end. */
    | ArgumentOutOfRange
    /** InvalidOperationException from Enumerable.First: no element matched. */
    | NoMatchingElement
    /** The late-bound writer re-dispatching to itself without end. */
    | StackOverflow
    /** `new Exception(message, inner)`, or any exception raised by code outside the model. */
    | Raised(message: string, inner: Option<Exc>)
}
