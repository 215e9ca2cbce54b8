/** What a route handler sends back: a status code with a document, or a status code with an error message. */
module Http {
  datatype Reply<T> = Success(code: int, value: T) | Failure(code: int, message: string)
}
