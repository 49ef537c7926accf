/** Option and a failure-compatible Result whose error is one of the Java
    exceptions the ingestion code can run into. */
module Wrappers {

  datatype Option<+T> = None | Some(value: T)

  /** The exceptions that can leave a line's processing. Only `JsonException`
      is caught per line; the others escape the line loop. */
  datatype Exception =
    | JsonException           // org.json: missing key, value of the wrong type, unparsable text
    | StringIndexOutOfBounds  // String.substring with a begin index outside the string
    | DateTimeParseException  // LocalDate.parse on text the formatter or the calendar rejects

  datatype Result<+T> = Ok(value: T) | Err(error: Exception) {

    predicate IsFailure() {
      Err?
    }

    function PropagateFailure<U>(): Result<U>
      requires Err?
    {
      Err(error)
    }

    function Extract(): T
      requires Ok?
    {
      value
    }
  }
}
