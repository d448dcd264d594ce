/** Optional values and the failures of the PDF metadata converter. */
module Results {

  datatype Option<+T> = None | Some(value: T)

  /** The failures the converter can raise; Python's exception classes are folded into these kinds. */
  datatype Error =
    | EmptyMetadata                  // parse_pdf_metadatas on an empty dump
    | MissingMarker(marker: string)  // `.index(True)` / `.index(...)` found nothing
    | IndexOutOfRange(index: int)    // a list subscript outside the list
    | NotANumber(text: string)       // `int(...)` of something that is not a decimal integer
    | UnknownStyle(style: string)    // a page-label style outside the six supported ones
    | UnrecognizedLine(text: string) // a line the record scanner refuses
    | MissingField                   // a record ends without its required fields
    | DomainError(n: int)            // Roman numeral of a non-positive number
    | UnknownLabel(name: string)     // a bookmark label absent from the label list
    | ShortGroup                     // unpacking a batch of lines that is too short

  datatype Result<+T> = Ok(value: T) | Err(error: Error) {
    predicate IsFailure() { Err? }

    function PropagateFailure<U>(): Result<U>
      requires Err?
    {
      Err(error)
    }

    function Extract(): T
      requires Ok?
    {
      value
    }
  }
}
