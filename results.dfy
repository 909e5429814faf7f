/** Option and Result values, and the fatal errors of one run of the generator.
    Every place where the program reports an error and exits the process (or
    panics) is modelled as an `Err` carrying one of the `Failure` values. */
module Results {

  datatype Option<+T> = None | Some(value: T)

  datatype Result<+T, +E> = Ok(value: T) | Err(error: E)

  datatype Failure =
    /** A `$KEY$` placeholder whose key is not in the substitution map. */
    | MissingKey(key: string)
    /** A raw HTML event whose trimmed text starts with "<!--" and ends with
        "-->" but is shorter than seven characters, such as "<!-->": the
        program slices it with an index that underflows and panics. */
    | CommentTooShort(comment: string)
    /** A required metadata attribute ("title", "description" or "date") is empty. */
    | MissingAttribute(attribute: string)
    /** The date attribute is present but the date parser rejects it. */
    | BadDate(date: string)
}
