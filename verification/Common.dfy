/** Shared failure-compatible datatypes. */
module Common {
  datatype Option<+T> = None | Some(value: T)

  datatype Result<+T, +E> = Ok(value: T) | Err(error: E) {
    predicate IsFailure() {
      Err?
    }

    function PropagateFailure<U>(): Result<U, E>
      requires Err?
    {
      Err(error)
    }

    function Extract(): T
      requires Ok?
    {
      value
    }
  }

  datatype Side = Buy | Sell

  /** Time stamps are integers: UTC microseconds. */
  type Time = int

  /** The characters that the model's `strip` removes. */
  predicate IsSpace(c: char) {
    c in {' ', '\t', '\n', '\r'}
  }

  /** `text != "" and text.strip() == text`. */
  predicate Trimmed(text: string) {
    text != [] && !IsSpace(text[0]) && !IsSpace(text[|text| - 1])
  }
}
