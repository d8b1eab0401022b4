/** Small datatypes shared by every component. */
module Common {
  datatype Option<+T> = None | Some(value: T)

  /** The outcome of an operation that the source ends with a value or with an error. */
  datatype Result<+T> = Ok(value: T) | Err(error: string)

  /** A number as the original prints it. */
  function Decimal(n: nat): string {
    if n < 10 then ["0123456789"[n]] else Decimal(n / 10) + ["0123456789"[n % 10]]
  }

  /** A string that is there and not empty. */
  predicate Given(o: Option<string>) {
    o.Some? && o.value != ""
  }

  predicate Digit(ch: char) {
    '0' <= ch <= '9'
  }

  /** ASCII only, as the originals do it. */
  function Lower(ch: char): char {
    if 'A' <= ch <= 'Z' then ch - 'A' + 'a' else ch
  }

  lemma SubsetSize<T>(small: set<T>, large: set<T>)
    requires small <= large
    ensures |small| <= |large|
  {
    assert large == small + (large - small);
  }
}
