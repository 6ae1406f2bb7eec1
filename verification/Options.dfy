/** The optional value every part of the model uses for a nullable column or a missing answer. */
module Options {
  datatype Option<+T> = None | Some(value: T)

  /** A text that may be missing, read as empty. */
  function OrEmpty(value: Option<string>): string {
    if value.Some? then value.value else ""
  }
}
