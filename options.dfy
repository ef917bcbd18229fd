/** The optional value used where the page's code may find nothing
    (no occurrence of a pattern, no line to draw). */
module Options {
  datatype Option<+T> = None | Some(value: T)
}
