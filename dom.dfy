/** The page elements the exercises write to, as values: an element is `None` when the page
    does not have it. */
module Dom {

  datatype Option<T> = None | Some(value: T)

  /** What the counter element shows: its text, and whether it is displayed. */
  datatype Display = Display(text: string, visible: bool)
}
