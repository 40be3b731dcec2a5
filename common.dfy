/** Small value types shared by the models of the page script. */
module Common {

  datatype Option<T> = None | Some(value: T)

  /** The two interface languages the page switches between. */
  datatype Lang = Zh | En

  /**
   * A progress reading as the page shows it: the label shows `current`,
   * the bar is `current / total` of its full width. It is kept as a
   * numerator/denominator pair; no division is ever taken.
   */
  datatype Progress = Progress(current: int, total: int)
}
