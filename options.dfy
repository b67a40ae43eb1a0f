/** The nullable values of the board widgets (`next`, `dice`, `winner`,
    a found line) become an explicit Option. */
module Options {
  datatype Option<+T> = None | Some(value: T)
}
