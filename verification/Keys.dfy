/** Identifiers and normalised texts are only ever compared, so each one is represented by its rank in the
    lexicographic order of the texts that occur. */
module Keys {
  type Key = int
}
