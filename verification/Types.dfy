/** Values shared by the models of the commerce jobs, the batch planner and the maintenance code. */
module Types {

  datatype Option<+T> = None | Some(value: T)

  datatype Result<+T, +E> = Success(value: T) | Failure(error: E)

  /** A nullable string column. The jobs only test such a column for null, for being made of
      spaces alone, and for equality, so a string of n spaces is Blank(n) and every other string
      is a Word with its own code. */
  datatype Text = Null | Blank(spaces: nat) | Word(code: nat)

  /** Instants are counted in the microseconds that Spark and Python both keep. */
  type Instant = int

  type BatchId = nat
  type Digest = nat
  type CustomerId = nat
}
