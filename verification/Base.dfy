/** Types shared by every module of the model. */
module Base {

  /** Row, token and job identifiers. Only equality of two identifiers is ever used. */
  datatype Uuid = Uuid(bits: nat)

  datatype Option<+T> = None | Some(value: T)

  function Min(a: int, b: int): int { if a <= b then a else b }

  function Max(a: int, b: int): int { if a <= b then b else a }

  lemma ConcatAssociates<T>(a: seq<T>, b: seq<T>, c: seq<T>)
    ensures (a + b) + c == a + (b + c)
  {
  }
}
