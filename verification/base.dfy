/** Small shared vocabulary: optional values and the outcome of a call into
    code that may raise (a language-model request, an embedding request, the
    agent runner, the vector store). */
module Base {

  datatype Option<+T> = None | Some(value: T)

  /** The outcome of a Python call that may raise: either the value it
      returned or the text of the exception it raised. */
  datatype Call<+T> = Returned(value: T) | Threw(error: string)

  function Min(a: int, b: int): (m: int)
    ensures m <= a && m <= b
    ensures m == a || m == b
  {
    if a <= b then a else b
  }
}
