/** A value that may be absent. */
module Wrappers {

  datatype Option<T> = None | Some(value: T)
}

/** Bytes, and bytes that arrive in pieces. */
module Bytes {

  type Byte = b: int | 0 <= b < 256

  function Flat(pieces: seq<seq<Byte>>): seq<Byte> {
    if pieces == [] then [] else pieces[0] + Flat(pieces[1..])
  }
}

/** Facts about sequences that are not noticed unprompted. */
module Sequences {

  lemma Associates<T>(a: seq<T>, b: seq<T>, c: seq<T>)
    ensures a + b + c == a + (b + c)
  {
  }
}
