/** Vocabulary shared by all modules: bytes, optional values and Rust outcomes. */
module Prelude {

  type byte = x: int | 0 <= x < 256

  type Bytes = seq<byte>

  datatype Option<+T> = None | Some(value: T)

  /** The result of a Rust call: a value, an `Err`, or an unwinding panic.
      Error messages are not modelled, only whether the call succeeded. */
  datatype Outcome<+T> = Ok(value: T) | Err | Panic {

    predicate IsFailure() {
      !Ok?
    }

    function PropagateFailure<U>(): (r: Outcome<U>)
      requires !Ok?
    {
      if Panic? then Panic else Err
    }

    function Extract(): T
      requires Ok?
    {
      value
    }
  }

  /** `Option::ok_or` / anyhow's `context` on an `Option`. */
  function OkOr<T>(o: Option<T>): (r: Outcome<T>) {
    match o
    case Some(v) => Ok(v)
    case None => Err
  }

  /** anyhow's `ensure!`. */
  function Ensure(condition: bool): (r: Outcome<()>) {
    if condition then Ok(()) else Err
  }

  lemma ConcatAssociates<T>(a: seq<T>, b: seq<T>, c: seq<T>)
    ensures (a + b) + c == a + (b + c)
  {
  }

  lemma SplitConcat<T>(a: seq<T>, b: seq<T>)
    ensures (a + b)[..|a|] == a && (a + b)[|a|..] == b
  {
  }

  lemma DropFirst<T>(x: T, rest: seq<T>)
    ensures ([x] + rest)[0] == x && ([x] + rest)[1..] == rest
  {
  }

  lemma FirstAndRest<T>(s: seq<T>)
    requires s != []
    ensures [s[0]] + s[1..] == s
  {
  }

  /** Largest `isize` of a 64-bit target: no Rust allocation is larger. */
  const ISIZE_MAX: nat := 0x7FFF_FFFF_FFFF_FFFF

  /** Number of `usize` values on a 64-bit target. */
  const USIZE_VALUES: nat := 0x1_0000_0000_0000_0000
}
