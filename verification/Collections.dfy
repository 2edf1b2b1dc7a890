/** Small things several components share. */
module Collections {

  datatype Option<T> = None | Some(value: T)

  /** The last n elements of a sequence, or all of them if there are fewer. */
  function Last<T>(s: seq<T>, n: nat): seq<T> {
    if |s| > n then s[|s| - n..] else s
  }
}
