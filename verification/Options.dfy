/** The conventional optional value. */
module Options {
  datatype Option<+T> = None | Some(value: T)

  function AsSeq<T>(o: Option<T>): seq<T> { if o.Some? then [o.value] else [] }
}
