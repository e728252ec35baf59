/** An optional value: JavaScript's `undefined`/`null` where the source may have none. */
module Options {
  datatype Option<T> = None | Some(value: T)
}
