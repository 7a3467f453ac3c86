/** The optional value used for the source's `?` fields, `undefined` results
    and `null` session values. */
module Optional {

  datatype Option<+T> = None | Some(value: T)
}
