/** An optional value, used for lookups that may find nothing and for Go's
    `(value, ok)` and `(value, err)` pairs whose error carries no data the
    model needs. */
module Optional {

  datatype Option<+T> = None | Some(value: T)

}
