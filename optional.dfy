/** The optional value of Python's `None`-or-something results. */
module Optional {

  datatype Option<+T> = None | Some(value: T)

}
