/** The absent-or-present value that every decoder of the pipeline returns
    in place of raising: Python's `Optional[...]` / `None`. */
module Optional {

  datatype Option<+T> = None | Some(value: T)
}
