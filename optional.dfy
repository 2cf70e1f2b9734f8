/** The absent-or-present value that JavaScript expresses with `null`,
    `undefined` or an empty form field. */
module Optional {

  datatype Option<+T> = None | Some(value: T)
}
