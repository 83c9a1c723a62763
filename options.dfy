/** The optional value used for results that may be missing (a failed system call). */
module Options {
  datatype Option<+T> = None | Some(value: T)
}
