/** The optional value used wherever the storefront code may produce "nothing" (a failed lookup, a `null` result). */
module Options {

  datatype Option<+T> = None | Some(value: T)
}
