/** A value that may be absent: the null pointers, invalid handles and unset fields of the sources. */
module Optional {
  datatype Option<+T> = None | Some(value: T)
}
