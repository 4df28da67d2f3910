/** A value that may be absent: the file name, a written buffer, a redraw or an exit status. */
module Maybe {

  datatype Option<T> = None | Some(value: T)
}
