/** JavaScript's `undefined` as a value: a lookup or a removal that finds
    nothing gives `None`. */
module Options {

  datatype Option<+T> = None | Some(value: T)
}
