/** An optional value: what Swift writes `T?`. */
module Options {

  datatype Option<+T> = None | Some(value: T)

}
