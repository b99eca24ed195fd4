/** The `None`/`Some` wrapper used for the nullable timestamps and the optional detection. */
module Options {

  datatype Option<+T> = None | Some(value: T)
}
