/** An optional value, used where the simulator either finds something or does not. */
module Optional {

  datatype Option<+T> = None | Some(value: T)
}
