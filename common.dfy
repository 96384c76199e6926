/** Small shared wrappers: the model's stand-in for a nullable pointer or an optional value. */
module Common {

  datatype Option<+T> = None | Some(value: T)

}
