/** The optional value used wherever the Java code returns or stores `null`. */
module Options {

  datatype Option<+T> = None | Some(value: T)

}
