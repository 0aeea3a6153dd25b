/** The optional value that stands for Java's nullable results. */
module Optional {

  datatype Option<+T> = None | Some(value: T)
}
