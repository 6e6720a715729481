/** An optional value: an argument that may be absent, or a part of a reply that is present only sometimes. */
module Options {

  datatype Option<+T> = None | Some(value: T)

}
