/** An optional value: the model's stand-in for a C# reference that may be null. */
module Optional {
  datatype Option<+T> = None | Some(value: T)
}
