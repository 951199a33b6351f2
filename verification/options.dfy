/** Rust's `Option`, the only wrapper the installation probe needs. */
module Options {

  datatype Option<+T> = None | Some(value: T)
}
