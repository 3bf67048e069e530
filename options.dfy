/** Rust's Option, used for block data (air is None), lookups and caches. */
module Options {

  datatype Option<+T> = None | Some(value: T)
}
