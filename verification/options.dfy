/** An optional value: TypeScript's `T | null`, `T | undefined` and `field?: T`. */
module Options {

  datatype Option<T> = None | Some(value: T)
}
