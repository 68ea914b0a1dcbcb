/** The optional value of `prompt`, `URLSearchParams.get` and `Array.prototype.find`:
    `None` stands for JavaScript's `null` / `undefined`. */
module Optional {
  datatype Option<T> = None | Some(value: T)
}
