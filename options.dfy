/** A small Option type shared by the other modules: JavaScript's `undefined`/`null` results. */
module Options {

  datatype Option<+T> = None | Some(value: T)
}
