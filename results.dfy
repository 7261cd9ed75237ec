/** Option and Result wrappers shared by every module of the model.
    A Rust `panic!`/`expect` that ends the process is modelled as an explicit
    `Panicked` outcome carrying the panic message, so that the places where the
    program aborts can be stated and exhibited rather than assumed away. */
module Results {

  datatype Option<T> = None | Some(value: T)

  /** The value of a fallible computation: `Abort` stands for a panic. */
  datatype Result<T> = Ok(value: T) | Abort(message: string)

  /** How an operation on the application state ended. */
  datatype Outcome = Done | Panicked(message: string)
}
