/** Option and Result datatypes used throughout the model.  A `Result` stands for
    a Python call that either returns a value or raises one of the exceptions the
    modelled code can reach. */
module Results {

  datatype Option<+T> = None | Some(value: T)

  /** The Python exceptions that the modelled code can raise. */
  datatype PyException =
    | AttributeError   // `.get`, `.keys` or `.items` on something that is not a dict
    | TypeError        // `x in v` where `v` is not a container
    | DeepDiffError    // whatever the structural diff library raises

  datatype Result<+T> = Ok(value: T) | Raised(error: PyException) {
    predicate IsFailure() { Raised? }

    function PropagateFailure<U>(): Result<U>
      requires Raised?
    {
      Raised(error)
    }

    function Extract(): T
      requires Ok?
    {
      value
    }
  }
}
