/** An optional value: the outcome of a sequence of calls, None when one of
    them breaks its precondition. */
module Options {

  datatype Option<+T> = None | Some(value: T)
}
