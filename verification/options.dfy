/** The optional-value datatype, used for the scheduler's optional time limit
    and its optional stop timer (Python's `None`). */
module Options {

  datatype Option<+T> = None | Some(value: T)

}
