/** Small value types shared by the whole model. */
module Wrappers {

  /** An optional value; `None` also stands for a null handle. */
  datatype Option<+T> = None | Some(value: T)

  /** Outcome of a startup step: `Fatal` stands for the `error(...)` macro,
      which prints its message and ends the process. */
  datatype Status = Ok | Fatal(message: string)
}
