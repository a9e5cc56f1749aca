/** Option and Result, with the exceptions of the modelled Python code as error values. */
module Wrappers {

  datatype Option<+T> = None | Some(value: T)

  /** The Python exceptions that can escape from the modelled code. */
  datatype Error =
    | KeyError        // `d[k]` on a dict without key `k`
    | TypeError       // subscripting or iterating a value that does not support it
    | IndexError      // `xs[-1]` on an empty list
    | AttributeError  // reading an attribute that `__init__` never set
    | OSError         // a file-system call that fails (missing file, file in the way, ...)

  /** The value of a Python expression or the exception it raises. */
  datatype Result<+T> = Ok(value: T) | Err(error: Error)
}
