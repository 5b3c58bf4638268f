/** Shared value types: Python's optional results and the exceptions the scripts raise or catch. */
module Common {

  /** A value that may be absent: Python's `None` or a value. */
  datatype Option<+T> = None | Some(value: T)

  /** The exceptions that matter to the scripts' control flow. */
  datatype PyError =
    | IndexError              // `xs[0]`, `xs[-1]` or `line[0]` on an empty sequence
    | KeyError                // dictionary lookup of a missing key
    | ValueError              // unpacking with the wrong arity, `list.remove` of an absent value, bad `int()`
    | TypeError               // iterating over `None`
    | AttributeError          // an attribute of `None`
    | FileNotFoundError       // `open` of a missing file
    | FileExistsError         // `os.rename` onto an existing file
    | ElementNotInteractable  // selenium's ElementNotInteractableException
    | SeleniumTimeout         // selenium's TimeoutException
    | DownloadTimeout         // the scripts' own DownloadTimeoutException
    | WebDriverError          // any other failure of the browser steps

  /** Either a value or the exception that was raised instead. */
  datatype Result<+T> = Ok(value: T) | Raise(error: PyError)
}
