/**
 * The warehouse driver as the session layer sees it. Its calls are not
 * modelled; only their outcomes are, and they reach the model as inputs.
 */
module Driver {
  import opened Wrappers

  /** A live connection handle; the number only tells handles apart. */
  datatype Handle = Handle(id: nat)

  /** The `code` property of a driver error: a number, or a code of another kind. */
  datatype ErrorCode = Numeric(n: int) | Textual(text: string)

  /** A driver error, reduced to the two properties the session layer inspects. */
  datatype DriverError = DriverError(message: Option<string>, code: Option<ErrorCode>)

  /** How one connect attempt ends. */
  datatype ConnectOutcome = Connected(handle: Handle) | ConnectFailed(error: DriverError)

  /** A result row: column name to value. */
  type Row = map<string, string>

  /**
   * How one statement execution ends: the rows handed to the completion
   * callback (`None` when it passes none), or the error it passes.
   */
  datatype ExecOutcome = Executed(rows: Option<seq<Row>>) | ExecFailed(error: DriverError)
}
