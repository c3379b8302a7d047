/** Values shared by every part of the model: bytes, optional values, the
    program's error values, and the ways the Go process can stop abruptly. */
module Base {

  /** A Go `byte`. */
  newtype byte = b: int | 0 <= b < 256

  datatype Option<+T> = None | Some(value: T)

  /** A Go `(T, error)` pair in which exactly one half is meaningful. */
  datatype Result<+T> = Ok(value: T) | Err(error: Error)

  /** The statuses the boot sequencer attaches to its `Continue` switch cases. */
  datatype Status = FlashCorrupt | RetryCountExceeded

  /** The status code each status is built with: `expect.NewStatus(0, …)` at
      main.go:83 and main.go:173.  Code 0 is `codes.OK`. */
  function StatusCode(s: Status): (code: nat)
    ensures code == 0
  {
    0
  }

  /** The error values the program creates or passes on.  Errors that come
      from libraries and the operating system are kept abstract: only their
      identity matters to the code that handles them. */
  datatype Error =
    | NotExist                     // os.ErrNotExist
    | FileClosed                   // os.ErrClosed: a write or close on a closed file
    | ShortWrite                   // a write that took fewer bytes than it was given
    | OsError(code: nat)           // any other failure the operating system reports
    | Timeout                      // an expect that saw no case match in time
    | ConsoleEnded                 // the console process went away during an expect
    | StatusError(status: Status)  // the status of a matched Continue case
    | BadMagicNumber(count: int)   // errBadMagicNumber
    | TypeAssertion                // the run-time panic of a failed type assertion

  /** Why `log.Fatalf` ended the process. */
  datatype FatalReason = NoLocalInterface | NoNeighbourTable | NoClientMac

  /** How a Go call ends: it returns, it panics, or `log.Fatalf` ends the process. */
  datatype Flow<+T> = Normal(value: T) | Panic(err: Error) | Fatal(reason: FatalReason)

  function Min(a: nat, b: nat): nat { if a <= b then a else b }
}
