/** Errors and results as every layer of the model uses them. */
module Common {

  type Byte = bv8

  datatype Option<+T> = None | Some(value: T)

  /** Whether an error may be retried: only `Temporary` errors are, and a retry
      layer that gives up turns whatever it has into `Persistent`. */
  datatype Status = Permanent | Temporary | Persistent

  datatype Cause =
    | Backend(code: int)      // whatever the storage service reports
    | TasksErrored            // concurrent tasks met an unrecoverable error
    | BadRetryState           // an earlier retry future was dropped before ready
    | TooLittleData
    | TooMuchData
    | WriterFinished          // writer has been closed or aborted

  datatype Error = Error(cause: Cause, status: Status) {
    predicate IsTemporary() { status == Temporary }

    function SetPersistent(): Error { this.(status := Persistent) }
  }

  datatype Result<+T> = Ok(value: T) | Err(error: Error)

  lemma Associate<T>(a: seq<T>, b: seq<T>, c: seq<T>)
    ensures a + (b + c) == (a + b) + c
  {
  }

  ghost predicate Distinct<T>(s: seq<T>) { forall i, j :: 0 <= i < j < |s| ==> s[i] != s[j] }
}
