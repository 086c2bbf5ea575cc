/** The snackbar notice every container keeps in local state:
    `{ open, message, severity }`. */
module Ui {
  import opened Js

  datatype Severity = Info | Success | Warning | Error

  datatype Notice = Notice(open: bool, message: JsVal, severity: Severity)

  /** The initial, closed notice. */
  const Closed: Notice := Notice(false, Str(""), Info)

  /** Opening the snackbar with a literal message. */
  function Show(message: string, severity: Severity): Notice {
    Notice(true, Str(message), severity)
  }
}
