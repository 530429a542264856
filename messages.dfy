/**
 * The demo's message receiver: it classifies a code and tells the engine
 * whether to stop. Printing is not modelled; only the answer is.
 */
module Messages {
  import opened Base

  /**
   * The receiver's answer for `code`. Whether a message text accompanies
   * the code only changes what is printed, never the answer.
   */
  function MsgCallback(code: i32, hasText: bool): (stop: bool)
    ensures MsgIsError(code) ==> stop
    ensures MsgIsWarning(code) ==> !stop
    ensures MsgIsSuccess(code) ==> !stop
  {
    if MsgIsError(code) then true
    else if MsgIsWarning(code) then false
    else false
  }

  /**
   * With this receiver, reporting a code makes the engine return it
   * exactly when it is an error; warnings and plain logs fall through.
   */
  lemma ReportedErrorsReturn(code: i32, hasText: bool)
    ensures MsgCallbackFlow(MsgCallback(code, hasText), code) == ReturnCode(code) <==> MsgIsError(code)
    ensures !MsgIsError(code) ==> MsgCallbackFlow(MsgCallback(code, hasText), code) == FallThrough
  {
  }
}
