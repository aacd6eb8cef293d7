/** The per-member result of a function run on one cluster member
    (CliFunctionResult): who answered, with which status, and a message. */
module FunctionResults {

  datatype StatusState = OK | ERROR

  datatype CliFunctionResult = CliFunctionResult(memberIdOrName: string, status: StatusState, statusMessage: string)
  {
    predicate IsSuccessful() {
      status == OK
    }
  }

  /** The status as its name, what getStatus() reports. */
  function StatusName(s: StatusState): string {
    match s
    case OK => "OK"
    case ERROR => "ERROR"
  }

  /** The boolean constructor CliFunctionResult(member, success, message). */
  function FromFlag(memberIdOrName: string, success: bool, message: string): CliFunctionResult {
    CliFunctionResult(memberIdOrName, if success then OK else ERROR, message)
  }
}
