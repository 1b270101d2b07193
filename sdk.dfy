/**
 * The biometric SDK, the licence server and the scanner hardware as the model sees them:
 * opaque values and oracles whose answers are inputs of the operations that consult them.
 */
module Sdk {

  /** A Java `byte`. */
  newtype byte = b: int | -128 <= b < 128

  /** Template bytes as read from or written to a file; the SDK never looks inside here. */
  type Template = seq<byte>

  /** What `NLicense.obtainComponents` does for one licence name. */
  datatype LicenceReply = Granted | Denied | Threw(error: LicenceError)

  /** The two checked exceptions the licence calls declare. */
  datatype LicenceError = IOException | TimeoutException

  /** One subject of the enrolment task: its id and the template read from its file. */
  datatype Enrolled = Enrolled(id: string, template: Template)

  /** The matching configuration handed to the matcher before an identification. */
  datatype MatchSettings = MatchSettings(threshold: int, withDetails: bool)

  /**
   * The status of an identification and, on status OK, the ids of the subject's matching
   * results in iteration order.
   */
  datatype MatchOutcome = Matched(ids: seq<string>) | MatchNotFound

  /**
   * The matcher: whether an enrolment task over a corpus ends with status OK, and the outcome
   * of identifying a query template against an enrolled corpus.
   */
  datatype Matcher = Matcher(
    enrol: seq<Enrolled> -> bool,
    identify: (Template, seq<Enrolled>, MatchSettings) -> MatchOutcome)

  /**
   * The status of the asynchronous capture task: OK, BAD_OBJECT, or any other status
   * (still running, or a terminal status the client does not test for).
   */
  datatype TaskStatus = StatusOk | StatusBadObject | StatusOther

  /** A finger scanner reported by the device manager; `description` is its `toString()`. */
  datatype Device = Device(handle: nat, description: string)
}
