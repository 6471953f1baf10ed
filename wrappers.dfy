/** Option values and HTTP replies shared by every module of the model. */
module Wrappers {

  datatype Option<+T> = None | Some(value: T) {
    function GetOr(default: T): T {
      match this
      case Some(v) => v
      case None => default
    }
  }

  /**
   * What a route handler sends back. `NoReply` stands for a handler whose
   * awaited step throws: Express 4 does not catch a rejected async handler,
   * so no response is ever written for that request.
   */
  datatype Reply = Sent(status: nat, message: string) | NoReply

  /** The feedback bar the admin client shows after a request: closed, or open with a message and its severity. */
  datatype Notice = Closed | Open(message: string, success: bool)
}
