/** What the context store sees of the oSIP stack: methods, transactions and the user
    data (`jinfo_t`) that ties a transaction back to the context it belongs to. */
module Sip {
  import opened Wrappers

  datatype Method = INVITE | BYE | CANCEL | SUBSCRIBE | NOTIFY | PUBLISH | OTHER(name: string)

  /** Progress of a transaction.  `Confirmed` is only reached by an INVITE server
      transaction (IST_CONFIRMED, the ACK of a negative answer). */
  datatype Phase = Pending | Completed | Confirmed | Terminated

  /** The three lists of contexts that own dialogs. */
  datatype Kind = Call | Subscription | Notification

  /** `jinfo_t`: the context (by reference) and, when known, the dialog of a transaction. */
  datatype Jinfo = Jinfo(kind: Kind, ctx: nat, dialog: Option<nat>)

  datatype Transaction = Transaction(
    verb: Method,
    incoming: bool,
    phase: Phase,
    response: nat,                   // status code of the last response, 0 when there is none
    birth: int,
    jinfo: Option<Jinfo>)

  /** Phase of a client transaction after a response: a 2xx ends an INVITE transaction,
      any other final response leaves it waiting for retransmissions. */
  function ClientPhase(verb: Method, code: nat): Phase {
    if code < 200 then Pending
    else if verb == INVITE && code < 300 then Terminated
    else Completed
  }

  predicate Challenge(code: nat) {
    code == 401 || code == 407
  }
}
