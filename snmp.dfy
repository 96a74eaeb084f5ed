/**
 * The boundary with the SNMP transport. A request is not issued here: the agent's answer
 * to it is an input. Either the transport itself failed (`err != nil` in Go), or a PDU came
 * back with an error status and the decoded variable bindings.
 */
module Snmp {
  import opened Wrappers

  /** The value of `snmpgo.NoError` in a PDU's error-status field. */
  const NoError: nat := 0

  datatype Reply<T> =
    | TransportError(message: string)
    | Response(errorStatus: nat, errorIndex: nat, varBinds: T)

  /** Every way an operation of the core can fail. */
  datatype Error =
    | Transport(message: string)          // the error returned by the transport, passed on as is
    | Status(status: nat, index: nat)     // "Failed - <status>(<index>)"
    | NotFound(token: string)             // "interface '<token>' not fould"

  /**
   * The gate every request goes through: a transport error is passed on, a PDU whose
   * error status is not NoError becomes a status error, anything else yields its bindings.
   */
  function Check<T>(reply: Reply<T>): (r: Result<T, Error>)
    ensures r.Success? <==> reply.Response? && reply.errorStatus == NoError
    ensures r.Success? ==> r.value == reply.varBinds
    ensures reply.TransportError? ==> r == Failure(Transport(reply.message))
    ensures reply.Response? && reply.errorStatus != NoError ==>
              r == Failure(Status(reply.errorStatus, reply.errorIndex))
  {
    match reply
    case TransportError(msg) => Failure(Transport(msg))
    case Response(status, index, binds) =>
      if status != NoError then Failure(Status(status, index)) else Success(binds)
  }
}
