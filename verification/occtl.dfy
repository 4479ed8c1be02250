/**
  The two records the occtl client hands to the exporter, and the shape of
  a fetch result. The client itself (running occtl against the control
  socket and decoding its output) is not part of this model: a fetch is an
  input to the transition, either a decoded value or an error.
 */
module Occtl {

  /** The outcome of `ShowStatus()` or `ShowUsers()`: a decoded value, or the
      error the client returned (transport or decode failure alike). */
  datatype Result<+T> = Ok(value: T) | Err(message: string)

  /** The aggregate server status, one field per status gauge. Durations
      and timestamps are carried raw (seconds), as the exporter uses them. */
  datatype StatusMessage = StatusMessage(
    rawUpSince: int,
    activeSessions: int,
    handledSessions: int,
    ipsBanned: int,
    totalAuthenticationFailures: int,
    sessionsHandled: int,
    timedOutSessions: int,
    timedOutIdleSessions: int,
    closedDueToErrorSessions: int,
    authenticationFailures: int,
    rawAverageAuthTime: int,
    rawMaxAuthTime: int,
    rawAverageSessionTime: int,
    rawMaxSessionTime: int,
    rawTx: int,
    rawRx: int)

  /** One connected user session as listed by `occtl show users`. The first
      seven fields become label values; the last three become gauge values. */
  datatype UsersMessage = UsersMessage(
    username: string,
    remoteIp: string,
    mtu: string,
    vpnIpv4: string,
    vpnIpv6: string,
    device: string,
    userAgent: string,
    rawTx: int,
    rawRx: int,
    rawConnectedAt: int)
}
