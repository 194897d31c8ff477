/** The dataplane's connection to the server: what a heartbeat's outcome does to
    the connection state, the backoff and the poll cursors. */
module ConnectionSession {

  const MIN_RETRY_SECS: nat := 1
  const MAX_RETRY_SECS: nat := 5
  const BACKOFF_MULTIPLIER: nat := 2

  datatype ConnectionState = Registering | Ready | Unhealthy

  datatype Session = Session(
    conn: ConnectionState,
    healthy: bool,
    sendFullState: bool,
    retrySecs: nat,
    commandCursor: nat,
    resultCursor: nat)

  const INIT_SESSION := Session(Registering, false, false, MIN_RETRY_SECS, 0, 0)

  /** The heartbeat RPC returned an error. */
  function OnFailure(c: Session): Session
  {
    c.(conn := Unhealthy, healthy := false)
  }

  /** The sleep after a failed heartbeat is over. */
  function OnBackoff(c: Session): Session
  {
    var next := c.retrySecs * BACKOFF_MULTIPLIER;
    c.(retrySecs := if next <= MAX_RETRY_SECS then next else MAX_RETRY_SECS)
  }

  /** A reply arrived. The cursors restart only with a full state that was sent
      for a registration, and `sendState` is read only on the first fragment. */
  function OnAnswer(c: Session, first: bool, fullState: bool, forRegistration: bool, sendState: bool): Session
  {
    var reset := if first && fullState && forRegistration
                 then c.(retrySecs := MIN_RETRY_SECS, commandCursor := 0, resultCursor := 0)
                 else c.(retrySecs := MIN_RETRY_SECS);
    if first && sendState
    then reset.(sendFullState := true, conn := Registering)
    else reset.(sendFullState := false)
  }

  /** The buffers were drained after an accepted fragment. */
  function OnDrained(c: Session, first: bool): Session
  {
    if first then c.(healthy := true, conn := Ready) else c
  }

  /** Variables of one outer-loop iteration: whether this is its first fragment,
      whether it carries the full state, and whether that was asked for by a
      server the dataplane is registering with. */
  datatype Round = Round(first: bool, fullState: bool, forRegistration: bool)
}
