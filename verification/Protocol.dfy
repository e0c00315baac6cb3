/** The boundary between transport and protocols: protocol_session.h, and the answers of an executor. */
module Protocol {
  datatype Status =
    | Ready | ProtocolError | BufferLimit | ExecutorSaturated | ExecutorStopped | CloseRequired | FeedStopped

  datatype Answer = Accepted | Saturated | Stopped

  /** What a session answers to one piece: a status, the requests accepted during it, the octets still held. */
  datatype FeedResult = FeedResult(status: Status, dispatched: nat, buffered: nat)
}
