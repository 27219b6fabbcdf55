/** The reasons of lab-udp/2. */
module LabContract {
  datatype Reason =
    | Ok | BadMagic | BadVersion | BadKind | BadLen | BadPayload | DupSession | BadSession | BadSeq | Replay
    | TooBig | Busy | DupNonce | Closing | Timeout | OriginMismatch | Unsupported | Insufficient
    | OldInstance | Expired | UnknownRequest
}
