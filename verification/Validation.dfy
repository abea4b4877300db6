/** Issue codes and records (`validation.rs`). */
module Validation {
  import opened Wrappers

  datatype ValidationCode =
    | InvalidStructure
    | WrongElection
    | UnknownRound
    | RoundNotOpen
    | RoundClosed
    | InvalidChoice
    | MissingTokenId
    | NotEnoughCoordinatorShares
    | UnauthorizedCoordinatorShare
    | DuplicateToken
    | DuplicateEvent
    | ContradictoryRoundState

  datatype ValidationIssue = ValidationIssue(code: ValidationCode, detail: string, eventId: Option<string>)

  datatype ProtocolError = InvalidEvent(detail: string) | WrongElectionError
}
