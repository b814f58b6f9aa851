/** Failure-carrying values shared by the vault model. */
module Wrappers {

  datatype Option<+T> = None | Some(value: T)

  /** The domain errors the modelled operations can return. */
  datatype Error =
    | NonceReuse
    | IntentReplay
    | QuorumNotMet(have: nat, need: nat)
    | ReservationMissing
    | InvalidBucket
    | InvalidIntent
    | CapExceeded(amount: nat, cap: nat)
    | DestinationNotAllowed
    | Threshold
    | FailStop(online: nat, need: nat)
    | SessionConsumed
    | RateLimited
    | DayStale
    | LedgerConflict
    | UnauthorizedWriter
    | UnknownProposal
    | ProposalClosed
    | EpochMismatch
    | BadKeyMaterial
    | BadEncoding

  datatype Result<+T> = Ok(value: T) | Err(error: Error)
}
