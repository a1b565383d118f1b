/**
 * Results of operations that can fail.  The Java code signals failures with
 * exceptions; the model returns them as values so that every error path is
 * part of the contract.
 */
module Outcomes {

  datatype Option<T> = None | Some(value: T)

  /** The exceptions the core raises, named after their cause. */
  datatype Failure =
    | NoSuchColumn          // IllegalArgumentException: the column key does not exist
    | ColumnFull            // IllegalArgumentException: the column has no empty slot
    | NoDropColor           // IllegalArgumentException: a drop must be RED or YELLOW
    | NoDropsLeft           // IllegalStateException: the player has used up all drops
    | DirectionUnknown      // IllegalStateException: before/after of an INDETERMINATE sequence
    | IndexOutOfBounds      // IndexOutOfBoundsException while scanning a list
    | NullSlot              // NullPointerException: a slot that does not exist is dereferenced
    | AlreadyStarted        // GameException: start() on a running game
    | NotStarted            // GameException: stop(), restart() or a turn on a stopped game
    | TurnRejected(cause: Failure)  // GameException wrapping the cause of a failed turn

  datatype Result<T> = Ok(value: T) | Err(error: Failure)

  /** Result of an operation that returns nothing on success. */
  datatype Outcome = Pass | Fail(error: Failure)
}
