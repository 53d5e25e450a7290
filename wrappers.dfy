/** Option and Result, and the faults the client can raise. */
module Wrappers {

  datatype Option<+T> = None | Some(value: T)

  /** The ways a call of the client can end in a thrown error. */
  datatype Fault =
    /** A JavaScript TypeError: a property read on `undefined` or `null`,
        or a call of a transaction builder that was never bound. */
    | TypeError
    /** The Error "UserId, SpaceId or ShardId is null" of the context check. */
    | ContextMissing
    /** A record field that the client stores into one of its typed fields
        (a string id, a numeric shard) does not have that type. */
    | IllTyped

  datatype Result<+T> = Ok(value: T) | Err(fault: Fault)
}
