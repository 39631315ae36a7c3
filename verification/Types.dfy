/** Vocabulary shared by the durable engine's modules. */
module Types {

  datatype Option<+T> = None | Some(value: T)

  datatype Result<+T, +E> = Ok(value: T) | Err(error: E)

  /** The error codes of the storage and transfer contracts. */
  datatype DurableError =
    | InvalidInput
    | ResourcePressure
    | NotFound
    | Conflict
    | Expired
    | Corrupt
    | CryptoUnavailable
    | UnsupportedSchema
    | StorageUnavailable
    | InvalidReceipt
    | AuthenticationFailed

  newtype byte = x: int | 0 <= x < 256
  type Bytes = seq<byte>

  /** A 32-byte member identifier, as its big-endian value: arrays of one length order as their values do. */
  type MemberId = nat

  const CHUNK_BYTES: nat := 1024
  const MAX_OBJECT_BYTES: nat := 64 * 1024
  const MAX_CHUNKS: nat := 64
  const MAX_TARGETS: nat := 10
  const MAX_GROUP_MEMBERS: nat := 50
  const MAX_LOGICAL_TIME: nat := 0x7FFF_FFFF_FFFF_FFFF
}
