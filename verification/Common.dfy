/** Names and times shared by the hosting modules. */
module Common {

  datatype FileId = FileId(text: string)
  datatype Hash = Hash(text: string)
  datatype Address = Address(text: string)

  /** Nanoseconds since the epoch. */
  type Time = int

  const SECOND: Time := 1_000_000_000
  /** `PendingTimeout`: 15 minutes. */
  const PENDING_TIMEOUT: Time := 900_000_000_000
  /** The 7 days the upload handlers pass as host duration. */
  const HOST_DURATION: Time := 604_800_000_000_000
}
