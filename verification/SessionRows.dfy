/** Rows of the `sessions` table. */
module SessionRows {
  import opened Wrappers

  type SessionId = string
  type RuntimeId = string

  datatype Status = Creating | Ready | Running | Stopping | Stopped | Failed | Expired

  datatype SessionRow = SessionRow(
    id: SessionId,
    status: Status,
    runtimeId: Option<RuntimeId>,
    version: int,
    expiresAt: int,
    deleted: bool)

  /** Python truthiness of `session.runtime_id`. */
  predicate Bound(runtimeId: Option<RuntimeId>) {
    runtimeId.Some? && runtimeId.value != ""
  }
}
