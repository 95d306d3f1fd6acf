/** The device rows of an account and the store calls on them. */
module Devices {
  import opened Store

  datatype DeviceRow = DeviceRow(
    user: string, device: string, registeredAt: int, lastSeenAt: int,
    retiredAt: Option<int>, reactivatedAt: Option<int>)

  /** The primary key is the pair. */
  type DeviceKey = (string, string)
  type Rows = map<DeviceKey, DeviceRow>

  predicate Admits(rows: Rows, users: set<string>, row: DeviceRow) {
    (row.user, row.device) !in rows && row.user in users
  }

  function Inserting(rows: Rows, users: set<string>, row: DeviceRow): Rows {
    if Admits(rows, users, row) then rows[(row.user, row.device) := row] else rows
  }

  /** Retiring a device and taking it back are the same write. */
  function Retiring(rows: Rows, key: DeviceKey, at: Option<int>, reactivatedAt: Option<int>): Rows {
    if key in rows then rows[key := rows[key].(retiredAt := at, reactivatedAt := reactivatedAt)] else rows
  }

  function Touching(rows: Rows, key: DeviceKey, at: int): Rows {
    if key in rows then rows[key := rows[key].(lastSeenAt := at)] else rows
  }
}
