/** Licenses. */
module Licensing {
  import opened Bytes

  datatype LicenseType = Trial | Subscription | Permanent
  datatype MachineMode = Unbound | Exact

  /** A validated license. */
  datatype Snapshot = Snapshot(
    licenseId: Bytes, product: Bytes, customer: Bytes, issueTime: U64, notBefore: U64, expire: U64,
    kind: LicenseType, features: seq<Bytes>, maxSessions: U32, machineMode: MachineMode, machineId: Bytes)
}
