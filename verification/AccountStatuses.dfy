/** The status enumeration that customer accounts and treasury buckets share. */
module AccountStatuses {
  datatype AccountStatus = ACTIVE | SUSPENDED | EXPIRED | CLOSED
}
