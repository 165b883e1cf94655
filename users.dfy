/**
 * The user entity of internal/entities/user.go: its record, the account
 * status codes and the one business rule on them, `IsActive`. Instants are
 * integer nanoseconds since the Unix epoch.
 */
module Users {
  import Uuids

  datatype User = User(
    id: Uuids.Uuid,
    email: string,
    mobile: string,
    name: string,
    avatarUrl: string,
    statusId: int,
    createdAt: int,
    updatedAt: int)
  {
    /** `User.IsActive`: only the Active status admits the user. */
    predicate IsActive()
    {
      statusId == StatusActive
    }
  }

  const StatusPending: int := 1
  const StatusActive: int := 2
  const StatusSuspended: int := 3
  const StatusInactive: int := 4
  const StatusBanned: int := 5
  const StatusDeleted: int := 6
  const StatusArchived: int := 7

  /** The status codes, in declaration order. */
  const Statuses: seq<int> := [StatusPending, StatusActive, StatusSuspended, StatusInactive,
                               StatusBanned, StatusDeleted, StatusArchived]

  /** A user is active exactly when its status is Active; no other status is. */
  lemma IsActiveOnlyActive(u: User)
    ensures u.IsActive() <==> u.statusId == 2
    ensures u.statusId in {StatusPending, StatusSuspended, StatusInactive, StatusBanned, StatusDeleted, StatusArchived} ==> !u.IsActive()
  {
  }

  /** Whether a user is active depends on its status and nothing else in the record. */
  lemma IsActiveStatusOnly(u: User, v: User)
    requires u.statusId == v.statusId
    ensures u.IsActive() == v.IsActive()
  {
  }
}
