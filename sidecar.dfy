/**
 * The sidecar record: the fields of a decoded PhotoPrism YAML sidecar that the
 * reconciliation reads, and the selections the menu applies to them.
 */
module Sidecar {
  import opened Results

  /** The calendar fields of a luxon DateTime, in the machine's local zone. */
  datatype DateTime = DateTime(year: int, month: int, day: int, hour: int, minute: int, second: int)

  /** The ranges luxon keeps the fields of a valid DateTime in. */
  predicate ValidDateTime(d: DateTime) {
    && 1 <= d.month <= 12
    && 1 <= d.day <= 31
    && 0 <= d.hour <= 23
    && 0 <= d.minute <= 59
    && 0 <= d.second <= 59
  }

  /** An instant as the decoder yields it; only its presence matters here. */
  type Instant = int

  /**
   * A decoded sidecar. `takenAt` is None when the YAML has no usable `TakenAt`, in which
   * case luxon holds an invalid DateTime. A missing `Private` reads as false.
   */
  datatype SidecarRecord = SidecarRecord(takenAt: Option<DateTime>, isPrivate: bool, deletedAt: Option<Instant>)

  /** Archived: the record carries a deletion time. */
  predicate IsArchived(r: SidecarRecord) {
    r.deletedAt.Some?
  }

  /** The record filters the menu passes to `findImages`: private, archived, or none. */
  datatype Selection = PrivateMedia | ArchivedMedia | AllMedia

  predicate Selects(sel: Selection, r: SidecarRecord) {
    match sel
    case PrivateMedia => r.isPrivate
    case ArchivedMedia => IsArchived(r)
    case AllMedia => true
  }
}
