/** The lifecycle status of a card (entity/enums/Status.java). */
module CardStatus {

  datatype Status = ACTIVE | BLOCKED | EXPIRED

  /** Every status there is. */
  const AllStatuses: set<Status> := {ACTIVE, BLOCKED, EXPIRED}

  /** Status.isActive(): a card is active exactly when its status is ACTIVE. */
  predicate IsActive(s: Status): (active: bool)
    ensures active <==> s !in {BLOCKED, EXPIRED}
  {
    s == ACTIVE
  }

  /** The enum has exactly three constants. */
  lemma ExactlyThreeStatuses(s: Status)
    ensures s in AllStatuses
    ensures |AllStatuses| == 3
  {
  }

  /** isActive() holds for ACTIVE and for nothing else. */
  lemma IsActiveOnlyForActive(s: Status)
    ensures IsActive(ACTIVE)
    ensures !IsActive(BLOCKED) && !IsActive(EXPIRED)
    ensures IsActive(s) <==> s == ACTIVE
  {
  }
}
