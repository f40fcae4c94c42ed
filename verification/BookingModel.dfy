/** The booking statuses and the transition table of internal/booking/model.go. */
module BookingModel {
  datatype Status = Requested | Approved | Rejected | Active | Completed | Cancelled | Disputed

  function ValidTransitions(from: Status): set<Status> {
    match from
    case Requested => {Approved, Rejected, Cancelled}
    case Approved => {Active, Cancelled}
    case Active => {Completed, Disputed}
    case _ => {}
  }

  predicate CanTransition(from: Status, next: Status) {
    next in ValidTransitions(from)
  }

  /** A status from which the table leads nowhere. */
  predicate Terminal(status: Status) {
    forall next :: !CanTransition(status, next)
  }

  /** The steps of the lifecycle, read backwards: from which statuses each one can be entered. */
  lemma EnteredFrom(from: Status, next: Status)
    ensures CanTransition(from, next) <==>
      match next
      case Requested => false
      case Approved => from == Requested
      case Rejected => from == Requested
      case Cancelled => from == Requested || from == Approved
      case Active => from == Approved
      case Completed => from == Active
      case Disputed => from == Active
    ensures Terminal(from) <==> from in {Rejected, Completed, Cancelled, Disputed}
  {
    assert CanTransition(Requested, Approved) && CanTransition(Approved, Active) && CanTransition(Active, Completed);
  }
}
