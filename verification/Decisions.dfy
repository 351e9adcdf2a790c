/** The three business outcomes and how severe they are. */
module Decisions {

  datatype Decision = APPROVED | DENIED | ESCALATED

  function Severity(d: Decision): nat {
    match d
    case APPROVED => 0
    case ESCALATED => 1
    case DENIED => 2
  }
}
