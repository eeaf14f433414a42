/** The election state machine as tables (api/src/services/lifecycle.ts). */
module Lifecycle {

  datatype Status = Draft | RegistrationOpen | RingsFrozen | VotingOpen | VotingClosed | Tallied | Cancelled

  datatype Operation = EditMetadata | ManageCandidates | ReviewVoters | FormGroups | IssueAccess | ExportChainManifest | ViewTally

  function AllowedTransitions(from: Status): set<Status> {
    match from
    case Draft => {RegistrationOpen, Cancelled}
    case RegistrationOpen => {RingsFrozen, Cancelled}
    case RingsFrozen => {VotingOpen}
    case VotingOpen => {VotingClosed}
    case VotingClosed => {Tallied}
    case Tallied => {}
    case Cancelled => {}
  }

  function OperationStates(op: Operation): set<Status> {
    match op
    case EditMetadata => {Draft, RegistrationOpen}
    case ManageCandidates => {Draft, RegistrationOpen}
    case ReviewVoters => {RegistrationOpen}
    case FormGroups => {RingsFrozen}
    case IssueAccess => {RingsFrozen, VotingOpen}
    case ExportChainManifest => {RingsFrozen, VotingOpen, VotingClosed, Tallied}
    case ViewTally => {VotingClosed, Tallied}
  }

  /** Registration is over: candidates, electorate and group size no longer change. */
  predicate Frozen(s: Status) {
    s in {RingsFrozen, VotingOpen, VotingClosed, Tallied}
  }

  /** Voting has opened, and may have closed. */
  predicate Opened(s: Status) {
    s in {VotingOpen, VotingClosed, Tallied}
  }

  /** Where a state stands: every allowed transition leads further on. */
  function Stage(s: Status): nat {
    match s
    case Draft => 0
    case RegistrationOpen => 1
    case RingsFrozen => 2
    case VotingOpen => 3
    case VotingClosed => 4
    case Tallied => 5
    case Cancelled => 6
  }

  lemma TransitionsGoOn(from: Status, to: Status)
    requires to in AllowedTransitions(from)
    ensures Stage(from) < Stage(to)
    ensures Frozen(from) ==> Frozen(to)
    ensures Frozen(to) && !Frozen(from) ==> from == RegistrationOpen && to == RingsFrozen
    ensures Opened(to) && !Opened(from) ==> from == RingsFrozen && to == VotingOpen
  {
  }

  /** What edits candidates, the roll or the metadata is legal only before groups freeze; groups form only after. */
  lemma EditsPrecedeFreeze(op: Operation, s: Status)
    requires s in OperationStates(op)
    ensures op == EditMetadata || op == ManageCandidates || op == ReviewVoters ==> !Frozen(s)
    ensures op == FormGroups || op == IssueAccess || op == ExportChainManifest ==> Frozen(s)
    ensures op == FormGroups ==> !Opened(s)
  {
  }

  /** One stage on, or cancelled before groups froze. */
  predicate NextStage(from: Status, to: Status) {
    if to == Cancelled then from == Draft || from == RegistrationOpen
    else from != Cancelled && Stage(to) == Stage(from) + 1
  }

  /** The table lists exactly the steps to the next stage and the early cancellations. */
  lemma TransitionsAre(from: Status, to: Status)
    ensures to in AllowedTransitions(from) <==> NextStage(from, to)
  {
  }

  /** When each operation is legal, in terms of how far the election has come. */
  lemma OperationsAre(s: Status)
    ensures s in OperationStates(EditMetadata) <==> !Frozen(s) && s != Cancelled
    ensures s in OperationStates(ManageCandidates) <==> !Frozen(s) && s != Cancelled
    ensures s in OperationStates(ReviewVoters) <==> s == RegistrationOpen
    ensures s in OperationStates(FormGroups) <==> Frozen(s) && !Opened(s)
    ensures s in OperationStates(IssueAccess) <==> s == RingsFrozen || s == VotingOpen
    ensures s in OperationStates(ExportChainManifest) <==> Frozen(s)
    ensures s in OperationStates(ViewTally) <==> Opened(s) && s != VotingOpen
  {
  }
}
