/**
 * Funds-pull pre-approvals: the library's table of legal status changes, and the wallet's table
 * that decides in which role, if any, an incoming command is accepted.
 */
module PreApprovalRules {
  import opened Wrappers

  datatype Status = Pending | Valid | Rejected | Closed
  datatype Role = PAYEE | PAYER

  function Transitions(current: Status): set<Status>
  {
    match current
    case Pending => {Pending, Valid, Rejected, Closed}
    case Valid => {Valid, Closed}
    case Rejected => {Rejected}
    case Closed => {Closed}
  }

  predicate IsValidTransition(current: Status, next: Status)
  {
    next in Transitions(current)
  }

  predicate IsValidInitialStatus(status: Status)
  {
    status in {Pending, Valid, Rejected}
  }

  /** A pending approval may become anything, a valid one may be closed, and that is all; none begins closed. */
  lemma {:induction false} TransitionsMeaning(current: Status, next: Status)
    ensures IsValidTransition(current, next) <==> next == current || current == Pending || (current == Valid && next == Closed)
    ensures IsValidInitialStatus(next) <==> next != Closed
  {
  }

  /** Being reachable by legal changes is the table itself: one step is as good as many. */
  lemma {:induction false} TransitionsCompose(a: Status, b: Status, c: Status)
    requires IsValidTransition(a, b) && IsValidTransition(b, c)
    ensures IsValidTransition(a, c)
  {
  }

  // ---- The reducer ----

  datatype FppaState = FppaState(
    incoming: Status, payeeMine: bool, payerMine: bool, asPayee: Option<Status>, asPayer: Option<Status>)

  /** KeyMissing stands for a state the table does not list. */
  datatype Outcome = Accept(role: Role) | Refuse(reason: string) | KeyMissing

  const STATUSES: set<Status> := {Pending, Valid, Rejected, Closed}
  const EXISTING: set<Option<Status>> := {Some(Pending), Some(Valid), Some(Rejected), Some(Closed), None}

  function AllPossibleStates(): set<FppaState>
  {
    set incoming, payeeMine, payerMine, asPayee, asPayer |
      incoming in STATUSES && payeeMine in {true, false} && payerMine in {true, false} && asPayee in EXISTING && asPayer in EXISTING ::
      FppaState(incoming, payeeMine, payerMine, asPayee, asPayer)
  }

  lemma {:induction false} StatusListed(status: Status)
    ensures status in STATUSES
  {
  }

  lemma {:induction false} ExistingListed(existing: Option<Status>)
    ensures existing in EXISTING
  {
    match existing
    case Some(status) => StatusListed(status);
    case None =>
  }

  lemma {:induction false} EveryStatePossible(s: FppaState)
    ensures s in AllPossibleStates()
  {
    StatusListed(s.incoming);
    ExistingListed(s.asPayee);
    ExistingListed(s.asPayer);
    assert s == FppaState(s.incoming, s.payeeMine, s.payerMine, s.asPayee, s.asPayer);
  }

  predicate BothMine(s: FppaState) { s.payerMine && s.payeeMine }

  predicate PayeeAndPayerNotMine(s: FppaState) { !s.payerMine && !s.payeeMine }

  predicate PayeeNotMineButHasRecord(s: FppaState) { !s.payeeMine && s.asPayee.Some? }

  predicate PayerNotMineButHasRecord(s: FppaState) { !s.payerMine && s.asPayer.Some? }

  predicate NotPendingAndNoRecords(s: FppaState) { !s.incoming.Pending? && s.asPayer.None? && s.asPayee.None? }

  predicate PendingForPayeePayerNotMine(s: FppaState) { s.incoming.Pending? && s.payeeMine && !s.payerMine }

  predicate PendingForNonPendingPayer(s: FppaState) { s.incoming.Pending? && s.payerMine && s.asPayer != Some(Pending) }

  /** Named after pending commands, but holds whatever the incoming status. */
  predicate PendingBothMinePayeeNonPending(s: FppaState) { BothMine(s) && s.asPayee != Some(Pending) }

  predicate AnsweredBeforePayerRecordedIt(s: FppaState)
  {
    && BothMine(s) && (s.incoming.Valid? || s.incoming.Rejected?)
    && s.asPayee == Some(Pending) && s.asPayer != Some(s.incoming)
  }

  /** The payee is tested twice where its comment speaks of payee and payer. */
  predicate InvalidStatesForIncomingClosed(s: FppaState)
  {
    var payeeClosed := s.asPayee == Some(Closed);
    && BothMine(s) && s.incoming.Closed?
    && (|| (!payeeClosed && !payeeClosed)
        || (payeeClosed && s.asPayee != Some(Pending) && s.asPayee != Some(Valid))
        || (payeeClosed && s.asPayer != Some(Pending) && s.asPayer != Some(Valid)))
  }

  predicate PayeeValidOrClosedBecomesRejected(s: FppaState)
  {
    !s.payerMine && s.payeeMine && (s.asPayee == Some(Valid) || s.asPayee == Some(Closed)) && s.incoming.Rejected?
  }

  predicate PayeeRejectedOrClosedBecomesValid(s: FppaState)
  {
    !s.payerMine && s.payeeMine && (s.asPayee == Some(Rejected) || s.asPayee == Some(Closed)) && s.incoming.Valid?
  }

  predicate PayeeApprovesOrRejects(s: FppaState)
  {
    s.payerMine && !s.payeeMine && (s.incoming.Valid? || s.incoming.Rejected?)
  }

  predicate RejectedBeingClosed(s: FppaState)
  {
    !BothMine(s) && s.incoming.Closed? && (s.asPayee == Some(Rejected) || s.asPayer == Some(Rejected))
  }

  function ExplicitStates(): map<FppaState, Outcome>
  {
    map[
      FppaState(Pending, true, true, Some(Pending), None) := Accept(PAYER),
      FppaState(Pending, true, true, Some(Pending), Some(Pending)) := Accept(PAYER),
      FppaState(Pending, false, true, None, None) := Accept(PAYER),
      FppaState(Pending, false, true, None, Some(Pending)) := Accept(PAYER),
      FppaState(Valid, true, false, Some(Pending), None) := Accept(PAYEE),
      FppaState(Valid, true, false, Some(Valid), None) := Accept(PAYEE),
      FppaState(Valid, true, true, Some(Pending), Some(Valid)) := Accept(PAYEE),
      FppaState(Valid, true, true, Some(Valid), Some(Valid)) := Accept(PAYEE),
      FppaState(Rejected, true, false, Some(Pending), None) := Accept(PAYEE),
      FppaState(Rejected, true, false, Some(Rejected), None) := Accept(PAYEE),
      FppaState(Rejected, true, true, Some(Pending), Some(Rejected)) := Accept(PAYEE),
      FppaState(Rejected, true, true, Some(Rejected), Some(Rejected)) := Accept(PAYEE),
      FppaState(Closed, false, true, None, Some(Pending)) := Accept(PAYER),
      FppaState(Closed, false, true, None, Some(Closed)) := Accept(PAYER),
      FppaState(Closed, false, true, None, Some(Valid)) := Accept(PAYER),
      FppaState(Closed, true, true, Some(Closed), Some(Pending)) := Accept(PAYER),
      FppaState(Closed, true, true, Some(Closed), Some(Valid)) := Accept(PAYER),
      FppaState(Closed, true, false, Some(Pending), None) := Accept(PAYEE),
      FppaState(Closed, true, false, Some(Closed), None) := Accept(PAYEE),
      FppaState(Closed, true, false, Some(Valid), None) := Accept(PAYEE),
      FppaState(Closed, true, true, Some(Pending), Some(Closed)) := Accept(PAYEE),
      FppaState(Closed, true, true, Some(Valid), Some(Closed)) := Accept(PAYEE),
      FppaState(Closed, true, true, Some(Closed), Some(Closed)) := Accept(PAYEE)
    ]
  }

  function MakeErrorStates(possible: set<FppaState>, family: FppaState -> bool, reason: string): map<FppaState, Outcome>
  {
    map s | s in possible && family(s) :: Refuse(reason)
  }

  /** The reason a table of errors gives for each state, as one function. */
  type Reasons = FppaState -> Option<string>

  function Over(reasons: Reasons, family: FppaState -> bool, reason: string): Reasons
  {
    (s: FppaState) => if family(s) then Some(reason) else reasons(s)
  }

  ghost predicate Lists(allStates: map<FppaState, Outcome>, possible: set<FppaState>, reasons: Reasons)
  {
    forall s :: if s in possible && reasons(s).Some? then s in allStates && allStates[s] == Refuse(reasons(s).value)
                else s !in allStates
  }

  /**
   * When a role is accepted, in terms of what the records mean: the sender's own record, if kept
   * here, already says what the command says; a payee takes answers and closings, a payer takes
   * requests and closings; and the receiver's record makes a legal change.
   */
  predicate Permits(s: FppaState, role: Role)
  {
    match role
    case PAYEE => PermitsPayee(s)
    case PAYER => PermitsPayer(s)
  }

  predicate PermitsPayee(s: FppaState)
  {
    && s.payeeMine && !s.incoming.Pending?
    && s.asPayer == (if s.payerMine then Some(s.incoming) else None)
    && s.asPayee.Some? && IsValidTransition(s.asPayee.value, s.incoming)
  }

  predicate PermitsPayer(s: FppaState)
  {
    && s.payerMine && (s.incoming.Pending? || s.incoming.Closed?)
    && s.asPayee == (if s.payeeMine then Some(s.incoming) else None)
    && (if s.asPayer.Some? then IsValidTransition(s.asPayer.value, s.incoming) else s.incoming.Pending?)
    && !PermitsPayee(s)
  }

  function EarlyReason(s: FppaState): Option<string>
  {
    if PendingBothMinePayeeNonPending(s) then Some("Payee is not pending but a request claims it is")
    else if PendingForNonPendingPayer(s) then Some("Processed request cannot become pending")
    else if PendingForPayeePayerNotMine(s) then Some("Payee cannot update request status to pending")
    else if NotPendingAndNoRecords(s) then Some("Incoming update for unknown request ")
    else if PayerNotMineButHasRecord(s) then Some("Payer doesn't belong to this VASP but the request is in the storage")
    else if PayeeNotMineButHasRecord(s) then Some("Payee doesn't belong to this VASP but the request is in the storage")
    else if PayeeAndPayerNotMine(s) then Some("Bad request: Both the payee and the payer do not belong to this VASP")
    else None
  }

  /** The last family that holds gives the reason. */
  function RefusalReason(s: FppaState): Option<string>
  {
    if RejectedBeingClosed(s) then Some("Cannot close rejected request")
    else if PayeeApprovesOrRejects(s) then Some("Payee cannot approve or reject")
    else if PayeeRejectedOrClosedBecomesValid(s) then Some("Rejected or closed request cannot be approved")
    else if PayeeValidOrClosedBecomesRejected(s) then Some("Approved or closed request cannot be rejected")
    else if InvalidStatesForIncomingClosed(s) then Some("Only pending and valid requests can be closed")
    else if AnsweredBeforePayerRecordedIt(s) then Some("Only pending requests can become valid or rejected")
    else EarlyReason(s)
  }

  function Reduce(s: FppaState): Outcome
  {
    if Permits(s, PAYEE) then Accept(PAYEE) else if Permits(s, PAYER) then Accept(PAYER) else
      match RefusalReason(s)
      case Some(reason) => Refuse(reason)
      case None => KeyMissing
  }

  /** The table of explicit states is exactly the permitted ones. */
  lemma {:induction false} ExplicitMeaning(s: FppaState)
    ensures s in ExplicitStates() <==> Permits(s, PAYEE) || Permits(s, PAYER)
    ensures s in ExplicitStates() ==> ExplicitStates()[s] == Reduce(s)
  {
    match s.incoming
    case Pending =>
    case Valid =>
    case Rejected =>
    case Closed =>
  }

  /** Every state without a role falls into some family, so no look-up fails. */
  lemma {:induction false} NoKeyMissing(s: FppaState)
    ensures !Reduce(s).KeyMissing?
    ensures Reduce(s) == Accept(PAYEE) <==> Permits(s, PAYEE)
    ensures Reduce(s) == Accept(PAYER) <==> Permits(s, PAYER)
  {
  }

  /** One update of the table with a family of errors. */
  method Update(possible: set<FppaState>, before: map<FppaState, Outcome>, ghost reasons: Reasons,
      family: FppaState -> bool, reason: string) returns (after: map<FppaState, Outcome>, ghost over: Reasons)
    requires Lists(before, possible, reasons)
    ensures Lists(after, possible, Over(reasons, family, reason))
    ensures over == Over(reasons, family, reason)
  {
    after := before + MakeErrorStates(possible, family, reason);
    over := Over(reasons, family, reason);
  }

  /** The first seven families of errors, later ones overwriting earlier ones. */
  method EarlyErrors(possible: set<FppaState>) returns (allStates: map<FppaState, Outcome>)
    ensures Lists(allStates, possible, EarlyReason)
  {
    ghost var reasons: Reasons := s => None;
    allStates := map[];
    allStates, reasons := Update(
      possible, allStates, reasons, PayeeAndPayerNotMine, "Bad request: Both the payee and the payer do not belong to this VASP");
    allStates, reasons := Update(
      possible, allStates, reasons, PayeeNotMineButHasRecord, "Payee doesn't belong to this VASP but the request is in the storage");
    allStates, reasons := Update(
      possible, allStates, reasons, PayerNotMineButHasRecord, "Payer doesn't belong to this VASP but the request is in the storage");
    allStates, reasons := Update(
      possible, allStates, reasons, NotPendingAndNoRecords, "Incoming update for unknown request ");
    allStates, reasons := Update(
      possible, allStates, reasons, PendingForPayeePayerNotMine, "Payee cannot update request status to pending");
    allStates, reasons := Update(
      possible, allStates, reasons, PendingForNonPendingPayer, "Processed request cannot become pending");
    allStates, reasons := Update(
      possible, allStates, reasons, PendingBothMinePayeeNonPending, "Payee is not pending but a request claims it is");
    forall s: FppaState ensures reasons(s) == EarlyReason(s) {
    }
  }

  /** All thirteen families. */
  method ErrorStates(possible: set<FppaState>) returns (allStates: map<FppaState, Outcome>)
    ensures Lists(allStates, possible, RefusalReason)
  {
    ghost var reasons: Reasons := EarlyReason;
    allStates := EarlyErrors(possible);
    allStates, reasons := Update(
      possible, allStates, reasons, AnsweredBeforePayerRecordedIt, "Only pending requests can become valid or rejected");
    allStates, reasons := Update(
      possible, allStates, reasons, InvalidStatesForIncomingClosed, "Only pending and valid requests can be closed");
    allStates, reasons := Update(
      possible, allStates, reasons, PayeeValidOrClosedBecomesRejected, "Approved or closed request cannot be rejected");
    allStates, reasons := Update(
      possible, allStates, reasons, PayeeRejectedOrClosedBecomesValid, "Rejected or closed request cannot be approved");
    allStates, reasons := Update(
      possible, allStates, reasons, PayeeApprovesOrRejects, "Payee cannot approve or reject");
    allStates, reasons := Update(possible, allStates, reasons, RejectedBeingClosed, "Cannot close rejected request");
    forall s: FppaState ensures reasons(s) == RefusalReason(s) {
    }
  }

  /** The errors, then the explicit states. */
  method BuildRoleReducer(possible: set<FppaState>) returns (allStates: map<FppaState, Outcome>)
    requires forall s: FppaState :: s in possible
    ensures forall s :: s in allStates && allStates[s] == Reduce(s)
  {
    var errors := ErrorStates(possible);
    allStates := errors + ExplicitStates();
    forall s ensures s in allStates && allStates[s] == Reduce(s) {
      ExplicitMeaning(s);
      NoKeyMissing(s);
      assert RefusalReason.requires(s);
    }
  }

  method RoleReducer() returns (allStates: map<FppaState, Outcome>)
    ensures forall s :: s in allStates && allStates[s] == Reduce(s)
  {
    forall s ensures s in AllPossibleStates() {
      EveryStatePossible(s);
    }
    allStates := BuildRoleReducer(AllPossibleStates());
  }
}
