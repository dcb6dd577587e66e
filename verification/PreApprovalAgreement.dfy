/**
 * Two separate wallets, one whose customers pay and one whose customers bill, exchanging pre-approval
 * commands that may be delayed, repeated and reordered at will. Payers approve, reject and close;
 * payees ask and close.
 */
module PreApprovalAgreement {
  import opened Wrappers
  import opened PreApprovalRules
  import opened PreApprovals

  /** Commands once sent stay in flight for ever, so each may arrive any number of times. */
  datatype System = System(payers: Rows, payees: Rows, toPayees: set<Approval>, toPayers: set<Approval>)

  datatype Action =
    | Create(account: int, address: string, biller: string, id: string, terms: Terms, now: int)
    | Ask(account: int, payer: Option<string>, biller: string, id: string, terms: Terms)
    | Decide(id: string, op: Operation)
    | CloseByPayee(id: string)
    | SendFromPayers(row: nat, recorded: bool)
    | SendFromPayees(row: nat, recorded: bool)
    | DeliverToPayees(command: Approval, now: int)
    | DeliverToPayers(command: Approval, now: int)

  function Keep(rows: Rows, result: Result<Rows, PreApprovalError>): Rows
  {
    match result
    case Ok(after) => after
    case Err(_) => rows
  }

  predicate Unsent(rows: Rows, row: nat)
  {
    row < |rows| && rows[row].sent == Some(false) && rows[row].address.Some?
  }

  /** A failure after the counterparty has received the command leaves it to be sent again. */
  function MarkSent(rows: Rows, row: nat, recorded: bool): Rows
    requires row < |rows|
  {
    if recorded then rows[row := rows[row].(sent := Some(true))] else rows
  }

  function Next(s: System, a: Action, payerDir: Directory, payeeDir: Directory): System
  {
    match a
    case Create(account, address, biller, id, terms, now) =>
      s.(payers := Keep(s.payers, CreatedAndApproved(s.payers, account, address, biller, id, terms, now)))
    case Ask(account, payer, biller, id, terms) =>
      s.(payees := Keep(s.payees, Requested(s.payees, account, payer, biller, id, terms)))
    case Decide(id, op) => s.(payers := Keep(s.payers, StatusUpdated(s.payers, id, op)))
    case CloseByPayee(id) => s.(payees := Keep(s.payees, StatusUpdated(s.payees, id, Close)))
    case SendFromPayers(row, recorded) =>
      if Unsent(s.payers, row) then
        s.(payers := MarkSent(s.payers, row, recorded), toPayees := s.toPayees + {CommandOf(s.payers[row])})
      else s
    case SendFromPayees(row, recorded) =>
      if Unsent(s.payees, row) then
        s.(payees := MarkSent(s.payees, row, recorded), toPayers := s.toPayers + {CommandOf(s.payees[row])})
      else s
    case DeliverToPayees(command, now) =>
      if command in s.toPayees then s.(payees := Keep(s.payees, Handled(s.payees, payeeDir, command, now))) else s
    case DeliverToPayers(command, now) =>
      if command in s.toPayers then s.(payers := Keep(s.payers, Handled(s.payers, payerDir, command, now))) else s
  }

  /** New records use an address of their own account, and name a counterparty in the other wallet. */
  predicate Allowed(a: Action, payerDir: Directory, payeeDir: Directory)
  {
    match a
    case Create(account, address, biller, _, _, _) =>
      payerDir.mine(address) && payerDir.accountOf(address) == Some(account) && payeeDir.mine(biller)
    case Ask(account, payer, biller, _, _) =>
      payeeDir.mine(biller) && payeeDir.accountOf(biller) == Some(account) && (payer.Some? ==> payerDir.mine(payer.value))
    case _ => true
  }

  ghost predicate Separate(payerDir: Directory, payeeDir: Directory)
  {
    forall address :: !(payerDir.mine(address) && payeeDir.mine(address))
  }

  /** Some payer's record has, or legally left behind, the given status. */
  ghost predicate Backed(payers: Rows, id: string, address: string, biller: string, status: Status)
  {
    exists i :: 0 <= i < |payers| && Backs(payers[i], id, address, biller, status)
  }

  predicate Backs(r: Record, id: string, address: string, biller: string, status: Status)
  {
    r.id == id && r.address == Some(address) && r.biller == biller && IsValidTransition(status, r.status)
  }

  ghost predicate PayersOk(payers: Rows, payerDir: Directory, payeeDir: Directory)
  {
    Coherent(payers, payerDir) && forall i :: 0 <= i < |payers| ==> payers[i].role.PAYER? && payeeDir.mine(payers[i].biller)
  }

  ghost predicate PayeeOk(r: Record, payers: Rows, payerDir: Directory)
  {
    && r.role.PAYEE? && (r.address.Some? ==> payerDir.mine(r.address.value))
    && (r.status.Valid? || r.status.Rejected? ==>
          r.address.Some? && Backed(payers, r.id, r.address.value, r.biller, r.status))
  }

  ghost predicate PayeesOk(payees: Rows, payers: Rows, payerDir: Directory, payeeDir: Directory)
  {
    Coherent(payees, payeeDir) && forall i :: 0 <= i < |payees| ==> PayeeOk(payees[i], payers, payerDir)
  }

  ghost predicate CommandOk(c: Approval, payerDir: Directory, payeeDir: Directory)
  {
    payerDir.mine(c.address) && payeeDir.mine(c.biller)
  }

  ghost predicate FlightOk(s: System, payerDir: Directory, payeeDir: Directory)
  {
    && (forall c :: c in s.toPayees ==> CommandOk(c, payerDir, payeeDir) && Backed(s.payers, c.id, c.address, c.biller, c.status))
    && (forall c :: c in s.toPayers ==> CommandOk(c, payerDir, payeeDir))
  }

  ghost predicate Inv(s: System, payerDir: Directory, payeeDir: Directory)
  {
    && PayersOk(s.payers, payerDir, payeeDir)
    && PayeesOk(s.payees, s.payers, payerDir, payeeDir)
    && FlightOk(s, payerDir, payeeDir)
  }

  // ---- Changes on the payers' side ----

  lemma {:induction false} BackedStays(before: Rows, after: Rows, id: string, address: string, biller: string, status: Status)
    requires Legal(before, after) && Backed(before, id, address, biller, status)
    ensures Backed(after, id, address, biller, status)
  {
  }

  /** Whatever legal thing the payers do, everything the payees rely on stays backed. */
  lemma {:induction false} PayersMove(s: System, after: Rows, payerDir: Directory, payeeDir: Directory)
    requires Inv(s, payerDir, payeeDir) && Legal(s.payers, after) && PayersOk(after, payerDir, payeeDir)
    ensures Inv(s.(payers := after), payerDir, payeeDir)
  {
  }

  lemma {:induction false} SameRowsLegal(rows: Rows)
    ensures Legal(rows, rows)
  {
  }

  lemma {:induction false} DecideKeeps(s: System, id: string, op: Operation, payerDir: Directory, payeeDir: Directory)
    requires Inv(s, payerDir, payeeDir)
    ensures Inv(s.(payers := Keep(s.payers, StatusUpdated(s.payers, id, op))), payerDir, payeeDir)
    ensures Legal(s.payers, Keep(s.payers, StatusUpdated(s.payers, id, op)))
  {
    SameRowsLegal(s.payers);
    DecisionIsLegal(s.payers, payerDir, id, op);
    PayersMove(s, Keep(s.payers, StatusUpdated(s.payers, id, op)), payerDir, payeeDir);
  }

  lemma {:induction false} CreateKeeps(s: System, a: Action, payerDir: Directory, payeeDir: Directory)
    requires Inv(s, payerDir, payeeDir) && a.Create? && Allowed(a, payerDir, payeeDir)
    ensures Inv(Next(s, a, payerDir, payeeDir), payerDir, payeeDir)
    ensures Legal(s.payers, Next(s, a, payerDir, payeeDir).payers)
  {
    SameRowsLegal(s.payers);
    var result := CreatedAndApproved(s.payers, a.account, a.address, a.biller, a.id, a.terms, a.now);
    if result.Ok? {
      CommitIsLegal(s.payers, payerDir, result.value[|s.payers|]);
    }
    PayersMove(s, Keep(s.payers, result), payerDir, payeeDir);
  }

  lemma {:induction false} DeliverToPayersKeeps(s: System, c: Approval, now: int, payerDir: Directory, payeeDir: Directory)
    requires Inv(s, payerDir, payeeDir) && Separate(payerDir, payeeDir) && c in s.toPayers
    ensures Inv(s.(payers := Keep(s.payers, Handled(s.payers, payerDir, c, now))), payerDir, payeeDir)
    ensures Legal(s.payers, Keep(s.payers, Handled(s.payers, payerDir, c, now)))
  {
    SameRowsLegal(s.payers);
    var result := Handled(s.payers, payerDir, c, now);
    if result.Ok? {
      HandlerIsLegal(s.payers, payerDir, c, now);
      NoKeyMissing(StateOf(s.payers, payerDir, c));
      match First(s.payers, WithIdAndRole(c.id, PAYER))
      case Some(i) => UpdateIsLegal(s.payers, payerDir, c, now, PAYER, i);
      case None =>
    }
    PayersMove(s, Keep(s.payers, result), payerDir, payeeDir);
  }

  // ---- Changes on the payees' side ----

  lemma {:induction false} DeliverToPayeesKeeps(s: System, c: Approval, now: int, payerDir: Directory, payeeDir: Directory)
    requires Inv(s, payerDir, payeeDir) && Separate(payerDir, payeeDir) && c in s.toPayees
    ensures Inv(s.(payees := Keep(s.payees, Handled(s.payees, payeeDir, c, now))), payerDir, payeeDir)
    ensures Legal(s.payees, Keep(s.payees, Handled(s.payees, payeeDir, c, now)))
  {
    SameRowsLegal(s.payees);
    var result := Handled(s.payees, payeeDir, c, now);
    if result.Ok? {
      HandlerIsLegal(s.payees, payeeDir, c, now);
      PayeeAcceptsIff(s.payees, payeeDir, c, now);
      NoKeyMissing(StateOf(s.payees, payeeDir, c));
      var i := First(s.payees, WithIdAndRole(c.id, PAYEE)).value;
      UpdateIsLegal(s.payees, payeeDir, c, now, PAYEE, i);
      assert PayeeOk(result.value[i], s.payers, payerDir);
    }
  }

  lemma {:induction false} AskKeeps(s: System, a: Action, payerDir: Directory, payeeDir: Directory)
    requires Inv(s, payerDir, payeeDir) && a.Ask? && Allowed(a, payerDir, payeeDir)
    ensures Inv(Next(s, a, payerDir, payeeDir), payerDir, payeeDir)
    ensures Legal(s.payees, Next(s, a, payerDir, payeeDir).payees)
  {
    SameRowsLegal(s.payees);
    var result := Requested(s.payees, a.account, a.payer, a.biller, a.id, a.terms);
    if result.Ok? {
      CommitIsLegal(s.payees, payeeDir, result.value[|s.payees|]);
    }
  }

  lemma {:induction false} PayeeClosesKeeps(s: System, id: string, payerDir: Directory, payeeDir: Directory)
    requires Inv(s, payerDir, payeeDir)
    ensures Inv(s.(payees := Keep(s.payees, StatusUpdated(s.payees, id, Close))), payerDir, payeeDir)
    ensures Legal(s.payees, Keep(s.payees, StatusUpdated(s.payees, id, Close)))
  {
    SameRowsLegal(s.payees);
    DecisionIsLegal(s.payees, payeeDir, id, Close);
  }

  // ---- Sending ----

  lemma {:induction false} SendFromPayersKeeps(s: System, row: nat, recorded: bool, payerDir: Directory, payeeDir: Directory)
    requires Inv(s, payerDir, payeeDir) && Unsent(s.payers, row)
    ensures var sent := s.(payers := MarkSent(s.payers, row, recorded), toPayees := s.toPayees + {CommandOf(s.payers[row])});
            Inv(sent, payerDir, payeeDir) && Legal(s.payers, sent.payers)
  {
    var r := s.payers[row];
    assert RecordOk(r, payerDir);
    SameRowsLegal(s.payers);
    ReplaceIsLegal(s.payers, payerDir, row, r.(sent := Some(true)));
    var after := MarkSent(s.payers, row, recorded);
    PayersMove(s, after, payerDir, payeeDir);
    assert Backs(after[row], r.id, r.address.value, r.biller, r.status);
  }

  lemma {:induction false} SendFromPayeesKeeps(s: System, row: nat, recorded: bool, payerDir: Directory, payeeDir: Directory)
    requires Inv(s, payerDir, payeeDir) && Unsent(s.payees, row)
    ensures var sent := s.(payees := MarkSent(s.payees, row, recorded), toPayers := s.toPayers + {CommandOf(s.payees[row])});
            Inv(sent, payerDir, payeeDir) && Legal(s.payees, sent.payees)
  {
  }

  // ---- Runs ----

  lemma {:induction false} NextKeeps(s: System, a: Action, payerDir: Directory, payeeDir: Directory)
    requires Inv(s, payerDir, payeeDir) && Separate(payerDir, payeeDir) && Allowed(a, payerDir, payeeDir)
    ensures Inv(Next(s, a, payerDir, payeeDir), payerDir, payeeDir)
    ensures Legal(s.payers, Next(s, a, payerDir, payeeDir).payers) && Legal(s.payees, Next(s, a, payerDir, payeeDir).payees)
  {
    SameRowsLegal(s.payers);
    SameRowsLegal(s.payees);
    match a
    case Create(_, _, _, _, _, _) => CreateKeeps(s, a, payerDir, payeeDir);
    case Ask(_, _, _, _, _) => AskKeeps(s, a, payerDir, payeeDir);
    case Decide(id, op) => DecideKeeps(s, id, op, payerDir, payeeDir);
    case CloseByPayee(id) => PayeeClosesKeeps(s, id, payerDir, payeeDir);
    case SendFromPayers(row, recorded) =>
      if Unsent(s.payers, row) {
        SendFromPayersKeeps(s, row, recorded, payerDir, payeeDir);
      }
    case SendFromPayees(row, recorded) =>
      if Unsent(s.payees, row) {
        SendFromPayeesKeeps(s, row, recorded, payerDir, payeeDir);
      }
    case DeliverToPayees(c, now) =>
      if c in s.toPayees {
        DeliverToPayeesKeeps(s, c, now, payerDir, payeeDir);
      }
    case DeliverToPayers(c, now) =>
      if c in s.toPayers {
        DeliverToPayersKeeps(s, c, now, payerDir, payeeDir);
      }
  }

  function Run(s: System, actions: seq<Action>, payerDir: Directory, payeeDir: Directory): System
    decreases |actions|
  {
    if actions == [] then s else Run(Next(s, actions[0], payerDir, payeeDir), actions[1..], payerDir, payeeDir)
  }

  /** Each record of the first table still leads to its place in the second by legal changes only. */
  predicate AllFollow(before: Rows, after: Rows)
  {
    |before| <= |after| && forall i :: 0 <= i < |before| ==> Follows(before[i], after[i])
  }

  lemma {:induction false} FollowCompose(a: Rows, b: Rows, c: Rows)
    requires AllFollow(a, b) && AllFollow(b, c)
    ensures AllFollow(a, c)
  {
  }

  lemma {:induction false} RunKeeps(s: System, actions: seq<Action>, payerDir: Directory, payeeDir: Directory)
    requires Inv(s, payerDir, payeeDir) && Separate(payerDir, payeeDir)
    requires forall k :: 0 <= k < |actions| ==> Allowed(actions[k], payerDir, payeeDir)
    ensures Inv(Run(s, actions, payerDir, payeeDir), payerDir, payeeDir)
    ensures AllFollow(s.payers, Run(s, actions, payerDir, payeeDir).payers)
    ensures AllFollow(s.payees, Run(s, actions, payerDir, payeeDir).payees)
    decreases |actions|
  {
    if actions == [] {
      SameRowsLegal(s.payers);
      SameRowsLegal(s.payees);
    } else {
      var next := Next(s, actions[0], payerDir, payeeDir);
      var end := Run(s, actions, payerDir, payeeDir);
      NextKeeps(s, actions[0], payerDir, payeeDir);
      RunKeeps(next, actions[1..], payerDir, payeeDir);
      FollowCompose(s.payers, next.payers, end.payers);
      FollowCompose(s.payees, next.payees, end.payees);
    }
  }

  /** What a payee holds as valid its payer approved and has at most closed since; likewise for rejections. */
  ghost predicate Agreed(s: System)
  {
    forall i :: 0 <= i < |s.payees| ==>
      var q := s.payees[i];
      && (q.status.Valid? ==> exists j :: 0 <= j < |s.payers| && SamePreApproval(s.payers[j], q)
                                          && (s.payers[j].status.Valid? || s.payers[j].status.Closed?))
      && (q.status.Rejected? ==> exists j :: 0 <= j < |s.payers| && SamePreApproval(s.payers[j], q) && s.payers[j].status.Rejected?)
  }

  predicate SamePreApproval(p: Record, q: Record)
  {
    p.role.PAYER? && p.id == q.id && p.biller == q.biller && p.address.Some? && p.address == q.address
  }

  lemma {:induction false} InvAgrees(s: System, payerDir: Directory, payeeDir: Directory)
    requires Inv(s, payerDir, payeeDir)
    ensures Agreed(s)
  {
  }

  /**
   * From empty tables, over every interleaving, repetition and reordering of sends: the two wallets
   * agree, and from any point of the run to its end a payee's payer is bound at most once.
   */
  lemma {:induction false} AgreementOverRuns(early: seq<Action>, late: seq<Action>, payerDir: Directory, payeeDir: Directory)
    requires Separate(payerDir, payeeDir)
    requires forall k :: 0 <= k < |early| ==> Allowed(early[k], payerDir, payeeDir)
    requires forall k :: 0 <= k < |late| ==> Allowed(late[k], payerDir, payeeDir)
    ensures var middle := Run(System([], [], {}, {}), early, payerDir, payeeDir);
            var end := Run(middle, late, payerDir, payeeDir);
            Agreed(end) && AllFollow(middle.payees, end.payees) && AllFollow(middle.payers, end.payers)
  {
    var middle := Run(System([], [], {}, {}), early, payerDir, payeeDir);
    RunKeeps(System([], [], {}, {}), early, payerDir, payeeDir);
    RunKeeps(middle, late, payerDir, payeeDir);
    InvAgrees(Run(middle, late, payerDir, payeeDir), payerDir, payeeDir);
  }

  /** Whether some payer's record backs a payee's record with a status. */
  ghost predicate PayerHas(s: System, q: Record, status: Status)
  {
    exists j :: 0 <= j < |s.payers| && SamePreApproval(s.payers[j], q) && IsValidTransition(status, s.payers[j].status)
  }

  lemma {:induction false} AgreedIff(s: System)
    ensures Agreed(s) <==> forall i :: 0 <= i < |s.payees| && (s.payees[i].status.Valid? || s.payees[i].status.Rejected?) ==>
                             PayerHas(s, s.payees[i], s.payees[i].status)
  {
    forall i | 0 <= i < |s.payees| && s.payees[i].status.Valid?
      ensures PayerHas(s, s.payees[i], Valid)
              <==> exists j :: 0 <= j < |s.payers| && SamePreApproval(s.payers[j], s.payees[i])
                               && (s.payers[j].status.Valid? || s.payers[j].status.Closed?)
    {
    }
    forall i | 0 <= i < |s.payees| && s.payees[i].status.Rejected?
      ensures PayerHas(s, s.payees[i], Rejected)
              <==> exists j :: 0 <= j < |s.payers| && SamePreApproval(s.payers[j], s.payees[i]) && s.payers[j].status.Rejected?
    {
    }
  }

  /**
   * The stored role is not looked at, so a payee can decide for itself. Agreement then survives
   * exactly when it closes, or a payer's record already backs what it decides.
   */
  lemma {:induction false} PayeeDecisionAgreesIff(s: System, id: string, op: Operation)
    requires Agreed(s) && StatusUpdated(s.payees, id, op).Ok?
    ensures Agreed(s.(payees := StatusUpdated(s.payees, id, op).value))
            <==> op.Close? || PayerHas(s, s.payees[First(s.payees, WithId(id)).value], NewStatus(op))
  {
    var i := First(s.payees, WithId(id)).value;
    var after := s.(payees := StatusUpdated(s.payees, id, op).value);
    AgreedIff(s);
    AgreedIff(after);
    assert forall k :: 0 <= k < |s.payees| && k != i ==> after.payees[k] == s.payees[k];
    forall k, status | 0 <= k < |s.payees| ensures PayerHas(after, after.payees[k], status) <==> PayerHas(s, s.payees[k], status) {
      assert forall j :: 0 <= j < |s.payers| ==>
               (SamePreApproval(s.payers[j], after.payees[k]) <==> SamePreApproval(s.payers[j], s.payees[k]));
    }
  }

  /** That payees only close is needed: from empty tables, a request its own payee approves or rejects. */
  lemma {:induction false} PayeeApprovingBreaksAgreement(ask: Action, op: Operation, payerDir: Directory, payeeDir: Directory)
    requires ask.Ask? && Allowed(ask, payerDir, payeeDir) && !op.Close?
    ensures var s := Run(System([], [], {}, {}), [ask], payerDir, payeeDir);
            && Agreed(s) && StatusUpdated(s.payees, ask.id, op).Ok?
            && !Agreed(s.(payees := StatusUpdated(s.payees, ask.id, op).value))
  {
    var start := System([], [], {}, {});
    var s := Next(start, ask, payerDir, payeeDir);
    assert [ask][1..] == [];
    assert Run(start, [ask], payerDir, payeeDir) == s;
    assert |s.payees| == 1 && WithId(ask.id)(s.payees[0]);
    PayeeDecisionAgreesIff(s, ask.id, op);
  }

  // ---- What is sent arrives ----

  /** A record is due exactly while it is marked so; sending it queues its command, and once recorded it is due no more. */
  lemma {:induction false} SentOnce(s: System, row: nat, recorded: bool, payerDir: Directory, payeeDir: Directory)
    requires row < |s.payers| && s.payers[row].address.Some?
    ensures var after := Next(s, SendFromPayers(row, recorded), payerDir, payeeDir);
      if s.payers[row].sent == Some(false) then
        && CommandOf(s.payers[row]) in after.toPayees && s.toPayees <= after.toPayees
        && |after.payers| == |s.payers| && (forall i :: 0 <= i < |s.payers| && i != row ==> after.payers[i] == s.payers[i])
        && after.payers[row] == s.payers[row].(sent := Some(recorded))
        && (recorded ==> Next(after, SendFromPayers(row, true), payerDir, payeeDir) == after)
        && after.payees == s.payees && after.toPayers == s.toPayers
      else after == s
  {
  }

  lemma {:induction false} RequestSentOnce(s: System, row: nat, recorded: bool, payerDir: Directory, payeeDir: Directory)
    requires row < |s.payees| && s.payees[row].address.Some?
    ensures var after := Next(s, SendFromPayees(row, recorded), payerDir, payeeDir);
      if s.payees[row].sent == Some(false) then
        && CommandOf(s.payees[row]) in after.toPayers && s.toPayers <= after.toPayers
        && |after.payees| == |s.payees| && (forall i :: 0 <= i < |s.payees| && i != row ==> after.payees[i] == s.payees[i])
        && after.payees[row] == s.payees[row].(sent := Some(recorded))
        && (recorded ==> Next(after, SendFromPayees(row, true), payerDir, payeeDir) == after)
        && after.payers == s.payers && after.toPayees == s.toPayees
      else after == s
  {
  }

  /** The request as the payer stores it, and the payer's decision as the payee stores it. */
  lemma {:induction false} RequestIsStored(payerDir: Directory, c: Approval, now: int)
    requires c.status.Pending? && now <= c.terms.expiration
    requires payerDir.mine(c.address) && payerDir.accountOf(c.address).Some? && !payerDir.mine(c.biller)
    ensures var after := Handled([], payerDir, c, now);
      && after.Ok? && |after.value| == 1 && after.value[0].address.Some? && CommandOf(after.value[0]) == c
      && after.value[0].role.PAYER? && after.value[0].sent == Some(false)
  {
    PayerAcceptsIff([], payerDir, c, now);
    var i := AcceptedIsStored([], payerDir, c, now);
  }

  lemma {:induction false} AnswerIsStored(payeeDir: Directory, r: Record, c: Approval, now: int)
    requires now <= c.terms.expiration && (c.status.Valid? || c.status.Rejected?)
    requires RecordOk(r, payeeDir) && r.role.PAYEE? && r.status.Pending? && r.address == Some(c.address)
    requires c == CommandOf(r).(status := c.status) && !payeeDir.mine(c.address)
    ensures var after := Handled([r], payeeDir, c, now);
      after.Ok? && |after.value| == 1 && after.value[0].address.Some? && CommandOf(after.value[0]) == c
  {
    assert WithIdAndRole(c.id, PAYEE)(r);
    assert First([r], WithIdAndRole(c.id, PAYEE)) == Some(0);
    PayeeAcceptsIff([r], payeeDir, c, now);
    var role := Reduce(StateOf([r], payeeDir, c)).role;
    assert role.PAYEE? by {
      ExplicitMeaning(StateOf([r], payeeDir, c));
    }
    UpdateIsLegal([r], payeeDir, c, now, PAYEE, 0);
  }

  /** A request, its delivery, the payer's decision and the delivery of that. */
  function Exchange(ask: Action, op: Operation, command: Approval, now: int): seq<Action>
    requires ask.Ask?
  {
    [ask, SendFromPayees(0, true), DeliverToPayers(command, now),
     Decide(ask.id, op), SendFromPayers(0, true), DeliverToPayees(command.(status := NewStatus(op)), now)]
  }

  /** From empty tables, a request that names its payer ends with both wallets holding the payer's decision. */
  lemma {:induction false} DecisionArrives(ask: Action, op: Operation, now: int, payerDir: Directory, payeeDir: Directory)
    requires ask.Ask? && Allowed(ask, payerDir, payeeDir) && Separate(payerDir, payeeDir) && !op.Close?
    requires ask.payer.Some? && payerDir.accountOf(ask.payer.value).Some? && now <= ask.terms.expiration
    ensures var command := Approval(ask.id, ask.payer.value, ask.biller, ask.terms, Pending);
      var end := Run(System([], [], {}, {}), Exchange(ask, op, command, now), payerDir, payeeDir);
      && |end.payers| == 1 && |end.payees| == 1
      && end.payers[0].address.Some? && CommandOf(end.payers[0]) == command.(status := NewStatus(op))
      && end.payees[0].address.Some? && CommandOf(end.payees[0]) == command.(status := NewStatus(op))
      && end.payers[0].sent == Some(true)
  {
    var command := Approval(ask.id, ask.payer.value, ask.biller, ask.terms, Pending);
    var actions := Exchange(ask, op, command, now);
    var start := System([], [], {}, {});
    var asked := Next(start, ask, payerDir, payeeDir);
    RequestedIsPending([], ask.account, ask.payer, ask.biller, ask.id, ask.terms);
    assert CommandOf(asked.payees[0]) == command;
    RequestSentOnce(asked, 0, true, payerDir, payeeDir);
    var sent := Next(asked, SendFromPayees(0, true), payerDir, payeeDir);
    RequestIsStored(payerDir, command, now);
    var stored := Next(sent, DeliverToPayers(command, now), payerDir, payeeDir);
    assert WithId(ask.id)(stored.payers[0]);
    DecisionRefinesTable(stored.payers, ask.id, op);
    var decided := Next(stored, Decide(ask.id, op), payerDir, payeeDir);
    DecisionIsAnnounced(stored.payers, ask.id, op);
    SentOnce(decided, 0, true, payerDir, payeeDir);
    var answered := Next(decided, SendFromPayers(0, true), payerDir, payeeDir);
    AnswerIsStored(payeeDir, answered.payees[0], command.(status := NewStatus(op)), now);
    SixSteps(start, actions, payerDir, payeeDir);
  }

  lemma {:induction false} SixSteps(s: System, actions: seq<Action>, payerDir: Directory, payeeDir: Directory)
    requires |actions| == 6
    ensures Run(s, actions, payerDir, payeeDir)
         == Next(Next(Next(Next(Next(Next(s, actions[0], payerDir, payeeDir), actions[1], payerDir, payeeDir), actions[2], payerDir, payeeDir),
                           actions[3], payerDir, payeeDir), actions[4], payerDir, payeeDir), actions[5], payerDir, payeeDir)
  {
    assert actions[0..] == actions && actions[6..] == [];
    var s1 := Next(s, actions[0], payerDir, payeeDir);
    var s2 := Next(s1, actions[1], payerDir, payeeDir);
    var s3 := Next(s2, actions[2], payerDir, payeeDir);
    var s4 := Next(s3, actions[3], payerDir, payeeDir);
    var s5 := Next(s4, actions[4], payerDir, payeeDir);
    RunOne(s, actions, 0, payerDir, payeeDir);
    RunOne(s1, actions, 1, payerDir, payeeDir);
    RunOne(s2, actions, 2, payerDir, payeeDir);
    RunOne(s3, actions, 3, payerDir, payeeDir);
    RunOne(s4, actions, 4, payerDir, payeeDir);
    RunOne(s5, actions, 5, payerDir, payeeDir);
  }

  lemma {:induction false} RunOne(s: System, actions: seq<Action>, k: nat, payerDir: Directory, payeeDir: Directory)
    requires k < |actions|
    ensures Run(s, actions[k..], payerDir, payeeDir) == Run(Next(s, actions[k], payerDir, payeeDir), actions[k + 1..], payerDir, payeeDir)
  {
    assert actions[k..][1..] == actions[k + 1..];
  }
}
