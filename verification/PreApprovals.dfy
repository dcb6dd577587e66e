/**
 * Stored funds-pull pre-approvals: what a customer does to them, what an incoming command does to
 * them, and that every stored change is one the library's table allows.
 */
module PreApprovals {
  import opened Wrappers
  import opened PreApprovalRules

  /** Expiry, limits and description: opaque here, except for the expiry check. */
  datatype Terms = Terms(expiration: int, scope: string, description: Option<string>)

  /** Keyed by id and account. A payee may not know its payer's address yet. */
  datatype Record = Record(
    id: string, account: int, address: Option<string>, biller: string, terms: Terms,
    status: Status, role: Role, sent: Option<bool>, billerName: Option<string>, approvedAt: Option<int>)

  /** The content of a command. */
  datatype Approval = Approval(id: string, address: string, biller: string, terms: Terms, status: Status)

  /** Which addresses are this wallet's, whose they are, and the on-chain names of billers. */
  datatype Directory = Directory(mine: string -> bool, accountOf: string -> Option<int>, humanName: string -> Option<string>)

  datatype PreApprovalError =
    | Expired | StateError(reason: string) | UnknownState | InvalidStatus
    | PayerWithoutAddress | AddressChanged | BillerChanged
    | RecordNotFound | NoAccount | DuplicateKey | AlreadyExists | WrongStatus

  type Rows = seq<Record>

  // ---- Queries ----

  function First(rows: Rows, want: Record -> bool): (found: Option<nat>)
    ensures found.Some? ==> found.value < |rows| && want(rows[found.value])
    ensures found.Some? ==> forall i :: 0 <= i < found.value ==> !want(rows[i])
    ensures found.None? ==> forall i :: 0 <= i < |rows| ==> !want(rows[i])
  {
    if rows == [] then None
    else if want(rows[0]) then Some(0)
    else
      match First(rows[1..], want)
      case Some(i) =>
        assert forall j :: 1 <= j < i + 1 ==> rows[j] == rows[1..][j - 1];
        Some(i + 1)
      case None =>
        assert forall j :: 1 <= j < |rows| ==> rows[j] == rows[1..][j - 1];
        None
  }

  function WithId(id: string): Record -> bool
  {
    (r: Record) => r.id == id
  }

  function WithIdAndRole(id: string, role: Role): Record -> bool
  {
    (r: Record) => r.id == id && r.role == role
  }

  function WithKey(id: string, account: int): Record -> bool
  {
    (r: Record) => r.id == id && r.account == account
  }

  function RecordAt(rows: Rows, dir: Directory, address: string, id: string): Option<nat>
  {
    if !dir.mine(address) || dir.accountOf(address).None? then None
    else First(rows, WithKey(id, dir.accountOf(address).value))
  }

  function StatusAt(rows: Rows, dir: Directory, address: string, id: string): Option<Status>
  {
    match RecordAt(rows, dir, address, id)
    case Some(i) => Some(rows[i].status)
    case None => None
  }

  function StateOf(rows: Rows, dir: Directory, c: Approval): FppaState
  {
    FppaState(c.status, dir.mine(c.biller), dir.mine(c.address),
              StatusAt(rows, dir, c.biller, c.id), StatusAt(rows, dir, c.address, c.id))
  }

  // ---- What each operation leaves ----

  function OwnAddress(c: Approval, role: Role): string
  {
    if role.PAYER? then c.address else c.biller
  }

  function Problem(r: Record, c: Approval, role: Role): Option<PreApprovalError>
  {
    if r.address.None? && !role.PAYEE? then Some(PayerWithoutAddress)
    else if r.address.Some? && c.address != r.address.value then Some(AddressChanged)
    else if c.biller != r.biller then Some(BillerChanged)
    else if r.status != c.status && (r.status.Rejected? || r.status.Closed?) then Some(InvalidStatus)
    else None
  }

  /** Every column comes from the command; those a command does not carry are emptied. */
  function Updated(r: Record, c: Approval, role: Role, now: int): Record
  {
    Record(r.id, r.account, Some(c.address), c.biller, c.terms, c.status, role, None, None,
           if c.status.Valid? then Some(now) else None)
  }

  function UpdateFrom(rows: Rows, dir: Directory, c: Approval, role: Role, now: int): Result<Rows, PreApprovalError>
  {
    match dir.accountOf(OwnAddress(c, role))
    case None => Err(RecordNotFound)
    case Some(account) =>
      match First(rows, WithKey(c.id, account))
      case None => Err(RecordNotFound)
      case Some(i) => Ok(rows[i := Updated(rows[i], c, role, now)])
  }

  function Commit(rows: Rows, r: Record): Result<Rows, PreApprovalError>
  {
    if First(rows, WithKey(r.id, r.account)).Some? then Err(DuplicateKey) else Ok(rows + [r])
  }

  function CommitFrom(rows: Rows, dir: Directory, c: Approval, role: Role): Result<Rows, PreApprovalError>
  {
    match dir.accountOf(OwnAddress(c, role))
    case None => Err(NoAccount)
    case Some(account) =>
      Commit(rows, Record(c.id, account, Some(c.address), c.biller, c.terms, c.status, role, Some(false), dir.humanName(c.biller), None))
  }

  function Handled(rows: Rows, dir: Directory, c: Approval, now: int): Result<Rows, PreApprovalError>
  {
    if c.terms.expiration < now then Err(Expired)
    else
      match Reduce(StateOf(rows, dir, c))
      case Refuse(reason) => Err(StateError(reason))
      case KeyMissing => Err(UnknownState)
      case Accept(role) =>
        match First(rows, WithIdAndRole(c.id, role))
        case None => CommitFrom(rows, dir, c, role)
        case Some(i) =>
          if Problem(rows[i], c, role).Some? then Err(Problem(rows[i], c, role).value)
          else UpdateFrom(rows, dir, c, role, now)
  }

  datatype Operation = Approve(now: int) | Reject | Close

  function NewStatus(op: Operation): Status
  {
    match op
    case Approve(_) => Valid
    case Reject => Rejected
    case Close => Closed
  }

  function ValidStatuses(op: Operation): set<Status>
  {
    if op.Close? then {Pending, Valid} else {Pending}
  }

  function Decided(r: Record, op: Operation): Record
  {
    r.(status := NewStatus(op), sent := Some(false), approvedAt := if op.Approve? then Some(op.now) else r.approvedAt)
  }

  function StatusUpdated(rows: Rows, id: string, op: Operation): Result<Rows, PreApprovalError>
  {
    match First(rows, WithId(id))
    case None => Err(RecordNotFound)
    case Some(i) =>
      if rows[i].status in ValidStatuses(op) then Ok(rows[i := Decided(rows[i], op)]) else Err(WrongStatus)
  }

  function CreatedAndApproved(rows: Rows, account: int, address: string, biller: string, id: string, terms: Terms, now: int)
    : Result<Rows, PreApprovalError>
  {
    if terms.expiration < now then Err(Expired)
    else if First(rows, WithId(id)).Some? then Err(AlreadyExists)
    else Commit(rows, Record(id, account, Some(address), biller, terms, Valid, PAYER, Some(false), None, None))
  }

  /** A payee's own request; one for an unknown payer is never sent. */
  function Requested(rows: Rows, account: int, payer: Option<string>, biller: string, id: string, terms: Terms)
    : Result<Rows, PreApprovalError>
  {
    Commit(rows, Record(id, account, payer, biller, terms, Pending, PAYEE, Some(payer.None?), None, None))
  }

  // ---- The stored table ----

  class PreApprovalBook {
    var rows: Rows
    const dir: Directory

    constructor (dir: Directory)
      ensures rows == [] && this.dir == dir
    {
      rows := [];
      this.dir := dir;
    }

    method CommitCommand(r: Record) returns (error: Option<PreApprovalError>)
      modifies this
      ensures match Commit(old(rows), r)
              case Ok(after) => rows == after && error.None?
              case Err(e) => rows == old(rows) && error == Some(e)
    {
      if First(rows, WithKey(r.id, r.account)).Some? {
        return Some(DuplicateKey);
      }
      rows := rows + [r];
      return None;
    }

    method CreateAndApprove(account: int, address: string, biller: string, id: string, terms: Terms, now: int)
      returns (error: Option<PreApprovalError>)
      modifies this
      ensures match CreatedAndApproved(old(rows), account, address, biller, id, terms, now)
              case Ok(after) => rows == after && error.None?
              case Err(e) => rows == old(rows) && error == Some(e)
    {
      if terms.expiration < now {
        return Some(Expired);
      }
      if First(rows, WithId(id)).Some? {
        return Some(AlreadyExists);
      }
      error := CommitCommand(Record(id, account, Some(address), biller, terms, Valid, PAYER, Some(false), None, None));
    }

    method UpdateStatus(id: string, op: Operation) returns (error: Option<PreApprovalError>)
      modifies this
      ensures match StatusUpdated(old(rows), id, op)
              case Ok(after) => rows == after && error.None?
              case Err(e) => rows == old(rows) && error == Some(e)
    {
      var command := First(rows, WithId(id));
      if command.None? {
        return Some(RecordNotFound);
      }
      var record := rows[command.value];
      if record.status !in ValidStatuses(op) {
        return Some(WrongStatus);
      }
      record := record.(status := NewStatus(op), sent := Some(false));
      if op.Approve? {
        record := record.(approvedAt := Some(op.now));
      }
      rows := rows[command.value := record];
      return None;
    }

    method HandleFundPullPreApprovalCommand(c: Approval, now: int) returns (error: Option<PreApprovalError>)
      modifies this
      ensures match Handled(old(rows), dir, c, now)
              case Ok(after) => rows == after && error.None?
              case Err(e) => rows == old(rows) && error == Some(e)
    {
      if c.terms.expiration < now {
        return Some(Expired);
      }
      var outcome := Reduce(StateOf(rows, dir, c));
      if outcome.Refuse? {
        return Some(StateError(outcome.reason));
      } else if outcome.KeyMissing? {
        return Some(UnknownState);
      }
      var role := outcome.role;
      var account := dir.accountOf(OwnAddress(c, role));
      var inDb := First(rows, WithIdAndRole(c.id, role));
      if inDb.Some? {
        var problem := Problem(rows[inDb.value], c, role);
        if problem.Some? {
          return problem;
        }
        if account.None? {
          return Some(RecordNotFound);
        }
        var target := First(rows, WithKey(c.id, account.value));
        if target.None? {
          return Some(RecordNotFound);
        }
        rows := rows[target.value := Updated(rows[target.value], c, role, now)];
        return None;
      }
      if account.None? {
        return Some(NoAccount);
      }
      error := CommitCommand(
        Record(c.id, account.value, Some(c.address), c.biller, c.terms, c.status, role, Some(false), dir.humanName(c.biller), None));
    }
  }

  // ---- Every status change is legal, on any table ----

  /** One stored record may stay as it is or make a legal status change under its key. */
  predicate StatusFollows(before: Record, after: Record)
  {
    after == before || (after.id == before.id && after.account == before.account && IsValidTransition(before.status, after.status))
  }

  predicate StatusesLegal(before: Rows, after: Rows)
  {
    && |before| <= |after|
    && (forall i :: 0 <= i < |before| ==> StatusFollows(before[i], after[i]))
    && (forall i :: |before| <= i < |after| ==> IsValidInitialStatus(after[i].status))
  }

  /** A new record can only be a payer's pending one: any other would repeat a stored key. */
  lemma {:induction false} NewIsPendingPayer(rows: Rows, dir: Directory, c: Approval, role: Role)
    requires Reduce(StateOf(rows, dir, c)) == Accept(role) && CommitFrom(rows, dir, c, role).Ok?
    ensures role == PAYER && c.status == Pending && dir.mine(c.address)
  {
  }

  /** Whatever record was checked, the one that is overwritten is the one the reducer saw. */
  lemma {:induction false} OverwrittenWasSeen(rows: Rows, dir: Directory, c: Approval, role: Role, now: int) returns (i: nat)
    requires Reduce(StateOf(rows, dir, c)) == Accept(role) && UpdateFrom(rows, dir, c, role, now).Ok?
    ensures i < |rows| && rows[i].id == c.id && StatusAt(rows, dir, OwnAddress(c, role), c.id) == Some(rows[i].status)
    ensures UpdateFrom(rows, dir, c, role, now) == Ok(rows[i := Updated(rows[i], c, role, now)])
    ensures IsValidTransition(rows[i].status, c.status)
  {
    NoKeyMissing(StateOf(rows, dir, c));
    i := First(rows, WithKey(c.id, dir.accountOf(OwnAddress(c, role)).value)).value;
  }

  /** On any table, every status change an incoming command makes is one the library's table allows. */
  lemma {:induction false} HandlerRefinesTable(rows: Rows, dir: Directory, c: Approval, now: int)
    requires Handled(rows, dir, c, now).Ok?
    ensures StatusesLegal(rows, Handled(rows, dir, c, now).value)
  {
    var role := Reduce(StateOf(rows, dir, c)).role;
    match First(rows, WithIdAndRole(c.id, role))
    case Some(_) => var i := OverwrittenWasSeen(rows, dir, c, role, now);
    case None => NewIsPendingPayer(rows, dir, c, role);
  }

  /** A customer's decision is legal whatever is stored, and is refused exactly when it is not. */
  lemma {:induction false} DecisionRefinesTable(rows: Rows, id: string, op: Operation)
    ensures StatusUpdated(rows, id, op).Ok? ==> StatusesLegal(rows, StatusUpdated(rows, id, op).value)
    ensures StatusUpdated(rows, id, op).Ok? <==>
              var i := First(rows, WithId(id));
              i.Some? && rows[i.value].status != NewStatus(op) && IsValidTransition(rows[i.value].status, NewStatus(op))
  {
  }

  // ---- On the wallet's own tables, identity and a bound payer stay as well ----

  predicate KeysUnique(rows: Rows)
  {
    forall i, j :: 0 <= i < j < |rows| ==> rows[i].id != rows[j].id || rows[i].account != rows[j].account
  }

  /** A record belongs to the account of the address it uses in its role. */
  predicate RecordOk(r: Record, dir: Directory)
  {
    match r.role
    case PAYEE => dir.mine(r.biller) && dir.accountOf(r.biller) == Some(r.account)
    case PAYER => r.address.Some? && dir.mine(r.address.value) && dir.accountOf(r.address.value) == Some(r.account)
  }

  predicate Coherent(rows: Rows, dir: Directory)
  {
    KeysUnique(rows) && forall i :: 0 <= i < |rows| ==> RecordOk(rows[i], dir)
  }

  /** What may happen to one record: a legal status change; identity and a bound payer stay. */
  predicate Follows(before: Record, after: Record)
  {
    && after.id == before.id && after.account == before.account && after.role == before.role
    && after.biller == before.biller && (before.address.Some? ==> after.address == before.address)
    && IsValidTransition(before.status, after.status)
  }

  predicate Legal(before: Rows, after: Rows)
  {
    && |before| <= |after|
    && (forall i :: 0 <= i < |before| ==> Follows(before[i], after[i]))
    && (forall i :: |before| <= i < |after| ==> IsValidInitialStatus(after[i].status))
  }

  lemma {:induction false} ReplaceIsLegal(rows: Rows, dir: Directory, i: nat, r: Record)
    requires Coherent(rows, dir) && i < |rows| && Follows(rows[i], r) && RecordOk(r, dir)
    ensures Coherent(rows[i := r], dir) && Legal(rows, rows[i := r])
  {
  }

  lemma {:induction false} CommitIsLegal(rows: Rows, dir: Directory, r: Record)
    requires Coherent(rows, dir) && Commit(rows, r).Ok? && RecordOk(r, dir) && IsValidInitialStatus(r.status)
    ensures Coherent(rows + [r], dir) && Legal(rows, rows + [r])
  {
  }

  /** The record the checks looked at is the one the reducer saw and the update overwrites. */
  lemma {:induction false} CheckedIsUpdated(rows: Rows, dir: Directory, c: Approval, role: Role, i: nat)
    requires Coherent(rows, dir) && First(rows, WithIdAndRole(c.id, role)) == Some(i)
    requires Problem(rows[i], c, role).None?
    ensures dir.mine(OwnAddress(c, role)) && dir.accountOf(OwnAddress(c, role)) == Some(rows[i].account)
    ensures First(rows, WithKey(c.id, rows[i].account)) == Some(i)
    ensures StatusAt(rows, dir, OwnAddress(c, role), c.id) == Some(rows[i].status)
  {
  }

  lemma {:induction false} UpdateIsLegal(rows: Rows, dir: Directory, c: Approval, now: int, role: Role, i: nat)
    requires Coherent(rows, dir) && Reduce(StateOf(rows, dir, c)) == Accept(role)
    requires First(rows, WithIdAndRole(c.id, role)) == Some(i) && Problem(rows[i], c, role).None?
    ensures UpdateFrom(rows, dir, c, role, now) == Ok(rows[i := Updated(rows[i], c, role, now)])
    ensures Coherent(rows[i := Updated(rows[i], c, role, now)], dir) && Legal(rows, rows[i := Updated(rows[i], c, role, now)])
  {
    CheckedIsUpdated(rows, dir, c, role, i);
    assert rows[i].id == c.id && rows[i].role == role && RecordOk(rows[i], dir);
    NoKeyMissing(StateOf(rows, dir, c));
    ReplaceIsLegal(rows, dir, i, Updated(rows[i], c, role, now));
  }

  /** An incoming command keeps the table coherent and changes neither identity nor a bound payer. */
  lemma {:induction false} HandlerIsLegal(rows: Rows, dir: Directory, c: Approval, now: int)
    requires Coherent(rows, dir) && Handled(rows, dir, c, now).Ok?
    ensures Coherent(Handled(rows, dir, c, now).value, dir) && Legal(rows, Handled(rows, dir, c, now).value)
  {
    var role := Reduce(StateOf(rows, dir, c)).role;
    match First(rows, WithIdAndRole(c.id, role))
    case Some(i) => UpdateIsLegal(rows, dir, c, now, role, i);
    case None =>
      NewIsPendingPayer(rows, dir, c, role);
      var after := CommitFrom(rows, dir, c, role).value;
      CommitIsLegal(rows, dir, after[|rows|]);
  }

  lemma {:induction false} DecisionIsLegal(rows: Rows, dir: Directory, id: string, op: Operation)
    requires Coherent(rows, dir)
    ensures StatusUpdated(rows, id, op).Ok? ==>
              Coherent(StatusUpdated(rows, id, op).value, dir) && Legal(rows, StatusUpdated(rows, id, op).value)
  {
    if StatusUpdated(rows, id, op).Ok? {
      var i := First(rows, WithId(id)).value;
      ReplaceIsLegal(rows, dir, i, Decided(rows[i], op));
    }
  }

  // ---- Exactly which commands are accepted from another wallet ----

  /**
   * A payee accepts exactly an answer or closing that is legal for its record of the id, from the
   * payer it is bound to, if any, and to the address it asked with.
   */
  lemma {:induction false} PayeeAcceptsIff(rows: Rows, dir: Directory, c: Approval, now: int)
    requires Coherent(rows, dir) && dir.mine(c.biller) && !dir.mine(c.address)
    ensures Handled(rows, dir, c, now).Ok? <==>
              var i := First(rows, WithIdAndRole(c.id, PAYEE));
              && c.terms.expiration >= now && i.Some? && rows[i.value].biller == c.biller
              && !c.status.Pending? && IsValidTransition(rows[i.value].status, c.status)
              && (rows[i.value].address == None || rows[i.value].address == Some(c.address))
  {
    var s := StateOf(rows, dir, c);
    NoKeyMissing(s);
    match First(rows, WithIdAndRole(c.id, PAYEE))
    case Some(i) =>
      if Problem(rows[i], c, PAYEE).None? {
        CheckedIsUpdated(rows, dir, c, PAYEE, i);
      }
    case None =>
      if Reduce(s).Accept? && CommitFrom(rows, dir, c, PAYEE).Ok? {
        NewIsPendingPayer(rows, dir, c, PAYEE);
      }
  }

  /**
   * A payer accepts exactly a first request to a known account, and a repeated request or a closing
   * that is legal for its record, with both addresses as recorded.
   */
  lemma {:induction false} PayerAcceptsIff(rows: Rows, dir: Directory, c: Approval, now: int)
    requires Coherent(rows, dir) && dir.mine(c.address) && !dir.mine(c.biller)
    ensures Handled(rows, dir, c, now).Ok? <==>
              var i := First(rows, WithIdAndRole(c.id, PAYER));
              && c.terms.expiration >= now
              && match i
                 case Some(k) => && rows[k].address == Some(c.address) && rows[k].biller == c.biller
                                 && (c.status.Pending? || c.status.Closed?) && IsValidTransition(rows[k].status, c.status)
                 case None => && c.status.Pending? && dir.accountOf(c.address).Some?
                              && First(rows, WithKey(c.id, dir.accountOf(c.address).value)).None?
  {
    var s := StateOf(rows, dir, c);
    NoKeyMissing(s);
    match First(rows, WithIdAndRole(c.id, PAYER))
    case Some(i) =>
      if Problem(rows[i], c, PAYER).None? {
        CheckedIsUpdated(rows, dir, c, PAYER, i);
      }
    case None =>
      if Reduce(s).Accept? && CommitFrom(rows, dir, c, PAYER).Ok? {
        NewIsPendingPayer(rows, dir, c, PAYER);
      }
  }

  // ---- What is stored is what was said ----

  function CommandOf(r: Record): Approval
    requires r.address.Some?
  {
    Approval(r.id, r.address.value, r.biller, r.terms, r.status)
  }

  /**
   * An accepted command is stored as it came, under the account it was for, and every other record
   * is as before. Only a new record is sent back; an updated one is not.
   */
  lemma {:induction false} AcceptedIsStored(rows: Rows, dir: Directory, c: Approval, now: int) returns (i: nat)
    requires Coherent(rows, dir) && Handled(rows, dir, c, now).Ok?
    ensures var after, role := Handled(rows, dir, c, now).value, Reduce(StateOf(rows, dir, c)).role;
            && i < |after| && RecordAt(after, dir, OwnAddress(c, role), c.id) == Some(i)
            && after[i].role == role && after[i].address.Some? && CommandOf(after[i]) == c
            && (forall k :: 0 <= k < |rows| && k != i ==> after[k] == rows[k])
            && (after[i].sent == Some(false) <==> |after| > |rows|)
            && (if |after| > |rows| then after[i].billerName == dir.humanName(c.biller) && after[i].approvedAt.None?
                else after[i].billerName.None? && after[i].approvedAt == if c.status == Valid then Some(now) else None)
  {
    var after, role := Handled(rows, dir, c, now).value, Reduce(StateOf(rows, dir, c)).role;
    HandlerIsLegal(rows, dir, c, now);
    match First(rows, WithIdAndRole(c.id, role))
    case Some(k) =>
      i := k;
      CheckedIsUpdated(rows, dir, c, role, k);
      UpdateIsLegal(rows, dir, c, now, role, k);
    case None =>
      i := |rows|;
      NewIsPendingPayer(rows, dir, c, role);
      var account := dir.accountOf(OwnAddress(c, role)).value;
      assert forall k :: 0 <= k < |rows| ==> !WithKey(c.id, account)(after[k]);
      assert WithKey(c.id, account)(after[i]);
  }

  /**
   * A payer's own pre-approval is created exactly when it has not expired and its id is new; it is one
   * more record, valid and due to be sent, with the terms, address and biller it was given.
   */
  lemma {:induction false} CreatedIsValid(rows: Rows, account: int, address: string, biller: string, id: string, terms: Terms, now: int)
    ensures var result := CreatedAndApproved(rows, account, address, biller, id, terms, now);
            && (result.Ok? <==> terms.expiration >= now && forall i :: 0 <= i < |rows| ==> rows[i].id != id)
            && (result.Ok? ==>
                  && |result.value| == |rows| + 1 && rows <= result.value
                  && var r := result.value[|rows|];
                  && r.role.PAYER? && r.account == account && r.address == Some(address) && r.sent == Some(false)
                  && CommandOf(r) == Approval(id, address, biller, terms, Valid))
  {
  }

  /**
   * A payee's own request is one more pending record, unless its key is taken; it is due to be sent
   * exactly when it names a payer.
   */
  lemma {:induction false} RequestedIsPending(rows: Rows, account: int, payer: Option<string>, biller: string, id: string, terms: Terms)
    ensures var result := Requested(rows, account, payer, biller, id, terms);
            && (result.Ok? <==> forall i :: 0 <= i < |rows| ==> rows[i].id != id || rows[i].account != account)
            && (result.Ok? ==>
                  && |result.value| == |rows| + 1 && rows <= result.value
                  && var r := result.value[|rows|];
                  && r.role.PAYEE? && r.account == account && r.address == payer && r.biller == biller && r.terms == terms
                  && r.id == id && r.status.Pending? && (r.sent == Some(false) <==> payer.Some?))
  {
  }

  /** A decision is due to be sent, says the new status and touches nothing else. */
  lemma {:induction false} DecisionIsAnnounced(rows: Rows, id: string, op: Operation)
    requires StatusUpdated(rows, id, op).Ok?
    ensures var i, after := First(rows, WithId(id)), StatusUpdated(rows, id, op).value;
            && i.Some? && |after| == |rows| && after[i.value].sent == Some(false)
            && after[i.value].status == NewStatus(op)
            && (match op
                case Approve(now) => after[i.value].status == Valid && after[i.value].approvedAt == Some(now)
                case Reject => after[i.value].status == Rejected && after[i.value].approvedAt == rows[i.value].approvedAt
                case Close => after[i.value].status == Closed && after[i.value].approvedAt == rows[i.value].approvedAt)
            && (rows[i.value].address.Some? ==>
                  CommandOf(after[i.value]) == CommandOf(rows[i.value]).(status := NewStatus(op)))
            && (forall k :: 0 <= k < |rows| && k != i.value ==> after[k] == rows[k])
  {
  }
}
