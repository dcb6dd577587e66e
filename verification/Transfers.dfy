/**
 * The services that write ledger rows: user transfers, on-chain submission and incoming payments.
 *
 * Each service is a method of `WalletService` that updates the stored tables step by step and is
 * proved against a function on the `Wallet` value of those tables. Random subaddresses and
 * reference ids, and the outcome of talking to the chain, are arguments.
 */
module Transfers {
  import opened Wrappers
  import opened Ledger

  /** A stored off-chain payment, as far as incoming settlements consult it. */
  datatype PaymentRow = PaymentRow(
    amount: int, ready: bool,
    senderAddress: string, senderSubaddress: Option<string>,
    receiverAddress: string, receiverSubaddress: Option<string>)

  datatype Wallet = Wallet(
    vaspAddress: string,
    inventoryId: int,
    subaddresses: map<string, int>,
    payments: map<string, PaymentRow>,
    rows: Table)

  /** Values the services draw at random. */
  datatype Drawn = Drawn(senderSubaddress: string, receiverSubaddress: string, reference: string)

  datatype ChainOutcome = Submitted(sequence: int, version: int) | SubmissionFailed

  datatype Metadata =
    | General(fromSubaddress: Option<string>, toSubaddress: Option<string>)
    | TravelRule(reference: Option<string>)
    | RefundOf(transactionVersion: int)
    | Unrecognised

  datatype Event = Event(version: int, sender: string, receiver: string, sequence: int, amount: int, metadata: Metadata)

  datatype Sent = Recorded(id: nat) | StartedOffChain(reference: string) | UnhostedIgnored

  datatype Error =
    | SelfAsDestination | BalanceTooLow | InvalidTravelRule | UnknownOriginal | DuplicateReference | NoSuchTransaction

  const RISK_THRESHOLD := 1_000_000_000

  // ---- Look-ups ----

  function AccountOf(w: Wallet, subaddress: Option<string>): Option<int>
  {
    if subaddress.Some? && subaddress.value in w.subaddresses then Some(w.subaddresses[subaddress.value]) else None
  }

  predicate IsOwnAddress(w: Wallet, sender: int, address: string, subaddress: Option<string>)
  {
    address == w.vaspAddress && AccountOf(w, subaddress) == Some(sender)
  }

  predicate IsInWallet(w: Wallet, address: string, subaddress: Option<string>)
  {
    AccountOf(w, subaddress).Some? && address == w.vaspAddress
  }

  predicate Covers(w: Wallet, sender: int, amount: int) { amount <= Total(w.rows, sender) }

  predicate HasDetails(tx: Transaction, address: string, subaddress: Option<string>, sequence: int)
  {
    tx.sourceAddress == Some(address) && tx.sourceSubaddress == subaddress && tx.sequence == Some(sequence)
  }

  predicate Known(rows: Table, address: string, subaddress: Option<string>, sequence: int)
  {
    exists i :: 0 <= i < |rows| && HasDetails(rows[i], address, subaddress, sequence)
  }

  function FirstWithVersion(rows: Table, version: int): (r: Option<nat>)
    ensures r.Some? ==> r.value < |rows| && rows[r.value].version == Some(version)
  {
    if |rows| == 0 then None
    else
      var before := FirstWithVersion(rows[..|rows| - 1], version);
      if before.Some? then before
      else if rows[|rows| - 1].version == Some(version) then Some(|rows| - 1) else None
  }

  predicate ReferenceTaken(rows: Table, reference: string)
  {
    exists i :: 0 <= i < |rows| && rows[i].reference == Some(reference)
  }

  // ---- What each service does to the tables ----

  function InternalRow(vasp: string, kind: TransactionType, sender: int, receiver: int, amount: int, drawn: Drawn): Transaction
  {
    Transaction(kind, amount, Completed, Some(sender), Some(vasp), Some(drawn.senderSubaddress),
                Some(receiver), Some(vasp), Some(drawn.receiverSubaddress), None, None, None, None)
  }

  function AfterInternal(w: Wallet, sender: int, receiver: int, amount: int, kind: TransactionType, drawn: Drawn)
    : (Wallet, Result<nat, Error>)
  {
    if !Covers(w, sender, amount) then (w, Err(BalanceTooLow))
    else
      (w.(subaddresses := w.subaddresses[drawn.senderSubaddress := sender][drawn.receiverSubaddress := receiver],
          rows := w.rows + [InternalRow(w.vaspAddress, kind, sender, receiver, amount, drawn)]),
       Ok(|w.rows|))
  }

  function ExternalRow(vasp: string, kind: TransactionType, sender: int, address: string, subaddress: Option<string>,
                       amount: int, original: Option<nat>, drawn: Drawn): Transaction
  {
    Transaction(kind, amount, Pending, Some(sender), Some(vasp),
                if kind.External? || kind.Refund? then Some(drawn.senderSubaddress) else None,
                None, Some(address), subaddress, None, None, original, None)
  }

  function AfterExternal(w: Wallet, sender: int, address: string, subaddress: Option<string>, amount: int,
                    kind: TransactionType, original: Option<nat>, drawn: Drawn): (Wallet, Result<nat, Error>)
  {
    if !Covers(w, sender, amount) then (w, Err(BalanceTooLow))
    else
      (w.(subaddresses := if kind.External? || kind.Refund? then w.subaddresses[drawn.senderSubaddress := sender]
                          else w.subaddresses,
          rows := w.rows + [ExternalRow(w.vaspAddress, kind, sender, address, subaddress, amount, original, drawn)]),
       Ok(|w.rows|))
  }

  function AfterStartOffChain(w: Wallet, sender: int, address: string, subaddress: Option<string>, amount: int, drawn: Drawn): Wallet
  {
    w.(subaddresses := w.subaddresses[drawn.senderSubaddress := sender],
       payments := w.payments[drawn.reference :=
         PaymentRow(amount, false, w.vaspAddress, Some(drawn.senderSubaddress), address, subaddress)])
  }

  function RecordedResult(r: (Wallet, Result<nat, Error>)): (Wallet, Result<Sent, Error>)
  {
    (r.0, match r.1 case Ok(id) => Ok(Recorded(id)) case Err(e) => Err(e))
  }

  function AfterSend(w: Wallet, sender: int, amount: int, address: string, subaddress: Option<string>,
                kind: Option<TransactionType>, original: Option<nat>, drawn: Drawn): (Wallet, Result<Sent, Error>)
  {
    if IsOwnAddress(w, sender, address, subaddress) then (w, Err(SelfAsDestination))
    else if subaddress.None? then (w, Ok(UnhostedIgnored))
    else if !Covers(w, sender, amount) then (w, Err(BalanceTooLow))
    else if IsInWallet(w, address, subaddress) then
      RecordedResult(AfterInternal(w, sender, AccountOf(w, subaddress).value, amount,
                              if kind.Some? then kind.value else Internal, drawn))
    else if amount > RISK_THRESHOLD then
      (AfterStartOffChain(w, sender, address, subaddress, amount, drawn), Ok(StartedOffChain(drawn.reference)))
    else
      RecordedResult(AfterExternal(w, sender, address, subaddress, amount,
                              if kind.Some? then kind.value else External, original, drawn))
  }

  /** A row update writes sequence and version only when they are truthy. */
  function MarkCompleted(tx: Transaction, sequence: int, version: int): Transaction
  {
    tx.(status := Completed,
        version := if version != 0 then Some(version) else tx.version,
        sequence := if sequence != 0 then Some(sequence) else tx.sequence)
  }

  function SubmittedRow(rows: Table, tx: Transaction, outcome: ChainOutcome): Transaction
  {
    if !tx.status.Pending? then tx
    else if tx.kind.External? || tx.kind.Refund? then
      if outcome.SubmissionFailed? || (tx.kind.Refund? && (tx.originalId.None? || tx.originalId.value >= |rows|))
      then tx.(status := Canceled)
      else MarkCompleted(tx, outcome.sequence, outcome.version)
    else tx
  }

  function AfterSubmit(w: Wallet, id: nat, outcome: ChainOutcome): Wallet
  {
    if id < |w.rows| then w.(rows := w.rows[id := SubmittedRow(w.rows, w.rows[id], outcome)]) else w
  }

  function CreditRow(e: Event, status: TransactionStatus, fromSubaddress: Option<string>, account: Option<int>,
                     toSubaddress: Option<string>): Transaction
  {
    Transaction(External, e.amount, status, None, Some(e.sender), fromSubaddress, account, Some(e.receiver),
                toSubaddress, Some(e.sequence), Some(e.version), None, None)
  }

  function AfterReceiveGeneral(w: Wallet, e: Event, drawn: Drawn): (Wallet, Result<(), Error>)
    requires e.metadata.General?
  {
    var from, to := e.metadata.fromSubaddress, e.metadata.toSubaddress;
    if Known(w.rows, e.sender, from, e.sequence) then (w, Ok(()))
    else if to.None? then
      (w.(rows := w.rows + [CreditRow(e, Completed, from, Some(w.inventoryId), None)]), Ok(()))
    else if AccountOf(w, to).None? then
      var noted := w.(rows := w.rows + [CreditRow(e, NeedRefund, from, Some(w.inventoryId), None)]);
      var (after, sent) := AfterSend(noted, w.inventoryId, e.amount, e.sender, from, Some(Refund), Some(|w.rows|), drawn);
      (after, match sent case Ok(_) => Ok(()) case Err(error) => Err(error))
    else
      (w.(rows := w.rows + [CreditRow(e, Completed, from, AccountOf(w, to), to)]), Ok(()))
  }

  function SettlementRow(w: Wallet, e: Event, reference: string, p: PaymentRow): Transaction
  {
    Transaction(Offchain, p.amount, Completed, AccountOf(w, p.senderSubaddress), Some(p.senderAddress), p.senderSubaddress,
                AccountOf(w, p.receiverSubaddress), Some(p.receiverAddress), p.receiverSubaddress,
                Some(e.sequence), Some(e.version), None, Some(reference))
  }

  predicate Settles(e: Event, p: PaymentRow)
  {
    p.amount == e.amount && p.ready && p.senderAddress == e.sender && p.receiverAddress == e.receiver
  }

  function AfterReceiveSettlement(w: Wallet, e: Event, reference: Option<string>): (Wallet, Result<(), Error>)
  {
    if reference.None? || reference.value !in w.payments || !Settles(e, w.payments[reference.value])
    then (w, Err(InvalidTravelRule))
    else
      var ref, p := reference.value, w.payments[reference.value];
      if ReferenceTaken(w.rows, ref) then (w, Err(DuplicateReference))
      else
        (w.(rows := w.rows + [SettlementRow(w, e, ref, p)], payments := w.payments[ref := p.(ready := false)]), Ok(()))
  }

  function RefundRow(e: Event, original: Transaction, originalId: nat): Transaction
  {
    Transaction(Refund, e.amount, Completed, None, Some(e.sender), original.destinationSubaddress,
                original.sourceId, Some(e.receiver), original.sourceSubaddress,
                Some(e.sequence), Some(e.version), Some(originalId), None)
  }

  /** An unknown original raises: the status the code names there does not exist. */
  function AfterReceiveRefund(w: Wallet, e: Event, version: int): (Wallet, Result<(), Error>)
  {
    var found := FirstWithVersion(w.rows, version);
    if found.None? then (w, Err(UnknownOriginal))
    else
      var original := w.rows[found.value];
      if Known(w.rows, e.sender, original.destinationSubaddress, e.sequence) then (w, Ok(()))
      else (w.(rows := w.rows + [RefundRow(e, original, found.value)]), Ok(()))
  }

  function AfterReceive(w: Wallet, e: Event, drawn: Drawn): (Wallet, Result<(), Error>)
  {
    match e.metadata
    case General(_, _) => AfterReceiveGeneral(w, e, drawn)
    case TravelRule(reference) => AfterReceiveSettlement(w, e, reference)
    case RefundOf(version) => AfterReceiveRefund(w, e, version)
    case Unrecognised => (w, Ok(()))
  }

  // ---- The services themselves ----

  class WalletService {
    const vaspAddress: string
    const inventoryId: int
    var subaddresses: map<string, int>
    var payments: map<string, PaymentRow>
    var rows: Table

    constructor (vaspAddress: string, inventoryId: int)
      ensures State() == Wallet(vaspAddress, inventoryId, map[], map[], [])
    {
      this.vaspAddress, this.inventoryId := vaspAddress, inventoryId;
      subaddresses, payments, rows := map[], map[], [];
    }

    function State(): Wallet
      reads this
    {
      Wallet(vaspAddress, inventoryId, subaddresses, payments, rows)
    }

    method AddTransaction(tx: Transaction) returns (id: nat)
      modifies this`rows
      ensures rows == old(rows) + [tx] && id == |old(rows)|
    {
      id := |rows|;
      rows := rows + [tx];
    }

    method UpdateTransaction(id: nat, status: TransactionStatus, sequence: Option<int>, version: Option<int>)
      requires id < |rows|
      modifies this`rows
      ensures rows == old(rows)[id := old(rows)[id].(status := status,
        version := if version.Some? && version.value != 0 then version else old(rows)[id].version,
        sequence := if sequence.Some? && sequence.value != 0 then sequence else old(rows)[id].sequence)]
    {
      var tx := rows[id];
      tx := tx.(status := status);
      if version.Some? && version.value != 0 {
        tx := tx.(version := version);
      }
      if sequence.Some? && sequence.value != 0 {
        tx := tx.(sequence := sequence);
      }
      rows := rows[id := tx];
    }

    method ValidateBalance(sender: int, amount: int) returns (ok: bool)
      ensures ok == Covers(State(), sender, amount)
    {
      var balance := GetAccountBalance(rows, sender, None);
      NoBoundKeepsAll(rows, None);
      ok := amount <= balance.total;
    }

    method InternalTransaction(sender: int, receiver: int, amount: int, kind: TransactionType, drawn: Drawn)
      returns (result: Result<nat, Error>)
      modifies this
      ensures (State(), result) == AfterInternal(old(State()), sender, receiver, amount, kind, drawn)
    {
      var ok := ValidateBalance(sender, amount);
      if !ok {
        return Err(BalanceTooLow);
      }
      subaddresses := subaddresses[drawn.senderSubaddress := sender];
      subaddresses := subaddresses[drawn.receiverSubaddress := receiver];
      var id := AddTransaction(InternalRow(vaspAddress, kind, sender, receiver, amount, drawn));
      return Ok(id);
    }

    method ExternalTransaction(sender: int, address: string, subaddress: Option<string>, amount: int,
                               kind: TransactionType, original: Option<nat>, drawn: Drawn)
      returns (result: Result<nat, Error>)
      modifies this
      ensures (State(), result) == AfterExternal(old(State()), sender, address, subaddress, amount, kind, original, drawn)
    {
      var ok := ValidateBalance(sender, amount);
      if !ok {
        return Err(BalanceTooLow);
      }
      if kind.External? || kind.Refund? {
        subaddresses := subaddresses[drawn.senderSubaddress := sender];
      }
      var id := AddTransaction(ExternalRow(vaspAddress, kind, sender, address, subaddress, amount, original, drawn));
      return Ok(id);
    }

    method SendTransaction(sender: int, amount: int, address: string, subaddress: Option<string>,
                           kind: Option<TransactionType>, original: Option<nat>, drawn: Drawn)
      returns (result: Result<Sent, Error>)
      modifies this
      ensures (State(), result) == AfterSend(old(State()), sender, amount, address, subaddress, kind, original, drawn)
    {
      if IsOwnAddress(State(), sender, address, subaddress) {
        return Err(SelfAsDestination);
      }
      if subaddress.None? {
        return Ok(UnhostedIgnored);
      }
      var ok := ValidateBalance(sender, amount);
      if !ok {
        return Err(BalanceTooLow);
      }
      var recorded: Result<nat, Error>;
      if IsInWallet(State(), address, subaddress) {
        var receiver := AccountOf(State(), subaddress).value;
        recorded := InternalTransaction(sender, receiver, amount,
                                        if kind.Some? then kind.value else Internal, drawn);
      } else if amount > RISK_THRESHOLD {
        subaddresses := subaddresses[drawn.senderSubaddress := sender];
        payments := payments[drawn.reference :=
          PaymentRow(amount, false, vaspAddress, Some(drawn.senderSubaddress), address, subaddress)];
        return Ok(StartedOffChain(drawn.reference));
      } else {
        recorded := ExternalTransaction(sender, address, subaddress, amount,
                                        if kind.Some? then kind.value else External, original, drawn);
      }
      result := match recorded case Ok(id) => Ok(Recorded(id)) case Err(e) => Err(e);
    }

    method SubmitOnchain(id: nat, outcome: ChainOutcome)
      modifies this
      ensures State() == AfterSubmit(old(State()), id, outcome)
    {
      if id >= |rows| || !rows[id].status.Pending? {
        return;
      }
      var tx := rows[id];
      var reachable := !tx.kind.Refund? || (tx.originalId.Some? && tx.originalId.value < |rows|);
      if tx.kind.External? || tx.kind.Refund? {
        if reachable && outcome.Submitted? {
          UpdateTransaction(id, Completed, Some(outcome.sequence), Some(outcome.version));
        } else {
          UpdateTransaction(id, Canceled, None, None);
        }
      }
    }

    method ProcessIncomingTransaction(e: Event, drawn: Drawn) returns (result: Result<(), Error>)
      modifies this
      ensures (State(), result) == AfterReceive(old(State()), e, drawn)
    {
      var before := State();
      match e.metadata {
        case General(from, to) =>
          if Known(rows, e.sender, from, e.sequence) {
            return Ok(());
          }
          if to.None? {
            var _ := AddTransaction(CreditRow(e, Completed, from, Some(inventoryId), None));
            return Ok(());
          }
          var receiver := AccountOf(State(), to);
          if receiver.None? {
            var id := AddTransaction(CreditRow(e, NeedRefund, from, Some(inventoryId), None));
            var sent := SendTransaction(inventoryId, e.amount, e.sender, from, Some(Refund), Some(id), drawn);
            return match sent case Ok(_) => Ok(()) case Err(error) => Err(error);
          }
          var _ := AddTransaction(CreditRow(e, Completed, from, receiver, to));
          return Ok(());
        case TravelRule(reference) =>
          if reference.None? || reference.value !in payments || !Settles(e, payments[reference.value]) {
            return Err(InvalidTravelRule);
          }
          if ReferenceTaken(rows, reference.value) {
            return Err(DuplicateReference);
          }
          var payment := payments[reference.value];
          var _ := AddTransaction(SettlementRow(before, e, reference.value, payment));
          payments := payments[reference.value := payment.(ready := false)];
          return Ok(());
        case RefundOf(version) =>
          var found := FirstWithVersion(rows, version);
          if found.None? {
            return Err(UnknownOriginal);
          }
          var original := rows[found.value];
          if Known(rows, e.sender, original.destinationSubaddress, e.sequence) {
            return Ok(());
          }
          var _ := AddTransaction(RefundRow(e, original, found.value));
          return Ok(());
        case Unrecognised =>
          return Ok(());
      }
    }
  }
}
