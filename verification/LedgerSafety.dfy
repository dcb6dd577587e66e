/**
 * Properties of whole runs of the ledger services: no account is ever overdrawn, money moves only
 * where a transfer says it moves, and both balance computations agree in every reachable table.
 */
module LedgerSafety {
  import opened Wrappers
  import opened Sums
  import opened Ledger
  import opened Transfers
  import opened AccountEffects

  /** One atomic service call. */
  datatype Call =
    | UserTransfer(sender: int, amount: int, address: string, subaddress: Option<string>, drawn: Drawn)
    | OrderTransfer(payer: int, payee: int, amount: int, drawn: Drawn)
    | ChainSubmission(id: nat, outcome: ChainOutcome)
    | IncomingPayment(event: Event, drawn: Drawn)

  function Step(w: Wallet, c: Call): Wallet
  {
    match c
    case UserTransfer(sender, amount, address, subaddress, drawn) =>
      AfterSend(w, sender, amount, address, subaddress, None, None, drawn).0
    case OrderTransfer(payer, payee, amount, drawn) => AfterInternal(w, payer, payee, amount, Internal, drawn).0
    case ChainSubmission(id, outcome) => AfterSubmit(w, id, outcome)
    case IncomingPayment(event, drawn) => AfterReceive(w, event, drawn).0
  }

  function Run(w: Wallet, calls: seq<Call>): Wallet
    decreases |calls|
  {
    if |calls| == 0 then w else Run(Step(w, calls[0]), calls[1..])
  }

  function AmountOf(c: Call): int
  {
    match c
    case UserTransfer(_, amount, _, _, _) => amount
    case OrderTransfer(_, _, amount, _) => amount
    case ChainSubmission(_, _) => 0
    case IncomingPayment(event, _) => event.amount
  }

  /** An incoming payment that is recorded as the settlement of a stored off-chain payment. */
  predicate SettlesPayment(w: Wallet, e: Event)
  {
    && e.metadata.TravelRule? && e.metadata.reference.Some?
    && var reference := e.metadata.reference.value;
       reference in w.payments && Settles(e, w.payments[reference]) && !ReferenceTaken(w.rows, reference)
  }

  /** A settlement debits without a check: here the sending account does not cover it. */
  predicate SettlesUncovered(w: Wallet, e: Event)
  {
    && SettlesPayment(w, e)
    && var payment := w.payments[e.metadata.reference.value];
       var source := AccountOf(w, payment.senderSubaddress);
       source.Some? && source != AccountOf(w, payment.receiverSubaddress) && !Covers(w, source.value, e.amount)
  }

  /** Amounts are validated to be at least 0 at the API, and are unsigned on chain. */
  predicate Checked(w: Wallet, c: Call)
  {
    AmountOf(c) >= 0 && !(c.IncomingPayment? && SettlesUncovered(w, c.event))
  }

  predicate RunChecked(w: Wallet, calls: seq<Call>)
    decreases |calls|
  {
    |calls| == 0 || (Checked(w, calls[0]) && RunChecked(Step(w, calls[0]), calls[1..]))
  }

  // ---- No overdraft ----

  ghost predicate Solvent(rows: Table) { forall a: int :: Total(rows, a) >= 0 }

  /** Shape of every row these services write, whatever the amount. */
  predicate Shaped(tx: Transaction)
  {
    InternalSettled(tx) && (tx.status.Pending? ==> tx.destinationId.None? && tx.sourceId.Some?)
  }

  predicate AllShaped(rows: Table) { forall i :: 0 <= i < |rows| ==> Shaped(rows[i]) }

  predicate Settled(tx: Transaction) { tx.amount >= 0 && Shaped(tx) }

  predicate AllSettled(rows: Table) { forall i :: 0 <= i < |rows| ==> Settled(rows[i]) }

  ghost predicate Sound(rows: Table) { Solvent(rows) && AllSettled(rows) }

  lemma {:induction false} AppendKeepsSound(rows: Table, tx: Transaction)
    requires Sound(rows) && Settled(tx)
    requires tx.sourceId.Some? && tx.destinationId != tx.sourceId ==> Debit(tx) <= Total(rows, tx.sourceId.value)
    requires tx.sourceId.Some? && tx.destinationId == tx.sourceId ==> Debit(tx) <= Credit(tx)
    ensures Sound(rows + [tx])
  {
    forall a: int ensures Total(rows + [tx], a) >= 0 {
      SumSnoc(rows, tx, NetOf(a));
      assert Total(rows, a) >= 0;
    }
  }

  lemma {:induction false} InternalKeepsSound(w: Wallet, sender: int, receiver: int, amount: int, kind: TransactionType, drawn: Drawn)
    requires Sound(w.rows) && amount >= 0
    ensures Sound(AfterInternal(w, sender, receiver, amount, kind, drawn).0.rows)
  {
    if Covers(w, sender, amount) {
      AppendKeepsSound(w.rows, InternalRow(w.vaspAddress, kind, sender, receiver, amount, drawn));
    }
  }

  lemma {:induction false} SendKeepsSound(w: Wallet, sender: int, amount: int, address: string, subaddress: Option<string>,
                       kind: Option<TransactionType>, original: Option<nat>, drawn: Drawn)
    requires Sound(w.rows) && amount >= 0 && kind != Some(Internal)
    ensures Sound(AfterSend(w, sender, amount, address, subaddress, kind, original, drawn).0.rows)
  {
    if subaddress.Some? && Covers(w, sender, amount) {
      if IsInWallet(w, address, subaddress) {
        InternalKeepsSound(w, sender, AccountOf(w, subaddress).value, amount, if kind.Some? then kind.value else Internal, drawn);
      } else {
        AppendKeepsSound(w.rows, ExternalRow(w.vaspAddress, if kind.Some? then kind.value else External,
                                             sender, address, subaddress, amount, original, drawn));
      }
    }
  }

  /** What a submission does to each account: it frees the frozen amount of a pending on-chain row,
      and gives it back to the sender if it failed. */
  lemma {:induction false} SubmissionEffect(w: Wallet, id: nat, outcome: ChainOutcome, account: int)
    requires id < |w.rows| && Shaped(w.rows[id]) && w.rows[id].status.Pending?
    ensures var tx, after := w.rows[id], AfterSubmit(w, id, outcome).rows;
      var freed := if OnChain(tx) then At(account, tx.sourceId.value, tx.amount) else 0;
      && Frozen(after, account) == Frozen(w.rows, account) - freed
      && Total(after, account) == Total(w.rows, account) + (if Succeeds(w.rows, tx, outcome) then 0 else freed)
  {
    SubmissionSettles(w, id, outcome);
    var tx := AfterSubmit(w, id, outcome).rows[id];
    assert AfterSubmit(w, id, outcome).rows == w.rows[id := tx];
    SumUpdate(w.rows, id, tx, NetOf(account));
    SumUpdate(w.rows, id, tx, HeldOf(account));
  }

  lemma {:induction false} SubmitKeepsSound(w: Wallet, id: nat, outcome: ChainOutcome)
    requires Sound(w.rows)
    ensures Sound(AfterSubmit(w, id, outcome).rows)
  {
    if id < |w.rows| {
      if w.rows[id].status.Pending? {
        forall a: int ensures Total(AfterSubmit(w, id, outcome).rows, a) >= 0 {
          SubmissionEffect(w, id, outcome, a);
        }
      } else {
        assert w.rows[id := w.rows[id]] == w.rows;
      }
    }
  }

  lemma {:induction false} ReceiveKeepsSound(w: Wallet, e: Event, drawn: Drawn)
    requires Sound(w.rows) && Checked(w, IncomingPayment(e, drawn))
    ensures Sound(AfterReceive(w, e, drawn).0.rows)
  {
    match e.metadata {
      case General(from, to) =>
        if !Known(w.rows, e.sender, from, e.sequence) {
          if to.None? {
            AppendKeepsSound(w.rows, CreditRow(e, Completed, from, Some(w.inventoryId), None));
          } else if AccountOf(w, to).None? {
            var noted := CreditRow(e, NeedRefund, from, Some(w.inventoryId), None);
            AppendKeepsSound(w.rows, noted);
            SendKeepsSound(w.(rows := w.rows + [noted]), w.inventoryId, e.amount, e.sender, from, Some(Refund), Some(|w.rows|), drawn);
          } else {
            AppendKeepsSound(w.rows, CreditRow(e, Completed, from, AccountOf(w, to), to));
          }
        }
      case TravelRule(reference) =>
        if SettlesPayment(w, e) {
          AppendKeepsSound(w.rows, SettlementRow(w, e, reference.value, w.payments[reference.value]));
        }
      case RefundOf(version) =>
        var found := FirstWithVersion(w.rows, version);
        if found.Some? {
          AppendKeepsSound(w.rows, RefundRow(e, w.rows[found.value], found.value));
        }
      case Unrecognised =>
    }
  }

  lemma {:induction false} StepKeepsSound(w: Wallet, c: Call)
    requires Sound(w.rows) && Checked(w, c)
    ensures Sound(Step(w, c).rows)
  {
    match c
    case UserTransfer(sender, amount, address, subaddress, drawn) =>
      SendKeepsSound(w, sender, amount, address, subaddress, None, None, drawn);
    case OrderTransfer(payer, payee, amount, drawn) => InternalKeepsSound(w, payer, payee, amount, Internal, drawn);
    case ChainSubmission(id, outcome) => SubmitKeepsSound(w, id, outcome);
    case IncomingPayment(event, drawn) => ReceiveKeepsSound(w, event, drawn);
  }

  /** No overdraft: over every interleaving of checked calls every account total stays at least 0. */
  lemma {:induction false} NoOverdraft(w: Wallet, calls: seq<Call>)
    requires Sound(w.rows) && RunChecked(w, calls)
    ensures Sound(Run(w, calls).rows)
    decreases |calls|
  {
    if |calls| > 0 {
      StepKeepsSound(w, calls[0]);
      NoOverdraft(Step(w, calls[0]), calls[1..]);
    }
  }

  /**
   * A settlement keeps every account solvent exactly when no account of ours sends it, it comes back
   * to its sender, or the sender covers it.
   */
  lemma {:induction false} SettlementSolventIff(w: Wallet, e: Event, drawn: Drawn)
    requires Sound(w.rows) && e.amount >= 0 && SettlesPayment(w, e)
    ensures var row := SettlementRow(w, e, e.metadata.reference.value, w.payments[e.metadata.reference.value]);
      && AfterReceive(w, e, drawn).0.rows == w.rows + [row]
      && (Solvent(AfterReceive(w, e, drawn).0.rows)
          <==> row.sourceId.None? || row.sourceId == row.destinationId || e.amount <= Total(w.rows, row.sourceId.value))
  {
    var row := SettlementRow(w, e, e.metadata.reference.value, w.payments[e.metadata.reference.value]);
    forall a: int ensures Total(w.rows + [row], a) == Total(w.rows, a) + NetFor(row, a) {
      SumSnoc(w.rows, row, NetOf(a));
    }
    if row.sourceId.Some? {
      var source := row.sourceId.value;
      assert Total(w.rows + [row], source) == Total(w.rows, source) + NetFor(row, source);
    }
  }

  /** The guard is exact: a call with a non-negative amount overdraws an account exactly when it fails. */
  lemma {:induction false} StepSolventIff(w: Wallet, c: Call)
    requires Sound(w.rows) && AmountOf(c) >= 0
    ensures Solvent(Step(w, c).rows) <==> Checked(w, c)
    ensures Checked(w, c) ==> Sound(Step(w, c).rows)
  {
    if Checked(w, c) {
      StepKeepsSound(w, c);
    } else {
      SettlementSolventIff(w, c.event, c.drawn);
    }
  }

  /** A wallet without any money whose account 2 has a payment ready for settlement. */
  function PromisedWallet(vasp: string, other: string): Wallet
  {
    Wallet(vasp, 1, map["sub" := 2], map["ref" := PaymentRow(RISK_THRESHOLD + 1, true, vasp, Some("sub"), other, None)], [])
  }

  /** An account settles a payment it does not have the money for. */
  lemma {:induction false} SettlementOverdraws(vasp: string, other: string, drawn: Drawn)
    ensures var w := PromisedWallet(vasp, other);
      var e := Event(7, vasp, other, 0, RISK_THRESHOLD + 1, TravelRule(Some("ref")));
      Sound(w.rows) && SettlesUncovered(w, e) && Total(AfterReceive(w, e, drawn).0.rows, 2) == -(RISK_THRESHOLD + 1)
  {
    var w := PromisedWallet(vasp, other);
    var e := Event(7, vasp, other, 0, RISK_THRESHOLD + 1, TravelRule(Some("ref")));
    assert SettlesPayment(w, e) && AccountOf(w, Some("sub")) == Some(2);
    var row := SettlementRow(w, e, "ref", w.payments["ref"]);
    SettlementSolventIff(w, e, drawn);
    SumSnoc(w.rows, row, NetOf(2));
  }

  ghost predicate AlwaysSolvent(w: Wallet, calls: seq<Call>)
    decreases |calls|
  {
    Solvent(w.rows) && (|calls| > 0 ==> AlwaysSolvent(Step(w, calls[0]), calls[1..]))
  }

  /** Over any run of non-negative amounts, nobody is ever overdrawn exactly when every call is checked. */
  lemma {:induction false} NoOverdraftIff(w: Wallet, calls: seq<Call>)
    requires Sound(w.rows) && forall i :: 0 <= i < |calls| ==> AmountOf(calls[i]) >= 0
    ensures AlwaysSolvent(w, calls) <==> RunChecked(w, calls)
    decreases |calls|
  {
    if |calls| > 0 {
      StepSolventIff(w, calls[0]);
      if Checked(w, calls[0]) {
        NoOverdraftIff(Step(w, calls[0]), calls[1..]);
      }
    }
  }

  /**
   * The balance check lets every negative amount through, so the service relies on the API bound:
   * a transfer between two accounts keeps both solvent exactly when the payee can absorb it.
   */
  lemma {:induction false} InternalSolventIff(w: Wallet, payer: int, payee: int, amount: int, drawn: Drawn)
    requires Sound(w.rows) && payer != payee && Covers(w, payer, amount)
    ensures Solvent(AfterInternal(w, payer, payee, amount, Internal, drawn).0.rows)
            <==> Total(w.rows, payee) + amount >= 0
  {
    var tx := InternalRow(w.vaspAddress, Internal, payer, payee, amount, drawn);
    forall a: int ensures Total(w.rows + [tx], a) == Total(w.rows, a) + NetFor(tx, a) {
      SumSnoc(w.rows, tx, NetOf(a));
    }
    assert Total(w.rows + [tx], payee) == Total(w.rows, payee) + amount;
    assert Total(w.rows, payer) >= amount;
  }

  lemma {:induction false} NegativeTransferOverdraws(vasp: string, drawn: Drawn)
    ensures var w := Wallet(vasp, 1, map[], map[], []);
      Sound(w.rows) && !Solvent(AfterInternal(w, 1, 2, -1, Internal, drawn).0.rows)
  {
    var w := Wallet(vasp, 1, map[], map[], []);
    assert forall a: int :: Total(w.rows, a) == 0;
    InternalSolventIff(w, 1, 2, -1, drawn);
  }

  // ---- Conservation ----

  function WalletTotal(w: Wallet): int { Sum(w.rows, WalletNet) }

  /** What a send takes out of the wallet: nothing in-wallet, refused or started off-chain; the
      amount when a row for an outside payee is recorded. */
  function SendFlow(w: Wallet, sender: int, amount: int, address: string, subaddress: Option<string>): int
  {
    if subaddress.Some? && Covers(w, sender, amount) && !IsInWallet(w, address, subaddress) && amount <= RISK_THRESHOLD
    then -amount else 0
  }

  /** Money entering (positive) or leaving (negative) the wallet in one call. */
  function Flow(w: Wallet, c: Call): int
  {
    match c
    case UserTransfer(sender, amount, address, subaddress, _) =>
      if IsOwnAddress(w, sender, address, subaddress) then 0 else SendFlow(w, sender, amount, address, subaddress)
    case OrderTransfer(_, _, _, _) => 0
    case ChainSubmission(id, outcome) =>
      if id < |w.rows| && w.rows[id].status.Pending? && OnChain(w.rows[id]) && !Succeeds(w.rows, w.rows[id], outcome)
      then w.rows[id].amount else 0
    case IncomingPayment(e, _) => IncomingFlow(w, e)
  }

  function IncomingFlow(w: Wallet, e: Event): int
  {
    match e.metadata
    case General(from, to) =>
      if Known(w.rows, e.sender, from, e.sequence) then 0
      else if to.Some? && AccountOf(w, to).None? then
        if IsOwnAddress(w, w.inventoryId, e.sender, from) then 0
        else SendFlow(w, w.inventoryId, e.amount, e.sender, from)
      else e.amount
    case TravelRule(reference) =>
      if reference.Some? && reference.value in w.payments && Settles(e, w.payments[reference.value])
         && !ReferenceTaken(w.rows, reference.value)
      then WalletNet(SettlementRow(w, e, reference.value, w.payments[reference.value])) else 0
    case RefundOf(version) =>
      var found := FirstWithVersion(w.rows, version);
      if found.Some? && !Known(w.rows, e.sender, w.rows[found.value].destinationSubaddress, e.sequence)
         && w.rows[found.value].sourceId.Some?
      then e.amount else 0
    case Unrecognised => 0
  }

  function FlowOfRun(w: Wallet, calls: seq<Call>): int
    decreases |calls|
  {
    if |calls| == 0 then 0 else Flow(w, calls[0]) + FlowOfRun(Step(w, calls[0]), calls[1..])
  }

  lemma {:induction false} InternalMovesNothing(w: Wallet, sender: int, receiver: int, amount: int, kind: TransactionType, drawn: Drawn)
    ensures WalletTotal(AfterInternal(w, sender, receiver, amount, kind, drawn).0) == WalletTotal(w)
  {
    SumSnoc(w.rows, InternalRow(w.vaspAddress, kind, sender, receiver, amount, drawn), WalletNet);
  }

  lemma {:induction false} ExternalMovesAmount(w: Wallet, sender: int, address: string, subaddress: Option<string>, amount: int,
                      kind: TransactionType, original: Option<nat>, drawn: Drawn)
    requires Covers(w, sender, amount)
    ensures WalletTotal(AfterExternal(w, sender, address, subaddress, amount, kind, original, drawn).0) == WalletTotal(w) - amount
  {
    SumSnoc(w.rows, ExternalRow(w.vaspAddress, kind, sender, address, subaddress, amount, original, drawn), WalletNet);
  }

  lemma {:induction false} SendMovesFlow(w: Wallet, sender: int, amount: int, address: string, subaddress: Option<string>,
                      kind: Option<TransactionType>, original: Option<nat>, drawn: Drawn)
    ensures WalletTotal(AfterSend(w, sender, amount, address, subaddress, kind, original, drawn).0)
         == WalletTotal(w) + if IsOwnAddress(w, sender, address, subaddress) then 0
                             else SendFlow(w, sender, amount, address, subaddress)
  {
    if subaddress.Some? && Covers(w, sender, amount) {
      if IsInWallet(w, address, subaddress) {
        InternalMovesNothing(w, sender, AccountOf(w, subaddress).value, amount, if kind.Some? then kind.value else Internal, drawn);
      } else {
        ExternalMovesAmount(w, sender, address, subaddress, amount, if kind.Some? then kind.value else External, original, drawn);
      }
    }
  }

  /** The NEED_REFUND row credits nobody; only the refund sent for it moves money. */
  lemma {:induction false} UnknownSubaddressMovesFlow(w: Wallet, e: Event, drawn: Drawn)
    requires e.metadata.General? && e.metadata.toSubaddress.Some? && AccountOf(w, e.metadata.toSubaddress).None?
    requires !Known(w.rows, e.sender, e.metadata.fromSubaddress, e.sequence)
    ensures WalletTotal(AfterReceive(w, e, drawn).0) == WalletTotal(w) + IncomingFlow(w, e)
  {
    var from := e.metadata.fromSubaddress;
    var row := CreditRow(e, NeedRefund, from, Some(w.inventoryId), None);
    var noted := w.(rows := w.rows + [row]);
    SumSnoc(w.rows, row, WalletNet);
    SumSnoc(w.rows, row, NetOf(w.inventoryId));
    assert Total(noted.rows, w.inventoryId) == Total(w.rows, w.inventoryId);
    SendMovesFlow(noted, w.inventoryId, e.amount, e.sender, from, Some(Refund), Some(|w.rows|), drawn);
  }

  lemma {:induction false} ReceiveMovesFlow(w: Wallet, e: Event, drawn: Drawn)
    ensures WalletTotal(AfterReceive(w, e, drawn).0) == WalletTotal(w) + IncomingFlow(w, e)
  {
    match e.metadata {
      case General(from, to) =>
        if !Known(w.rows, e.sender, from, e.sequence) {
          if to.None? {
            SumSnoc(w.rows, CreditRow(e, Completed, from, Some(w.inventoryId), None), WalletNet);
          } else if AccountOf(w, to).None? {
            UnknownSubaddressMovesFlow(w, e, drawn);
          } else {
            SumSnoc(w.rows, CreditRow(e, Completed, from, AccountOf(w, to), to), WalletNet);
          }
        }
      case TravelRule(reference) =>
        if reference.Some? && reference.value in w.payments {
          SumSnoc(w.rows, SettlementRow(w, e, reference.value, w.payments[reference.value]), WalletNet);
        }
      case RefundOf(version) =>
        var found := FirstWithVersion(w.rows, version);
        if found.Some? {
          SumSnoc(w.rows, RefundRow(e, w.rows[found.value], found.value), WalletNet);
        }
      case Unrecognised =>
    }
  }

  lemma {:induction false} SendKeepsShaped(w: Wallet, sender: int, amount: int, address: string, subaddress: Option<string>,
                      kind: Option<TransactionType>, original: Option<nat>, drawn: Drawn)
    requires AllShaped(w.rows) && kind != Some(Internal)
    ensures AllShaped(AfterSend(w, sender, amount, address, subaddress, kind, original, drawn).0.rows)
  {
  }

  lemma {:induction false} ReceiveKeepsShaped(w: Wallet, e: Event, drawn: Drawn)
    requires AllShaped(w.rows)
    ensures AllShaped(AfterReceive(w, e, drawn).0.rows)
  {
    if e.metadata.General? && e.metadata.toSubaddress.Some? && AccountOf(w, e.metadata.toSubaddress).None? {
      var noted := w.(rows := w.rows + [CreditRow(e, NeedRefund, e.metadata.fromSubaddress, Some(w.inventoryId), None)]);
      SendKeepsShaped(noted, w.inventoryId, e.amount, e.sender, e.metadata.fromSubaddress, Some(Refund), Some(|w.rows|), drawn);
    }
  }

  lemma {:induction false} StepKeepsShaped(w: Wallet, c: Call)
    requires AllShaped(w.rows)
    ensures AllShaped(Step(w, c).rows)
  {
    match c
    case UserTransfer(sender, amount, address, subaddress, drawn) =>
      SendKeepsShaped(w, sender, amount, address, subaddress, None, None, drawn);
    case OrderTransfer(_, _, _, _) =>
    case ChainSubmission(_, _) =>
    case IncomingPayment(event, drawn) => ReceiveKeepsShaped(w, event, drawn);
  }

  lemma {:induction false} StepMovesFlow(w: Wallet, c: Call)
    requires AllShaped(w.rows)
    ensures WalletTotal(Step(w, c)) == WalletTotal(w) + Flow(w, c)
  {
    match c
    case UserTransfer(sender, amount, address, subaddress, drawn) =>
      SendMovesFlow(w, sender, amount, address, subaddress, None, None, drawn);
    case OrderTransfer(payer, payee, amount, drawn) =>
      SumSnoc(w.rows, InternalRow(w.vaspAddress, Internal, payer, payee, amount, drawn), WalletNet);
    case ChainSubmission(id, outcome) =>
      if id < |w.rows| {
        SumUpdate(w.rows, id, SubmittedRow(w.rows, w.rows[id], outcome), WalletNet);
      }
    case IncomingPayment(event, drawn) => ReceiveMovesFlow(w, event, drawn);
  }

  // ---- Reachable tables ----

  /** The foreign keys of the wallet point into the account table. */
  ghost predicate KeysValid(w: Wallet, accounts: seq<int>)
  {
    && Distinct(accounts)
    && w.inventoryId in accounts
    && (forall s :: s in w.subaddresses ==> w.subaddresses[s] in accounts)
    && ReferencesAccounts(w.rows, accounts)
  }

  predicate NamesAccounts(c: Call, accounts: seq<int>)
  {
    match c
    case UserTransfer(sender, _, _, _, _) => sender in accounts
    case OrderTransfer(payer, payee, _, _) => payer in accounts && payee in accounts
    case ChainSubmission(_, _) => true
    case IncomingPayment(_, _) => true
  }

  lemma {:induction false} StepKeepsKeys(w: Wallet, c: Call, accounts: seq<int>)
    requires KeysValid(w, accounts) && NamesAccounts(c, accounts)
    ensures KeysValid(Step(w, c), accounts)
  {
  }

  /**
   * In every reachable table, overdrawn or not: the account totals add up to the opening total plus everything that
   * flowed in or out, the grouped query reports that same number, and the frozen amounts differ
   * from the grouped ones by exactly the LOCKED rows.
   */
  lemma {:induction false} RunConservesMoney(w: Wallet, calls: seq<Call>, accounts: seq<int>)
    requires AllShaped(w.rows) && KeysValid(w, accounts)
    requires forall i :: 0 <= i < |calls| ==> NamesAccounts(calls[i], accounts)
    ensures var end := Run(w, calls);
      && Sum(accounts, TotalsOf(end.rows)) == Sum(accounts, TotalsOf(w.rows)) + FlowOfRun(w, calls)
      && Sum(accounts, TotalsOf(end.rows)) == Sum(end.rows, GroupedNet)
      && Sum(accounts, FrozensOf(end.rows)) == Sum(end.rows, GroupedHeld) + Sum(end.rows, LockedAmount)
    decreases |calls|
  {
    WalletTotalByRows(w.rows, accounts);
    if |calls| == 0 {
      GroupedTotalAgrees(w.rows, accounts);
    } else {
      var next := Step(w, calls[0]);
      StepKeepsShaped(w, calls[0]);
      StepKeepsKeys(w, calls[0], accounts);
      StepMovesFlow(w, calls[0]);
      WalletTotalByRows(next.rows, accounts);
      RunConservesMoney(next, calls[1..], accounts);
    }
  }
}
