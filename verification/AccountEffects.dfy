/**
 * What each ledger service does to every account: who pays, who is paid, which row says so, and
 * when nothing happens at all.
 */
module AccountEffects {
  import opened Wrappers
  import opened Sums
  import opened Ledger
  import opened Transfers

  lemma {:induction false} AppendMoves(rows: Table, tx: Transaction, account: int)
    ensures Total(rows + [tx], account) == Total(rows, account) + NetFor(tx, account)
    ensures Frozen(rows + [tx], account) == Frozen(rows, account) + HeldFor(tx, account)
  {
    SumSnoc(rows, tx, NetOf(account));
    SumSnoc(rows, tx, HeldOf(account));
  }

  // ---- Sending ----

  /**
   * A covered transfer between two accounts moves the amount from the payer to the payee, at once, in a
   * row whose two new subaddresses belong to them.
   */
  lemma {:induction false} OrderPaysPayee(w: Wallet, payer: int, payee: int, amount: int, kind: TransactionType, drawn: Drawn, account: int)
    requires amount <= Total(w.rows, payer)
    ensures var (after, result) := AfterInternal(w, payer, payee, amount, kind, drawn);
      && result == Ok(|w.rows|) && |after.rows| == |w.rows| + 1 && w.rows <= after.rows
      && var tx := after.rows[|w.rows|];
      && tx.kind == kind && tx.sourceAddress == Some(w.vaspAddress) == tx.destinationAddress
      && AccountOf(after, tx.destinationSubaddress) == Some(payee)
      && (tx.sourceSubaddress != tx.destinationSubaddress ==> AccountOf(after, tx.sourceSubaddress) == Some(payer))
      && tx.sourceSubaddress == Some(drawn.senderSubaddress) && tx.destinationSubaddress == Some(drawn.receiverSubaddress)
      && Total(after.rows, account) == Total(w.rows, account) + At(account, payee, amount) - At(account, payer, amount)
      && Frozen(after.rows, account) == Frozen(w.rows, account)
  {
    AppendMoves(w.rows, InternalRow(w.vaspAddress, kind, payer, payee, amount, drawn), account);
  }

  /** A send to a subaddress of the wallet pays the account it was registered for. */
  lemma {:induction false} SendPaysPayee(w: Wallet, sender: int, amount: int, subaddress: string,
                         kind: Option<TransactionType>, original: Option<nat>, drawn: Drawn, account: int)
    requires subaddress in w.subaddresses && w.subaddresses[subaddress] != sender
    requires amount <= Total(w.rows, sender)
    ensures var (after, result) := AfterSend(w, sender, amount, w.vaspAddress, Some(subaddress), kind, original, drawn);
      && result == Ok(Recorded(|w.rows|))
      && Total(after.rows, account)
         == Total(w.rows, account) + At(account, w.subaddresses[subaddress], amount) - At(account, sender, amount)
      && Frozen(after.rows, account) == Frozen(w.rows, account)
  {
    OrderPaysPayee(w, sender, w.subaddresses[subaddress], amount, if kind.Some? then kind.value else Internal, drawn, account);
  }

  predicate Outside(w: Wallet, address: string, subaddress: string)
  {
    address != w.vaspAddress || subaddress !in w.subaddresses
  }

  /** What is submitted to the chain for a row: the sender's money, to the address that was asked for. */
  predicate PaymentTo(tx: Transaction, vasp: string, sender: int, amount: int, address: string, subaddress: string)
  {
    && tx.status.Pending? && tx.amount == amount
    && tx.sourceId == Some(sender) && tx.sourceAddress == Some(vasp)
    && tx.destinationId.None? && tx.destinationAddress == Some(address) && tx.destinationSubaddress == Some(subaddress)
    && tx.sequence.None? && tx.version.None?
  }

  /**
   * A covered send of at most the risk threshold to the outside writes one pending row and freezes
   * the amount of the sender, and of nobody else; its return subaddress belongs to the sender.
   */
  lemma {:induction false} SendPaysOutside(w: Wallet, sender: int, amount: int, address: string, subaddress: string,
                           kind: Option<TransactionType>, original: Option<nat>, drawn: Drawn, account: int)
    requires Outside(w, address, subaddress) && amount <= Total(w.rows, sender) && amount <= RISK_THRESHOLD
    ensures var (after, result) := AfterSend(w, sender, amount, address, Some(subaddress), kind, original, drawn);
      && result == Ok(Recorded(|w.rows|))
      && |after.rows| == |w.rows| + 1 && w.rows <= after.rows
      && var tx := after.rows[|w.rows|];
      && PaymentTo(tx, w.vaspAddress, sender, amount, address, subaddress)
      && tx.kind == (if kind.Some? then kind.value else External) && tx.originalId == original
      && (tx.kind.External? || tx.kind.Refund? ==>
            tx.sourceSubaddress == Some(drawn.senderSubaddress) && after.subaddresses[drawn.senderSubaddress] == sender)
      && Total(after.rows, account) == Total(w.rows, account) - At(account, sender, amount)
      && Frozen(after.rows, account) == Frozen(w.rows, account) + At(account, sender, amount)
  {
    AppendMoves(w.rows, ExternalRow(w.vaspAddress, if kind.Some? then kind.value else External, sender, address,
                                    Some(subaddress), amount, original, drawn), account);
  }

  /** Above the threshold nothing is booked yet: an off-chain payment is offered in the sender's name. */
  lemma {:induction false} SendStartsOffChain(w: Wallet, sender: int, amount: int, address: string, subaddress: string,
                              kind: Option<TransactionType>, original: Option<nat>, drawn: Drawn)
    requires Outside(w, address, subaddress) && amount <= Total(w.rows, sender) && amount > RISK_THRESHOLD
    ensures var (after, result) := AfterSend(w, sender, amount, address, Some(subaddress), kind, original, drawn);
      && result == Ok(StartedOffChain(drawn.reference)) && after.rows == w.rows
      && drawn.reference in after.payments
      && var payment := after.payments[drawn.reference];
      && payment.amount == amount && !payment.ready
      && payment.senderAddress == w.vaspAddress && payment.receiverAddress == address && payment.receiverSubaddress == Some(subaddress)
      && AccountOf(after, payment.senderSubaddress) == Some(sender)
      && (forall other :: other in w.payments && other != drawn.reference ==>
            other in after.payments && after.payments[other] == w.payments[other])
  {
  }

  /** Every send that is not recorded, and why; none of them touches the tables but the off-chain start. */
  lemma {:induction false} SendRefusedIff(w: Wallet, sender: int, amount: int, address: string, subaddress: Option<string>,
                          kind: Option<TransactionType>, original: Option<nat>, drawn: Drawn)
    ensures var (after, result) := AfterSend(w, sender, amount, address, subaddress, kind, original, drawn);
      var toItself := address == w.vaspAddress && subaddress.Some? && subaddress.value in w.subaddresses
                      && w.subaddresses[subaddress.value] == sender;
      && (result == Err(SelfAsDestination) <==> toItself)
      && (result == Err(BalanceTooLow) <==> !toItself && subaddress.Some? && amount > Total(w.rows, sender))
      && (result == Ok(UnhostedIgnored) <==> subaddress.None?)
      && (result.Err? ==> result.error.SelfAsDestination? || result.error.BalanceTooLow?)
      && (result.Err? || result.value.UnhostedIgnored? ==> after == w)
  {
  }

  // ---- Submitting ----

  predicate OnChain(tx: Transaction) { tx.kind.External? || tx.kind.Refund? }

  /** A refund names the transaction it returns, so that one must be stored. */
  predicate Succeeds(rows: Table, tx: Transaction, outcome: ChainOutcome)
  {
    outcome.Submitted? && (tx.kind.Refund? ==> tx.originalId.Some? && tx.originalId.value < |rows|)
  }

  /** Number zero is falsy and not written. */
  function Written(number: int, before: Option<int>): Option<int> { if number == 0 then before else Some(number) }

  /**
   * A pending on-chain row ends COMPLETED, with the numbers of the chain, exactly when its submission
   * succeeded, and CANCELED otherwise. Nothing else changes, and any other row is left alone.
   */
  lemma {:induction false} SubmissionSettles(w: Wallet, id: nat, outcome: ChainOutcome)
    requires id < |w.rows|
    ensures var tx, after := w.rows[id], AfterSubmit(w, id, outcome);
      && after == w.(rows := after.rows) && |after.rows| == |w.rows|
      && (forall i :: 0 <= i < |w.rows| && i != id ==> after.rows[i] == w.rows[i])
      && (if tx.status.Pending? && OnChain(tx) then
            var settled := after.rows[id];
            && settled.status == (if Succeeds(w.rows, tx, outcome) then Completed else Canceled)
            && settled.version == (if Succeeds(w.rows, tx, outcome) then Written(outcome.version, tx.version) else tx.version)
            && settled.sequence == (if Succeeds(w.rows, tx, outcome) then Written(outcome.sequence, tx.sequence) else tx.sequence)
            && settled == tx.(status := settled.status, version := settled.version, sequence := settled.sequence)
          else after == w)
  {
    assert w.rows[id := w.rows[id]] == w.rows;
  }

  // ---- Receiving ----

  /** No row came from this sender and subaddress under this number. */
  predicate Unseen(rows: Table, sender: string, subaddress: Option<string>, sequence: int)
  {
    forall i :: 0 <= i < |rows| ==>
      !(rows[i].sourceAddress == Some(sender) && rows[i].sourceSubaddress == subaddress && rows[i].sequence == Some(sequence))
  }

  lemma {:induction false} UnseenIff(rows: Table, sender: string, subaddress: Option<string>, sequence: int)
    ensures Unseen(rows, sender, subaddress, sequence) <==> !Known(rows, sender, subaddress, sequence)
  {
    if Known(rows, sender, subaddress, sequence) {
      var i :| 0 <= i < |rows| && HasDetails(rows[i], sender, subaddress, sequence);
    }
    if !Unseen(rows, sender, subaddress, sequence) {
      var i :| 0 <= i < |rows| && rows[i].sourceAddress == Some(sender) && rows[i].sourceSubaddress == subaddress
               && rows[i].sequence == Some(sequence);
      assert HasDetails(rows[i], sender, subaddress, sequence);
    }
  }

  predicate Unsettled(rows: Table, reference: string)
  {
    forall i :: 0 <= i < |rows| ==> rows[i].reference != Some(reference)
  }

  /** The row says what the event says. */
  predicate SaysEvent(tx: Transaction, e: Event)
  {
    && tx.amount == e.amount && tx.sourceAddress == Some(e.sender) && tx.destinationAddress == Some(e.receiver)
    && tx.sequence == Some(e.sequence) && tx.version == Some(e.version)
  }

  /**
   * A general payment not seen before credits the account its subaddress was registered for, or the
   * inventory when it names none; nobody else's balance changes.
   */
  lemma {:induction false} GeneralCredits(w: Wallet, e: Event, drawn: Drawn, account: int)
    requires e.metadata.General? && Unseen(w.rows, e.sender, e.metadata.fromSubaddress, e.sequence)
    requires e.metadata.toSubaddress.Some? ==> e.metadata.toSubaddress.value in w.subaddresses
    ensures var to := e.metadata.toSubaddress;
      var payee := if to.Some? then w.subaddresses[to.value] else w.inventoryId;
      var (after, result) := AfterReceive(w, e, drawn);
      && result.Ok? && |after.rows| == |w.rows| + 1 && w.rows <= after.rows && after == w.(rows := after.rows)
      && var tx := after.rows[|w.rows|];
      && SaysEvent(tx, e) && tx.kind.External? && tx.sourceSubaddress == e.metadata.fromSubaddress && tx.destinationSubaddress == to
      && Total(after.rows, account) == Total(w.rows, account) + At(account, payee, e.amount)
      && Frozen(after.rows, account) == Frozen(w.rows, account)
  {
    UnseenIff(w.rows, e.sender, e.metadata.fromSubaddress, e.sequence);
    var to := e.metadata.toSubaddress;
    var payee := if to.Some? then w.subaddresses[to.value] else w.inventoryId;
    AppendMoves(w.rows, CreditRow(e, Completed, e.metadata.fromSubaddress, Some(payee), to), account);
  }

  /**
   * A payment to a subaddress nobody owns credits nobody. It is noted, and the inventory sends it back
   * to where it came from, in a row that names the noted one; the refund is due if the inventory covers it.
   */
  lemma {:induction false} UnknownPayeeIsRefunded(w: Wallet, e: Event, drawn: Drawn, account: int)
    requires e.metadata.General? && Unseen(w.rows, e.sender, e.metadata.fromSubaddress, e.sequence)
    requires e.metadata.toSubaddress.Some? && e.metadata.toSubaddress.value !in w.subaddresses
    requires e.metadata.fromSubaddress.Some? && Outside(w, e.sender, e.metadata.fromSubaddress.value)
    requires e.amount <= Total(w.rows, w.inventoryId) && e.amount <= RISK_THRESHOLD
    ensures var (after, result) := AfterReceive(w, e, drawn);
      && result.Ok? && |after.rows| == |w.rows| + 2 && w.rows <= after.rows
      && var noted, refund := after.rows[|w.rows|], after.rows[|w.rows| + 1];
      && SaysEvent(noted, e) && noted.status.NeedRefund?
      && refund.kind.Refund? && refund.originalId == Some(|w.rows|)
      && PaymentTo(refund, w.vaspAddress, w.inventoryId, e.amount, e.sender, e.metadata.fromSubaddress.value)
      && Total(after.rows, account) == Total(w.rows, account) - At(account, w.inventoryId, e.amount)
  {
    UnseenIff(w.rows, e.sender, e.metadata.fromSubaddress, e.sequence);
    var from := e.metadata.fromSubaddress;
    var row := CreditRow(e, NeedRefund, from, Some(w.inventoryId), None);
    var noted := w.(rows := w.rows + [row]);
    AppendMoves(w.rows, row, account);
    AppendMoves(w.rows, row, w.inventoryId);
    SendPaysOutside(noted, w.inventoryId, e.amount, e.sender, from.value, Some(Refund), Some(|w.rows|), drawn, account);
    assert noted.rows[|w.rows|] == row;
  }

  /** When the inventory does not cover it the payment stays noted, without a refund, and the message fails. */
  lemma {:induction false} UnknownPayeeUncovered(w: Wallet, e: Event, drawn: Drawn)
    requires e.metadata.General? && Unseen(w.rows, e.sender, e.metadata.fromSubaddress, e.sequence)
    requires e.metadata.toSubaddress.Some? && e.metadata.toSubaddress.value !in w.subaddresses
    requires e.metadata.fromSubaddress.Some? && Outside(w, e.sender, e.metadata.fromSubaddress.value)
    requires e.amount > Total(w.rows, w.inventoryId)
    ensures var (after, result) := AfterReceive(w, e, drawn);
      && result == Err(BalanceTooLow) && |after.rows| == |w.rows| + 1 && w.rows <= after.rows
      && SaysEvent(after.rows[|w.rows|], e) && after.rows[|w.rows|].status.NeedRefund?
      && AfterReceive(after, e, drawn) == (after, Ok(()))
  {
    UnseenIff(w.rows, e.sender, e.metadata.fromSubaddress, e.sequence);
    var from := e.metadata.fromSubaddress;
    var row := CreditRow(e, NeedRefund, from, Some(w.inventoryId), None);
    AppendMoves(w.rows, row, w.inventoryId);
    assert HasDetails((w.rows + [row])[|w.rows|], e.sender, from, e.sequence);
  }

  /**
   * A settlement moves the amount of the stored payment between the accounts its two subaddresses
   * belong to, under its reference, and takes the payment out of waiting: the same event is refused
   * when it comes again.
   */
  lemma {:induction false} SettlementMoves(w: Wallet, e: Event, reference: string, drawn: Drawn, account: int)
    requires e.metadata == TravelRule(Some(reference)) && reference in w.payments && Unsettled(w.rows, reference)
    requires Settles(e, w.payments[reference])
    ensures var payment := w.payments[reference];
      var (after, result) := AfterReceive(w, e, drawn);
      var paid := if AccountOf(w, payment.receiverSubaddress) == Some(account) then e.amount else 0;
      var spent := if AccountOf(w, payment.senderSubaddress) == Some(account) then e.amount else 0;
      && result.Ok? && |after.rows| == |w.rows| + 1 && w.rows <= after.rows
      && var tx := after.rows[|w.rows|];
      && SaysEvent(tx, e) && tx.kind.Offchain? && tx.reference == Some(reference)
      && tx.sourceSubaddress == payment.senderSubaddress && tx.destinationSubaddress == payment.receiverSubaddress
      && Total(after.rows, account) == Total(w.rows, account) + paid - spent
      && AfterReceive(after, e, drawn) == (after, Err(InvalidTravelRule))
  {
    AppendMoves(w.rows, SettlementRow(w, e, reference, w.payments[reference]), account);
  }

  /** A settlement is accepted exactly for a ready payment that agrees with the event in all four respects. */
  lemma {:induction false} SettlementAcceptedIff(w: Wallet, e: Event, reference: Option<string>, drawn: Drawn)
    requires e.metadata == TravelRule(reference)
    ensures AfterReceive(w, e, drawn).1.Ok?
            <==> && reference.Some? && reference.value in w.payments && Unsettled(w.rows, reference.value)
                 && var payment := w.payments[reference.value];
                 payment.ready && payment.amount == e.amount && payment.senderAddress == e.sender && payment.receiverAddress == e.receiver
    ensures AfterReceive(w, e, drawn).1.Err? ==> AfterReceive(w, e, drawn).0 == w
  {
  }

  lemma {:induction false} FirstIsFound(rows: Table, version: int, i: nat)
    requires i < |rows| && rows[i].version == Some(version)
    requires forall j :: 0 <= j < i ==> rows[j].version != Some(version)
    ensures FirstWithVersion(rows, version) == Some(i)
  {
    if i < |rows| - 1 {
      FirstIsFound(rows[..|rows| - 1], version, i);
    }
  }

  /**
   * A refund credits the account that sent the first transaction of the version it names, once: the
   * row it leaves is the one a repeated delivery is recognised by.
   */
  lemma {:induction false} RefundCreditsOnce(w: Wallet, e: Event, version: int, i: nat, drawn: Drawn, account: int)
    requires e.metadata == RefundOf(version)
    requires i < |w.rows| && w.rows[i].version == Some(version)
    requires forall j :: 0 <= j < i ==> w.rows[j].version != Some(version)
    requires Unseen(w.rows, e.sender, w.rows[i].destinationSubaddress, e.sequence)
    ensures var (after, result) := AfterReceive(w, e, drawn);
      && result.Ok? && |after.rows| == |w.rows| + 1 && w.rows <= after.rows
      && var tx := after.rows[|w.rows|];
      && SaysEvent(tx, e) && tx.kind.Refund? && tx.originalId == Some(i) && tx.destinationSubaddress == w.rows[i].sourceSubaddress
      && Total(after.rows, account)
         == Total(w.rows, account) + (if w.rows[i].sourceId == Some(account) then e.amount else 0)
      && AfterReceive(after, e, drawn) == (after, Ok(()))
  {
    UnseenIff(w.rows, e.sender, w.rows[i].destinationSubaddress, e.sequence);
    FirstIsFound(w.rows, version, i);
    var row := RefundRow(e, w.rows[i], i);
    AppendMoves(w.rows, row, account);
    var after := AfterReceive(w, e, drawn).0;
    FirstIsFound(after.rows, version, i);
    assert HasDetails(after.rows[|w.rows|], e.sender, w.rows[i].destinationSubaddress, e.sequence);
  }
}
