/**
 * That stored payments get somewhere: each callback takes its row to the next status, and an honest
 * exchange over the risk threshold ends settled.
 */
module PaymentProgress {
  import opened Wrappers
  import opened Ledger
  import opened Payments
  import opened PaymentCommands
  import opened PaymentRuns
  import opened PaymentRows

  /** A command is stored as ready exactly in state READY, and as canceled exactly after an abort. */
  lemma {:induction false} StoredStatusSaysState(c: Command, default: TransactionStatus)
    requires StateFor(c.payment).Ok?
    ensures var state := StateFor(c.payment).value;
      CommandStatus(c, default) == if state.READY? then OffChainReady else if state.S_ABORT? || state.R_ABORT? then Canceled else default
  {
  }

  // ---- One row ----

  /** An outbound row waits for the answer as soon as it was delivered; until then it stays. */
  lemma {:induction false} OutboundIsSent(e: Entry, input: TaskInput, isHex: string -> bool)
    requires e.row.status.OffChainOutbound?
    ensures var after := Task(e, OffChainOutbound, input, isHex);
      after.settlement == e.settlement && after.row == e.row.(status := if input.delivered then OffChainWait else OffChainOutbound)
  {
  }

  /** The sender's answer to the receiver's data makes the payment ready, with that data. */
  lemma {:induction false} InboundIsAnswered(reference: string, e: Entry, input: TaskInput, isHex: string -> bool)
    requires EntryOk(reference, e, isHex) && e.row.status.OffChainInbound?
    requires StateFor(RowPayment(e.row)) == Ok(R_SEND)
    ensures var after := Task(e, OffChainInbound, input, isHex);
      && after.row.status.OffChainReady? && StateFor(RowPayment(after.row)) == Ok(READY) && after.settlement.None?
      && after.row.amount == e.row.amount && after.row.currency == e.row.currency
      && (e.row.sender.address != e.row.receiver.address ==>
            RowPayment(after.row) == RowPayment(e.row).(sender := ActorOfRow(e.row.sender.(status := ReadyForSettlement))))
  {
  }

  /** In any other state an inbound row is left for a person to decide. */
  lemma {:induction false} InboundIsLeft(reference: string, e: Entry, input: TaskInput, isHex: string -> bool)
    requires EntryOk(reference, e, isHex) && e.row.status.OffChainInbound?
    requires StateFor(RowPayment(e.row)) != Ok(R_SEND)
    ensures Task(e, OffChainInbound, input, isHex) == e
  {
  }

  /** A ready row is settled exactly when it was delivered and submitted, for its own amount and signature. */
  lemma {:induction false} ReadyIsSettled(reference: string, e: Entry, input: TaskInput, isHex: string -> bool)
    requires EntryOk(reference, e, isHex) && e.row.status.OffChainReady?
    ensures var after := Task(e, OffChainReady, input, isHex);
      if input.delivered && input.submitted.Some? then
        && after.row == e.row.(status := Completed)
        && after.settlement == Some(Settlement(e.row.amount, e.row.currency, e.row.recipientSignature.value,
                                               input.submitted.value.0, input.submitted.value.1))
      else after == e
  {
  }

  /**
   * An admitted command that passes validation is what the row then reads as, up to what a row
   * cannot hold; it waits for a task unless it is an abort.
   */
  lemma {:induction false} AcceptedIsRead(e: Entry, c: Command, verifies: string -> bool)
    requires Admitted(c, verifies) && c.inbound && IsSender(c) && c.payment.referenceId == e.row.referenceId
    requires c != RowToCommand(e.row) && Validate(c, Some(RowToCommand(e.row))).Ok?
    ensures var after := ReceiveOn(e, c);
      && after.settlement == e.settlement
      && after.row.status == (if StateFor(c.payment).value.R_ABORT? then Canceled else OffChainInbound)
      && StateFor(RowPayment(after.row)) == StateFor(c.payment)
      && (NoAbortDetails(c.payment) && c.payment.description == e.row.description && NoMetadataList(c.payment) ==>
            RowPayment(after.row) == c.payment)
  {
    UpdateLosesNothingIff(e.row, c, CommandStatus(c, OffChainInbound));
    UpdatedStateSame(e.row, c, CommandStatus(c, OffChainInbound));
  }

  /** A first command is stored as inbound if it is admitted and its times can be, and else nothing is. */
  lemma {:induction false} FirstInboundIsStored(b: Book, c: Command, verifies: string -> bool)
    requires c.inbound && c.payment.referenceId !in b
    ensures var after, reference := SaveInbound(b, c, verifies), c.payment.referenceId;
      if Admitted(c, verifies) && TimesOk(c.payment.action) then
        && reference in after && after == b[reference := after[reference]] && after[reference].settlement.None?
        && var row := after[reference].row;
        && row.status.OffChainInbound? && row.inbound && row.cid == row.referenceId == reference
        && StateFor(RowPayment(row)) == StateFor(c.payment)
        && row.myActorAddress == c.myActorAddress && row.amount == c.payment.action.amount
        && (NoAbortDetails(c.payment) && NoMetadataList(c.payment) && c.payment.action.validUntil != Some(0) ==>
              RowPayment(row) == c.payment)
      else after == b
  {
    StoredPaymentRestoredIff(c, OffChainInbound);
    if TimesOk(c.payment.action) {
      StoredStateSame(c, OffChainInbound);
    }
  }

  /** Who is let in: a payment in some state, with a signature that verifies where the receiver answered. */
  lemma {:induction false} AdmittedIff(c: Command, verifies: string -> bool)
    ensures Admitted(c, verifies) <==>
              && StateFor(c.payment).Ok?
              && (StateFor(c.payment) == Ok(R_SEND) ==>
                    exists s :: c.payment.recipientSignature == Some(s) && verifies(s))
  {
    if c.payment.recipientSignature.Some? {
      assert c.payment.recipientSignature == Some(c.payment.recipientSignature.value);
    }
  }

  /** A command that repeats the stored one, or fails validation, changes nothing. */
  lemma {:induction false} RefusedIsIgnored(e: Entry, c: Command)
    requires c == RowToCommand(e.row) || Validate(c, Some(RowToCommand(e.row))).Err?
    ensures ReceiveOn(e, c) == e
  {
  }

  // ---- A pass of the background tasks ----

  function Pass(b: Book, inputs: string -> TaskInput, isHex: string -> bool): Book
  {
    RunTasks(RunTasks(RunTasks(b, OffChainOutbound, inputs, isHex), OffChainInbound, inputs, isHex), OffChainReady, inputs, isHex)
  }

  /** One pass answers and settles a payment whose receiver has sent its data. */
  lemma {:induction false} PassSettles(b: Book, reference: string, inputs: string -> TaskInput, isHex: string -> bool)
    requires reference in b && EntryOk(reference, b[reference], isHex)
    requires b[reference].row.status.OffChainInbound? && StateFor(RowPayment(b[reference].row)) == Ok(R_SEND)
    requires isHex(inputs(reference).signature) && inputs(reference).signature != ""
    requires inputs(reference).delivered && inputs(reference).submitted.Some?
    ensures var before, after := b[reference].row, Pass(b, inputs, isHex);
      && reference in after && after[reference].row.status.Completed?
      && after[reference].settlement.Some?
      && var settlement := after[reference].settlement.value;
      && settlement.amount == before.amount && settlement.currency == before.currency
      && (settlement.sequence, settlement.version) == inputs(reference).submitted.value
      && (before.sender.address != before.receiver.address ==> Some(settlement.signature) == before.recipientSignature)
  {
    var e, input := b[reference], inputs(reference);
    InboundIsAnswered(reference, e, input, isHex);
    TaskKeepsEntry(reference, e, OffChainInbound, input, isHex);
    ReadyIsSettled(reference, Task(e, OffChainInbound, input, isHex), input, isHex);
  }

  lemma {:induction false} PassSends(b: Book, reference: string, inputs: string -> TaskInput, isHex: string -> bool)
    requires reference in b && b[reference].row.status.OffChainOutbound? && inputs(reference).delivered
    ensures var after := Pass(b, inputs, isHex);
      reference in after && after[reference] == b[reference].(row := b[reference].row.(status := OffChainWait))
  {
    OutboundIsSent(b[reference], inputs(reference), isHex);
  }

  // ---- An honest exchange ----

  /** What the receiver's wallet answers to a first payment. */
  function Answer(p: Payment, signature: string, kycData: KycData): Command
  {
    Command(p.sender.address, EvaluateKyc(SeenBy(Receiver, p, true), signature, kycData, "").payment, true, "")
  }

  /**
   * A payment the wallet starts is settled for its amount, with the receiver's signature, after one
   * delivery, one honest answer and one more pass in which delivery and submission succeed.
   */
  lemma {:induction false} HonestExchangeIsSettled(b: Book, p: Payment, sending: string -> TaskInput, signature: string, kycData: KycData,
      verifies: string -> bool, settling: string -> TaskInput, isHex: string -> bool)
    requires StateFor(p) == Ok(S_INIT) && p.sender.address != p.receiver.address && p.referenceId !in b
    requires p.receiver.kycData.None? && p.recipientSignature.None?
    requires TimesOk(p.action) && NoAbortDetails(p) && NoMetadataList(p) && p.action.validUntil != Some(0)
    requires sending(p.referenceId).delivered
    requires signature != "" && verifies(signature) && forall s :: verifies(s) ==> isHex(s)
    requires settling(p.referenceId).delivered && settling(p.referenceId).submitted.Some?
    requires isHex(settling(p.referenceId).signature) && settling(p.referenceId).signature != ""
    ensures var started := SaveOutbound(b, Command(p.sender.address, p, false, ""));
      var answered := SaveInbound(Pass(started, sending, isHex), Answer(p, signature, kycData), verifies);
      var settled := Pass(answered, settling, isHex);
      && p.referenceId in settled && settled[p.referenceId].row.status.Completed?
      && settled[p.referenceId].settlement
         == Some(Settlement(p.action.amount, p.action.currency, signature,
                            settling(p.referenceId).submitted.value.0, settling(p.referenceId).submitted.value.1))
  {
    var reference, c := p.referenceId, Command(p.sender.address, p, false, "");
    StoredPaymentRestoredIff(c, OffChainOutbound);
    var started := SaveOutbound(b, c);
    PassSends(started, reference, sending, isHex);
    var sent := Pass(started, sending, isHex);
    var e, answer := sent[reference], Answer(p, signature, kycData);
    ReceiverAnswerAccepted(p, signature, kycData, "");
    AnswerAccepted(reference, e, p, signature, kycData, verifies, isHex);
    var answered := SaveInbound(sent, answer, verifies);
    PassSettles(answered, reference, settling, isHex);
  }

  lemma {:induction false} AnswerAccepted(reference: string, e: Entry, p: Payment, signature: string, kycData: KycData,
      verifies: string -> bool, isHex: string -> bool)
    requires StateFor(p) == Ok(S_INIT) && p.sender.address != p.receiver.address && p.referenceId == reference
    requires p.receiver.kycData.None? && p.recipientSignature.None?
    requires e.row.status.OffChainWait? && e.settlement.None? && e.row.myActorAddress == p.sender.address && RowPayment(e.row) == p
    requires NoAbortDetails(p) && NoMetadataList(p)
    requires signature != "" && verifies(signature) && forall s :: verifies(s) ==> isHex(s)
    ensures var answer := Answer(p, signature, kycData);
      var after := ReceiveOn(e, answer);
      && Admitted(answer, verifies) && EntryOk(reference, after, isHex)
      && after.row.status.OffChainInbound? && StateFor(RowPayment(after.row)) == Ok(R_SEND)
      && after.row.amount == p.action.amount && after.row.currency == p.action.currency && after.row.recipientSignature == Some(signature)
  {
    var answer := Answer(p, signature, kycData);
    ReceiverAnswerAccepted(p, signature, kycData, "");
    assert Validate(answer, Some(RowToCommand(e.row))).Ok?;
    AcceptedIsRead(e, answer, verifies);
  }
}
