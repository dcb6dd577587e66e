/**
 * The wallet's stored rows of off-chain payments it sends: conversion between rows and commands,
 * saving inbound commands under a lock with rollback, and the background tasks that send, answer
 * and settle.
 */
module PaymentRows {
  import opened Wrappers
  import opened Ledger
  import opened Payments
  import opened PaymentCommands

  /** The metadata column is text: the entries are those of the list whose text it holds. */
  datatype ActorRow = ActorRow(
    address: string, status: Status, kycData: Option<KycData>, metadataText: Option<seq<string>>, additionalKycData: Option<string>)

  datatype PaymentRow = PaymentRow(
    referenceId: string, status: TransactionStatus, myActorAddress: string, inbound: bool, cid: string,
    sender: ActorRow, receiver: ActorRow,
    amount: int, currency: string, action: string, createdAt: int, expiration: Option<int>,
    originalPaymentReferenceId: Option<string>, recipientSignature: Option<string>, description: Option<string>)

  // ---- Rows and commands ----

  function ActorOfRow(a: ActorRow): PaymentActor
  {
    PaymentActor(a.address, StatusObject(a.status, None, None), a.kycData,
                 if a.metadataText.Some? then Some(TextOf(a.metadataText.value)) else None, a.additionalKycData)
  }

  function RowOfActor(a: PaymentActor): ActorRow
  {
    ActorRow(a.address, a.status.status, a.kycData,
             if a.metadata.Some? then Some(a.metadata.value.entries) else None, a.additionalKycData)
  }

  function RowPayment(r: PaymentRow): Payment
  {
    Payment(r.referenceId, ActorOfRow(r.sender), ActorOfRow(r.receiver),
            PaymentAction(r.amount, r.currency, r.expiration, r.action, r.createdAt),
            r.originalPaymentReferenceId, r.recipientSignature, r.description)
  }

  function RowToCommand(r: PaymentRow): Command
  {
    Command(r.myActorAddress, RowPayment(r), r.status.OffChainInbound?, r.cid)
  }

  /** The seconds of the years 1 to 9999, but for the first day: converting also looks one day back. */
  const FIRST_TIME := -62_135_510_400
  const LAST_TIME := 253_402_300_799

  /** Days from the beginning of year 1 to that of another year. */
  function DaysBefore(year: nat): int
    requires year > 0
  {
    (year - 1) * 365 + (year - 1) / 4 - (year - 1) / 100 + (year - 1) / 400
  }

  lemma {:induction false} TimesAreYears()
    ensures FIRST_TIME == (DaysBefore(1) + 1 - DaysBefore(1970)) * 86_400
    ensures LAST_TIME == (DaysBefore(10_000) - DaysBefore(1970)) * 86_400 - 1
  {
  }

  datatype RowError = TimeOutOfRange

  predicate TimeOk(seconds: int) { FIRST_TIME <= seconds <= LAST_TIME }

  /** A missing or zero expiry is not converted. */
  predicate TimesOk(a: PaymentAction)
  {
    TimeOk(a.timestamp) && (a.validUntil.Some? && a.validUntil != Some(0) ==> TimeOk(a.validUntil.value))
  }

  function CommandToRow(c: Command, status: TransactionStatus): Result<PaymentRow, RowError>
  {
    var p := c.payment;
    if !TimesOk(p.action) then Err(TimeOutOfRange)
    else
      Ok(PaymentRow(p.referenceId, status, c.myActorAddress, c.inbound, p.referenceId,
                    RowOfActor(p.sender), RowOfActor(p.receiver),
                    p.action.amount, p.action.currency, p.action.action, p.action.timestamp,
                    if p.action.validUntil == Some(0) then None else p.action.validUntil,
                    p.originalPaymentReferenceId, p.recipientSignature, p.description))
  }

  /** Overwrites only part of the row: amount, currency, times, references and description stay. */
  function UpdateRow(r: PaymentRow, c: Command, status: TransactionStatus): PaymentRow
  {
    r.(myActorAddress := c.myActorAddress, inbound := c.inbound,
       sender := RowOfActor(c.payment.sender), receiver := RowOfActor(c.payment.receiver),
       action := c.payment.action.action, recipientSignature := c.payment.recipientSignature, status := status)
  }

  predicate NoAbortDetails(p: Payment)
  {
    && p.sender.status.abortCode.None? && p.sender.status.abortMessage.None?
    && p.receiver.status.abortCode.None? && p.receiver.status.abortMessage.None?
  }

  /** No list goes into a text column. */
  predicate NoMetadataList(p: Payment)
  {
    !HasMetadataList(p.sender) && !HasMetadataList(p.receiver)
  }

  predicate HasMetadataList(a: PaymentActor)
  {
    a.metadata.Some? && a.metadata.value.Listed?
  }

  /** For a payment decoded from JSON that means no metadata at all. */
  lemma {:induction false} DecodedNoMetadataIff(p: Payment)
    requires Decoded(p)
    ensures NoMetadataList(p) <==> p.sender.metadata.None? && p.receiver.metadata.None?
  {
  }

  /**
   * A row is made exactly when its times can be stored, and gives back the payment it was made from
   * except for abort details, a zero expiry and metadata.
   */
  lemma {:induction false} StoredPaymentRestoredIff(c: Command, status: TransactionStatus)
    ensures CommandToRow(c, status).Ok? <==> TimesOk(c.payment.action)
    ensures TimesOk(c.payment.action) <==>
              var expiry := c.payment.action.validUntil;
              && FIRST_TIME <= c.payment.action.timestamp <= LAST_TIME
              && (expiry.None? || expiry.value == 0 || FIRST_TIME <= expiry.value <= LAST_TIME)
    ensures CommandToRow(c, status).Ok? && RowToCommand(CommandToRow(c, status).value).payment == c.payment
            <==> TimesOk(c.payment.action) && NoAbortDetails(c.payment) && c.payment.action.validUntil != Some(0)
                 && NoMetadataList(c.payment)
  {
  }

  /**
   * The partial update loses nothing of a validated command: the row then holds exactly the accepted
   * payment, unless the command brought abort details or metadata, or first set the description.
   */
  lemma {:induction false} UpdateLosesNothingIff(r: PaymentRow, c: Command, status: TransactionStatus)
    requires Validate(c, Some(RowToCommand(r))).Ok? && c.payment.referenceId == r.referenceId
    ensures RowToCommand(UpdateRow(r, c, status)).payment == c.payment
            <==> NoAbortDetails(c.payment) && c.payment.description == r.description && NoMetadataList(c.payment)
  {
  }

  /** Once metadata is stored, a further command that has it as a list is refused. */
  lemma {:induction false} StoredMetadataBlocks(r: PaymentRow, c: Command)
    requires || (r.sender.metadataText.Some? && HasMetadataList(c.payment.sender))
             || (r.receiver.metadataText.Some? && HasMetadataList(c.payment.receiver))
    ensures Validate(c, Some(RowToCommand(r))).Err?
  {
  }

  function CommandStatus(c: Command, default: TransactionStatus): TransactionStatus
  {
    var s, r := c.payment.sender.status.status, c.payment.receiver.status.status;
    if s.ReadyForSettlement? && r.ReadyForSettlement? then OffChainReady
    else if s.Abort? || r.Abort? then Canceled else default
  }

  // ---- One row at a time ----

  /** What the outside world contributes to one callback. */
  datatype TaskInput = TaskInput(delivered: bool, submitted: Option<(int, int)>, signature: string, kycData: KycData)

  /** The ledger entry of a settled payment, keyed by its reference id. */
  datatype Settlement = Settlement(amount: int, currency: string, signature: string, sequence: int, version: int)

  /** A stored payment and its settlement, if any: all that one callback can touch. */
  datatype Entry = Entry(row: PaymentRow, settlement: Option<Settlement>)

  /** An exception anywhere in a callback rolls the row back, so the entry stays as it was. */
  function SendTask(e: Entry, input: TaskInput): Entry
  {
    if input.delivered then e.(row := e.row.(status := OffChainWait)) else e
  }

  function ActionTask(e: Entry, input: TaskInput): Entry
  {
    var cmd := RowToCommand(e.row);
    match StateFor(cmd.payment)
    case Err(_) => e
    case Ok(id) =>
      if FollowUpAction(MyActor(cmd), id) == Some(EvaluateKycData) then
        var answer := EvaluateKyc(cmd, input.signature, input.kycData, cmd.cid);
        e.(row := UpdateRow(e.row, answer, CommandStatus(answer, OffChainOutbound)))
      else e
  }

  function SubmitTask(e: Entry, input: TaskInput, isHex: string -> bool): Entry
  {
    if e.row.sender.address == e.row.myActorAddress && input.delivered && e.row.recipientSignature.Some?
       && isHex(e.row.recipientSignature.value) && input.submitted.Some? && e.settlement.None?
    then
      var (sequence, version) := input.submitted.value;
      Entry(e.row.(status := Completed),
            Some(Settlement(e.row.amount, e.row.currency, e.row.recipientSignature.value, sequence, version)))
    else e
  }

  function Task(e: Entry, status: TransactionStatus, input: TaskInput, isHex: string -> bool): Entry
  {
    if e.row.status != status then e
    else
      match status
      case OffChainOutbound => SendTask(e, input)
      case OffChainInbound => ActionTask(e, input)
      case OffChainReady => SubmitTask(e, input, isHex)
      case _ => e
  }

  /** The client refuses commands without a state, and R_SEND commands whose signature fails to verify. */
  predicate Admitted(c: Command, verifies: string -> bool)
  {
    && StateFor(c.payment).Ok?
    && (StateFor(c.payment).value.R_SEND? ==> c.payment.recipientSignature.Some? && verifies(c.payment.recipientSignature.value))
  }

  /** The locked callback for an inbound command whose reference id is stored. */
  function ReceiveOn(e: Entry, c: Command): Entry
  {
    var prior := RowToCommand(e.row);
    if c == prior || Validate(c, Some(prior)).Err? then e
    else e.(row := UpdateRow(e.row, c, CommandStatus(c, OffChainInbound)))
  }

  // ---- The invariant of one entry ----

  predicate EntryOk(reference: string, e: Entry, isHex: string -> bool)
  {
    var r := e.row;
    var state := StateFor(RowPayment(r));
    && r.referenceId == reference
    && r.sender.address == r.myActorAddress
    && state.Ok?
    && (r.status.OffChainOutbound? || r.status.OffChainWait? || r.status.OffChainInbound? || r.status.OffChainReady?
        || r.status.Completed? || r.status.Canceled?)
    && (r.status.OffChainOutbound? ==> !r.inbound)
    && (r.status.OffChainInbound? ==> r.inbound)
    && (state.value.R_SEND? ==> r.recipientSignature.Some? && isHex(r.recipientSignature.value))
    && (r.status.OffChainReady? || r.status.Completed? ==>
          && state.value.READY?
          && r.receiver.kycData.Some? && r.recipientSignature.Some? && isHex(r.recipientSignature.value))
    && (r.status.Canceled? ==> state.value.S_ABORT? || state.value.R_ABORT?)
    && (e.settlement.Some? <==> r.status.Completed?)
    && (e.settlement.Some? ==> e.settlement.value.amount == r.amount && e.settlement.value.currency == r.currency
                               && r.recipientSignature == Some(e.settlement.value.signature))
  }

  /** Stored and re-read payments classify like the command they came from. */
  lemma {:induction false} StoredStateSame(c: Command, status: TransactionStatus)
    requires CommandToRow(c, status).Ok?
    ensures StateFor(RowPayment(CommandToRow(c, status).value)) == StateFor(c.payment)
  {
  }

  lemma {:induction false} UpdatedStateSame(r: PaymentRow, c: Command, status: TransactionStatus)
    ensures StateFor(RowPayment(UpdateRow(r, c, status))) == StateFor(c.payment)
  {
  }

  lemma {:induction false} TaskKeepsEntry(reference: string, e: Entry, status: TransactionStatus, input: TaskInput, isHex: string -> bool)
    requires EntryOk(reference, e, isHex) && isHex(input.signature) && input.signature != ""
    ensures EntryOk(reference, Task(e, status, input, isHex), isHex)
  {
    if e.row.status == status && status.OffChainInbound? {
      ActionKeepsEntry(reference, e, input, isHex);
    }
  }

  lemma {:induction false} ActionKeepsEntry(reference: string, e: Entry, input: TaskInput, isHex: string -> bool)
    requires EntryOk(reference, e, isHex) && e.row.status.OffChainInbound? && isHex(input.signature) && input.signature != ""
    ensures EntryOk(reference, ActionTask(e, input), isHex)
  {
    var cmd := RowToCommand(e.row);
    if FollowUpAction(MyActor(cmd), StateFor(cmd.payment).value) == Some(EvaluateKycData) {
      assert StateFor(cmd.payment).value.R_SEND?;
      var answer := EvaluateKyc(cmd, input.signature, input.kycData, cmd.cid);
      UpdatedStateSame(e.row, answer, CommandStatus(answer, OffChainOutbound));
    }
  }

  /** Only the receiver's states can come in to the sender; READY is never among them. */
  lemma {:induction false} ReceiveKeepsEntry(reference: string, e: Entry, c: Command, verifies: string -> bool, isHex: string -> bool)
    requires EntryOk(reference, e, isHex) && c.inbound && IsSender(c) && c.payment.referenceId == reference
    requires Admitted(c, verifies)
    requires forall s :: verifies(s) ==> isHex(s)
    ensures EntryOk(reference, ReceiveOn(e, c), isHex)
    ensures e.row.status.Completed? || e.row.status.Canceled? || e.row.status.OffChainReady? ==> ReceiveOn(e, c) == e
  {
    var prior := RowToCommand(e.row);
    if c != prior && Validate(c, Some(prior)).Ok? {
      UpdatedStateSame(e.row, c, CommandStatus(c, OffChainInbound));
    }
  }

  lemma {:induction false} FreshInboundOk(c: Command, verifies: string -> bool, isHex: string -> bool)
    requires c.inbound && IsSender(c) && Admitted(c, verifies) && CommandToRow(c, OffChainInbound).Ok?
    requires forall s :: verifies(s) ==> isHex(s)
    ensures EntryOk(c.payment.referenceId, Entry(CommandToRow(c, OffChainInbound).value, None), isHex)
  {
  }

  // ---- The whole book ----

  type Book = map<string, Entry>

  ghost predicate BookOk(b: Book, isHex: string -> bool)
  {
    forall reference :: reference in b ==> EntryOk(reference, b[reference], isHex)
  }

  function SaveFirst(b: Book, c: Command, status: TransactionStatus): Book
  {
    match CommandToRow(c, status)
    case Ok(row) => b[c.payment.referenceId := Entry(row, None)]
    case Err(_) => b
  }

  function SaveOutbound(b: Book, c: Command): Book
  {
    if c.payment.referenceId in b then b else SaveFirst(b, c, OffChainOutbound)
  }

  function SaveInbound(b: Book, c: Command, verifies: string -> bool): Book
  {
    var reference := c.payment.referenceId;
    if !Admitted(c, verifies) then b
    else if reference in b then b[reference := ReceiveOn(b[reference], c)]
    else SaveFirst(b, c, OffChainInbound)
  }

  function RunTasks(b: Book, status: TransactionStatus, inputs: string -> TaskInput, isHex: string -> bool): Book
  {
    map reference | reference in b :: Task(b[reference], status, inputs(reference), isHex)
  }

  lemma {:induction false} TasksKeepBook(b: Book, status: TransactionStatus, inputs: string -> TaskInput, isHex: string -> bool)
    requires BookOk(b, isHex)
    requires forall reference :: isHex(inputs(reference).signature) && inputs(reference).signature != ""
    ensures BookOk(RunTasks(b, status, inputs, isHex), isHex)
  {
    forall reference | reference in b ensures EntryOk(reference, Task(b[reference], status, inputs(reference), isHex), isHex) {
      TaskKeepsEntry(reference, b[reference], status, inputs(reference), isHex);
    }
  }

  function WithStatus(b: Book, status: TransactionStatus): set<string>
  {
    set reference | reference in b && b[reference].row.status == status
  }

  lemma {:induction false} OthersUntouched(b: Book, status: TransactionStatus, inputs: string -> TaskInput, isHex: string -> bool)
    ensures Partway(b, RunTasks(b, status, inputs, isHex), WithStatus(b, status), b)
  {
  }

  /** The rows still to do are as they were, the others as they will be. */
  ghost predicate Partway<E>(before: map<string, E>, target: map<string, E>, todo: set<string>, current: map<string, E>)
  {
    && current.Keys == before.Keys == target.Keys
    && todo <= before.Keys
    && forall reference :: reference in current ==>
         current[reference] == if reference in todo then before[reference] else target[reference]
  }

  lemma {:induction false} OneMoreDone<E>(before: map<string, E>, target: map<string, E>, todo: set<string>, current: map<string, E>,
      reference: string)
    requires Partway(before, target, todo, current) && reference in todo
    ensures reference in current && current[reference] == before[reference] && reference in target
    ensures Partway(before, target, todo - {reference}, current[reference := target[reference]])
  {
  }

  lemma {:induction false} AllDone<E>(before: map<string, E>, target: map<string, E>, current: map<string, E>)
    requires Partway(before, target, {}, current)
    ensures current == target
  {
  }

  class PaymentBook {
    var book: Book
    const isHex: string -> bool

    constructor (isHex: string -> bool)
      ensures book == map[] && this.isHex == isHex
    {
      book := map[];
      this.isHex := isHex;
    }

    ghost predicate Valid()
      reads this
    {
      BookOk(book, isHex)
    }

    /** A transfer over the travel-rule threshold starts here, with the wallet as sender. */
    method SaveOutboundPaymentCommand(c: Command)
      requires Valid()
      requires !c.inbound && IsSender(c) && StateFor(c.payment) == Ok(S_INIT)
      modifies this
      ensures Valid()
      ensures book == SaveOutbound(old(book), c)
    {
      var row := CommandToRow(c, OffChainOutbound);
      if c.payment.referenceId !in book && row.Ok? {
        StoredStateSame(c, OffChainOutbound);
        book := book[c.payment.referenceId := Entry(row.value, None)];
      }
    }

    /** An inbound command with the wallet as sender; anything refused leaves the book as it was. */
    method LockAndSaveInboundCommand(c: Command, verifies: string -> bool)
      requires Valid()
      requires c.inbound && IsSender(c)
      requires forall s :: verifies(s) ==> isHex(s)
      modifies this
      ensures Valid()
      ensures book == SaveInbound(old(book), c, verifies)
    {
      var reference := c.payment.referenceId;
      if !Admitted(c, verifies) {
        return;
      }
      if reference in book {
        var entry := book[reference];
        var prior := RowToCommand(entry.row);
        ReceiveKeepsEntry(reference, entry, c, verifies, isHex);
        if c != prior && Validate(c, Some(prior)).Ok? {
          var status := CommandStatus(c, OffChainInbound);
          entry := entry.(row := UpdateRow(entry.row, c, status));
        }
        book := book[reference := entry];
      } else {
        var row := CommandToRow(c, OffChainInbound);
        if row.Ok? {
          FreshInboundOk(c, verifies, isHex);
          book := book[reference := Entry(row.value, None)];
        }
      }
    }

    /** The callback under the lock, with its status check; the assertions are those the callbacks make. */
    method RunCallback(reference: string, status: TransactionStatus, input: TaskInput)
      requires Valid() && reference in book
      requires isHex(input.signature) && input.signature != ""
      modifies this
      ensures Valid()
      ensures book == old(book)[reference := Task(old(book)[reference], status, input, isHex)]
    {
      var entry := book[reference];
      TaskKeepsEntry(reference, entry, status, input, isHex);
      var after := entry;
      if entry.row.status == status {
        match status {
          case OffChainOutbound =>
            assert !entry.row.inbound;
            after := SendTask(entry, input);
          case OffChainInbound =>
            assert entry.row.inbound;
            after := ActionTask(entry, input);
          case OffChainReady =>
            after := SubmitTask(entry, input, isHex);
          case _ =>
        }
      }
      book := book[reference := after];
    }

    /** One pass over the rows of a status; each callback re-checks the status under the lock. */
    method ProcessPaymentByStatus(status: TransactionStatus, inputs: string -> TaskInput)
      requires Valid()
      requires forall reference :: isHex(inputs(reference).signature) && inputs(reference).signature != ""
      modifies this
      ensures Valid()
      ensures book == RunTasks(old(book), status, inputs, isHex)
    {
      ghost var before := book;
      ghost var target := RunTasks(book, status, inputs, isHex);
      var todo := WithStatus(book, status);
      OthersUntouched(book, status, inputs, isHex);
      while todo != {}
        invariant Valid()
        invariant Partway(before, target, todo, book)
        decreases todo
      {
        var reference :| reference in todo;
        OneMoreDone(before, target, todo, book, reference);
        RunCallback(reference, status, inputs(reference));
        todo := todo - {reference};
      }
      AllDone(before, target, book);
    }

    method ProcessOffchainTasks(inputs: string -> TaskInput)
      requires Valid()
      requires forall reference :: isHex(inputs(reference).signature) && inputs(reference).signature != ""
      modifies this
      ensures Valid()
      ensures book == RunTasks(RunTasks(RunTasks(old(book), OffChainOutbound, inputs, isHex), OffChainInbound, inputs, isHex),
                               OffChainReady, inputs, isHex)
    {
      ProcessPaymentByStatus(OffChainOutbound, inputs);
      ProcessPaymentByStatus(OffChainInbound, inputs);
      ProcessPaymentByStatus(OffChainReady, inputs);
    }
  }

  // ---- Runs ----

  datatype BookStep =
    | Outbound(command: Command)
    | Inbound(command: Command)
    | Tasks(status: TransactionStatus, inputs: string -> TaskInput)

  function Apply(b: Book, s: BookStep, verifies: string -> bool, isHex: string -> bool): Book
  {
    match s
    case Outbound(c) => SaveOutbound(b, c)
    case Inbound(c) => SaveInbound(b, c, verifies)
    case Tasks(status, inputs) => RunTasks(b, status, inputs, isHex)
  }

  /** What the callers guarantee: new commands start payments of ours, inbound ones come to us as
      sender, and our own signatures are non-empty hex. */
  ghost predicate StepOk(s: BookStep, isHex: string -> bool)
  {
    match s
    case Outbound(c) => !c.inbound && IsSender(c) && StateFor(c.payment) == Ok(S_INIT)
    case Inbound(c) => c.inbound && IsSender(c)
    case Tasks(_, inputs) => forall reference :: isHex(inputs(reference).signature) && inputs(reference).signature != ""
  }

  function ApplyAll(b: Book, steps: seq<BookStep>, verifies: string -> bool, isHex: string -> bool): Book
    decreases |steps|
  {
    if |steps| == 0 then b else ApplyAll(Apply(b, steps[0], verifies, isHex), steps[1..], verifies, isHex)
  }

  /** The end of a payment: its row, and settlement, never change again. */
  predicate Final(e: Entry)
  {
    e.row.status.Completed? || e.row.status.Canceled?
  }

  ghost predicate FinalKept(b: Book, after: Book)
  {
    forall reference :: reference in b ==> reference in after && (Final(b[reference]) ==> after[reference] == b[reference])
  }

  lemma {:induction false} TasksLeaveFinal(b: Book, status: TransactionStatus, inputs: string -> TaskInput, isHex: string -> bool)
    ensures FinalKept(b, RunTasks(b, status, inputs, isHex))
  {
  }

  /** Storing one good entry that does not move a final one. */
  lemma {:induction false} PutKeepsBook(b: Book, reference: string, e: Entry, isHex: string -> bool)
    requires BookOk(b, isHex) && EntryOk(reference, e, isHex)
    requires reference in b && Final(b[reference]) ==> e == b[reference]
    ensures BookOk(b[reference := e], isHex) && FinalKept(b, b[reference := e])
  {
  }

  lemma {:induction false} OutboundKeepsBook(b: Book, c: Command, isHex: string -> bool)
    requires BookOk(b, isHex) && !c.inbound && IsSender(c) && StateFor(c.payment) == Ok(S_INIT)
    ensures BookOk(SaveOutbound(b, c), isHex) && FinalKept(b, SaveOutbound(b, c))
  {
    var reference := c.payment.referenceId;
    if reference !in b && CommandToRow(c, OffChainOutbound).Ok? {
      StoredStateSame(c, OffChainOutbound);
      PutKeepsBook(b, reference, Entry(CommandToRow(c, OffChainOutbound).value, None), isHex);
    }
  }

  lemma {:induction false} InboundKeepsBook(b: Book, c: Command, verifies: string -> bool, isHex: string -> bool)
    requires BookOk(b, isHex) && c.inbound && IsSender(c)
    requires forall x :: verifies(x) ==> isHex(x)
    ensures BookOk(SaveInbound(b, c, verifies), isHex)
    ensures FinalKept(b, SaveInbound(b, c, verifies))
  {
    var reference := c.payment.referenceId;
    if Admitted(c, verifies) {
      if reference in b {
        ReceiveKeepsEntry(reference, b[reference], c, verifies, isHex);
        PutKeepsBook(b, reference, ReceiveOn(b[reference], c), isHex);
      } else if CommandToRow(c, OffChainInbound).Ok? {
        FreshInboundOk(c, verifies, isHex);
        PutKeepsBook(b, reference, Entry(CommandToRow(c, OffChainInbound).value, None), isHex);
      }
    }
  }

  lemma {:induction false} StepKeepsBook(b: Book, s: BookStep, verifies: string -> bool, isHex: string -> bool)
    requires BookOk(b, isHex) && StepOk(s, isHex)
    requires forall x :: verifies(x) ==> isHex(x)
    ensures BookOk(Apply(b, s, verifies, isHex), isHex)
    ensures FinalKept(b, Apply(b, s, verifies, isHex))
  {
    match s
    case Outbound(c) => OutboundKeepsBook(b, c, isHex);
    case Inbound(c) => InboundKeepsBook(b, c, verifies, isHex);
    case Tasks(status, inputs) =>
      TasksKeepBook(b, status, inputs, isHex);
      TasksLeaveFinal(b, status, inputs, isHex);
  }

  /**
   * Over every run: the assertions of the callbacks hold, a row awaiting settlement is a READY payment with
   * the receiver's KYC data and a decodable signature, a canceled one is an abort, a payment has a
   * settlement exactly when its row is COMPLETED, and final rows are never moved.
   */
  lemma {:induction false} BookInvariantOverRuns(b: Book, steps: seq<BookStep>, verifies: string -> bool, isHex: string -> bool)
    requires BookOk(b, isHex)
    requires forall i :: 0 <= i < |steps| ==> StepOk(steps[i], isHex)
    requires forall x :: verifies(x) ==> isHex(x)
    ensures BookOk(ApplyAll(b, steps, verifies, isHex), isHex)
    ensures FinalKept(b, ApplyAll(b, steps, verifies, isHex))
    decreases |steps|
  {
    if |steps| > 0 {
      StepKeepsBook(b, steps[0], verifies, isHex);
      BookInvariantOverRuns(Apply(b, steps[0], verifies, isHex), steps[1..], verifies, isHex);
    }
  }
}
