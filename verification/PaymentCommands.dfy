/**
 * Payment commands: who acts for whom, the four checks of `validate`, and the commands a wallet
 * produces in answer.
 */
module PaymentCommands {
  import opened Wrappers
  import opened Objects
  import opened StateMachine
  import opened WriteOnce
  import opened Payments

  datatype Actor = Sender | Receiver

  datatype Action = EvaluateKycData | ReviewKycData | ClearSoftMatch | SubmitTransaction

  datatype Command = Command(myActorAddress: string, payment: Payment, inbound: bool, cid: string)

  datatype CommandError =
    | InvalidCommandProducer | InvalidOverwrite | InvalidTransition | InvalidInitialOrPriorNotFound | MissingField | NoStateFound

  function Other(a: Actor): Actor { if a.Sender? then Receiver else Sender }

  /** The actor whose command leads to a state. */
  function TriggerActor(id: StateId): Actor
  {
    if id.R_SEND? || id.R_ABORT? || id.R_SOFT? || id.R_SOFT_SEND? then Receiver else Sender
  }

  function FollowUp(id: StateId): Option<(Actor, Action)>
  {
    match id
    case S_INIT => Some((Receiver, EvaluateKycData))
    case R_SEND => Some((Sender, EvaluateKycData))
    case R_ABORT => None
    case R_SOFT => Some((Sender, ClearSoftMatch))
    case READY => Some((Sender, SubmitTransaction))
    case S_ABORT => None
    case S_SOFT => Some((Receiver, ClearSoftMatch))
    case S_SOFT_SEND => Some((Receiver, ReviewKycData))
    case R_SOFT_SEND => Some((Sender, ReviewKycData))
  }

  function FollowUpAction(actor: Actor, id: StateId): Option<Action>
  {
    match FollowUp(id)
    case Some((who, action)) => if who == actor then Some(action) else None
    case None => None
  }

  predicate IsSender(c: Command) { c.payment.sender.address == c.myActorAddress }

  predicate IsReceiver(c: Command) { c.payment.receiver.address == c.myActorAddress }

  function MyActor(c: Command): Actor { if IsSender(c) then Sender else Receiver }

  function CounterpartyActor(c: Command): Actor { if IsSender(c) then Receiver else Sender }

  function ActorObject(p: Payment, a: Actor): PaymentActor { if a.Sender? then p.sender else p.receiver }

  function MyActorObject(c: Command): PaymentActor { ActorObject(c.payment, MyActor(c)) }

  /** The state of a payment, or the error its look-up raises. */
  function StateFor(p: Payment): Result<StateId, CommandError>
  {
    match Classify(p)
    case InState(id) => Ok(id)
    case Unmatched => Err(NoStateFound)
    case Incomplete => Err(MissingField)
  }

  /** The check against the prior payment: protected fields are kept, and no field changes its type. */
  predicate WriteOnceKept(next: Payment, prior: Payment)
  {
    ProtectedKept(next, prior) && SameKind(next.sender, prior.sender) && SameKind(next.receiver, prior.receiver)
  }

  predicate ProtectedKept(next: Payment, prior: Payment)
  {
    && ActorKept(next.sender, prior.sender)
    && ActorKept(next.receiver, prior.receiver)
    && next.action == prior.action
    && next.originalPaymentReferenceId == prior.originalPaymentReferenceId
    && OnceKept(next.recipientSignature, prior.recipientSignature)
    && OnceKept(next.description, prior.description)
  }

  predicate ActorKept(next: PaymentActor, prior: PaymentActor)
  {
    && next.address == prior.address
    && OnceKept(next.kycData, prior.kycData)
    && OnceKept(next.additionalKycData, prior.additionalKycData)
  }

  /** Metadata read back from a row is text where a command has a list: comparing the two raises. */
  predicate SameKind(next: PaymentActor, prior: PaymentActor)
  {
    next.metadata.Some? && prior.metadata.Some? ==> next.metadata.value.Listed? == prior.metadata.value.Listed?
  }

  predicate OnceKept<T(==)>(next: Option<T>, prior: Option<T>) { prior.Some? ==> next == prior }

  function CheckProducer(c: Command): Result<(), CommandError>
  {
    if !c.inbound then Ok(())
    else
      match StateFor(c.payment)
      case Err(e) => Err(e)
      case Ok(id) => if CounterpartyActor(c) == TriggerActor(id) then Ok(()) else Err(InvalidCommandProducer)
  }

  function CheckTransition(c: Command, prior: Command): Result<(), CommandError>
  {
    match StateFor(prior.payment)
    case Err(e) => Err(e)
    case Ok(from) =>
      match StateFor(c.payment)
      case Err(e) => Err(e)
      case Ok(to) => if Moves(from, to) then Ok(()) else Err(InvalidTransition)
  }

  function CheckInitial(c: Command): Result<(), CommandError>
  {
    match StateFor(c.payment)
    case Err(e) => Err(e)
    case Ok(id) => if id.S_INIT? then Ok(()) else Err(InvalidInitialOrPriorNotFound)
  }

  function Validate(c: Command, prior: Option<Command>): Result<(), CommandError>
  {
    if CheckProducer(c).Err? then CheckProducer(c)
    else
      match prior
      case None => CheckInitial(c)
      case Some(p) =>
        if c.inbound && MyActorObject(c) != MyActorObject(p) then Err(InvalidOverwrite)
        else if !WriteOnceKept(c.payment, p.payment) then Err(InvalidOverwrite)
        else CheckTransition(c, p)
  }

  // ---- The typed checks are the generic ones ----

  /** `StateFor` answers what the state machine answers on the attribute tree. */
  lemma {:induction false} StateForIsMachine(p: Payment, id: StateId)
    ensures StateFor(p) == Ok(id) <==> MatchState(PaymentMachine(), PaymentTree(p)) == StateFound(StateOf(id))
  {
    ClassifyIsMatchState(p);
  }

  lemma {:induction false} OptionKept(f: Field, next: Option<string>, prior: Option<string>)
    requires !f.immutable
    ensures Unchanged(f, OptStr(next), OptStr(prior)) <==> (f.writeOnce ==> OnceKept(next, prior))
    ensures Keeps(OptStr(next), OptStr(prior))
  {
  }

  lemma {:induction false} ActorKeeps(next: PaymentActor, prior: PaymentActor)
    ensures Keeps(ActorTree(next), ActorTree(prior)) <==> ActorKept(next, prior) && SameKind(next, prior)
  {
    var n, p, fs := ActorTree(next).fields, ActorTree(prior).fields, ACTOR_CLASS.fields;
    StatusKeeps(next.status, prior.status);
    OptionKept(fs[4], next.additionalKycData, prior.additionalKycData);
    assert Unchanged(fs[0], n[0], p[0]) <==> next.address == prior.address;
    assert Unchanged(fs[2], n[2], p[2]) <==> OnceKept(next.kycData, prior.kycData);
    assert Unchanged(fs[1], n[1], p[1]) && Unchanged(fs[3], n[3], p[3]);
    assert Keeps(n[3], p[3]) <==> SameKind(next, prior);
    assert Keeps(n[0], p[0]) && Keeps(n[1], p[1]) && Keeps(n[2], p[2]) && Keeps(n[4], p[4]);
  }

  lemma {:induction false} StatusKeeps(next: StatusObject, prior: StatusObject)
    ensures Keeps(StatusTree(next), StatusTree(prior))
  {
  }

  lemma {:induction false} ActionKeeps(next: PaymentAction, prior: PaymentAction)
    ensures Keeps(ActionTree(next), ActionTree(prior))
    ensures ActionTree(next) == ActionTree(prior) <==> next == prior
  {
  }

  /** The recursive validator accepts exactly what the typed check accepts. */
  lemma {:induction false} WriteOnceIsValidator(next: Payment, prior: Payment)
    ensures ValidateWriteOnce("payment", PaymentTree(next), PaymentTree(prior)).Accepted? <==> WriteOnceKept(next, prior)
  {
    AcceptedMeansKeeps("payment", PaymentTree(next), PaymentTree(prior));
    var n, p, fs := PaymentTree(next).fields, PaymentTree(prior).fields, PAYMENT_CLASS.fields;
    ActorKeeps(next.sender, prior.sender);
    ActorKeeps(next.receiver, prior.receiver);
    ActionKeeps(next.action, prior.action);
    OptionKept(fs[5], next.recipientSignature, prior.recipientSignature);
    OptionKept(fs[6], next.description, prior.description);
    assert Unchanged(fs[0], n[0], p[0]) && Keeps(n[0], p[0]);
    assert Unchanged(fs[1], n[1], p[1]) && Unchanged(fs[2], n[2], p[2]);
    assert Unchanged(fs[3], n[3], p[3]) <==> next.action == prior.action;
    assert Unchanged(fs[4], n[4], p[4]) <==> next.originalPaymentReferenceId == prior.originalPaymentReferenceId;
    assert Keeps(n[1], p[1]) <==> ActorKept(next.sender, prior.sender) && SameKind(next.sender, prior.sender);
    assert Keeps(n[2], p[2]) <==> ActorKept(next.receiver, prior.receiver) && SameKind(next.receiver, prior.receiver);
    assert Keeps(n[3], p[3]) && Keeps(n[4], p[4]) && Keeps(n[5], p[5]) && Keeps(n[6], p[6]);
  }

  /** The payment schema is one for which the predecessor check protects the whole history. */
  lemma {:induction false} PaymentHistorySafe()
    ensures HistorySafe(ObjectType(PAYMENT_CLASS))
  {
    assert HistorySafe(ObjectType(STATUS_CLASS));
    assert HistorySafe(ObjectType(ACTOR_CLASS));
  }

  /** Payments decoded from JSON have lists for metadata. */
  predicate Decoded(p: Payment)
  {
    DecodedActor(p.sender) && DecodedActor(p.receiver)
  }

  predicate DecodedActor(a: PaymentActor)
  {
    a.metadata.Some? ==> a.metadata.value.Listed?
  }

  lemma {:induction false} ActorTreeTyped(a: PaymentActor)
    requires DecodedActor(a)
    ensures HasType(ActorTree(a), ObjectType(ACTOR_CLASS))
  {
    var s, ss, v, fs := StatusTree(a.status).fields, STATUS_CLASS.fields, ActorTree(a).fields, ACTOR_CLASS.fields;
    assert FieldTyped(s[0], ss[0]) && FieldTyped(s[1], ss[1]) && FieldTyped(s[2], ss[2]);
    assert HasType(StatusTree(a.status), ObjectType(STATUS_CLASS));
    assert FieldTyped(v[0], fs[0]) && FieldTyped(v[1], fs[1]) && FieldTyped(v[2], fs[2]);
    assert FieldTyped(v[3], fs[3]) && FieldTyped(v[4], fs[4]);
  }

  lemma {:induction false} ActionTreeTyped(a: PaymentAction)
    ensures HasType(ActionTree(a), ObjectType(ACTION_CLASS))
  {
    var v, fs := ActionTree(a).fields, ACTION_CLASS.fields;
    assert FieldTyped(v[0], fs[0]) && FieldTyped(v[1], fs[1]) && FieldTyped(v[2], fs[2]);
    assert FieldTyped(v[3], fs[3]) && FieldTyped(v[4], fs[4]);
  }

  lemma {:induction false} PaymentTreeTyped(p: Payment)
    requires Decoded(p)
    ensures HasType(PaymentTree(p), ObjectType(PAYMENT_CLASS))
  {
    ActorTreeTyped(p.sender);
    ActorTreeTyped(p.receiver);
    ActionTreeTyped(p.action);
    var v, fs := PaymentTree(p).fields, PAYMENT_CLASS.fields;
    assert FieldTyped(v[0], fs[0]) && FieldTyped(v[1], fs[1]) && FieldTyped(v[2], fs[2]) && FieldTyped(v[3], fs[3]);
    assert FieldTyped(v[4], fs[4]) && FieldTyped(v[5], fs[5]) && FieldTyped(v[6], fs[6]);
  }

  /** Decoded payments accepted one by one by the validator would be accepted against any earlier one. */
  lemma {:induction false} DecodedHistoryProtected(history: seq<Payment>, i: nat, j: nat)
    requires i <= j < |history|
    requires forall k :: 0 <= k < |history| ==> Decoded(history[k])
    requires forall k :: 0 <= k < |history| - 1 ==>
               ValidateWriteOnce("payment", PaymentTree(history[k + 1]), PaymentTree(history[k])).Accepted?
    ensures WriteOnceKept(history[j], history[i])
  {
    var trees := seq(|history|, k requires 0 <= k < |history| => PaymentTree(history[k]));
    forall k | 0 <= k < |trees| ensures HasType(trees[k], ObjectType(PAYMENT_CLASS)) {
      PaymentTreeTyped(history[k]);
    }
    forall k | 0 <= k < |trees| - 1 ensures ValidateWriteOnce("", trees[k + 1], trees[k]).Accepted? {
      AcceptedMeansKeeps("payment", trees[k + 1], trees[k]);
      AcceptedMeansKeeps("", trees[k + 1], trees[k]);
    }
    PaymentHistorySafe();
    HistoryProtected(ObjectType(PAYMENT_CLASS), trees, i, j);
    AcceptedMeansKeeps("payment", trees[j], trees[i]);
    WriteOnceIsValidator(history[j], history[i]);
  }

  /** Even with payments read back from rows in between, the write-once fields of every earlier one are kept. */
  lemma {:induction false} PaymentHistoryProtected(history: seq<Payment>, i: nat, j: nat)
    requires i <= j < |history|
    requires forall k :: 0 <= k < |history| - 1 ==>
               ValidateWriteOnce("payment", PaymentTree(history[k + 1]), PaymentTree(history[k])).Accepted?
    ensures ProtectedKept(history[j], history[i])
    decreases j
  {
    if i < j {
      PaymentHistoryProtected(history, i, j - 1);
      WriteOnceIsValidator(history[j - 1 + 1], history[j - 1]);
      ProtectedKeptTransitive(history[i], history[j - 1], history[j]);
    }
  }

  lemma {:induction false} ProtectedKeptTransitive(a: Payment, b: Payment, c: Payment)
    requires ProtectedKept(b, a) && ProtectedKept(c, b)
    ensures ProtectedKept(c, a)
  {
  }

  // ---- Producing commands ----

  predicate Truthy(s: Option<string>) { s.Some? && s.value != "" }

  function ReplaceStatus(s: StatusObject, status: Option<Status>, abortCode: Option<string>, abortMessage: Option<string>): StatusObject
  {
    StatusObject(if status.Some? then status.value else s.status,
                 if Truthy(abortCode) then abortCode else s.abortCode,
                 if Truthy(abortMessage) then abortMessage else s.abortMessage)
  }

  /** Appending a list to a list is defined, and appending it to non-empty text raises. */
  predicate Appends(metadata: Option<seq<string>>, a: PaymentActor)
  {
    metadata.Some? && metadata.value != [] && a.metadata.Some? ==> a.metadata.value.Listed?
  }

  function ReplaceActor(a: PaymentActor, status: Option<Status>, kycData: Option<KycData>, additionalKycData: Option<string>,
                        abortCode: Option<string>, abortMessage: Option<string>, metadata: Option<seq<string>>): PaymentActor
    requires Appends(metadata, a)
  {
    PaymentActor(
      a.address,
      ReplaceStatus(a.status, status, abortCode, abortMessage),
      if kycData.Some? then kycData else a.kycData,
      if metadata.Some? && metadata.value != [] then
        Some(Listed((if a.metadata.Some? then a.metadata.value.entries else []) + metadata.value)) else a.metadata,
      if Truthy(additionalKycData) then additionalKycData else a.additionalKycData)
  }

  function WithActor(p: Payment, who: Actor, a: PaymentActor): Payment
  {
    if who.Sender? then p.(sender := a) else p.(receiver := a)
  }

  function NewCommand(c: Command, recipientSignature: Option<string>, status: Option<Status>, kycData: Option<KycData>,
                      additionalKycData: Option<string>, abortCode: Option<string>, abortMessage: Option<string>,
                      inbound: bool, metadata: Option<seq<string>>, cid: string): Command
    requires Appends(metadata, MyActorObject(c))
  {
    var changed := WithActor(c.payment, MyActor(c),
                             ReplaceActor(MyActorObject(c), status, kycData, additionalKycData, abortCode, abortMessage, metadata));
    Command(c.myActorAddress, if Truthy(recipientSignature) then changed.(recipientSignature := recipientSignature) else changed,
            inbound, cid)
  }

  /** Empty text is falsy and replaces nothing. */
  predicate Replaced(now: Option<string>, was: Option<string>, given: Option<string>)
  {
    if given in {None, Some("")} then now == was else now == given
  }

  /**
   * A new command changes the wallet's own actor and the signature only, and of those exactly what is
   * given: metadata is appended, everything else replaced.
   */
  lemma {:induction false} NewCommandChangesOwnActor(c: Command, recipientSignature: Option<string>, status: Option<Status>,
      kycData: Option<KycData>, additionalKycData: Option<string>, abortCode: Option<string>, abortMessage: Option<string>,
      inbound: bool, metadata: Option<seq<string>>, cid: string)
    requires Appends(metadata, MyActorObject(c))
    ensures var n := NewCommand(c, recipientSignature, status, kycData, additionalKycData, abortCode, abortMessage, inbound, metadata, cid);
      var who := if c.payment.sender.address == c.myActorAddress then Sender else Receiver;
      var was, now := ActorObject(c.payment, who), ActorObject(n.payment, who);
      && n.myActorAddress == c.myActorAddress && n.inbound == inbound && n.cid == cid
      && ActorObject(n.payment, Other(who)) == ActorObject(c.payment, Other(who))
      && n.payment.referenceId == c.payment.referenceId && n.payment.action == c.payment.action
      && n.payment.originalPaymentReferenceId == c.payment.originalPaymentReferenceId
      && n.payment.description == c.payment.description
      && Replaced(n.payment.recipientSignature, c.payment.recipientSignature, recipientSignature)
      && now.address == was.address
      && now.status.status == (if status.Some? then status.value else was.status.status)
      && Replaced(now.status.abortCode, was.status.abortCode, abortCode)
      && Replaced(now.status.abortMessage, was.status.abortMessage, abortMessage)
      && now.kycData == (if kycData.Some? then kycData else was.kycData)
      && Replaced(now.additionalKycData, was.additionalKycData, additionalKycData)
      && (metadata in {None, Some([])} ==> now.metadata == was.metadata)
      && (metadata.Some? && metadata.value != [] ==>
            now.metadata == Some(Listed((if was.metadata.Some? then was.metadata.value.entries else []) + metadata.value)))
  {
  }

  /** The wallet's answer to received KYC data: accept, and as receiver send its own data. */
  function EvaluateKyc(c: Command, signature: string, kycData: KycData, cid: string): Command
  {
    if IsReceiver(c) then NewCommand(c, Some(signature), Some(ReadyForSettlement), Some(kycData), None, None, None, false, None, cid)
    else NewCommand(c, None, Some(ReadyForSettlement), None, None, None, None, false, None, cid)
  }

  /**
   * An evaluation is a command to be sent that makes the own side ready; a receiver's brings its data and
   * signature, a sender's changes its status alone.
   */
  lemma {:induction false} EvaluationMakesReady(c: Command, signature: string, kycData: KycData, cid: string)
    requires c.payment.sender.address != c.payment.receiver.address && signature != ""
    requires c.myActorAddress in {c.payment.sender.address, c.payment.receiver.address}
    ensures var n, sending := EvaluateKyc(c, signature, kycData, cid), c.myActorAddress == c.payment.sender.address;
      var now, was := if sending then n.payment.sender else n.payment.receiver, MyActorObject(c);
      && !n.inbound && n.cid == cid && n.myActorAddress == c.myActorAddress
      && now.status == was.status.(status := ReadyForSettlement)
      && now.kycData == (if sending then was.kycData else Some(kycData))
      && n.payment.recipientSignature == (if sending then c.payment.recipientSignature else Some(signature))
      && now == was.(status := now.status, kycData := now.kycData)
      && (if sending then n.payment.receiver == c.payment.receiver else n.payment.sender == c.payment.sender)
  {
  }

  function NewPaymentObject(referenceId: string, senderAddress: string, senderKyc: KycData, receiverAddress: string,
                            amount: int, currency: string, original: Option<string>, description: Option<string>,
                            timestamp: int): Payment
  {
    Payment(referenceId,
            PaymentActor(senderAddress, StatusObject(NeedsKycData, None, None), Some(senderKyc), None, None),
            PaymentActor(receiverAddress, StatusObject(Unset, None, None), None, None, None),
            PaymentAction(amount, currency, None, "charge", timestamp),
            original, None, description)
  }
}
