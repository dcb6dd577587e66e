/**
 * Whole exchanges of payment commands: what must be present when a payment is READY, who may move
 * when, how long an exchange can last, and that honest answers are accepted.
 */
module PaymentRuns {
  import opened Wrappers
  import opened Payments
  import opened PaymentCommands

  /** Commands each accepted by `validate` against the one before, the first against none. */
  predicate AcceptedRun(run: seq<Command>)
  {
    && |run| > 0
    && Validate(run[0], None).Ok?
    && forall i :: 0 <= i < |run| - 1 ==> Validate(run[i + 1], Some(run[i])).Ok?
  }

  lemma {:induction false} StepFacts(c: Command, prior: Command)
    requires Validate(c, Some(prior)).Ok?
    ensures StateFor(prior.payment).Ok? && StateFor(c.payment).Ok?
    ensures Moves(StateFor(prior.payment).value, StateFor(c.payment).value)
    ensures WriteOnceKept(c.payment, prior.payment)
  {
  }

  /** Each accepted command keeps the write-once fields of every earlier one. */
  lemma {:induction false} RunKeepsWriteOnce(run: seq<Command>, i: nat, j: nat)
    requires AcceptedRun(run) && i <= j < |run|
    ensures ProtectedKept(run[j].payment, run[i].payment)
    decreases j
  {
    if i < j {
      RunKeepsWriteOnce(run, i, j - 1);
      assert Validate(run[j - 1 + 1], Some(run[j - 1])).Ok?;
      StepFacts(run[j], run[j - 1]);
      ProtectedKeptTransitive(run[i].payment, run[j - 1].payment, run[j].payment);
    }
  }

  /** Evidence a payment carries once the receiver has answered. */
  predicate Evidence(id: StateId, p: Payment)
  {
    && p.sender.kycData.Some?
    && (id.R_SEND? || id.S_SOFT? || id.R_SOFT_SEND? || id.READY? || id.S_ABORT?
        ==> p.receiver.kycData.Some? && p.recipientSignature.Some?)
  }

  lemma {:induction false} RunCarriesEvidence(run: seq<Command>, i: nat)
    requires AcceptedRun(run) && i < |run|
    ensures StateFor(run[i].payment).Ok? && Evidence(StateFor(run[i].payment).value, run[i].payment)
    ensures i == 0 ==> StateFor(run[i].payment) == Ok(S_INIT)
  {
    if i > 0 {
      RunCarriesEvidence(run, i - 1);
      assert Validate(run[i - 1 + 1], Some(run[i - 1])).Ok?;
      StepFacts(run[i], run[i - 1]);
    }
  }

  /**
   * READY itself checks no data, yet in every accepted run a READY payment has both parties' KYC
   * data and the recipient signature, each with the value first supplied, and the action and both
   * addresses of the first command.
   */
  lemma {:induction false} ReadyCarriesEvidence(run: seq<Command>, n: nat)
    requires AcceptedRun(run) && n < |run| && StateFor(run[n].payment) == Ok(READY)
    ensures var p, first := run[n].payment, run[0].payment;
      && p.sender.kycData.Some? && p.receiver.kycData.Some? && p.recipientSignature.Some?
      && p.sender.kycData == first.sender.kycData
      && p.action == first.action
      && p.sender.address == first.sender.address && p.receiver.address == first.receiver.address
      && (forall i :: 0 <= i <= n && run[i].payment.receiver.kycData.Some?
                      ==> run[i].payment.receiver.kycData == p.receiver.kycData)
      && (forall i :: 0 <= i <= n && run[i].payment.recipientSignature.Some?
                      ==> run[i].payment.recipientSignature == p.recipientSignature)
  {
    RunCarriesEvidence(run, n);
    RunCarriesEvidence(run, 0);
    forall i | 0 <= i <= n ensures ProtectedKept(run[n].payment, run[i].payment) {
      RunKeepsWriteOnce(run, i, n);
    }
  }

  // ---- Two parties taking turns ----

  function AddressOf(p: Payment, a: Actor): string { ActorObject(p, a).address }

  /** The command as its receiving party sees it, and that party's stored copy of the one before. */
  function SeenBy(a: Actor, p: Payment, inbound: bool): Command { Command(AddressOf(p, a), p, inbound, "") }

  /** `parties[i]` is the party that receives and validates the i-th payment against its own copy. */
  predicate AcceptedExchange(ps: seq<Payment>, parties: seq<Actor>)
  {
    && |ps| == |parties| > 0
    && Validate(SeenBy(parties[0], ps[0], true), None).Ok?
    && forall i :: 0 <= i < |ps| - 1 ==> AcceptedNext(ps[i], ps[i + 1], parties[i + 1])
  }

  predicate AcceptedNext(prior: Payment, next: Payment, party: Actor)
  {
    Validate(SeenBy(party, next, true), Some(SeenBy(party, prior, false))).Ok?
  }

  /** Steps still possible after a state. */
  function Rank(id: StateId): nat
  {
    match id
    case S_INIT => 6
    case R_SOFT => 5
    case S_SOFT_SEND => 4
    case R_SEND => 3
    case S_SOFT => 2
    case R_SOFT_SEND => 1
    case _ => 0
  }

  lemma {:induction false} ExchangeState(ps: seq<Payment>, parties: seq<Actor>, i: nat)
    requires AcceptedExchange(ps, parties) && i < |ps|
    ensures StateFor(ps[i]).Ok?
    ensures i + Rank(StateFor(ps[i]).value) <= 6
    ensures ps[i].sender.address != ps[i].receiver.address
    ensures parties[i] == Other(TriggerActor(StateFor(ps[i]).value))
    ensures i == 0 ==> StateFor(ps[i]) == Ok(S_INIT)
  {
    if i > 0 {
      ExchangeState(ps, parties, i - 1);
      assert AcceptedNext(ps[i - 1], ps[i - 1 + 1], parties[i - 1 + 1]);
    }
  }

  /**
   * Turn-taking: in every exchange of inbound commands the producers alternate, starting with the
   * sender; a step leaves the object of the party that did not produce it untouched; and the
   * exchange ends after at most seven commands.
   */
  lemma {:induction false} TurnTaking(ps: seq<Payment>, parties: seq<Actor>)
    requires AcceptedExchange(ps, parties)
    ensures |ps| <= 7
    ensures forall i :: 0 <= i < |ps| ==> StateFor(ps[i]).Ok?
    ensures forall i :: 0 <= i < |ps| ==> TriggerActor(StateFor(ps[i]).value) == if i % 2 == 0 then Sender else Receiver
    ensures forall i :: 0 <= i < |ps| ==> parties[i] == Other(TriggerActor(StateFor(ps[i]).value))
    ensures forall i :: 0 <= i < |ps| - 1 ==> ActorObject(ps[i + 1], parties[i + 1]) == ActorObject(ps[i], parties[i + 1])
  {
    ExchangeState(ps, parties, |ps| - 1);
    forall i | 0 <= i < |ps|
      ensures StateFor(ps[i]).Ok?
      ensures TriggerActor(StateFor(ps[i]).value) == if i % 2 == 0 then Sender else Receiver
      ensures parties[i] == Other(TriggerActor(StateFor(ps[i]).value))
    {
      ExchangeState(ps, parties, i);
      ProducersAlternate(ps, parties, i);
    }
    forall i | 0 <= i < |ps| - 1 ensures ActorObject(ps[i + 1], parties[i + 1]) == ActorObject(ps[i], parties[i + 1]) {
      assert AcceptedNext(ps[i], ps[i + 1], parties[i + 1]);
      ExchangeState(ps, parties, i);
      ExchangeState(ps, parties, i + 1);
    }
  }

  lemma {:induction false} ProducersAlternate(ps: seq<Payment>, parties: seq<Actor>, i: nat)
    requires AcceptedExchange(ps, parties) && i < |ps|
    ensures StateFor(ps[i]).Ok?
    ensures TriggerActor(StateFor(ps[i]).value) == if i % 2 == 0 then Sender else Receiver
  {
    ExchangeState(ps, parties, i);
    if i > 0 {
      ProducersAlternate(ps, parties, i - 1);
      assert AcceptedNext(ps[i - 1], ps[i - 1 + 1], parties[i - 1 + 1]);
    }
  }

  /** The party asked to act in a state is the one whose command any next state must come from. */
  lemma {:induction false} FollowUpIsNextProducer(from: StateId, to: StateId)
    requires Moves(from, to)
    ensures FollowUp(from).Some? && FollowUp(from).value.0 == TriggerActor(to) == Other(TriggerActor(from))
  {
  }

  /** Which action is asked of whom, and in which states. */
  lemma {:induction false} AskedIff(id: StateId, who: Actor)
    ensures FollowUp(id) == Some((who, EvaluateKycData)) <==> (id.S_INIT? && who.Receiver?) || (id.R_SEND? && who.Sender?)
    ensures FollowUp(id) == Some((who, ClearSoftMatch)) <==> (id.R_SOFT? && who.Sender?) || (id.S_SOFT? && who.Receiver?)
    ensures FollowUp(id) == Some((who, ReviewKycData)) <==> (id.S_SOFT_SEND? && who.Receiver?) || (id.R_SOFT_SEND? && who.Sender?)
    ensures FollowUp(id) == Some((who, SubmitTransaction)) <==> id.READY? && who.Sender?
  {
  }

  lemma {:induction false} EndStates(id: StateId)
    ensures (forall to :: !Moves(id, to)) <==> id.READY? || id.S_ABORT? || id.R_ABORT?
    ensures FollowUp(id).None? <==> id.S_ABORT? || id.R_ABORT?
  {
    if id.S_INIT? { assert Moves(id, R_SEND); }
    if id.R_SEND? { assert Moves(id, READY); }
    if id.R_SOFT? { assert Moves(id, S_SOFT_SEND); }
    if id.S_SOFT_SEND? { assert Moves(id, R_SEND); }
    if id.S_SOFT? { assert Moves(id, R_SOFT_SEND); }
    if id.R_SOFT_SEND? { assert Moves(id, READY); }
  }

  /** One more command, legal in state, producer and write-once fields, extends an exchange. */
  lemma {:induction false} ExchangeExtends(ps: seq<Payment>, parties: seq<Actor>, next: Payment, party: Actor)
    requires AcceptedExchange(ps, parties)
    requires var prior := ps[|ps| - 1];
      && StateFor(prior).Ok? && StateFor(next).Ok? && Moves(StateFor(prior).value, StateFor(next).value)
      && TriggerActor(StateFor(next).value) == Other(party)
      && ActorObject(next, party) == ActorObject(prior, party) && WriteOnceKept(next, prior)
    ensures AcceptedExchange(ps + [next], parties + [party])
  {
    var prior := ps[|ps| - 1];
    ExchangeState(ps, parties, |ps| - 1);
    assert AcceptedNext(prior, next, party);
    var ps', parties' := ps + [next], parties + [party];
    forall i | 0 <= i < |ps'| - 1 ensures AcceptedNext(ps'[i], ps'[i + 1], parties'[i + 1]) {
      if i < |ps| - 1 {
        assert AcceptedNext(ps[i], ps[i + 1], parties[i + 1]);
      }
    }
  }

  function WithStatus(a: PaymentActor, s: Status): PaymentActor { a.(status := StatusObject(s, None, None)) }

  /** The receiver soft-matches, the sender clears it, the receiver accepts. */
  lemma {:induction false} ReceiverSoftMatch(p: Payment, extra: string, kycData: KycData, signature: string)
    returns (ps: seq<Payment>, parties: seq<Actor>)
    requires StateFor(p) == Ok(S_INIT) && p.sender.address != p.receiver.address
    requires p.sender.additionalKycData.None? && p.receiver.kycData.None? && p.receiver.additionalKycData.None?
    requires p.recipientSignature.None?
    ensures AcceptedExchange(ps, parties) && |ps| == 4 && ps[0] == p && parties[3] == Sender
    ensures StateFor(ps[3]) == Ok(R_SEND) && ps[3].receiver.additionalKycData.None?
  {
    ps, parties := [p], [Receiver];
    var p1 := p.(receiver := WithStatus(p.receiver, SoftMatch));
    ExchangeExtends(ps, parties, p1, Sender);
    ps, parties := ps + [p1], parties + [Sender];
    var p2 := p1.(sender := p1.sender.(additionalKycData := Some(extra)));
    ExchangeExtends(ps, parties, p2, Receiver);
    ps, parties := ps + [p2], parties + [Receiver];
    var p3 := p2.(receiver := WithStatus(p2.receiver, ReadyForSettlement).(kycData := Some(kycData)), recipientSignature := Some(signature));
    ExchangeExtends(ps, parties, p3, Sender);
    ps, parties := ps + [p3], parties + [Sender];
  }

  /** Seven is reached: then the sender soft-matches, the receiver clears it, the sender accepts. */
  lemma {:induction false} SevenCommandsPossible(p: Payment, extra: string, kycData: KycData, signature: string)
    returns (ps: seq<Payment>, parties: seq<Actor>)
    requires StateFor(p) == Ok(S_INIT) && p.sender.address != p.receiver.address
    requires p.sender.additionalKycData.None? && p.receiver.kycData.None? && p.receiver.additionalKycData.None?
    requires p.recipientSignature.None?
    ensures AcceptedExchange(ps, parties) && |ps| == 7 && ps[0] == p && StateFor(ps[6]) == Ok(READY)
  {
    ps, parties := ReceiverSoftMatch(p, extra, kycData, signature);
    var p3 := ps[3];
    var p4 := p3.(sender := WithStatus(p3.sender, SoftMatch));
    ExchangeExtends(ps, parties, p4, Receiver);
    ps, parties := ps + [p4], parties + [Receiver];
    var p5 := p4.(receiver := p4.receiver.(additionalKycData := Some(extra)));
    ExchangeExtends(ps, parties, p5, Sender);
    ps, parties := ps + [p5], parties + [Sender];
    var p6 := p5.(sender := WithStatus(p5.sender, ReadyForSettlement));
    ExchangeExtends(ps, parties, p6, Receiver);
    ps, parties := ps + [p6], parties + [Receiver];
  }

  // ---- Honest answers are accepted ----

  /**
   * The receiver's answer to an S_INIT payment passes the sender's validation exactly when the
   * payment did not already carry other receiver KYC data or another signature.
   */
  lemma {:induction false} ReceiverAnswerAccepted(p: Payment, signature: string, kycData: KycData, cid: string)
    requires StateFor(p) == Ok(S_INIT) && p.sender.address != p.receiver.address && signature != ""
    ensures var answer := EvaluateKyc(SeenBy(Receiver, p, true), signature, kycData, cid);
      && (AcceptedNext(p, answer.payment, Sender)
          <==> OnceKept(Some(kycData), p.receiver.kycData) && OnceKept(Some(signature), p.recipientSignature))
      && (AcceptedNext(p, answer.payment, Sender) ==> StateFor(answer.payment) == Ok(R_SEND))
  {
  }

  /** The sender's answer to any R_SEND payment passes the receiver's validation and is READY. */
  lemma {:induction false} SenderAnswerAccepted(p: Payment, signature: string, kycData: KycData, cid: string)
    requires StateFor(p) == Ok(R_SEND) && p.sender.address != p.receiver.address
    ensures var answer := EvaluateKyc(SeenBy(Sender, p, true), signature, kycData, cid);
      AcceptedNext(p, answer.payment, Receiver) && StateFor(answer.payment) == Ok(READY)
  {
  }

  /** From a first command built by the library, two evaluations reach READY in both copies. */
  lemma {:induction false} KycPathReachesReady(referenceId: string, senderAddress: string, senderKyc: KycData, receiverAddress: string,
                            amount: int, currency: string, original: Option<string>, description: Option<string>,
                            timestamp: int, signature: string, receiverKyc: KycData, cid: string)
    requires senderAddress != receiverAddress && signature != ""
    ensures var p0 := NewPaymentObject(referenceId, senderAddress, senderKyc, receiverAddress, amount, currency, original, description, timestamp);
      var p1 := EvaluateKyc(SeenBy(Receiver, p0, true), signature, receiverKyc, cid).payment;
      var p2 := EvaluateKyc(SeenBy(Sender, p1, true), signature, receiverKyc, cid).payment;
      && AcceptedExchange([p0, p1, p2], [Receiver, Sender, Receiver])
      && StateFor(p2) == Ok(READY)
      && p2.receiver.kycData == Some(receiverKyc) && p2.recipientSignature == Some(signature)
      && p2.sender.kycData == Some(senderKyc) && p2.action == p0.action
  {
    var p0 := NewPaymentObject(referenceId, senderAddress, senderKyc, receiverAddress, amount, currency, original, description, timestamp);
    var p1 := EvaluateKyc(SeenBy(Receiver, p0, true), signature, receiverKyc, cid).payment;
    ReceiverAnswerAccepted(p0, signature, receiverKyc, cid);
    SenderAnswerAccepted(p1, signature, receiverKyc, cid);
    var ps := [p0, p1, EvaluateKyc(SeenBy(Sender, p1, true), signature, receiverKyc, cid).payment];
    assert AcceptedNext(ps[0], ps[1], Sender);
    assert AcceptedNext(ps[1], ps[2], Receiver);
  }
}
