/**
 * Payment objects of the off-chain protocol (DIP-1) and the nine-state machine that classifies
 * them. The machine is data for the generic `StateMachine`; `Classify` is an independent reading
 * of the same conditions on typed payments.
 */
module Payments {
  import opened Wrappers
  import opened Objects
  import opened StateMachine

  datatype Status = Unset | NeedsKycData | ReadyForSettlement | Abort | SoftMatch | OtherStatus(text: string)

  /** KYC data is compared and stored as a whole, so its canonical JSON text stands for it. */
  datatype KycData = KycData(json: string)

  /** A list of strings, or the text that a text column makes of such a list. */
  datatype Metadata = Listed(entries: seq<string>) | TextOf(entries: seq<string>)

  datatype StatusObject = StatusObject(status: Status, abortCode: Option<string>, abortMessage: Option<string>)

  datatype PaymentAction = PaymentAction(amount: int, currency: string, validUntil: Option<int>, action: string, timestamp: int)

  datatype PaymentActor = PaymentActor(
    address: string, status: StatusObject, kycData: Option<KycData>,
    metadata: Option<Metadata>, additionalKycData: Option<string>)

  datatype Payment = Payment(
    referenceId: string, sender: PaymentActor, receiver: PaymentActor, action: PaymentAction,
    originalPaymentReferenceId: Option<string>, recipientSignature: Option<string>, description: Option<string>)

  // ---- Payments as attribute trees ----

  datatype PaymentAtom = Text(text: string) | Number(number: int) | Code(status: Status) | Texts(texts: seq<string>) | Kyc(kyc: KycData)

  type Tree = Value<PaymentAtom>

  function Plain(name: string, ty: string): Field { Field(name, AtomType(ty), false, false, false) }

  function Optional(name: string, ty: string): Field { Field(name, AtomType(ty), true, false, false) }

  function OptionalOnce(name: string, ty: string): Field { Field(name, AtomType(ty), true, false, true) }

  const STATUS_CLASS := Class("StatusObject", [Plain("status", "str"), Optional("abort_code", "str"), Optional("abort_message", "str")])

  const ACTION_CLASS := Class("PaymentActionObject", [
    Plain("amount", "int"), Plain("currency", "str"), Optional("valid_until", "int"), Plain("action", "str"), Plain("timestamp", "int")])

  const ACTOR_CLASS := Class("PaymentActorObject", [
    Field("address", AtomType("str"), false, false, true),
    Field("status", ObjectType(STATUS_CLASS), false, false, false),
    OptionalOnce("kyc_data", "KycDataObject"),
    Optional("metadata", "list"),
    OptionalOnce("additional_kyc_data", "str")])

  const PAYMENT_CLASS := Class("PaymentObject", [
    Plain("reference_id", "str"),
    Field("sender", ObjectType(ACTOR_CLASS), false, false, false),
    Field("receiver", ObjectType(ACTOR_CLASS), false, false, false),
    Field("action", ObjectType(ACTION_CLASS), false, false, true),
    Field("original_payment_reference_id", AtomType("str"), true, true, false),
    OptionalOnce("recipient_signature", "str"),
    OptionalOnce("description", "str")])

  function Str(s: string): Tree { Atom("str", Text(s)) }

  function Int(n: int): Tree { Atom("int", Number(n)) }

  function OptStr(s: Option<string>): Tree { if s.Some? then Str(s.value) else Null }

  function OptInt(n: Option<int>): Tree { if n.Some? then Int(n.value) else Null }

  function StatusTree(s: StatusObject): Tree
  {
    Object(STATUS_CLASS, [Atom("str", Code(s.status)), OptStr(s.abortCode), OptStr(s.abortMessage)])
  }

  function ActionTree(a: PaymentAction): Tree
  {
    Object(ACTION_CLASS, [Int(a.amount), Str(a.currency), OptInt(a.validUntil), Str(a.action), Int(a.timestamp)])
  }

  function KycTree(kyc: Option<KycData>): Tree { if kyc.Some? then Atom("KycDataObject", Kyc(kyc.value)) else Null }

  function MetadataTree(metadata: Option<Metadata>): Tree
  {
    match metadata
    case None => Null
    case Some(Listed(entries)) => Atom("list", Texts(entries))
    case Some(TextOf(entries)) => Atom("str", Texts(entries))
  }

  function ActorTree(a: PaymentActor): Tree
  {
    Object(ACTOR_CLASS, [Str(a.address), StatusTree(a.status), KycTree(a.kycData), MetadataTree(a.metadata), OptStr(a.additionalKycData)])
  }

  function PaymentTree(p: Payment): Tree
  {
    Object(PAYMENT_CLASS, [
      Str(p.referenceId), ActorTree(p.sender), ActorTree(p.receiver), ActionTree(p.action),
      OptStr(p.originalPaymentReferenceId), OptStr(p.recipientSignature), OptStr(p.description)])
  }

  // ---- The nine states ----

  datatype StateId = S_INIT | S_ABORT | S_SOFT | S_SOFT_SEND | READY | R_ABORT | R_SOFT | R_SOFT_SEND | R_SEND

  type PaymentState = State<StateId, PaymentAtom>

  type PaymentCondition = Condition<PaymentAtom>

  function StatusIs(actor: string, s: Status): PaymentCondition { ValueIs([actor, "status", "status"], Code(s)) }

  function StatusOneOf(actor: string, s1: Status, s2: Status): PaymentCondition
  {
    OneOfValues([actor, "status", "status"], Code(s1), Code(s2))
  }

  function Set(path: Path): PaymentCondition { FieldIs(path, false) }

  function NotSet(path: Path): PaymentCondition { FieldIs(path, true) }

  /** The conditions of each state, and the validation that must then hold as well. */
  function Conditions(id: StateId): seq<PaymentCondition>
  {
    match id
    case S_INIT => [StatusIs("sender", NeedsKycData), StatusIs("receiver", Unset)]
    case S_ABORT => [StatusIs("sender", Abort), StatusOneOf("receiver", ReadyForSettlement, Unset)]
    case S_SOFT => [StatusIs("sender", SoftMatch), StatusIs("receiver", ReadyForSettlement), NotSet(["receiver", "additional_kyc_data"])]
    case S_SOFT_SEND => [StatusIs("sender", NeedsKycData), StatusIs("receiver", SoftMatch), Set(["sender", "additional_kyc_data"])]
    case READY => [StatusIs("sender", ReadyForSettlement), StatusIs("receiver", ReadyForSettlement)]
    case R_ABORT => [StatusIs("sender", NeedsKycData), StatusIs("receiver", Abort)]
    case R_SOFT => [StatusIs("sender", NeedsKycData), StatusIs("receiver", SoftMatch), NotSet(["sender", "additional_kyc_data"])]
    case R_SOFT_SEND => [StatusIs("sender", SoftMatch), StatusIs("receiver", ReadyForSettlement), Set(["receiver", "additional_kyc_data"])]
    case R_SEND => [StatusIs("sender", NeedsKycData), StatusIs("receiver", ReadyForSettlement)]
  }

  function Validation(id: StateId): Option<PaymentCondition>
  {
    match id
    case S_INIT => Some(Set(["sender", "kyc_data"]))
    case R_SEND => Some(Require([Set(["receiver", "kyc_data"]), Set(["recipient_signature"])], None))
    case _ => None
  }

  function StateOf(id: StateId): PaymentState { State(id, Some(Require(Conditions(id), Validation(id)))) }

  /** The transition list, by state ids. */
  const EDGES: seq<(StateId, StateId)> := [
    (S_INIT, R_SEND), (S_INIT, R_ABORT), (S_INIT, R_SOFT),
    (R_SEND, READY), (R_SEND, S_ABORT), (R_SEND, S_SOFT),
    (R_SOFT, S_SOFT_SEND), (S_SOFT_SEND, R_ABORT), (S_SOFT_SEND, R_SEND),
    (S_SOFT, R_SOFT_SEND), (R_SOFT_SEND, S_ABORT), (R_SOFT_SEND, READY)]

  function Transitions(): seq<Transition<StateId, PaymentAtom>> { EdgeTransitions(EDGES, StateOf) }

  /** The states in the order the transition list first names them. */
  const STATE_ORDER: seq<StateId> := [S_INIT, R_SEND, R_ABORT, R_SOFT, READY, S_ABORT, S_SOFT, S_SOFT_SEND, R_SOFT_SEND]

  function PaymentMachine(): Machine<StateId, PaymentAtom>
  {
    Machine(set id | id in {S_INIT} :: StateOf(id), StatesOf(STATE_ORDER, StateOf), Transitions())
  }

  /** The legal moves, as a relation on states. */
  predicate Moves(from: StateId, to: StateId)
  {
    match from
    case S_INIT => to == R_SEND || to == R_ABORT || to == R_SOFT
    case R_SEND => to == READY || to == S_ABORT || to == S_SOFT
    case R_SOFT => to == S_SOFT_SEND
    case S_SOFT_SEND => to == R_ABORT || to == R_SEND
    case S_SOFT => to == R_SOFT_SEND
    case R_SOFT_SEND => to == S_ABORT || to == READY
    case _ => false
  }

  lemma {:induction false} EdgesAreMoves(from: StateId, to: StateId)
    ensures (from, to) in EDGES <==> Moves(from, to)
  {
    assert EDGES[0] == (S_INIT, R_SEND) && EDGES[1] == (S_INIT, R_ABORT) && EDGES[2] == (S_INIT, R_SOFT);
    assert EDGES[3] == (R_SEND, READY) && EDGES[4] == (R_SEND, S_ABORT) && EDGES[5] == (R_SEND, S_SOFT);
    assert EDGES[6] == (R_SOFT, S_SOFT_SEND) && EDGES[7] == (S_SOFT_SEND, R_ABORT) && EDGES[8] == (S_SOFT_SEND, R_SEND);
    assert EDGES[9] == (S_SOFT, R_SOFT_SEND) && EDGES[10] == (R_SOFT_SEND, S_ABORT) && EDGES[11] == (R_SOFT_SEND, READY);
  }

  lemma {:induction false} MovesAreTransitions(from: StateId, to: StateId)
    ensures IsValidTransition(PaymentMachine(), StateOf(from), StateOf(to)) <==> Moves(from, to)
  {
    EdgesAreMoves(from, to);
    EdgesConnect(EDGES, StateOf, from, to);
  }

  lemma {:induction false} StateListed(id: StateId)
    ensures id in STATE_ORDER
    ensures OnEdge(EDGES, id)
    ensures LedTo(EDGES, id) <==> id != S_INIT
  {
    var i := match id
      case S_INIT => 0 case R_SEND => 1 case R_ABORT => 2 case R_SOFT => 3 case READY => 4 case S_ABORT => 5
      case S_SOFT => 6 case S_SOFT_SEND => 7 case R_SOFT_SEND => 8;
    assert STATE_ORDER[i] == id;
    assert EDGES[0] == (S_INIT, R_SEND) && EDGES[1] == (S_INIT, R_ABORT) && EDGES[2] == (S_INIT, R_SOFT);
    assert EDGES[3] == (R_SEND, READY) && EDGES[4] == (R_SEND, S_ABORT) && EDGES[5] == (R_SEND, S_SOFT);
    assert EDGES[6] == (R_SOFT, S_SOFT_SEND) && EDGES[9] == (S_SOFT, R_SOFT_SEND);
  }

  lemma {:induction false} OrderDistinct()
    ensures forall i, j :: 0 <= i < j < |STATE_ORDER| ==> STATE_ORDER[i] != STATE_ORDER[j]
  {
  }

  /** The machine is what the builder makes of the transition list: one initial state. */
  lemma {:induction false} MachineIsBuilt()
    ensures BuiltFrom(PaymentMachine(), Transitions())
  {
    forall id: StateId
      ensures id in STATE_ORDER <==> OnEdge(EDGES, id)
      ensures id in {S_INIT} <==> OnEdge(EDGES, id) && !LedTo(EDGES, id)
    {
      StateListed(id);
    }
    OrderDistinct();
    EdgesBuild(EDGES, STATE_ORDER, {S_INIT}, StateOf);
  }

  // ---- Reading the fields a state looks at ----

  lemma {:induction false} PaymentAttributes(p: Payment)
    ensures GetAttr(PaymentTree(p), "sender") == Some(ActorTree(p.sender))
    ensures GetAttr(PaymentTree(p), "receiver") == Some(ActorTree(p.receiver))
    ensures GetAttr(PaymentTree(p), "recipient_signature") == Some(OptStr(p.recipientSignature))
  {
    var fields := PAYMENT_CLASS.fields;
    assert fields[1].name == "sender" && fields[2].name == "receiver" && fields[5].name == "recipient_signature";
    assert fields[3].name[0] == 'a';
  }

  lemma {:induction false} ActorAttributes(a: PaymentActor)
    ensures GetAttr(ActorTree(a), "status") == Some(StatusTree(a.status))
    ensures GetAttr(ActorTree(a), "kyc_data") == Some(KycTree(a.kycData))
    ensures GetAttr(ActorTree(a), "additional_kyc_data") == Some(OptStr(a.additionalKycData))
  {
    var fields := ACTOR_CLASS.fields;
    assert fields[1].name == "status" && fields[2].name == "kyc_data" && fields[4].name == "additional_kyc_data";
    assert fields[3].name[0] == 'm';
  }

  lemma {:induction false} StatusAttributes(s: StatusObject)
    ensures GetAttr(StatusTree(s), "status") == Some(Atom("str", Code(s.status)))
  {
  }

  lemma {:induction false} WalkOne(v: Tree, a: string)
    ensures Walk(v, [a]) == GetAttr(v, a)
  {
  }

  lemma {:induction false} WalkTwo(v: Tree, a: string, b: string)
    ensures Walk(v, [a, b]) == match GetAttr(v, a) case Some(next) => GetAttr(next, b) case None => None
  {
    assert [a, b][1..] == [b];
    match GetAttr(v, a)
    case Some(next) => WalkOne(next, b);
    case None =>
  }

  lemma {:induction false} WalkThree(v: Tree, a: string, b: string, c: string)
    ensures Walk(v, [a, b, c]) == match GetAttr(v, a) case Some(next) => Walk(next, [b, c]) case None => None
  {
  }

  /** The seven paths the machine looks at, read off the typed payment. */
  lemma {:induction false} Paths(p: Payment)
    ensures Walk(PaymentTree(p), ["sender", "status", "status"]) == Some(Atom("str", Code(p.sender.status.status)))
    ensures Walk(PaymentTree(p), ["receiver", "status", "status"]) == Some(Atom("str", Code(p.receiver.status.status)))
    ensures Walk(PaymentTree(p), ["sender", "kyc_data"]) == Some(KycTree(p.sender.kycData))
    ensures Walk(PaymentTree(p), ["receiver", "kyc_data"]) == Some(KycTree(p.receiver.kycData))
    ensures Walk(PaymentTree(p), ["sender", "additional_kyc_data"]) == Some(OptStr(p.sender.additionalKycData))
    ensures Walk(PaymentTree(p), ["receiver", "additional_kyc_data"]) == Some(OptStr(p.receiver.additionalKycData))
    ensures Walk(PaymentTree(p), ["recipient_signature"]) == Some(OptStr(p.recipientSignature))
  {
    var v := PaymentTree(p);
    PaymentAttributes(p);
    ActorAttributes(p.sender);
    ActorAttributes(p.receiver);
    StatusAttributes(p.sender.status);
    StatusAttributes(p.receiver.status);
    WalkThree(v, "sender", "status", "status");
    WalkThree(v, "receiver", "status", "status");
    WalkTwo(ActorTree(p.sender), "status", "status");
    WalkTwo(ActorTree(p.receiver), "status", "status");
    WalkTwo(v, "sender", "kyc_data");
    WalkTwo(v, "receiver", "kyc_data");
    WalkTwo(v, "sender", "additional_kyc_data");
    WalkTwo(v, "receiver", "additional_kyc_data");
    WalkOne(v, "recipient_signature");
  }

  // ---- The typed reading ----

  datatype Classification = InState(id: StateId) | Unmatched | Incomplete

  function Classify(p: Payment): Classification
  {
    match (p.sender.status.status, p.receiver.status.status)
    case (NeedsKycData, Unset) => if p.sender.kycData.Some? then InState(S_INIT) else Incomplete
    case (NeedsKycData, ReadyForSettlement) =>
      if p.receiver.kycData.Some? && p.recipientSignature.Some? then InState(R_SEND) else Incomplete
    case (NeedsKycData, Abort) => InState(R_ABORT)
    case (NeedsKycData, SoftMatch) => if p.sender.additionalKycData.Some? then InState(S_SOFT_SEND) else InState(R_SOFT)
    case (Abort, ReadyForSettlement) => InState(S_ABORT)
    case (Abort, Unset) => InState(S_ABORT)
    case (SoftMatch, ReadyForSettlement) => if p.receiver.additionalKycData.Some? then InState(R_SOFT_SEND) else InState(S_SOFT)
    case (ReadyForSettlement, ReadyForSettlement) => InState(READY)
    case _ => Unmatched
  }

  predicate Holds(c: PaymentCondition, v: Tree) { Match(c, v).Matched? && Match(c, v).result.success }

  lemma {:induction false} TwoConditions(c1: PaymentCondition, c2: PaymentCondition, v: Tree)
    requires !c1.Require? && !c2.Require?
    ensures MatchAll([c1, c2], v).Matched?
    ensures MatchAll([c1, c2], v).result.success <==> Holds(c1, v) && Holds(c2, v)
  {
    MatchAllSucceeds([c1, c2], v);
  }

  lemma {:induction false} ThreeConditions(c1: PaymentCondition, c2: PaymentCondition, c3: PaymentCondition, v: Tree)
    requires !c1.Require? && !c2.Require? && !c3.Require?
    ensures MatchAll([c1, c2, c3], v).Matched?
    ensures MatchAll([c1, c2, c3], v).result.success <==> Holds(c1, v) && Holds(c2, v) && Holds(c3, v)
  {
    var cs := [c1, c2, c3];
    MatchAllSucceeds(cs, v);
    assert cs[0] == c1 && cs[1] == c2 && cs[2] == c3;
  }

  lemma {:induction false} RequireOutcome(conds: seq<PaymentCondition>, validation: Option<PaymentCondition>, v: Tree)
    requires MatchAll(conds, v).Matched?
    ensures Match(Require(conds, validation), v).Raised?
            <==> MatchAll(conds, v).result.success && validation.Some? && !Holds(validation.value, v)
    ensures Holds(Require(conds, validation), v)
            <==> MatchAll(conds, v).result.success && (validation.Some? ==> Holds(validation.value, v))
  {
  }

  /** Which payments satisfy the conditions of a state, before its validation. */
  predicate Fits(id: StateId, p: Payment)
  {
    var s, r := p.sender.status.status, p.receiver.status.status;
    match id
    case S_INIT => s.NeedsKycData? && r.Unset?
    case S_ABORT => s.Abort? && (r.ReadyForSettlement? || r.Unset?)
    case S_SOFT => s.SoftMatch? && r.ReadyForSettlement? && p.receiver.additionalKycData.None?
    case S_SOFT_SEND => s.NeedsKycData? && r.SoftMatch? && p.sender.additionalKycData.Some?
    case READY => s.ReadyForSettlement? && r.ReadyForSettlement?
    case R_ABORT => s.NeedsKycData? && r.Abort?
    case R_SOFT => s.NeedsKycData? && r.SoftMatch? && p.sender.additionalKycData.None?
    case R_SOFT_SEND => s.SoftMatch? && r.ReadyForSettlement? && p.receiver.additionalKycData.Some?
    case R_SEND => s.NeedsKycData? && r.ReadyForSettlement?
  }

  predicate Complete(id: StateId, p: Payment)
  {
    match id
    case S_INIT => p.sender.kycData.Some?
    case R_SEND => p.receiver.kycData.Some? && p.recipientSignature.Some?
    case _ => true
  }

  lemma {:induction false} TwoConditionsFit(id: StateId, p: Payment)
    requires |Conditions(id)| == 2
    ensures MatchAll(Conditions(id), PaymentTree(p)).Matched?
    ensures MatchAll(Conditions(id), PaymentTree(p)).result.success <==> Fits(id, p)
  {
    Paths(p);
    var cs := Conditions(id);
    assert cs == [cs[0], cs[1]];
    TwoConditions(cs[0], cs[1], PaymentTree(p));
  }

  lemma {:induction false} ThreeConditionsFit(id: StateId, p: Payment)
    requires |Conditions(id)| == 3
    ensures MatchAll(Conditions(id), PaymentTree(p)).Matched?
    ensures MatchAll(Conditions(id), PaymentTree(p)).result.success <==> Fits(id, p)
  {
    Paths(p);
    var cs := Conditions(id);
    assert cs == [cs[0], cs[1], cs[2]];
    ThreeConditions(cs[0], cs[1], cs[2], PaymentTree(p));
  }

  lemma {:induction false} ConditionsFit(id: StateId, p: Payment)
    ensures MatchAll(Conditions(id), PaymentTree(p)).Matched?
    ensures MatchAll(Conditions(id), PaymentTree(p)).result.success <==> Fits(id, p)
  {
    if |Conditions(id)| == 2 {
      TwoConditionsFit(id, p);
    } else {
      ThreeConditionsFit(id, p);
    }
  }

  lemma {:induction false} ValidationComplete(id: StateId, p: Payment)
    ensures Validation(id).Some? ==> (Holds(Validation(id).value, PaymentTree(p)) <==> Complete(id, p))
    ensures Validation(id).None? ==> Complete(id, p)
  {
    Paths(p);
    if id.R_SEND? {
      TwoConditions(Set(["receiver", "kyc_data"]), Set(["recipient_signature"]), PaymentTree(p));
      RequireOutcome([Set(["receiver", "kyc_data"]), Set(["recipient_signature"])], None, PaymentTree(p));
    }
  }

  lemma {:induction false} StateMatches(id: StateId, p: Payment)
    ensures Succeeds(StateOf(id), PaymentTree(p)) <==> Fits(id, p) && Complete(id, p)
    ensures MatchOne(StateOf(id), PaymentTree(p)).Raised? <==> Fits(id, p) && !Complete(id, p)
  {
    ConditionsFit(id, p);
    ValidationComplete(id, p);
    RequireOutcome(Conditions(id), Validation(id), PaymentTree(p));
    assert MatchOne(StateOf(id), PaymentTree(p)) == Match(Require(Conditions(id), Validation(id)), PaymentTree(p));
  }

  function FitsFully(p: Payment): StateId -> bool { (id: StateId) => Fits(id, p) && Complete(id, p) }

  function FitsPartly(p: Payment): StateId -> bool { (id: StateId) => Fits(id, p) && !Complete(id, p) }

  lemma {:induction false} StatesTake(p: Payment)
    ensures Takes(STATE_ORDER, StateOf, PaymentTree(p), FitsFully(p), FitsPartly(p))
  {
    forall id: StateId
      ensures Succeeds(StateOf(id), PaymentTree(p)) <==> FitsFully(p)(id)
      ensures MatchOne(StateOf(id), PaymentTree(p)).Raised? <==> FitsPartly(p)(id)
    {
      StateMatches(id, p);
    }
  }

  lemma {:induction false} ClassifyByFits(p: Payment)
    ensures forall id :: Classify(p) == InState(id) <==> Fits(id, p) && Complete(id, p)
    ensures Classify(p).Incomplete? <==> exists id :: Fits(id, p) && !Complete(id, p)
    ensures forall a, b :: Fits(a, p) && Fits(b, p) ==> a == b
  {
    if Classify(p).Incomplete? {
      var id := if p.receiver.status.status.Unset? then S_INIT else R_SEND;
      assert Fits(id, p) && !Complete(id, p);
    }
  }

  /** What the machine answers, in terms of the states a payment fits. */
  lemma {:induction false} MatchByFits(p: Payment)
    ensures (exists id :: FitsPartly(p)(id)) ==> MatchState(PaymentMachine(), PaymentTree(p)).ValidationRaised?
    ensures (forall id :: !FitsPartly(p)(id)) ==>
              && (forall id :: FitsFully(p)(id) && (forall other :: FitsFully(p)(other) ==> other == id)
                               ==> MatchState(PaymentMachine(), PaymentTree(p)) == StateFound(StateOf(id)))
              && ((forall id :: !FitsFully(p)(id)) ==> MatchState(PaymentMachine(), PaymentTree(p)) == NoStateMatched)
  {
    StatesTake(p);
    OrderDistinct();
    forall id: StateId ensures id in STATE_ORDER {
      StateListed(id);
    }
    MatchByIds(PaymentMachine(), STATE_ORDER, StateOf, PaymentTree(p), FitsFully(p), FitsPartly(p));
  }

  /** The machine on the attribute tree and the typed reading agree on every payment. */
  lemma {:induction false} ClassifyIsMatchState(p: Payment)
    ensures match Classify(p)
      case InState(id) => MatchState(PaymentMachine(), PaymentTree(p)) == StateFound(StateOf(id))
      case Unmatched => MatchState(PaymentMachine(), PaymentTree(p)) == NoStateMatched
      case Incomplete => MatchState(PaymentMachine(), PaymentTree(p)).ValidationRaised?
  {
    ClassifyByFits(p);
    MatchByFits(p);
    match Classify(p)
    case InState(id) => assert FitsFully(p)(id);
    case Unmatched =>
    case Incomplete =>
      var id :| Fits(id, p) && !Complete(id, p);
      assert FitsPartly(p)(id);
  }

  lemma {:induction false} AtMostOneState(p: Payment)
    ensures MatchState(PaymentMachine(), PaymentTree(p)) != TooManyStatesMatched
    ensures forall a, b :: Fits(a, p) && Fits(b, p) ==> a == b
  {
    ClassifyIsMatchState(p);
    ClassifyByFits(p);
  }
}
