/**
 * Exactly-once crediting: runs of the subscription and its background worker, with exceptions in
 * the middle of a batch, crashes before the position is saved, a progress file lost or torn,
 * redelivery in any order, and user calls in between.
 */
module ExactlyOnce {
  import opened Wrappers
  import opened Ledger
  import opened Transfers
  import opened AccountEffects
  import opened LedgerSafety
  import opened PubSub

  /** `memory` is the position held by a running client; `refundSends` logs every refund attempt. */
  datatype System = System(
    wallet: Wallet, queue: seq<Event>, file: Option<Progress>, memory: Option<Progress>, refundSends: seq<Event>)

  datatype Action =
    | Restart(accountKeys: seq<Option<string>>)
    | Round(after: Progress, handedOver: seq<Event>)
    | Crash(handedOver: seq<Event>, fileTorn: bool)
    | Deliver(message: nat, drawn: Drawn, acknowledged: bool)
    | DeliverCutShort(message: nat)
    | UserCall(call: Call)

  function SavedProgress(file: Option<Progress>): Progress { if file.Some? then file.value else map[] }

  /** The message names a subaddress nobody owns and is not recorded yet: the worker sends a refund. */
  predicate TriggersRefund(w: Wallet, e: Event)
  {
    && e.metadata.General? && e.metadata.toSubaddress.Some?
    && AccountOf(w, e.metadata.toSubaddress).None?
    && !Known(w.rows, e.sender, e.metadata.fromSubaddress, e.sequence)
  }

  function Without(queue: seq<Event>, i: nat): (r: seq<Event>)
    requires i < |queue|
    ensures forall e :: e in r ==> e in queue
    ensures forall e :: e in queue ==> e in r || e == queue[i]
  {
    assert queue == queue[..i] + [queue[i]] + queue[i + 1..];
    queue[..i] + queue[i + 1..]
  }

  function NotedOnly(w: Wallet, e: Event): Wallet
    requires e.metadata.General?
  {
    w.(rows := w.rows + [CreditRow(e, NeedRefund, e.metadata.fromSubaddress, Some(w.inventoryId), None)])
  }

  /**
   * One atomic step. A crash can strike anywhere in a round, so any stream events may have been
   * handed over by then. A message leaves the queue only after it was processed without an
   * exception, and even then it may be delivered again.
   */
  ghost predicate Next(streams: Streams, s: System, a: Action, s': System)
  {
    match a
    case Restart(accountKeys) =>
      s' == s.(memory := Some(InitialProgress(SavedProgress(s.file), accountKeys)))
    case Round(after, handedOver) =>
      && s.memory.Some?
      && RoundEffect(streams, s.memory.value, after, s.queue, s.queue + handedOver)
      && s' == s.(queue := s.queue + handedOver, file := Some(after), memory := Some(after))
    case Crash(handedOver, fileTorn) =>
      && (forall e :: e in handedOver ==> Carries(streams, e))
      && s' == s.(queue := s.queue + handedOver, file := if fileTorn then None else s.file, memory := None)
    case Deliver(message, drawn, acknowledged) =>
      && message < |s.queue|
      && var e := s.queue[message];
         var (wallet, result) := AfterReceive(s.wallet, e, drawn);
         s' == s.(wallet := wallet,
                  queue := if acknowledged && result.Ok? then Without(s.queue, message) else s.queue,
                  refundSends := if TriggersRefund(s.wallet, e) then s.refundSends + [e] else s.refundSends)
    case DeliverCutShort(message) =>
      && message < |s.queue|
      && TriggersRefund(s.wallet, s.queue[message])
      && s' == s.(wallet := NotedOnly(s.wallet, s.queue[message]))
    case UserCall(call) =>
      && !call.IncomingPayment?
      && s' == s.(wallet := Step(s.wallet, call))
  }

  /** Nothing received yet: every row so far was written by the wallet's own transfers. */
  predicate Initial(s: System)
  {
    && (forall i :: 0 <= i < |s.wallet.rows| ==> !Foreign(s.wallet, s.wallet.rows[i]))
    && s.queue == [] && s.file == None && s.memory == None && s.refundSends == []
  }

  predicate Foreign(w: Wallet, tx: Transaction)
  {
    tx.sourceAddress.Some? && tx.sourceAddress.value != w.vaspAddress
  }

  /** Processing `other` may leave a row that is taken for the one of the general event `e`. */
  predicate MayBeTakenFor(other: Event, e: Event)
  {
    && e.metadata.General? && other.sender == e.sender && other.sequence == e.sequence
    && (other.metadata.General? ==> other.metadata.fromSubaddress == e.metadata.fromSubaddress)
    && !other.metadata.Unrecognised?
  }

  /** Senders are other wallets, and no event is taken for another. */
  ghost predicate Identified(streams: Streams, vaspAddress: string)
  {
    && (forall e :: Carries(streams, e) ==> e.sender != vaspAddress)
    && (forall e, other :: Carries(streams, e) && Carries(streams, other) && MayBeTakenFor(other, e) ==> other == e)
  }

  // ---- The invariant ----

  predicate Matches(tx: Transaction, e: Event)
  {
    e.metadata.General? && HasDetails(tx, e.sender, e.metadata.fromSubaddress, e.sequence)
  }

  /** The row is the ledger entry of this event and of no other payment. */
  predicate Records(tx: Transaction, e: Event)
  {
    && tx.kind.External? && tx.amount == e.amount && tx.sourceId.None?
    && tx.version == Some(e.version) && tx.destinationAddress == Some(e.receiver)
    && tx.destinationId.Some?
    && (tx.status.Completed? || tx.status.NeedRefund?)
  }

  predicate CameFrom(tx: Transaction, e: Event)
  {
    && tx.sourceAddress == Some(e.sender) && tx.sequence == Some(e.sequence) && !tx.status.Pending?
    && (e.metadata.General? ==> tx.sourceSubaddress == e.metadata.fromSubaddress) && !e.metadata.Unrecognised?
  }

  predicate HasRow(rows: Table, e: Event) { exists i :: 0 <= i < |rows| && Matches(rows[i], e) }

  predicate Accounted(s: System, e: Event)
  {
    e in s.queue || (e.metadata.General? ==> HasRow(s.wallet.rows, e))
  }

  ghost predicate OriginsKnown(streams: Streams, w: Wallet)
  {
    forall i :: 0 <= i < |w.rows| && Foreign(w, w.rows[i]) ==> exists e :: Carries(streams, e) && CameFrom(w.rows[i], e)
  }

  ghost predicate OneRowEach(streams: Streams, rows: Table)
  {
    && (forall e, i, j :: Carries(streams, e) && 0 <= i < |rows| && 0 <= j < |rows| && Matches(rows[i], e) && Matches(rows[j], e)
                          ==> i == j)
    && (forall e, i :: Carries(streams, e) && 0 <= i < |rows| && Matches(rows[i], e) ==> Records(rows[i], e))
  }

  ghost predicate PassedAccounted(streams: Streams, progress: Progress, s: System)
  {
    && InRange(streams, progress)
    && (forall key, i :: key in progress && key in streams && 0 <= i < progress[key] && i < |streams[key]|
                         ==> Accounted(s, streams[key][i]))
  }

  ghost predicate RefundsOnce(s: System)
  {
    && (forall i, j :: 0 <= i < j < |s.refundSends| ==> s.refundSends[i] != s.refundSends[j])
    && (forall i :: 0 <= i < |s.refundSends| ==> HasRow(s.wallet.rows, s.refundSends[i]))
  }

  ghost predicate Invariant(streams: Streams, s: System)
  {
    && OriginsKnown(streams, s.wallet)
    && OneRowEach(streams, s.wallet.rows)
    && (forall e :: e in s.queue ==> Carries(streams, e))
    && PassedAccounted(streams, SavedProgress(s.file), s)
    && (s.memory.Some? ==> PassedAccounted(streams, s.memory.value, s))
    && RefundsOnce(s)
    && (forall e :: e in s.refundSends ==> Carries(streams, e))
  }

  // ---- How one call changes the rows ----

  /** Old foreign rows stay put, other old rows stay ours, and new rows are ours or from `e`. */
  ghost predicate Grows(w: Wallet, w': Wallet, e: Option<Event>)
  {
    && w'.vaspAddress == w.vaspAddress
    && |w.rows| <= |w'.rows|
    && (forall i :: 0 <= i < |w.rows| && Foreign(w, w.rows[i]) ==> w'.rows[i] == w.rows[i] || w.rows[i].status.Pending?)
    && (forall i :: 0 <= i < |w.rows| && !Foreign(w, w.rows[i]) ==> !Foreign(w, w'.rows[i]))
    && (forall i :: |w.rows| <= i < |w'.rows| && Foreign(w, w'.rows[i]) ==> e.Some? && CameFrom(w'.rows[i], e.value))
  }

  lemma {:induction false} SendGrows(w: Wallet, sender: int, amount: int, address: string, subaddress: Option<string>,
                  kind: Option<TransactionType>, original: Option<nat>, drawn: Drawn)
    ensures Grows(w, AfterSend(w, sender, amount, address, subaddress, kind, original, drawn).0, None)
    ensures w.rows <= AfterSend(w, sender, amount, address, subaddress, kind, original, drawn).0.rows
  {
  }

  lemma {:induction false} UserCallGrows(w: Wallet, c: Call)
    requires !c.IncomingPayment?
    ensures Grows(w, Step(w, c), None)
  {
    match c
    case UserTransfer(sender, amount, address, subaddress, drawn) =>
      SendGrows(w, sender, amount, address, subaddress, None, None, drawn);
    case OrderTransfer(_, _, _, _) =>
    case ChainSubmission(_, _) =>
  }

  lemma {:induction false} ReceiveGrows(w: Wallet, e: Event, drawn: Drawn)
    ensures Grows(w, AfterReceive(w, e, drawn).0, Some(e))
  {
    if TriggersRefund(w, e) {
      SendGrows(NotedOnly(w, e), w.inventoryId, e.amount, e.sender, e.metadata.fromSubaddress, Some(Refund), Some(|w.rows|), drawn);
    }
  }

  lemma {:induction false} KnownIsRecorded(rows: Table, e: Event)
    requires e.metadata.General?
    ensures Known(rows, e.sender, e.metadata.fromSubaddress, e.sequence) <==> HasRow(rows, e)
  {
  }

  /** Whom an unrecorded general-metadata payment credits. */
  predicate CreditsRightly(w: Wallet, tx: Transaction, e: Event)
    requires e.metadata.General?
  {
    var to := e.metadata.toSubaddress;
    if to.Some? && AccountOf(w, to).Some? then tx.status.Completed? && tx.destinationId == AccountOf(w, to)
    else tx.destinationId == Some(w.inventoryId) && tx.status == if to.Some? then NeedRefund else Completed
  }

  /** A general-metadata message is recorded by one new row, once; later deliveries change nothing. */
  lemma {:induction false} GeneralRecordedOnce(w: Wallet, e: Event, drawn: Drawn)
    requires e.metadata.General? && e.sender != w.vaspAddress
    ensures var w' := AfterReceive(w, e, drawn).0;
      && (HasRow(w.rows, e) ==> w' == w)
      && (!HasRow(w.rows, e) ==>
            && |w.rows| < |w'.rows| && Matches(w'.rows[|w.rows|], e) && Records(w'.rows[|w.rows|], e)
            && CreditsRightly(w, w'.rows[|w.rows|], e)
            && w.rows <= w'.rows
            && (forall i :: |w.rows| < i < |w'.rows| ==> !Foreign(w, w'.rows[i])))
  {
    var from, to := e.metadata.fromSubaddress, e.metadata.toSubaddress;
    KnownIsRecorded(w.rows, e);
    if !HasRow(w.rows, e) && to.Some? && AccountOf(w, to).None? {
      var noted := NotedOnly(w, e);
      SendGrows(noted, w.inventoryId, e.amount, e.sender, from, Some(Refund), Some(|w.rows|), drawn);
      assert noted.rows <= AfterReceive(w, e, drawn).0.rows;
      assert noted.rows[|w.rows|] == AfterReceive(w, e, drawn).0.rows[|w.rows|];
    }
  }

  /** A refund is sent for exactly those messages whose payment is noted as needing one, now. */
  lemma {:induction false} RefundTriggeredIff(w: Wallet, e: Event, drawn: Drawn)
    ensures var after := AfterReceive(w, e, drawn).0.rows;
      TriggersRefund(w, e) <==> |w.rows| < |after| && after[|w.rows|].status.NeedRefund?
    ensures TriggersRefund(w, e) ==>
              && e.metadata.General? && e.metadata.toSubaddress.Some? && e.metadata.toSubaddress.value !in w.subaddresses
              && AfterReceive(w, e, drawn).0.rows[|w.rows|].amount == e.amount
  {
    if TriggersRefund(w, e) {
      var noted := NotedOnly(w, e);
      SendGrows(noted, w.inventoryId, e.amount, e.sender, e.metadata.fromSubaddress, Some(Refund), Some(|w.rows|), drawn);
      assert noted.rows[|w.rows|] == AfterReceive(w, e, drawn).0.rows[|w.rows|];
    }
  }

  // ---- The invariant is kept ----

  lemma {:induction false} RowsStay(streams: Streams, w: Wallet, w': Wallet, cause: Option<Event>, e: Event)
    requires OriginsKnown(streams, w) && Grows(w, w', cause) && e.sender != w.vaspAddress
    ensures HasRow(w.rows, e) ==> HasRow(w'.rows, e)
    ensures forall i :: 0 <= i < |w.rows| ==> (Matches(w.rows[i], e) <==> Matches(w'.rows[i], e))
    ensures forall i :: 0 <= i < |w.rows| && Matches(w.rows[i], e) ==> w'.rows[i] == w.rows[i]
  {
  }

  /** Growing the table without touching foreign rows keeps what was accounted for. */
  lemma {:induction false} GrowthKeepsAccounts(streams: Streams, s: System, s': System, cause: Option<Event>, progress: Progress)
    requires Identified(streams, s.wallet.vaspAddress) && OriginsKnown(streams, s.wallet)
    requires Grows(s.wallet, s'.wallet, cause)
    requires forall e :: e in s.queue ==> e in s'.queue || (e.metadata.General? ==> HasRow(s'.wallet.rows, e))
    requires PassedAccounted(streams, progress, s)
    ensures PassedAccounted(streams, progress, s')
  {
  }

  lemma {:induction false} GrowthKeepsOrigins(streams: Streams, w: Wallet, w': Wallet, cause: Option<Event>)
    requires OriginsKnown(streams, w) && Grows(w, w', cause)
    requires cause.Some? ==> Carries(streams, cause.value)
    ensures OriginsKnown(streams, w')
  {
  }

  /** If new rows match no event, or the single new match is a fresh record, rows stay one each. */
  lemma {:induction false} GrowthKeepsOneRowEach(streams: Streams, w: Wallet, w': Wallet, cause: Option<Event>)
    requires Identified(streams, w.vaspAddress) && OriginsKnown(streams, w) && OneRowEach(streams, w.rows)
    requires Grows(w, w', cause)
    requires cause.Some? ==> Carries(streams, cause.value)
    requires cause.Some? && HasRow(w.rows, cause.value) ==> w' == w
    requires cause.Some? && cause.value.metadata.General? && !HasRow(w.rows, cause.value) ==>
               && (forall i :: |w.rows| < i < |w'.rows| ==> !Foreign(w, w'.rows[i]))
               && |w.rows| < |w'.rows| && Records(w'.rows[|w.rows|], cause.value)
    ensures OneRowEach(streams, w'.rows)
  {
    forall e, i | Carries(streams, e) && |w.rows| <= i < |w'.rows| && Matches(w'.rows[i], e)
      ensures cause == Some(e) && !HasRow(w.rows, e) && i == |w.rows|
    {
      assert Foreign(w, w'.rows[i]);
      assert CameFrom(w'.rows[i], cause.value);
      assert MayBeTakenFor(cause.value, e);
      assert cause.value == e;
    }
    forall e, i, j | Carries(streams, e) && 0 <= i < |w'.rows| && 0 <= j < |w'.rows| && Matches(w'.rows[i], e) && Matches(w'.rows[j], e)
      ensures i == j
    {
      RowsStay(streams, w, w', cause, e);
    }
    forall e, i | Carries(streams, e) && 0 <= i < |w'.rows| && Matches(w'.rows[i], e) ensures Records(w'.rows[i], e) {
      RowsStay(streams, w, w', cause, e);
    }
  }

  lemma {:induction false} GrowthKeepsRefunds(streams: Streams, s: System, s': System, cause: Option<Event>)
    requires Identified(streams, s.wallet.vaspAddress) && OriginsKnown(streams, s.wallet) && RefundsOnce(s)
    requires forall e :: e in s.refundSends ==> Carries(streams, e)
    requires Grows(s.wallet, s'.wallet, cause)
    requires s'.refundSends == s.refundSends
    ensures RefundsOnce(s')
  {
  }

  lemma {:induction false} WalletOnlyStep(streams: Streams, s: System, s': System, cause: Option<Event>)
    requires Identified(streams, s.wallet.vaspAddress) && Invariant(streams, s)
    requires s' == s.(wallet := s'.wallet) && Grows(s.wallet, s'.wallet, cause)
    requires cause.Some? ==> Carries(streams, cause.value)
    requires cause.Some? && HasRow(s.wallet.rows, cause.value) ==> s'.wallet == s.wallet
    requires cause.Some? && cause.value.metadata.General? && !HasRow(s.wallet.rows, cause.value) ==>
               && (forall i :: |s.wallet.rows| < i < |s'.wallet.rows| ==> !Foreign(s.wallet, s'.wallet.rows[i]))
               && |s.wallet.rows| < |s'.wallet.rows| && Records(s'.wallet.rows[|s.wallet.rows|], cause.value)
    ensures Invariant(streams, s')
  {
    GrowthKeepsOrigins(streams, s.wallet, s'.wallet, cause);
    GrowthKeepsOneRowEach(streams, s.wallet, s'.wallet, cause);
    GrowthKeepsAccounts(streams, s, s', cause, SavedProgress(s.file));
    if s.memory.Some? {
      GrowthKeepsAccounts(streams, s, s', cause, s.memory.value);
    }
    GrowthKeepsRefunds(streams, s, s', cause);
  }

  lemma {:induction false} ProcessedKeeps(streams: Streams, s: System, e: Event, drawn: Drawn)
    requires Identified(streams, s.wallet.vaspAddress) && Invariant(streams, s) && Carries(streams, e)
    ensures var processed := s.(wallet := AfterReceive(s.wallet, e, drawn).0);
      && Invariant(streams, processed)
      && (e.metadata.General? ==> HasRow(processed.wallet.rows, e))
  {
    var processed := s.(wallet := AfterReceive(s.wallet, e, drawn).0);
    ReceiveGrows(s.wallet, e, drawn);
    if e.metadata.General? {
      GeneralRecordedOnce(s.wallet, e, drawn);
      if !HasRow(s.wallet.rows, e) {
        assert Matches(processed.wallet.rows[|s.wallet.rows|], e);
      }
    }
    WalletOnlyStep(streams, s, processed, Some(e));
  }

  /** Taking a processed message off the queue, or logging its refund, loses nothing. */
  lemma {:induction false} AcknowledgedKeeps(streams: Streams, s: System, e: Event, s': System)
    requires Identified(streams, s.wallet.vaspAddress) && Invariant(streams, s) && Carries(streams, e)
    requires e.metadata.General? ==> HasRow(s.wallet.rows, e)
    requires s' == s.(queue := s'.queue, refundSends := s'.refundSends)
    requires forall x :: x in s'.queue ==> x in s.queue
    requires forall x :: x in s.queue ==> x in s'.queue || x == e
    requires s'.refundSends == s.refundSends
             || (e.metadata.General? && e !in s.refundSends && s'.refundSends == s.refundSends + [e])
    ensures Invariant(streams, s')
  {
  }

  lemma {:induction false} DeliverKeeps(streams: Streams, s: System, message: nat, drawn: Drawn, acknowledged: bool, s': System)
    requires Identified(streams, s.wallet.vaspAddress) && Invariant(streams, s)
    requires Next(streams, s, Deliver(message, drawn, acknowledged), s')
    ensures Invariant(streams, s')
  {
    var e := s.queue[message];
    assert e in s.queue;
    ProcessedKeeps(streams, s, e, drawn);
    if TriggersRefund(s.wallet, e) {
      KnownIsRecorded(s.wallet.rows, e);
      assert e !in s.refundSends;
    }
    AcknowledgedKeeps(streams, s.(wallet := s'.wallet), e, s');
  }

  lemma {:induction false} QueueStep(streams: Streams, s: System, s': System, progress: Progress)
    requires Identified(streams, s.wallet.vaspAddress) && Invariant(streams, s)
    requires s'.wallet == s.wallet && (forall e :: e in s.queue ==> e in s'.queue)
    requires PassedAccounted(streams, progress, s)
    ensures PassedAccounted(streams, progress, s')
  {
  }

  lemma {:induction false} RoundKeeps(streams: Streams, s: System, after: Progress, handedOver: seq<Event>, s': System)
    requires Identified(streams, s.wallet.vaspAddress) && Invariant(streams, s)
    requires Next(streams, s, Round(after, handedOver), s')
    ensures Invariant(streams, s')
  {
  }

  lemma {:induction false} NextKeeps(streams: Streams, s: System, a: Action, s': System)
    requires Identified(streams, s.wallet.vaspAddress) && Invariant(streams, s) && Next(streams, s, a, s')
    ensures Invariant(streams, s') && s'.wallet.vaspAddress == s.wallet.vaspAddress
  {
    match a
    case Restart(_) =>
    case Round(after, handedOver) => RoundKeeps(streams, s, after, handedOver, s');
    case Crash(_, _) => QueueStep(streams, s, s', SavedProgress(s.file));
    case Deliver(message, drawn, acknowledged) =>
      DeliverKeeps(streams, s, message, drawn, acknowledged, s');
      ReceiveGrows(s.wallet, s.queue[message], drawn);
    case DeliverCutShort(message) =>
      var e := s.queue[message];
      assert e in s.queue;
      GeneralRecordedOnce(s.wallet, e, Drawn("", "", ""));
      WalletOnlyStep(streams, s, s', Some(e));
    case UserCall(call) =>
      UserCallGrows(s.wallet, call);
      WalletOnlyStep(streams, s, s', None);
  }

  /** A run: consecutive states joined by steps. */
  ghost predicate IsRun(streams: Streams, states: seq<System>, actions: seq<Action>)
  {
    && |states| == |actions| + 1
    && Initial(states[0])
    && (forall i :: 0 <= i < |actions| ==> Next(streams, states[i], actions[i], states[i + 1]))
  }

  lemma {:induction false} RunKeepsInvariant(streams: Streams, states: seq<System>, actions: seq<Action>, n: nat)
    requires IsRun(streams, states, actions) && n < |states|
    requires Identified(streams, states[0].wallet.vaspAddress)
    ensures Invariant(streams, states[n]) && states[n].wallet.vaspAddress == states[0].wallet.vaspAddress
  {
    if n > 0 {
      RunKeepsInvariant(streams, states, actions, n - 1);
      assert Next(streams, states[n - 1], actions[n - 1], states[n - 1 + 1]);
      NextKeeps(streams, states[n - 1], actions[n - 1], states[n]);
    }
  }

  /**
   * In every state of every run: each general-metadata event below the saved position has exactly
   * one ledger row, or none yet and its message is still queued; the row is that event's record;
   * and no event ever triggered two refund sends.
   */
  lemma {:induction false} ExactlyOnceCredit(streams: Streams, states: seq<System>, actions: seq<Action>, n: nat, key: string, i: nat)
    requires IsRun(streams, states, actions) && n < |states|
    requires Identified(streams, states[0].wallet.vaspAddress)
    requires key in streams && i < |streams[key]| && streams[key][i].metadata.General?
    ensures var s, e := states[n], streams[key][i];
      && (forall j, k :: 0 <= j < |s.wallet.rows| && 0 <= k < |s.wallet.rows|
                         && Matches(s.wallet.rows[j], e) && Matches(s.wallet.rows[k], e)
                         ==> j == k)
      && (forall j :: 0 <= j < |s.wallet.rows| && Matches(s.wallet.rows[j], e) ==> Records(s.wallet.rows[j], e))
      && (key in SavedProgress(s.file) && i < SavedProgress(s.file)[key] && e !in s.queue ==> HasRow(s.wallet.rows, e))
      && (forall j, k :: 0 <= j < |s.refundSends| && 0 <= k < |s.refundSends| && s.refundSends[j] == e && s.refundSends[k] == e
                         ==> j == k)
  {
    RunKeepsInvariant(streams, states, actions, n);
    assert Carries(streams, streams[key][i]);
  }

  // ---- When the assumption holds ----

  /** One received-events stream, whose sequence numbers count its events. */
  predicate SingleStream(streams: Streams, key: string)
  {
    streams.Keys == {key} && forall i :: 0 <= i < |streams[key]| ==> streams[key][i].sequence == i
  }

  lemma {:induction false} SingleStreamIdentifies(streams: Streams, key: string, vaspAddress: string)
    requires SingleStream(streams, key)
    requires forall i :: 0 <= i < |streams[key]| ==> streams[key][i].sender != vaspAddress
    ensures Identified(streams, vaspAddress)
  {
  }

  lemma {:induction false} RecordedAfterwards(w: Wallet, e: Event, drawn: Drawn)
    requires e.metadata.General? && e.sender != w.vaspAddress
    ensures HasRow(AfterReceive(w, e, drawn).0.rows, e)
  {
    GeneralRecordedOnce(w, e, drawn);
    var w' := AfterReceive(w, e, drawn).0;
    if !HasRow(w.rows, e) {
      assert Matches(w'.rows[|w.rows|], e);
    }
  }

  predicate SameDetails(first: Event, second: Event)
    requires first.metadata.General? && second.metadata.General?
  {
    && second.sender == first.sender && second.sequence == first.sequence
    && second.metadata.fromSubaddress == first.metadata.fromSubaddress
  }

  /**
   * Two general payments from outside, processed one after the other: the second gets a row of its
   * own exactly when sender, sender's subaddress or sequence number differ.
   */
  lemma {:induction false} OwnRowIff(w: Wallet, first: Event, second: Event, drawn: Drawn, drawn': Drawn)
    requires first.metadata.General? && second.metadata.General?
    requires first.sender != w.vaspAddress && second.sender != w.vaspAddress && !HasRow(w.rows, second)
    ensures var w1 := AfterReceive(w, first, drawn).0;
      var w2 := AfterReceive(w1, second, drawn').0;
      && (SameDetails(first, second) ==> w2 == w1)
      && (!SameDetails(first, second) ==>
            |w1.rows| < |w2.rows| && Matches(w2.rows[|w1.rows|], second) && Records(w2.rows[|w1.rows|], second))
  {
    var w1 := AfterReceive(w, first, drawn).0;
    GeneralRecordedOnce(w, first, drawn);
    ReceiveGrows(w, first, drawn);
    RecordedAfterwards(w, first, drawn);
    if SameDetails(first, second) {
      var i :| 0 <= i < |w1.rows| && Matches(w1.rows[i], first);
      assert Matches(w1.rows[i], second);
    } else {
      forall i | 0 <= i < |w1.rows| ensures !Matches(w1.rows[i], second) {
        if i >= |w.rows| && Matches(w1.rows[i], second) {
          assert Foreign(w, w1.rows[i]);
        }
      }
    }
    GeneralRecordedOnce(w1, second, drawn');
  }

  // ---- Refunds ----

  lemma {:induction false} ReceiveExtends(w: Wallet, e: Event, drawn: Drawn)
    ensures w.rows <= AfterReceive(w, e, drawn).0.rows
  {
    if TriggersRefund(w, e) {
      var noted := NotedOnly(w, e);
      SendGrows(noted, w.inventoryId, e.amount, e.sender, e.metadata.fromSubaddress, Some(Refund), Some(|w.rows|), drawn);
      assert w.rows <= noted.rows;
    }
  }

  /** Any call leaves every row as it is, but for the pending one it submits. */
  lemma {:induction false} StepKeepsRows(w: Wallet, c: Call)
    ensures |w.rows| <= |Step(w, c).rows|
    ensures forall k :: 0 <= k < |w.rows| ==>
              Step(w, c).rows[k] == w.rows[k] || (c.ChainSubmission? && c.id == k && w.rows[k].status.Pending?)
  {
    match c
    case UserTransfer(sender, amount, address, subaddress, drawn) =>
      SendGrows(w, sender, amount, address, subaddress, None, None, drawn);
    case OrderTransfer(_, _, _, _) =>
    case ChainSubmission(_, _) =>
    case IncomingPayment(event, drawn) => ReceiveExtends(w, event, drawn);
  }

  /** Row i is the settled original of the refund `e`, and some settled row records that refund. */
  ghost predicate RefundRecorded(w: Wallet, e: Event, i: nat)
  {
    && e.metadata.RefundOf? && i < |w.rows|
    && w.rows[i].version == Some(e.metadata.transactionVersion) && !w.rows[i].status.Pending?
    && (forall j :: 0 <= j < i ==> w.rows[j].version != Some(e.metadata.transactionVersion))
    && (exists k :: 0 <= k < |w.rows| && !w.rows[k].status.Pending?
                    && HasDetails(w.rows[k], e.sender, w.rows[i].destinationSubaddress, e.sequence))
  }

  /** The call does not write the version of the original to another row. */
  predicate OtherVersion(c: Call, version: int)
  {
    c.ChainSubmission? && c.outcome.Submitted? ==> c.outcome.version != version
  }

  lemma {:induction false} SubmissionKeepsOthers(w: Wallet, id: nat, outcome: ChainOutcome, version: int, j: nat)
    requires OtherVersion(ChainSubmission(id, outcome), version) && j < |w.rows| && w.rows[j].version != Some(version)
    ensures AfterSubmit(w, id, outcome).rows[j].version != Some(version)
  {
  }

  lemma {:induction false} StepKeepsRefund(w: Wallet, e: Event, i: nat, c: Call)
    requires RefundRecorded(w, e, i) && OtherVersion(c, e.metadata.transactionVersion)
    ensures RefundRecorded(Step(w, c), e, i)
  {
    StepKeepsRows(w, c);
    var k :| 0 <= k < |w.rows| && !w.rows[k].status.Pending? && HasDetails(w.rows[k], e.sender, w.rows[i].destinationSubaddress, e.sequence);
    assert Step(w, c).rows[k] == w.rows[k] && Step(w, c).rows[i] == w.rows[i];
    forall j | 0 <= j < i ensures Step(w, c).rows[j].version != Some(e.metadata.transactionVersion) {
      if c.ChainSubmission? {
        SubmissionKeepsOthers(w, c.id, c.outcome, e.metadata.transactionVersion, j);
      }
    }
  }

  /** Receiving a refund records it, for whichever original it names. */
  lemma {:induction false} RefundIsRecorded(w: Wallet, e: Event, i: nat, drawn: Drawn)
    requires e.metadata.RefundOf? && i < |w.rows|
    requires w.rows[i].version == Some(e.metadata.transactionVersion) && !w.rows[i].status.Pending?
    requires forall j :: 0 <= j < i ==> w.rows[j].version != Some(e.metadata.transactionVersion)
    requires !Known(w.rows, e.sender, w.rows[i].destinationSubaddress, e.sequence)
    ensures RefundRecorded(AfterReceive(w, e, drawn).0, e, i)
  {
    UnseenIff(w.rows, e.sender, w.rows[i].destinationSubaddress, e.sequence);
    RefundCreditsOnce(w, e, e.metadata.transactionVersion, i, drawn, 0);
    var after := AfterReceive(w, e, drawn).0;
    FirstIsFound(w.rows, e.metadata.transactionVersion, i);
    assert HasDetails(after.rows[|w.rows|], e.sender, after.rows[i].destinationSubaddress, e.sequence);
  }

  /** However many calls later, a repeated refund message changes nothing. */
  lemma {:induction false} RefundNeverTwice(w: Wallet, e: Event, i: nat, calls: seq<Call>, drawn: Drawn)
    requires RefundRecorded(w, e, i)
    requires forall n :: 0 <= n < |calls| ==> OtherVersion(calls[n], e.metadata.transactionVersion)
    ensures AfterReceive(Run(w, calls), e, drawn) == (Run(w, calls), Ok(()))
    decreases |calls|
  {
    if |calls| == 0 {
      FirstIsFound(w.rows, e.metadata.transactionVersion, i);
    } else {
      StepKeepsRefund(w, e, i, calls[0]);
      RefundNeverTwice(Step(w, calls[0]), e, i, calls[1..], drawn);
    }
  }

  // ---- Two streams ----

  /** Two payments that differ in amount, each the first of its stream, from one sender. */
  const FIRST := Event(1, "sender", "a", 0, 5, General(None, None))
  const SECOND := Event(2, "sender", "b", 0, 7, General(None, None))

  function TwoStreams(): Streams { map["a" := [FIRST], "b" := [SECOND]] }

  const NOTHING_READ: Progress := map["a" := 0, "b" := 0]
  const BOTH_READ: Progress := map["a" := 1, "b" := 1]

  function EmptyWallet(): Wallet { Wallet("vasp", 1, map[], map[], []) }

  function TwoStreamsRun(drawn: Drawn): (seq<System>, seq<Action>)
  {
    var credited := AfterReceive(EmptyWallet(), FIRST, drawn).0;
    ([System(EmptyWallet(), [], None, None, []),
      System(EmptyWallet(), [], None, Some(NOTHING_READ), []),
      System(EmptyWallet(), [FIRST, SECOND], Some(BOTH_READ), Some(BOTH_READ), []),
      System(credited, [SECOND], Some(BOTH_READ), Some(BOTH_READ), []),
      System(credited, [], Some(BOTH_READ), Some(BOTH_READ), [])],
     [Restart([Some("a"), Some("b")]), Round(BOTH_READ, [FIRST, SECOND]), Deliver(0, drawn, true), Deliver(0, drawn, true)])
  }

  lemma {:induction false} TwoStreamsStart()
    ensures InitialProgress(map[], [Some("a"), Some("b")]) == NOTHING_READ
  {
    var keys := [Some("a"), Some("b")];
    assert keys[..1] == [Some("a")] && keys[..1][..0] == [];
  }

  lemma {:induction false} TwoStreamsRound()
    ensures RoundEffect(TwoStreams(), NOTHING_READ, BOTH_READ, [], [] + [FIRST, SECOND])
  {
    var queue := [FIRST, SECOND];
    assert [] + queue == queue && queue[0] == FIRST && queue[1] == SECOND;
    assert TwoStreams()["a"][0] == FIRST && TwoStreams()["b"][0] == SECOND;
    assert Carries(TwoStreams(), FIRST) && Carries(TwoStreams(), SECOND);
  }

  /** The first delivery credits the wallet with one row, the second changes nothing. */
  lemma {:induction false} TwoStreamsDeliveries(drawn: Drawn)
    ensures var credited := AfterReceive(EmptyWallet(), FIRST, drawn).0;
      && AfterReceive(EmptyWallet(), FIRST, drawn).1.Ok? && AfterReceive(credited, SECOND, drawn) == (credited, Ok(()))
      && |credited.rows| == 1 && Records(credited.rows[0], FIRST) && !Records(credited.rows[0], SECOND)
  {
    GeneralRecordedOnce(EmptyWallet(), FIRST, drawn);
    OwnRowIff(EmptyWallet(), FIRST, SECOND, drawn, drawn);
  }

  lemma {:induction false} TwoStreamsReads(drawn: Drawn)
    ensures var (states, actions) := TwoStreamsRun(drawn);
      Next(TwoStreams(), states[0], actions[0], states[1]) && Next(TwoStreams(), states[1], actions[1], states[2])
  {
    TwoStreamsStart();
    TwoStreamsRound();
    assert [] + [FIRST, SECOND] == [FIRST, SECOND];
  }

  lemma {:induction false} TwoStreamsDelivers(drawn: Drawn)
    ensures var (states, actions) := TwoStreamsRun(drawn);
      Next(TwoStreams(), states[2], actions[2], states[3]) && Next(TwoStreams(), states[3], actions[3], states[4])
  {
    TwoStreamsDeliveries(drawn);
    assert Without([FIRST, SECOND], 0) == [SECOND] && Without([SECOND], 0) == [];
  }

  /**
   * With two subscribed accounts a sender may use one sequence number in each stream. In this run
   * both positions are saved and the queue is empty, yet the second payment has no record: it was
   * taken for a repetition of the first.
   */
  lemma {:induction false} TwoStreamsLoseACredit(drawn: Drawn)
    ensures var (states, actions) := TwoStreamsRun(drawn);
      var end := states[4];
      && IsRun(TwoStreams(), states, actions)
      && FIRST != SECOND && SECOND == TwoStreams()["b"][0] && 0 < SavedProgress(end.file)["b"] && SECOND !in end.queue
      && |end.wallet.rows| == 1 && Records(end.wallet.rows[0], FIRST) && !Records(end.wallet.rows[0], SECOND)
  {
    TwoStreamsReads(drawn);
    TwoStreamsDelivers(drawn);
    TwoStreamsDeliveries(drawn);
  }
}
