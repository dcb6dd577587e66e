# The wallet's ledger, its feeds, its off-chain payments and its codecs

A Dafny model of the Python backend of the Diem reference wallet, with proofs of what that backend
promises. `dafny verify dfyconfig.toml` checks all of it.

The wallet keeps custody of money for its customers. No balance is stored: balances are recomputed
from a table of transactions that three feeds write to, namely the wallet's own transfers, a
subscription to events on the chain, and a resynchronisation that re-reads the chain. Larger
payments between wallets first go through an off-chain exchange of commands, in which two parties
take turns adding KYC data, a signature and their decisions to one payment object. Pre-approvals let
a payee ask for the right to pull funds later. Money is fixed-point, and messages are signed JSON.

| files | what they model |
|---|---|
| `Sums`, `Ledger`, `Transfers`, `AccountEffects`, `LedgerSafety` | the transaction table, both ways of computing balances, every service that writes rows, what each does to every account, and whole runs of those services: no overdraft, conservation, agreement of the two balances |
| `PubSub`, `ExactlyOnce` | the event subscription with its progress file, and exactly-once crediting over crashes, restarts and redelivery |
| `Resync` | the paged resynchronisation and why it reaches the chain |
| `Objects`, `WriteOnce` | the recursive write-once validator over arbitrary nested schemas, and for exactly which schemas it protects a history |
| `StateMachine`, `Payments`, `PaymentCommands`, `PaymentRuns` | the generic condition matcher and machine builder, the nine payment states, command validation, and whole exchanges between two parties |
| `PaymentRows`, `PaymentProgress` | the sender's stored rows of those payments, changed under a lock with rollback, and that an honest exchange ends settled |
| `PreApprovalRules`, `PreApprovals`, `PreApprovalAgreement` | the role table of pre-approvals, the stored records, and agreement between two wallets |
| `Decimals`, `Amounts`, `Rates` | half-even decimal arithmetic rounded twice, the amount class, and the table of conversion rates |
| `Utf8`, `Base64`, `Jws` | the JWS compact codec down to its bytes |
| `SchemaCodec` | the schema-driven decoder of JSON dictionaries and its inverse |

Code that changes things step by step is a class or a method with loops, proved against a function
of the old state; the lemmas are about those functions. Every lemma switches automatic induction
off, so whatever induction a proof needs is in its body.

Some findings about the code, each with its proof:

- The balance check accepts negative amounts, so solvency rests on the bound in the API schema
  (`LedgerSafety.InternalSolventIff`, `LedgerSafety.NegativeTransferOverdraws`).
- A settlement of a payment that an own account sends debits without a balance check, and overdraws
  exactly when the account does not cover it (`LedgerSafety.SettlementSolventIff`,
  `LedgerSafety.SettlementOverdraws`).
- Deduplication by sender, subaddress and sequence number is sound for one received-events stream
  and loses a credit with two (`ExactlyOnce.OwnRowIff`, `ExactlyOnce.TwoStreamsLoseACredit`).
- A payment to an unknown subaddress whose refund the inventory does not cover is never refunded: the
  repeated message finds the noted row (`AccountEffects.UnknownPayeeUncovered`).
- Comparing only with the immediate predecessor protects a history exactly for schemas whose
  unprotected optional fields hold nothing that could be rejected; the payment schema is one
  (`WriteOnce.TransitiveIff`, `PaymentCommands.PaymentHistorySafe`).
- A transfer from the wallet's address to itself is booked as sent only, so the resynchronised
  balance is lower by its amount (`Resync.ReceivedMinusSentIff`, `Resync.SelfTransferLowersBalance`).
- Metadata is a list in a command and text in a stored row. A row does not give the list back, and
  once it is stored a further command that has it is refused (`PaymentRows.StoredMetadataBlocks`).
- The long role table of pre-approvals says no more than three short rules
  (`PreApprovalRules.ExplicitMeaning`), although one of its error families tests the payee twice
  where its comment speaks of payee and payer; the model follows the code.
- A customer's decision on a pre-approval does not look at the stored role, so agreement between
  wallets needs payees that only close (`PreApprovalAgreement.PayeeDecisionAgreesIff`,
  `PreApprovalAgreement.PayeeApprovingBreaksAgreement`).
- The decoder reads an optional union as its first alternative everywhere but at the top-level
  result (`SchemaCodec.SecondAlternativeLost`).

## Model

| member | source | states |
|---|---|---|
| Ledger.CalcAccountBalance | backend/wallet/services/account.py:177-191 | The loop over any list of rows yields the sum of completed credits minus non-cancelled debits as total, and the pending and locked debits as frozen |
| Ledger.SelectionKeepsBalance | backend/wallet/storage/transaction.py:123-138 | Selecting only the rows an account appears in, with or without a version bound, loses nothing of its total or frozen amount |
| Ledger.GetAccountBalance | backend/wallet/services/account.py:167-174 | The balance of an account is that of all rows within the version bound; a row without a version is outside any non-zero bound |
| Ledger.NoBoundKeepsAll | backend/wallet/storage/transaction.py:135-136 | No bound and version 0 both leave every row in |
| Ledger.GroupKeys | backend/wallet/storage/transaction.py:181-220 | The grouped query gives exactly one group for each status that occurs among the filtered rows |
| Ledger.GroupedSum | backend/wallet/storage/transaction.py:181-220 | Adding up the groups of the wanted statuses is adding up the matching rows one by one |
| Ledger.GetTotalBalance | backend/wallet/services/transaction.py:730-745 | The wallet-wide loops over groups yield completed credits minus non-cancelled debits over the non-internal rows, and their pending debits as frozen |
| Ledger.GroupedTotals | backend/wallet/services/transaction.py:730-745 | The grouped total and frozen amounts are sums over single rows |
| Ledger.WalletTotalByRows | backend/wallet/services/account.py:177-191 | Adding account totals over all accounts is adding, row by row, what each row moves in or out of the wallet (double-sum exchange) |
| Ledger.GroupedTotalAgreesIff | backend/wallet/services/transaction.py:730-745 | The sum of all account totals equals the grouped total exactly when the internal rows together move nothing |
| Ledger.GroupedTotalAgrees | backend/wallet/services/transaction.py:730-745 | When internal rows are completed with both ends set, the two totals agree, and the frozen sums differ by exactly the locked amounts |
| Transfers.WalletService.AddTransaction | backend/wallet/storage/transaction.py:17-54 | A row is appended and nothing else changes |
| Transfers.WalletService.UpdateTransaction | backend/wallet/storage/transaction.py:57-70 | Status is overwritten; sequence and version only by non-zero values |
| Transfers.WalletService.ValidateBalance | backend/wallet/services/transaction.py:566-568 | True exactly when the amount is at most the total of the sender |
| Transfers.WalletService.InternalTransaction | backend/wallet/services/transaction.py:571-609 | Refused without a change, or one completed row between the two accounts with two fresh subaddresses |
| Transfers.WalletService.ExternalTransaction | backend/wallet/services/transaction.py:612-663 | Refused without a change, or one pending row debiting the sender |
| Transfers.WalletService.SendTransaction | backend/wallet/services/transaction.py:404-464 | Own address, unhosted, uncovered, in-wallet, over-threshold and external transfers in the order of the checks, each with its whole effect |
| Transfers.WalletService.SubmitOnchain | backend/wallet/services/transaction.py:666-727 | Only a pending external or refund row changes: completed with the chain numbers, or cancelled on any failure |
| Transfers.WalletService.ProcessIncomingTransaction | backend/wallet/services/transaction.py:149-401 | All branches for general, travel-rule, refund and other metadata, with duplicates dropped and failures leaving no new row |
| AccountEffects.OrderPaysPayee | backend/wallet/services/transaction.py:571-609 | A covered transfer between accounts takes the amount from the payer and gives it to the payee, and changes no other account; both new subaddresses belong to their sides |
| AccountEffects.SendPaysPayee | backend/wallet/services/transaction.py:404-517 | A covered send to a subaddress of the wallet pays the account that subaddress was registered for, and nobody else |
| AccountEffects.SendPaysOutside | backend/wallet/services/transaction.py:455-492 | A covered send to the outside up to the threshold writes one pending row to the address asked for, and debits and freezes the amount of the sender alone |
| AccountEffects.SendStartsOffChain | backend/wallet/services/transaction.py:442-453 | Above the threshold nothing is booked: a payment not yet ready is offered from a subaddress of the sender |
| AccountEffects.SendRefusedIff | backend/wallet/services/transaction.py:416-433 | Exactly when a send is refused, and why, or ignored; then nothing changes |
| AccountEffects.SubmissionSettles | backend/wallet/services/transaction.py:666-727 | A pending on-chain row becomes COMPLETED with the non-zero numbers of the chain exactly when it was submitted, a refund only if its original is stored, and CANCELED otherwise; no other row or column changes |
| AccountEffects.GeneralCredits | backend/wallet/services/transaction.py:169-271 | A payment not seen before credits the owner of the subaddress it names, or the inventory when it names none, and nobody else |
| AccountEffects.UnknownPayeeIsRefunded | backend/wallet/services/transaction.py:221-252 | A payment to a subaddress nobody owns credits nobody, and a covered refund of its amount is due to where it came from |
| AccountEffects.UnknownPayeeUncovered | backend/wallet/services/transaction.py:221-252 | When the inventory does not cover the refund the message fails, and its repetition is taken for processed, so the refund is never sent |
| AccountEffects.SettlementMoves | backend/wallet/services/transaction.py:273-317 | A settlement moves the amount between the owners of the two subaddresses of the stored payment, once |
| AccountEffects.SettlementAcceptedIff | backend/wallet/services/transaction.py:273-325 | It is accepted exactly for a ready payment of that amount and those addresses whose reference is not in the table; anything refused changes nothing |
| AccountEffects.RefundCreditsOnce | backend/wallet/services/transaction.py:326-396 | A refund credits the account that sent the first transaction of the version it names; received again it changes nothing |
| LedgerSafety.SubmissionEffect | backend/wallet/services/transaction.py:666-727 | A submission frees the frozen amount of its sender, and gives it back exactly when it failed; no other account changes |
| LedgerSafety.InternalKeepsSound | backend/wallet/services/transaction.py:571-609 | An internal transfer leaves every account total at least 0 |
| LedgerSafety.SendKeepsSound | backend/wallet/services/transaction.py:404-464 | A transfer or refund leaves every account total at least 0 |
| LedgerSafety.SubmitKeepsSound | backend/wallet/services/transaction.py:666-727 | Submission, successful or not, leaves every account total at least 0 |
| LedgerSafety.ReceiveKeepsSound | backend/wallet/services/transaction.py:149-401 | An incoming payment of a non-negative amount leaves every account total at least 0, except for a settlement its own sender does not cover |
| LedgerSafety.StepKeepsSound | backend/wallet/services/transaction.py:404-727 | Every service call with a non-negative amount, other than such a settlement, keeps every total at least 0 and every row well shaped |
| LedgerSafety.NoOverdraft | backend/wallet/services/transaction.py:404-727 | Over every interleaving of such calls no account total ever becomes negative |
| LedgerSafety.SettlementSolventIff | backend/wallet/services/transaction.py:273-317 | A settlement keeps everyone solvent exactly when no own account sends it, it returns to its sender, or its sender covers it |
| LedgerSafety.StepSolventIff | backend/wallet/services/transaction.py:149-727 | So the guard is exact: a call with a non-negative amount overdraws somebody exactly when it is an uncovered settlement |
| LedgerSafety.NoOverdraftIff | backend/wallet/services/transaction.py:149-727 | Over any run of non-negative amounts nobody is ever overdrawn exactly when no uncovered settlement occurs |
| LedgerSafety.SettlementOverdraws | backend/wallet/services/transaction.py:273-317 | An account without money that settles a payment ends at minus its amount |
| LedgerSafety.InternalSolventIff | backend/wallet/services/transaction.py:566-603 | For any amount the balance check lets through, the transfer keeps both accounts solvent exactly when the payee can absorb it |
| LedgerSafety.NegativeTransferOverdraws | backend/wallet/services/transaction.py:566-603 | The balance check alone lets a negative amount overdraw the payee, so the bound of the API is needed |
| LedgerSafety.SendMovesFlow | backend/wallet/services/transaction.py:404-464 | The money in the wallet changes by exactly the amount of an external row and by nothing otherwise |
| LedgerSafety.UnknownSubaddressMovesFlow | backend/wallet/services/transaction.py:221-252 | The row noted for an unknown subaddress credits nobody, and only the refund sent for it moves money |
| LedgerSafety.ReceiveMovesFlow | backend/wallet/services/transaction.py:149-401 | What an incoming payment adds to the wallet, for every kind of metadata |
| LedgerSafety.StepMovesFlow | backend/wallet/services/transaction.py:404-727 | Each call changes the wallet total by exactly its inflow or outflow |
| LedgerSafety.RunConservesMoney | backend/wallet/services/transaction.py:404-745 | In every reachable table the account totals add up to the opening total plus everything that flowed, the grouped query reports the same number, and frozen sums differ by exactly the locked rows |
| PubSub.LRWPubSubClient.FetchState | backend/pubsub/client.py:21-26 | A missing or unreadable progress file reads as no positions |
| PubSub.LRWPubSubClient.InitProgressState | backend/pubsub/client.py:80-89 | Saved positions are kept and known accounts not yet in the file start at 0 |
| PubSub.LRWPubSubClient.HandOver | backend/pubsub/client.py:58-67 | The batch of one key is handed over in order, up to an exception |
| PubSub.LRWPubSubClient.Sync | backend/pubsub/client.py:54-78 | Every key that does not fail moves by exactly the batch fetched, a failing one stays; exactly the batches of the visited keys are appended; the round fails exactly when a key fails and errors are not caught, and only a normal end writes the file |
| PubSub.RoundMovesPastHandedOver | backend/pubsub/client.py:54-78 | A position moves only past events that are all in the queue, and only events of the streams are queued |
| PubSub.FailingKeyStays | backend/pubsub/client.py:70-73 | A failing key keeps its position, having handed over what came before the exception |
| PubSub.RoundsReachHeight | backend/pubsub/client.py:49-52 | After n undisturbed rounds a position is 10 n further or at the height, and exactly the events in between were handed over, each once and in order |
| ExactlyOnce.GeneralRecordedOnce | backend/wallet/services/transaction.py:169-271 | Processing a general event adds its one row when there is none, and changes nothing when there is one |
| ExactlyOnce.RefundTriggeredIff | backend/wallet/services/transaction.py:221-252 | A refund is sent for exactly the messages whose payment, to a subaddress nobody owns, is noted as needing one |
| ExactlyOnce.DeliverKeeps | backend/wallet/services/transaction.py:149-401 | Delivering any queued message, acknowledged or not, keeps the invariant of rows, queue and positions |
| ExactlyOnce.RoundKeeps | backend/pubsub/client.py:54-78 | A round of the subscription keeps it |
| ExactlyOnce.NextKeeps | backend/pubsub/client.py:54-89 | So do restarts, crashes in the middle of a batch, a torn progress file, a handler cut short and user calls |
| ExactlyOnce.RunKeepsInvariant | backend/pubsub/client.py:54-89 | The invariant holds in every state of every run |
| ExactlyOnce.ExactlyOnceCredit | backend/pubsub/client.py:54-89 | In every state of every run a general event below the saved position has exactly one row, which records it, or is still queued, and never triggered two refund sends |
| ExactlyOnce.SingleStreamIdentifies | backend/wallet/storage/transaction.py:97-104 | On one received-events stream no event is taken for another |
| ExactlyOnce.OwnRowIff | backend/wallet/services/transaction.py:169-271 | Of two general payments from outside the second gets a row of its own exactly when sender, subaddress of the sender or sequence number differ |
| ExactlyOnce.TwoStreamsLoseACredit | backend/wallet/storage/transaction.py:97-104 | A run over two streams that saves both positions and empties the queue, with a second, different payment that has no record |
| ExactlyOnce.RefundIsRecorded | backend/wallet/services/transaction.py:326-396 | Receiving a refund not seen before leaves a settled row for it beside its original |
| ExactlyOnce.RefundNeverTwice | backend/wallet/services/transaction.py:326-396 | However many calls later, as long as no submission gives its version to another row, a repeated refund message changes nothing |
| Resync.Synchronizer.HandleOwner | backend/wallet/services/system.py:224-257 | A known subaddress gives its account, an unknown one the inventory, and a missing one is drawn and registered for the inventory |
| Resync.Synchronizer.AddTransactionToDb | backend/wallet/services/system.py:144-183 | A transaction is entered once as sent or as received, sending first, or not at all |
| Resync.Synchronizer.SyncTransaction | backend/wallet/services/system.py:132-141 | Only peer-to-peer transactions whose version is not in the table are entered |
| Resync.Synchronizer.SyncTransactions | backend/wallet/services/system.py:104-129 | Paging through a stream of any length enters exactly what entering its events one by one does, and returns the versions seen |
| Resync.Synchronizer.CalculateLrwBalance | backend/wallet/services/system.py:69-86 | Paging through the accounts adds up the balances of all of them at the version |
| Resync.SentIsDebited | backend/wallet/services/system.py:144-166 | A missing transaction the wallet sent is entered as the chain has it and debits the account of its sender's subaddress, or the inventory for none or an unknown one; nobody else |
| Resync.ReceivedIsCredited | backend/wallet/services/system.py:144-183 | One it received credits the account of its receiver's subaddress in the same way; nobody else |
| Resync.OthersNotEntered | backend/wallet/services/system.py:104-166 | Other kinds, other wallets' transfers, recorded versions and those beyond the bound enter nothing |
| Resync.SyncAllKeepsFaithful | backend/wallet/services/system.py:104-141 | A table faithful to the chain stays so, grows only by events of the stream up to the bound, and has every relevant one of them |
| Resync.SyncAgainIsIdle | backend/wallet/services/system.py:132-141 | Events whose transactions are all recorded change nothing |
| Resync.FaithfulBalance | backend/wallet/services/system.py:69-86 | For a faithful table with every relevant version the paged balance is what the chain booked up to the version |
| Resync.ResyncReachesChain | backend/wallet/services/system.py:69-183 | After both streams the balance at every version up to the bound is received minus sent, less transfers to itself; no version is recorded twice; nothing beyond the bound is entered; running again adds no row |
| Resync.ResyncReachesEachAccount | backend/wallet/services/system.py:69-257 | Account by account, at every version up to the bound: what the chain sent to subaddresses of the account minus what it sent from them, less what the wallet paid to them itself |
| Resync.ReceivedMinusSentIff | backend/wallet/services/system.py:69-183 | The balance is received minus sent exactly when the transfers to itself up to the version add up to 0 |
| Resync.SelfTransferLowersBalance | backend/wallet/services/system.py:144-183 | A wallet that only ever paid itself 5 is resynchronised to -5 |
| WriteOnce.AcceptedMeansKeeps | backend/offchain/types/__init__.py:425-454 | The recursive validator accepts exactly when every protected field present before is unchanged at every depth where both objects are present |
| WriteOnce.KeepsReflexive | backend/offchain/types/__init__.py:425-454 | Resubmitting the same object is accepted |
| WriteOnce.KeepsTransitive | backend/offchain/types/__init__.py:425-454 | On history-safe schemas acceptance step by step is acceptance against any ancestor |
| WriteOnce.UnsafeHistory | backend/offchain/types/__init__.py:425-454 | For every other schema there is a history whose null step in the middle lets a protected field be overwritten |
| WriteOnce.TransitiveIff | backend/offchain/types/__init__.py:425-454 | Acceptance is transitive exactly on the history-safe schemas, for schemas nested to any depth |
| WriteOnce.HistoryProtected | backend/offchain/types/__init__.py:425-454 | In a history accepted step by step every version keeps the protected fields of every earlier one |
| StateMachine.MatchRequire | backend/offchain/state.py:95-109 | The accumulating loop over conditions, with its late validation, computes the merged result or the exception |
| StateMachine.MatchAllSucceeds | backend/offchain/state.py:95-109 | A list of conditions succeeds exactly when each does, and raises exactly when one raises |
| StateMachine.OutcomeExplained | backend/offchain/state.py:12-112 | A condition succeeds exactly when nothing is reported as mismatched, a simple one reports its own path, and an exception always names a mismatch |
| StateMachine.UnconditionalSucceeds | backend/offchain/state.py:115-127 | A state without a requirement matches anything |
| StateMachine.BuildMachine | backend/offchain/state.py:194-207 | For any transition list: the states are those named last under each id, without repetition, and the initial ones exactly those no transition leads to |
| StateMachine.BuildIdentifiedMachine | backend/offchain/state.py:194-207 | When ids identify states, the states are those that appear and the initial ones those never led to |
| StateMachine.FoundIff | backend/offchain/state.py:159-181 | A state is found exactly when no state raises and it alone matches |
| StateMachine.MatchByIds | backend/offchain/state.py:159-181 | What matching answers, in terms of which states fit and which raise |
| StateMachine.EdgesBuild | backend/offchain/state.py:194-207 | A machine given by edges between ids is the one the builder makes |
| Payments.MovesAreTransitions | backend/offchain/payment_state.py:114-129 | The twelve legal moves, as a relation on states |
| Payments.MachineIsBuilt | backend/offchain/payment_state.py:114-129 | The payment machine is what the builder makes of the list, with the one initial state S_INIT |
| Payments.Paths | backend/offchain/types/p2p_payment_types.py:133-203 | Where the attribute paths of the states lead in a payment object |
| Payments.StateMatches | backend/offchain/payment_state.py:40-112 | When a payment satisfies each of the nine states, and when its validation raises instead |
| Payments.ClassifyIsMatchState | backend/offchain/state.py:159-181 | The machine run on the attribute tree and the reading by statuses agree on every payment |
| Payments.AtMostOneState | backend/offchain/payment_state.py:40-112 | Every payment object matches at most one state |
| PaymentCommands.StateForIsMachine | backend/offchain/payment_command.py:206-214 | The state of a command is what the machine finds |
| PaymentCommands.WriteOnceIsValidator | backend/offchain/payment_command.py:143-144 | On payments the recursive validator is exactly: protected fields are kept and no field changes its type |
| PaymentCommands.PaymentHistorySafe | backend/offchain/types/p2p_payment_types.py:133-203 | The payment schema is history-safe |
| PaymentCommands.DecodedHistoryProtected | backend/offchain/payment_command.py:143-144 | Decoded payments accepted one by one would be accepted against any earlier one |
| PaymentCommands.PaymentHistoryProtected | backend/offchain/payment_command.py:143-144 | Payments accepted one by one, read back from rows or not, keep the write-once fields of every earlier one |
| PaymentCommands.NewCommandChangesOwnActor | backend/offchain/payment_command.py:146-173 | A new command changes the own actor and the signature only, exactly as given, and leaves the counterparty and the payment itself |
| PaymentCommands.EvaluationMakesReady | backend/wallet/services/offchain/utils.py:50-68 | An evaluation makes the own side ready; a receiver also gives its data and signature, a sender changes nothing else |
| PaymentRuns.RunKeepsWriteOnce | backend/offchain/payment_command.py:85-96 | In an accepted run each command keeps the write-once fields of every earlier one |
| PaymentRuns.RunCarriesEvidence | backend/offchain/payment_command.py:85-144 | Which data a payment carries in each state an accepted run can reach |
| PaymentRuns.ReadyCarriesEvidence | backend/offchain/payment_command.py:85-144 | A payment READY in an accepted run has both KYC data and the signature as first supplied, and the action and addresses of the first command |
| PaymentRuns.TurnTaking | backend/offchain/payment_command.py:116-141 | Accepted inbound exchanges alternate producers from the sender on, change an object only on its owner's turn, and have at most seven commands |
| PaymentRuns.ProducersAlternate | backend/offchain/payment_state.py:146-151 | The producer of the i-th command is the sender exactly for even i |
| PaymentRuns.FollowUpIsNextProducer | backend/offchain/payment_state.py:131-161 | The party asked to act is the one whose command any next state must come from |
| PaymentRuns.AskedIff | backend/offchain/payment_state.py:122-162 | Which action is asked of whom in exactly which states; only the sender of a READY payment is asked to submit it |
| PaymentRuns.EndStates | backend/offchain/payment_state.py:114-143 | The states without a next one are READY and the two aborts; only the aborts have no follow-up |
| PaymentRuns.SevenCommandsPossible | backend/offchain/payment_state.py:114-129 | The bound of seven is reached |
| PaymentRuns.ReceiverAnswerAccepted | backend/wallet/services/offchain/utils.py:50-68 | The answer to an initial payment passes the sender's validation exactly when the payment carried no other receiver KYC data or signature |
| PaymentRuns.SenderAnswerAccepted | backend/wallet/services/offchain/utils.py:50-55 | The answer to an R_SEND payment always passes the receiver's validation and is READY |
| PaymentRuns.KycPathReachesReady | backend/wallet/services/offchain/utils.py:50-68 | From a first command built by the library two evaluations are accepted and reach READY with the data supplied |
| PaymentRows.StoredPaymentRestoredIff | backend/wallet/services/offchain/p2p_payment.py:138-217 | A row is made exactly when its times can be stored, and gives back the payment exactly when there are also no abort details, no zero expiry and no list of metadata |
| PaymentRows.TimesAreYears | backend/wallet/services/offchain/p2p_payment.py:183-217 | The times that can be stored are those of the years 1 to 9999 but for the first day |
| PaymentRows.DecodedNoMetadataIff | backend/wallet/storage/models.py:132-137 | For a payment decoded from JSON the last condition means no metadata for either actor |
| PaymentRows.UpdateLosesNothingIff | backend/wallet/services/offchain/p2p_payment.py:246-272 | After validation the partial update leaves a row that reads as the accepted payment, exactly when no abort details and no list of metadata came and the description did not change |
| PaymentRows.StoredMetadataBlocks | backend/offchain/types/__init__.py:425-435 | Once metadata is stored, a further command that has it as a list is refused |
| PaymentRows.TaskKeepsEntry | backend/wallet/services/offchain/offchain.py:90-148 | Sending, answering and submitting, with rollback on any failure, keep the row invariant |
| PaymentRows.ReceiveKeepsEntry | backend/wallet/services/offchain/p2p_payment.py:116-135 | An inbound command keeps it, and leaves completed, cancelled and ready rows as they are |
| PaymentRows.PaymentBook.SaveOutboundPaymentCommand | backend/wallet/services/offchain/p2p_payment.py:320-342 | A new outbound payment whose times can be stored is stored under its reference |
| PaymentRows.PaymentBook.LockAndSaveInboundCommand | backend/wallet/services/offchain/p2p_payment.py:116-135 | An admitted and validated command updates its row, a first one is stored if its times can be, anything refused changes nothing |
| PaymentRows.PaymentBook.RunCallback | backend/wallet/services/offchain/p2p_payment.py:96-111 | The callback under the lock runs only on a row still in its status; the assertions it makes hold |
| PaymentRows.PaymentBook.ProcessPaymentByStatus | backend/wallet/services/offchain/p2p_payment.py:89-113 | A pass over the rows of one status runs its callback once on each and leaves all others |
| PaymentRows.PaymentBook.ProcessOffchainTasks | backend/wallet/services/offchain/offchain.py:190-192 | The three passes in order, the later ones on what the earlier ones left |
| PaymentRows.StepKeepsBook | backend/wallet/storage/p2p_payment.py:29-45 | Every save, inbound command and pass keeps the invariant of all rows and never moves a final one |
| PaymentRows.BookInvariantOverRuns | backend/wallet/services/offchain/offchain.py:90-192 | Over every run OFF_CHAIN_READY means a READY payment with receiver KYC and a decodable signature, CANCELED means an abort, a settlement exists exactly for COMPLETED rows, and final rows stay |
| PaymentProgress.StoredStatusSaysState | backend/wallet/services/offchain/p2p_payment.py:345-352 | A command is stored as OFF_CHAIN_READY exactly in state READY, and as CANCELED exactly after an abort |
| PaymentProgress.OutboundIsSent | backend/wallet/services/offchain/offchain.py:90-115 | An outbound row waits for its answer as soon as it was delivered, and not before |
| PaymentProgress.InboundIsAnswered | backend/wallet/services/offchain/offchain.py:90-148 | The sender's answer to the receiver's data makes the row ready, with that data |
| PaymentProgress.InboundIsLeft | backend/wallet/services/offchain/offchain.py:90-148 | An inbound row in any other state is left as it is |
| PaymentProgress.ReadyIsSettled | backend/wallet/services/offchain/offchain.py:90-148 | A ready row is completed exactly when it was delivered and submitted, with a settlement of its amount, signature and chain numbers |
| PaymentProgress.AcceptedIsRead | backend/wallet/services/offchain/p2p_payment.py:116-135 | An accepted inbound command is what the row then reads as, and is canceled or waits for a task by its state |
| PaymentProgress.FirstInboundIsStored | backend/wallet/services/offchain/p2p_payment.py:116-135 | A first inbound command is stored under its reference exactly when it is admitted and its times can be stored |
| PaymentProgress.RefusedIsIgnored | backend/wallet/services/offchain/p2p_payment.py:116-135 | A repeated command, or one that fails validation, changes nothing |
| PaymentProgress.AdmittedIff | backend/offchain/client.py:180-220 | Who is let in: a payment in some state, and in R_SEND only with a signature that verifies |
| PaymentProgress.PassSettles | backend/wallet/services/offchain/offchain.py:190-192 | One background pass answers and settles a payment whose receiver has sent its data |
| PaymentProgress.HonestExchangeIsSettled | backend/wallet/services/offchain/offchain.py:90-192 | A payment the wallet starts is settled for its amount with the receiver's signature after one delivery, one honest answer and one more pass |
| PreApprovalRules.TransitionsMeaning | backend/offchain/funds_pull_pre_approval_command_state.py:10-41 | Pending may become anything, valid may be closed, nothing else changes, and none begins closed |
| PreApprovalRules.TransitionsCompose | backend/offchain/funds_pull_pre_approval_command_state.py:10-41 | Legal changes compose into legal changes |
| PreApprovalRules.ExplicitMeaning | backend/wallet/services/offchain/fund_pull_pre_approval_sm.py:136-179 | The explicit table is exactly: the sender has already recorded the status, the receiver's record makes a legal change, payees take answers and closings, payers requests and closings |
| PreApprovalRules.NoKeyMissing | backend/wallet/services/offchain/fund_pull_pre_approval_sm.py:181-234 | The error families cover every other state, so no look-up fails |
| PreApprovalRules.Update | backend/wallet/services/offchain/fund_pull_pre_approval_sm.py:250-251 | One update lists the family with its reason over whatever the table said before, and leaves the other states |
| PreApprovalRules.ErrorStates | backend/wallet/services/offchain/fund_pull_pre_approval_sm.py:181-234 | After the thirteen updates each state has the reason of the last family that holds |
| PreApprovalRules.BuildRoleReducer | backend/wallet/services/offchain/fund_pull_pre_approval_sm.py:131-247 | The table built by successive updates answers every state with the accepted role or the reason of refusal |
| PreApprovalRules.RoleReducer | backend/wallet/services/offchain/fund_pull_pre_approval_sm.py:254-276 | The same for the generated set of all states |
| PreApprovals.PreApprovalBook.CommitCommand | backend/wallet/storage/funds_pull_pre_approval_command.py:6-8 | A record is appended unless its id and account are taken |
| PreApprovals.PreApprovalBook.CreateAndApprove | backend/wallet/services/offchain/fund_pull_pre_approval.py:52-96 | A payer's own pre-approval is stored as valid unless it has expired or the id exists |
| PreApprovals.PreApprovalBook.UpdateStatus | backend/wallet/services/offchain/fund_pull_pre_approval.py:99-157 | Approve, reject and close change the first record of the id, only from their valid statuses |
| PreApprovals.PreApprovalBook.HandleFundPullPreApprovalCommand | backend/wallet/services/offchain/fund_pull_pre_approval.py:366-400 | Expiry, role, address and status checks in order, then the overwriting update or a new record |
| PreApprovals.CheckedIsUpdated | backend/wallet/services/offchain/fund_pull_pre_approval.py:366-395 | The record that was checked is the one the reducer saw and the update overwrites |
| PreApprovals.UpdateIsLegal | backend/wallet/services/offchain/fund_pull_pre_approval.py:425-446 | An accepted update is a legal status change that keeps identity and a bound payer |
| PreApprovals.NewIsPendingPayer | backend/wallet/services/offchain/fund_pull_pre_approval.py:396-400 | A command creates only pending records of a payer |
| PreApprovals.OverwrittenWasSeen | backend/wallet/services/offchain/fund_pull_pre_approval.py:366-395 | On any table the record an update overwrites is the one whose status the reducer saw |
| PreApprovals.HandlerRefinesTable | backend/wallet/services/offchain/fund_pull_pre_approval.py:366-433 | On any table and for any command, every stored status change is one the library table permits, and every new record has a permitted initial status |
| PreApprovals.HandlerIsLegal | backend/wallet/services/offchain/fund_pull_pre_approval.py:366-446 | On the wallet's own tables it also keeps role, addresses once bound and the tie of records to accounts |
| PreApprovals.DecisionRefinesTable | backend/wallet/services/offchain/fund_pull_pre_approval.py:133-157 | So is every decision of a customer, on any table, and a decision is refused exactly when the table forbids it or it changes nothing |
| PreApprovals.DecisionIsLegal | backend/wallet/services/offchain/fund_pull_pre_approval.py:133-157 | On the wallet's own tables a decision changes nothing else that identifies a record |
| PreApprovals.PayeeAcceptsIff | backend/wallet/services/offchain/fund_pull_pre_approval.py:366-446 | Exactly which commands a payee accepts from another wallet |
| PreApprovals.PayerAcceptsIff | backend/wallet/services/offchain/fund_pull_pre_approval.py:366-446 | Exactly which commands a payer accepts from another wallet |
| PreApprovals.AcceptedIsStored | backend/wallet/services/offchain/fund_pull_pre_approval.py:366-400 | An accepted command is stored exactly as it came, under its account; every other record is as before; only a new record is sent back and gets a biller name, and an update to valid gets the time of approval |
| PreApprovals.DecisionIsAnnounced | backend/wallet/services/offchain/fund_pull_pre_approval.py:99-157 | A decision is due to be sent, says the status decided on, notes the time exactly if it approves, and touches nothing else |
| PreApprovals.CreatedIsValid | backend/wallet/services/offchain/fund_pull_pre_approval.py:52-96 | A payer's own pre-approval is created exactly when it has not expired and its id is new, as one more valid record due to be sent with the terms, address and biller given |
| PreApprovals.RequestedIsPending | backend/wallet/services/offchain/fund_pull_pre_approval.py:220-270 | A payee's own request is one more pending record, due to be sent exactly when it names a payer |
| PreApprovalAgreement.BackedStays | backend/offchain/funds_pull_pre_approval_command_state.py:10-27 | What a payer's record once backed stays backed by whatever legal change follows |
| PreApprovalAgreement.PayersMove | backend/wallet/services/offchain/fund_pull_pre_approval.py:133-157 | Any legal change on the payers' side keeps everything the payees rely on |
| PreApprovalAgreement.DeliverToPayeesKeeps | backend/wallet/services/offchain/fund_pull_pre_approval.py:366-400 | Delivering any command ever sent to the payees keeps the invariant |
| PreApprovalAgreement.DeliverToPayersKeeps | backend/wallet/services/offchain/fund_pull_pre_approval.py:366-400 | So does delivering to the payers |
| PreApprovalAgreement.AskKeeps | backend/wallet/services/validation_tool.py:60-87 | So does a new request by a payee, with or without a known payer |
| PreApprovalAgreement.NextKeeps | backend/wallet/services/offchain/fund_pull_pre_approval.py:195-217 | So does every step, sends with and without recording them included |
| PreApprovalAgreement.RunKeeps | backend/wallet/services/offchain/fund_pull_pre_approval.py:133-217 | The invariant holds over every run, and each record reaches its last form by legal changes only |
| PreApprovalAgreement.AgreementOverRuns | backend/wallet/services/offchain/fund_pull_pre_approval.py:133-446 | Over every interleaving, repetition and reordering: a payee record is valid only if its payer's is valid or closed, rejected only if that is rejected, and a payer address is bound at most once |
| PreApprovalAgreement.SentOnce | backend/wallet/services/offchain/fund_pull_pre_approval.py:195-217 | A due record is sent as it is, and once that is recorded it is not sent again |
| PreApprovalAgreement.DecisionArrives | backend/wallet/services/offchain/fund_pull_pre_approval.py:52-433 | From empty tables a request, its delivery, the decision of the payer and the delivery of that end with the same decided pre-approval in both wallets |
| PreApprovalAgreement.PayeeDecisionAgreesIff | backend/wallet/services/offchain/fund_pull_pre_approval.py:133-157 | Agreement survives a payee's own decision exactly when it closes, or a payer's record already backs the decision |
| PreApprovalAgreement.PayeeApprovingBreaksAgreement | backend/wallet/services/offchain/fund_pull_pre_approval.py:133-157 | From empty tables, any request that its own payee then approves or rejects breaks agreement |
| Decimals.HalfEvenUnique | backend/diem_utils/precise_amount.py:14-23 | Half-even rounding is the one nearest integer, even in a tie |
| Decimals.HalfEvenMonotone | backend/diem_utils/precise_amount.py:14-23 | Rounding respects the order of quotients with any denominators |
| Decimals.RoundedOnce | backend/diem_utils/precise_amount.py:28-30 | A number of at most twenty digits with any decimals is rounded once only, by the quantize |
| Decimals.WithinElevenTwentieths | backend/diem_utils/precise_amount.py:28-46 | Below the limit the two roundings together are off by at most 0.55 |
| Decimals.MicroMonotone | backend/diem_utils/precise_amount.py:28-46 | Twice rounding respects order for quotients of any size |
| Decimals.MicroFixedIff | backend/diem_utils/precise_amount.py:17-30 | A whole number survives both roundings exactly when it has at most twenty significant digits |
| Decimals.MicroRepresentable | backend/diem_utils/precise_amount.py:28-30 | Every stored result has at most twenty significant digits |
| Amounts.SecondRoundingIsIdle | backend/diem_utils/precise_amount.py:28-30 | Converting a result of the context once more changes nothing |
| Amounts.SetIsStored | backend/diem_utils/precise_amount.py:28-46 | Operating in the context and then setting is rounding the exact value twice |
| Amounts.SoundIsFixed | backend/diem_utils/precise_amount.py:65-66 | Storing a stored value again gives it back, which cloning relies on |
| Amounts.Amount.Deserialize | backend/diem_utils/precise_amount.py:17-23 | The stored value, or an InvalidOperation that leaves the amount as it was |
| Amounts.Amount.Serialize | backend/diem_utils/precise_amount.py:25-26 | The whole number of micro-units |
| Amounts.Amount.Set | backend/diem_utils/precise_amount.py:28-30 | Any decimal is stored twice rounded |
| Amounts.Amount.Clone | backend/diem_utils/precise_amount.py:65-66 | A fresh amount of the same value |
| Amounts.Amount.MultiplyBy | backend/diem_utils/precise_amount.py:38-41 | In place, the product of the two values, also of an amount with itself |
| Amounts.Amount.DivideBy | backend/diem_utils/precise_amount.py:43-46 | In place, the ratio; division by zero stores nothing |
| Amounts.Amount.Times | backend/diem_utils/precise_amount.py:48-49 | A fresh product; neither operand changes |
| Amounts.Amount.Over | backend/diem_utils/precise_amount.py:51-52 | A fresh ratio; neither operand changes |
| Amounts.RoundTripIff | backend/diem_utils/precise_amount.py:17-26 | Deserialize then serialize is the identity exactly for twenty significant digits below the overflow, so for every whole number of at most twenty digits |
| Amounts.ProductRoundedOnce | backend/diem_utils/precise_amount.py:38-41 | Below 10^20 the product is exactly half-even of a*b/10^6 |
| Amounts.ProductWithin | backend/diem_utils/precise_amount.py:38-41 | Below 10^26 it is within 0.55 of a*b/10^6 |
| Amounts.ProductMonotone | backend/diem_utils/precise_amount.py:38-41 | It is monotone when one operand is not negative |
| Amounts.SortedByAmountIsSortedByFiat | backend/wallet/services/account.py:117-128 | A list in order of amount is in order of the fiat sort key of one currency |
| Amounts.InverseRate | backend/wallet/services/fx/fx.py:38-46 | For every positive rate r the reverse i satisfies \|r*i - 10^12\| <= 0.55*r |
| Rates.Fx.SetRate | backend/wallet/services/fx/fx.py:38-57 | The quote and its reverse are stored, an unknown pair stores nothing, and a zero quote leaves its half of the pair behind |
| Rates.Fx.SetEitherWay | backend/wallet/services/fx/fx.py:27-35 | A pair is quoted one way or the other, so no LookupError escapes, and it succeeds exactly when that quote is usable |
| Rates.Fx.SetEach | backend/wallet/services/fx/fx.py:27-35 | The loop ends without an error exactly when every quote is usable |
| Rates.Fx.UpdateRates | backend/wallet/services/fx/fx.py:20-35 | There is no error exactly when every fiat currency has a usable quote, and then each can be converted both ways; no other pair is added |
| Rates.Fx.GetRate | backend/wallet/services/fx/fx.py:13-17 | A stored rate is returned without an update; none is returned exactly when a missing pair does not involve the base currency or some quote is unusable |
| Rates.ReverseExists | backend/wallet/services/fx/fx.py:44-46 | The reverse of a non-zero rate never overflows |
| Rates.BothWaysInverse | backend/wallet/services/fx/fx.py:38-46 | The two stored directions of a positive rate multiply to one within 0.55 micro-units of the quoted one |
| Utf8.DecodeEncode | backend/offchain/jws.py:38-64 | Decoding inverts encoding for every string without surrogates |
| Utf8.EncodeDecode | backend/offchain/jws.py:44-66 | Strict decoding accepts only the one encoding of a string |
| Utf8.BitsInPlace | backend/offchain/jws.py:38-64 | The bytes hold the bits of the code point where RFC 3629 puts them, in the shortest form |
| Utf8.OneIsDecodedIff | backend/offchain/jws.py:44-66 | Exactly the code points other than surrogates can be decoded |
| Base64.SymbolIsLetter | backend/offchain/jws.py:10-11 | The 64 symbols are letters, digits, minus and underscore in the order of the standard |
| Base64.BitsInOrder | backend/offchain/jws.py:10-11 | Symbols carry the bits of the bytes in order, filled up with zeros |
| Base64.EncodedAreSymbols | backend/offchain/jws.py:10-11 | Every byte that is written is a letter, a digit, minus or underscore |
| Base64.SymbolsDecoded | backend/offchain/jws.py:74-79 | The lenient decoder gives the bytes back under the pads needed, or any number after full groups |
| Base64.BothAlphabetsRead | backend/offchain/jws.py:74-79 | Plus and slash are read like minus and underscore |
| Base64.StrangersSkipped | backend/offchain/jws.py:74-79 | A byte of neither alphabet is skipped wherever it stands |
| Base64.WholeGroupsIff | backend/offchain/jws.py:74-79 | Symbols without padding are accepted exactly in whole groups of four |
| Base64.TooFewPadsRefused | backend/offchain/jws.py:74-79 | A last group with fewer pads than it needs is refused |
| Base64.UrlRoundTrip | backend/offchain/jws.py:10-79 | Decoding the over-padded text inverts encoding for all bytes |
| Jws.SplitThree | backend/offchain/jws.py:45-51 | Three parts without dots are found again |
| Jws.JoinSplit | backend/offchain/jws.py:45-51 | Splitting at dots loses nothing and leaves no dot |
| Jws.RoundTrip | backend/offchain/jws.py:38-71 | For every string and signer: the string, the signature and the very bytes that were signed |
| Jws.AcceptedIsSigned | backend/offchain/jws.py:44-71 | Any accepted message has exactly two dots, the verified bytes are everything before the second, and the algorithms agree |
| Jws.AcceptedIff | backend/offchain/jws.py:44-71 | Three parts without dots are accepted exactly when the header names the codec's own algorithm, the body is text and the signature base64 |
| Jws.OtherDotsRefused | backend/offchain/jws.py:46-51 | Any text with another number of dots is refused |
| Jws.HeaderText | backend/offchain/jws.py:14 | The protected header names EdDSA |
| SchemaCodec.DecodeObject | backend/offchain/types/__init__.py:128-168 | The loop over declared fields, with its list of unknown ones, computes the decoded object or the first error |
| SchemaCodec.RoundTrip | backend/offchain/types/__init__.py:108-223 | Decoding the dictionary form gives back every value that fits its type, nested to any depth |
| SchemaCodec.DecodedRepresents | backend/offchain/types/__init__.py:108-223 | An accepted dictionary has no unknown entry at any depth and says exactly what the value says |
| SchemaCodec.DecodedFits | backend/offchain/types/__init__.py:108-223 | Every decoded value fits its type, with valid values and tags as announced |
| SchemaCodec.DecodedIff | backend/offchain/types/__init__.py:108-223 | A dictionary decodes to a value exactly when the value fits the type and the dictionary says what the value says, absent entries reading as null |
| SchemaCodec.NullReadsAsAbsent | backend/offchain/types/__init__.py:195-201 | Dropping a null entry of a declared field leaves the result the same, value or error |
| SchemaCodec.ValidityIff | backend/offchain/types/__init__.py:203-217 | Exactly which values a list or a pattern admits, and the error for the others |
| SchemaCodec.TagOutcome | backend/offchain/types/__init__.py:470-486 | What every tag leads to: a class, a missing field, an invalid value or an uncaught error |
| SchemaCodec.RequiredIsMissing | backend/offchain/types/__init__.py:195-201 | A required field that is absent or null is reported missing under its path |
| SchemaCodec.WrongKindReported | backend/offchain/types/__init__.py:128-156 | A value of the wrong kind is an invalid object at the top and an invalid field value below |
| SchemaCodec.UnknownReported | backend/offchain/types/__init__.py:158-175 | Once the known fields are in order, unknown ones are reported |
| SchemaCodec.RoundTripIff | backend/offchain/types/__init__.py:94-223 | Decoding undoes encoding exactly for the values that fit |
| SchemaCodec.SecondAlternativeLost | backend/offchain/types/__init__.py:185-194 | Below the top-level result an optional union never gives back its second alternative |

## Left out

- Currencies: the wallet's ledger has the single currency XUS, so amounts carry none.
- Concurrency of the database: each service call is one atomic step; check-then-insert under real concurrency is not modelled.
- Row order and keys: queries see rows in insertion order, and a row's key is its position unless a reference id is given.
- Randomness, clocks, the node and the network: fresh subaddresses, reference ids, outcomes of chain submissions, quotes, deliveries and the current time are parameters or nondeterministic steps.
- Logging and transaction logs: assumed not to fail inside `submit_onchain`, and otherwise not modelled.
- `submit_onchain` run inline by `external_transaction`: a separate step, as in the mode with background tasks.
- LedgerSafety.NoOverdraft: pay-to-merchant locking and the settlement row that submitting an off-chain payment writes are not among the calls, because they are made by services outside this ledger model; they debit without a balance check too.
- LedgerSafety.RunConservesMoney: for an unknown subaddress the flow is only the refund sent, because the noted row is never credited.
- ExactlyOnce.ExactlyOnceCredit: assumes senders other than the wallet itself and no event that could be taken for another, which holds for one received-events stream; a message leaves the queue only after its handler returned.
- `remove_redundant`, `sync_db`'s choice of version and the check whether a sync is needed: not modelled.
- Resync.ResyncReachesChain: assumes that the two streams together miss no relevant transaction and says nothing for version 0, where the query has no bound.
- KYC data: an opaque value, compared for equality; stored rows keep it as its JSON text.
- The receiver's side of stored payments, the reply as receiver, approve and reject by the user, and pay-to-merchant payments: not modelled.
- PaymentRows.BookInvariantOverRuns: assumes that the wallet is the sender, that its own signatures are non-empty hex, and no crash between adding the settlement row and marking the payment completed.
- PaymentRows.UpdateLosesNothingIff: metadata goes into a text column, modelled as PostgreSQL converts a list in an assignment; SQLite refuses such a save altogether.
- PaymentRows.StoredPaymentRestoredIff: local time is taken as UTC, without daylight saving; the widths of integer columns are not modelled.
- PaymentRuns.TurnTaking: is about exchanges validated by the counterparty, as the library offers; the receiving wallet stores an unknown reference without validation.
- Replayed commands: a command equal to the stored one makes the save fail, which is a step without effect.
- Pre-approvals between two accounts of one wallet: handled by the reducer and the handler, but agreement is proved for separate wallets only.
- PreApprovalAgreement.AgreementOverRuns: assumes that payees never approve or reject, that addresses keep their accounts, and that an own address without an account makes the insert fail.
- In-memory effects of copying an ORM record's methods, and the terms of a pre-approval beyond their expiry: not modelled.
- NaN, infinities and decimal strings as amounts, and floats in JSON: only whole numbers are deserialized.
- `RATES` as amount objects: held as values, since no operation changes an amount in the table.
- Sorting by date, filters and limits of transaction lists: not modelled.
- JSON text: reading and writing JSON is assumed faithful, and the header of a message is read by an abstract function that finds an algorithm in the codec's own header.
- Base64 decoding: the lenient decoder as in CPython 3.8 and later.
- Jws.RoundTrip: excludes strings with surrogates, because they have no encoding and serializing them raises.
- Signature creation and verification, bech32 addresses and transaction metadata encoding: abstract functions.
- SchemaCodec.RoundTripIff: models the result, not that the decoder overwrites the entries of the dictionary it is given.
- Users, passwords, tokens, orders and their polling, the web front end, and plumbing: not modelled.
