/**
 * The transaction table and the two ways the wallet reads balances off it: a fold over one
 * account's rows, and a grouped aggregate over the whole table.
 *
 * No balance is stored. `DiemCurrency` has the single member XUS, so amounts carry no currency.
 */
module Ledger {
  import opened Wrappers
  import opened Sums

  datatype TransactionType = External | Internal | Offchain | Refund

  datatype TransactionStatus =
    | Pending | Completed | Canceled | ProcessFailed | NeedRefund | Locked
    | OffChainReady | OffChainOutbound | OffChainInbound | OffChainWait | OffChainReceiverOutbound

  /** One row; its primary key is its position in the table, or `reference` when that is set. */
  datatype Transaction = Transaction(
    kind: TransactionType,
    amount: int,
    status: TransactionStatus,
    sourceId: Option<int>,
    sourceAddress: Option<string>,
    sourceSubaddress: Option<string>,
    destinationId: Option<int>,
    destinationAddress: Option<string>,
    destinationSubaddress: Option<string>,
    sequence: Option<int>,
    version: Option<int>,
    originalId: Option<nat>,
    reference: Option<string>)

  type Table = seq<Transaction>

  datatype Balance = Balance(total: int, frozen: int)

  // ---- What one row means for one account ----

  function Credit(tx: Transaction): int { if tx.status.Completed? then tx.amount else 0 }

  function Debit(tx: Transaction): int { if tx.status.Canceled? then 0 else tx.amount }

  function Held(tx: Transaction): int
  {
    if tx.status.Pending? || tx.status.Locked? then tx.amount else 0
  }

  function NetFor(tx: Transaction, account: int): int
  {
    (if tx.destinationId == Some(account) then Credit(tx) else 0)
    - (if tx.sourceId == Some(account) then Debit(tx) else 0)
  }

  function HeldFor(tx: Transaction, account: int): int
  {
    if tx.sourceId == Some(account) then Held(tx) else 0
  }

  function NetOf(account: int): Transaction -> int { (tx: Transaction) => NetFor(tx, account) }

  function HeldOf(account: int): Transaction -> int { (tx: Transaction) => HeldFor(tx, account) }

  /** The balance of an account: what it was credited minus what it was debited. */
  function Total(rows: Table, account: int): int { Sum(rows, NetOf(account)) }

  function Frozen(rows: Table, account: int): int { Sum(rows, HeldOf(account)) }

  /** The amount at one account only. */
  function At(account: int, holder: int, amount: int): int { if account == holder then amount else 0 }

  // ---- The per-account fold ----

  /** The version filter applies only to a truthy bound: version 0 does not filter. */
  predicate Selected(tx: Transaction, account: int, upToVersion: Option<int>)
  {
    && (tx.sourceId == Some(account) || tx.destinationId == Some(account))
    && InVersionRange(tx, upToVersion)
  }

  predicate InVersionRange(tx: Transaction, upToVersion: Option<int>)
  {
    (upToVersion.Some? && upToVersion.value != 0)
    ==> (tx.version.Some? && tx.version.value <= upToVersion.value)
  }

  function AccountTransactions(rows: Table, account: int, upToVersion: Option<int>): Table
  {
    if |rows| == 0 then []
    else
      var rest := AccountTransactions(rows[..|rows| - 1], account, upToVersion);
      var last := rows[|rows| - 1];
      if Selected(last, account, upToVersion) then rest + [last] else rest
  }

  function UpToVersion(rows: Table, upToVersion: Option<int>): Table
  {
    if |rows| == 0 then []
    else
      var rest := UpToVersion(rows[..|rows| - 1], upToVersion);
      var last := rows[|rows| - 1];
      if InVersionRange(last, upToVersion) then rest + [last] else rest
  }

  method CalcAccountBalance(accountId: int, transactions: seq<Transaction>) returns (balance: Balance)
    ensures balance == Balance(Total(transactions, accountId), Frozen(transactions, accountId))
  {
    balance := Balance(0, 0);
    for i := 0 to |transactions|
      invariant balance == Balance(Total(transactions[..i], accountId), Frozen(transactions[..i], accountId))
    {
      var tx := transactions[i];
      assert transactions[..i + 1][..i] == transactions[..i];
      if tx.destinationId == Some(accountId) && tx.status.Completed? {
        balance := balance.(total := balance.total + tx.amount);
      }
      if tx.sourceId == Some(accountId) {
        if tx.status.Pending? || tx.status.Locked? {
          balance := balance.(frozen := balance.frozen + tx.amount);
        }
        if !tx.status.Canceled? {
          balance := balance.(total := balance.total - tx.amount);
        }
      }
    }
    assert transactions[..|transactions|] == transactions;
  }

  /** Selecting an account's rows loses nothing of its balance. */
  lemma {:induction false} SelectionKeepsBalance(rows: Table, account: int, upToVersion: Option<int>)
    ensures Total(AccountTransactions(rows, account, upToVersion), account)
         == Total(UpToVersion(rows, upToVersion), account)
    ensures Frozen(AccountTransactions(rows, account, upToVersion), account)
         == Frozen(UpToVersion(rows, upToVersion), account)
  {
    if |rows| > 0 {
      var init, last := rows[..|rows| - 1], rows[|rows| - 1];
      SelectionKeepsBalance(init, account, upToVersion);
      var total, frozen := NetOf(account), HeldOf(account);
      SumSnoc(AccountTransactions(init, account, upToVersion), last, total);
      SumSnoc(UpToVersion(init, upToVersion), last, total);
      SumSnoc(AccountTransactions(init, account, upToVersion), last, frozen);
      SumSnoc(UpToVersion(init, upToVersion), last, frozen);
    }
  }

  method GetAccountBalance(rows: Table, accountId: int, upToVersion: Option<int>) returns (balance: Balance)
    ensures balance == Balance(Total(UpToVersion(rows, upToVersion), accountId),
                               Frozen(UpToVersion(rows, upToVersion), accountId))
  {
    balance := CalcAccountBalance(accountId, AccountTransactions(rows, accountId, upToVersion));
    SelectionKeepsBalance(rows, accountId, upToVersion);
  }

  lemma {:induction false} NoBoundKeepsAll(rows: Table, upToVersion: Option<int>)
    requires upToVersion == None || upToVersion == Some(0)
    ensures UpToVersion(rows, upToVersion) == rows
  {
    if |rows| > 0 {
      NoBoundKeepsAll(rows[..|rows| - 1], upToVersion);
    }
  }

  // ---- The grouped aggregate ----

  datatype Group = Group(status: TransactionStatus, amount: int)

  predicate CountsAsCredit(tx: Transaction) { !tx.kind.Internal? && tx.destinationId.Some? }

  predicate CountsAsDebit(tx: Transaction) { !tx.kind.Internal? && tx.sourceId.Some? }

  function AddToGroup(groups: seq<Group>, status: TransactionStatus, amount: int): (r: seq<Group>)
    ensures |r| > 0
  {
    if |groups| == 0 then [Group(status, amount)]
    else if groups[0].status == status then [Group(status, groups[0].amount + amount)] + groups[1..]
    else [groups[0]] + AddToGroup(groups[1..], status, amount)
  }

  /** `SELECT status, SUM(amount) ... GROUP BY status` over the rows that pass the filter. */
  function GroupByStatus(rows: Table, filter: Transaction -> bool): seq<Group>
  {
    if |rows| == 0 then []
    else
      var groups := GroupByStatus(rows[..|rows| - 1], filter);
      var last := rows[|rows| - 1];
      if filter(last) then AddToGroup(groups, last.status, last.amount) else groups
  }

  function TotalCredits(rows: Table): seq<Group> { GroupByStatus(rows, CountsAsCredit) }

  function TotalDebits(rows: Table): seq<Group> { GroupByStatus(rows, CountsAsDebit) }

  predicate HasKey(groups: seq<Group>, status: TransactionStatus)
  {
    exists i :: 0 <= i < |groups| && groups[i].status == status
  }

  predicate DistinctKeys(groups: seq<Group>)
  {
    |groups| == 0 || (!HasKey(groups[1..], groups[0].status) && DistinctKeys(groups[1..]))
  }

  lemma {:induction false} AddToGroupKeys(groups: seq<Group>, status: TransactionStatus, amount: int)
    ensures forall s :: HasKey(AddToGroup(groups, status, amount), s) <==> s == status || HasKey(groups, s)
    ensures DistinctKeys(groups) ==> DistinctKeys(AddToGroup(groups, status, amount))
  {
    var r := AddToGroup(groups, status, amount);
    if |groups| == 0 {
      assert r[0].status == status;
    } else {
      AddToGroupKeys(groups[1..], status, amount);
      forall s ensures HasKey(groups, s) <==> s == groups[0].status || HasKey(groups[1..], s) { KeyHeadTail(groups, s); }
      forall s ensures HasKey(r, s) <==> s == r[0].status || HasKey(r[1..], s) { KeyHeadTail(r, s); }
    }
  }

  lemma {:induction false} KeyHeadTail(groups: seq<Group>, s: TransactionStatus)
    requires |groups| > 0
    ensures HasKey(groups, s) <==> s == groups[0].status || HasKey(groups[1..], s)
  {
  }

  predicate Occurs(rows: Table, filter: Transaction -> bool, status: TransactionStatus)
  {
    exists i :: 0 <= i < |rows| && filter(rows[i]) && rows[i].status == status
  }

  lemma {:induction false} OccursSnoc(rows: Table, last: Transaction, filter: Transaction -> bool, s: TransactionStatus)
    ensures Occurs(rows + [last], filter, s) <==> Occurs(rows, filter, s) || (filter(last) && last.status == s)
  {
    if Occurs(rows, filter, s) {
      var i :| 0 <= i < |rows| && filter(rows[i]) && rows[i].status == s;
      assert (rows + [last])[i] == rows[i];
    }
    if filter(last) && last.status == s {
      assert (rows + [last])[|rows|] == last;
    }
  }

  /** The grouped query yields exactly one group for each status among the filtered rows. */
  lemma {:induction false} GroupKeys(rows: Table, filter: Transaction -> bool)
    ensures DistinctKeys(GroupByStatus(rows, filter))
    ensures forall s :: HasKey(GroupByStatus(rows, filter), s) <==> Occurs(rows, filter, s)
  {
    if |rows| > 0 {
      var init, last := rows[..|rows| - 1], rows[|rows| - 1];
      GroupKeys(init, filter);
      AddToGroupKeys(GroupByStatus(init, filter), last.status, last.amount);
      assert rows == init + [last];
      forall s ensures Occurs(rows, filter, s) <==> Occurs(init, filter, s) || (filter(last) && last.status == s) {
        OccursSnoc(init, last, filter, s);
      }
    }
  }

  function Picked(wanted: TransactionStatus -> bool): Group -> int { (g: Group) => if wanted(g.status) then g.amount else 0 }

  function Matching(filter: Transaction -> bool, wanted: TransactionStatus -> bool): Transaction -> int
  {
    (tx: Transaction) => if filter(tx) && wanted(tx.status) then tx.amount else 0
  }

  predicate IsCompleted(s: TransactionStatus) { s.Completed? }

  predicate IsPending(s: TransactionStatus) { s.Pending? }

  predicate IsLive(s: TransactionStatus) { !s.Canceled? }

  lemma {:induction false} AddToGroupSum(groups: seq<Group>, status: TransactionStatus, amount: int,
                                         wanted: TransactionStatus -> bool)
    ensures Sum(AddToGroup(groups, status, amount), Picked(wanted))
         == Sum(groups, Picked(wanted)) + if wanted(status) then amount else 0
  {
    var f := Picked(wanted);
    if |groups| == 0 {
      SumSnoc([], Group(status, amount), f);
      assert [] + [Group(status, amount)] == [Group(status, amount)];
    } else {
      SumConcat([groups[0]], groups[1..], f);
      assert [groups[0]] + groups[1..] == groups;
      if groups[0].status == status {
        SumConcat([Group(status, groups[0].amount + amount)], groups[1..], f);
      } else {
        AddToGroupSum(groups[1..], status, amount, wanted);
        SumConcat([groups[0]], AddToGroup(groups[1..], status, amount), f);
      }
    }
  }

  /** Summing groups whose status is wanted equals summing the matching rows one by one. */
  lemma {:induction false} GroupedSum(rows: Table, filter: Transaction -> bool, wanted: TransactionStatus -> bool)
    ensures Sum(GroupByStatus(rows, filter), Picked(wanted)) == Sum(rows, Matching(filter, wanted))
  {
    if |rows| > 0 {
      var last := rows[|rows| - 1];
      GroupedSum(rows[..|rows| - 1], filter, wanted);
      if filter(last) {
        AddToGroupSum(GroupByStatus(rows[..|rows| - 1], filter), last.status, last.amount, wanted);
      }
    }
  }

  function GroupedNet(tx: Transaction): int
  {
    (if CountsAsCredit(tx) then Credit(tx) else 0) - (if CountsAsDebit(tx) then Debit(tx) else 0)
  }

  function GroupedHeld(tx: Transaction): int
  {
    if CountsAsDebit(tx) && tx.status.Pending? then tx.amount else 0
  }

  /** The wallet-wide total, computed from the two grouped queries. */
  method GetTotalBalance(rows: Table) returns (balance: Balance)
    ensures balance == Balance(Sum(rows, GroupedNet), Sum(rows, GroupedHeld))
  {
    var credits, debits := TotalCredits(rows), TotalDebits(rows);
    balance := Balance(0, 0);
    for i := 0 to |credits|
      invariant balance == Balance(Sum(credits[..i], Picked(IsCompleted)), 0)
    {
      assert credits[..i + 1] == credits[..i] + [credits[i]];
      SumSnoc(credits[..i], credits[i], Picked(IsCompleted));
      assert Picked(IsCompleted)(credits[i]) == if IsCompleted(credits[i].status) then credits[i].amount else 0;
      if credits[i].status.Completed? {
        balance := balance.(total := balance.total + credits[i].amount);
      }
    }
    ghost var credited := balance.total;
    assert credits[..|credits|] == credits;
    for i := 0 to |debits|
      invariant balance == Balance(credited - Sum(debits[..i], Picked(IsLive)), Sum(debits[..i], Picked(IsPending)))
    {
      assert debits[..i + 1] == debits[..i] + [debits[i]];
      SumSnoc(debits[..i], debits[i], Picked(IsLive));
      SumSnoc(debits[..i], debits[i], Picked(IsPending));
      assert Picked(IsLive)(debits[i]) == if IsLive(debits[i].status) then debits[i].amount else 0;
      assert Picked(IsPending)(debits[i]) == if IsPending(debits[i].status) then debits[i].amount else 0;
      if debits[i].status.Pending? {
        balance := balance.(frozen := balance.frozen + debits[i].amount);
      }
      if !debits[i].status.Canceled? {
        balance := balance.(total := balance.total - debits[i].amount);
      }
    }
    assert debits[..|debits|] == debits;
    GroupedTotals(rows);
  }

  lemma {:induction false} GroupedTotals(rows: Table)
    ensures Sum(TotalCredits(rows), Picked(IsCompleted)) - Sum(TotalDebits(rows), Picked(IsLive))
         == Sum(rows, GroupedNet)
    ensures Sum(TotalDebits(rows), Picked(IsPending)) == Sum(rows, GroupedHeld)
  {
    GroupedSum(rows, CountsAsCredit, IsCompleted);
    GroupedSum(rows, CountsAsDebit, IsLive);
    GroupedSum(rows, CountsAsDebit, IsPending);
    SumPlus(rows, Matching(CountsAsDebit, IsLive), GroupedNet, Matching(CountsAsCredit, IsCompleted));
    SumCongruent(rows, Matching(CountsAsDebit, IsPending), GroupedHeld);
  }

  // ---- The two readings agree ----

  predicate Distinct(accounts: seq<int>)
  {
    forall i, j :: 0 <= i < j < |accounts| ==> accounts[i] != accounts[j]
  }

  /** Every account id in the table is a foreign key into the account table. */
  ghost predicate ReferencesAccounts(rows: Table, accounts: seq<int>)
  {
    forall i :: 0 <= i < |rows| ==> RowReferences(rows[i], accounts)
  }

  predicate RowReferences(tx: Transaction, accounts: seq<int>)
  {
    && (tx.sourceId.Some? ==> tx.sourceId.value in accounts)
    && (tx.destinationId.Some? ==> tx.destinationId.value in accounts)
  }

  /** What every in-wallet transfer records: settled at once, with both ends known. */
  predicate InternalSettled(tx: Transaction)
  {
    tx.kind.Internal? ==> tx.status.Completed? && tx.sourceId.Some? && tx.destinationId.Some?
  }

  function WalletNet(tx: Transaction): int
  {
    (if tx.destinationId.Some? then Credit(tx) else 0) - (if tx.sourceId.Some? then Debit(tx) else 0)
  }

  function InternalNet(tx: Transaction): int { if tx.kind.Internal? then WalletNet(tx) else 0 }

  function LockedAmount(tx: Transaction): int
  {
    if tx.sourceId.Some? && tx.status.Locked? then tx.amount else 0
  }

  function InternalPending(tx: Transaction): int
  {
    if tx.kind.Internal? && tx.sourceId.Some? && tx.status.Pending? then tx.amount else 0
  }

  function SourceHeld(tx: Transaction): int { if tx.sourceId.Some? then Held(tx) else 0 }

  function TotalsOf(rows: Table): int -> int { a => Total(rows, a) }

  function FrozensOf(rows: Table): int -> int { a => Frozen(rows, a) }

  lemma {:induction false} RowAcrossAccounts(tx: Transaction, accounts: seq<int>)
    requires Distinct(accounts) && RowReferences(tx, accounts)
    ensures Sum(accounts, ColumnOf((a, t) => NetFor(t, a), tx)) == WalletNet(tx)
    ensures Sum(accounts, ColumnOf((a, t) => HeldFor(t, a), tx)) == SourceHeld(tx)
  {
    var net, held := ColumnOf((a, t) => NetFor(t, a), tx), ColumnOf((a, t) => HeldFor(t, a), tx);
    var credit := (a: int) => if tx.destinationId == Some(a) then Credit(tx) else 0;
    var debit := (a: int) => if tx.sourceId == Some(a) then Debit(tx) else 0;
    SumPlus(accounts, net, debit, credit);
    if tx.destinationId.Some? {
      SumOnlyAt(accounts, tx.destinationId.value, credit);
    } else {
      SumZero(accounts, credit);
    }
    if tx.sourceId.Some? {
      SumOnlyAt(accounts, tx.sourceId.value, debit);
      SumOnlyAt(accounts, tx.sourceId.value, held);
    } else {
      SumZero(accounts, debit);
      SumZero(accounts, held);
    }
  }

  /** Adding up every account's balance is adding up every row's effect on the wallet. */
  lemma {:induction false} WalletTotalByRows(rows: Table, accounts: seq<int>)
    requires Distinct(accounts) && ReferencesAccounts(rows, accounts)
    ensures Sum(accounts, TotalsOf(rows)) == Sum(rows, WalletNet)
    ensures Sum(accounts, FrozensOf(rows)) == Sum(rows, SourceHeld)
  {
    var net := (a: int, tx: Transaction) => NetFor(tx, a);
    var held := (a: int, tx: Transaction) => HeldFor(tx, a);
    forall a: int ensures Sum(rows, RowOf(net, a)) == Total(rows, a) && Sum(rows, RowOf(held, a)) == Frozen(rows, a) {
      SumCongruent(rows, RowOf(net, a), NetOf(a));
      SumCongruent(rows, RowOf(held, a), HeldOf(a));
    }
    forall i | 0 <= i < |rows|
      ensures Sum(accounts, ColumnOf(net, rows[i])) == WalletNet(rows[i])
      ensures Sum(accounts, ColumnOf(held, rows[i])) == SourceHeld(rows[i])
    {
      RowAcrossAccounts(rows[i], accounts);
      SumCongruent(accounts, ColumnOf(net, rows[i]), ColumnOf((a, t) => NetFor(t, a), rows[i]));
      SumCongruent(accounts, ColumnOf(held, rows[i]), ColumnOf((a, t) => HeldFor(t, a), rows[i]));
    }
    SumExchange(accounts, rows, net, TotalsOf(rows), WalletNet);
    SumExchange(accounts, rows, held, FrozensOf(rows), SourceHeld);
  }

  /**
   * On any table the per-account balances add up to the grouped total exactly when the INTERNAL
   * rows, which the grouped queries skip, cancel out; frozen amounts differ by the LOCKED rows.
   */
  lemma {:induction false} GroupedTotalAgreesIff(rows: Table, accounts: seq<int>)
    requires Distinct(accounts) && ReferencesAccounts(rows, accounts)
    ensures Sum(accounts, TotalsOf(rows)) == Sum(rows, GroupedNet) + Sum(rows, InternalNet)
    ensures Sum(accounts, TotalsOf(rows)) == Sum(rows, GroupedNet) <==> Sum(rows, InternalNet) == 0
    ensures Sum(accounts, FrozensOf(rows))
         == Sum(rows, GroupedHeld) + Sum(rows, LockedAmount) + Sum(rows, InternalPending)
  {
    WalletTotalByRows(rows, accounts);
    SumPlus(rows, GroupedNet, InternalNet, WalletNet);
    var rest := (tx: Transaction) => LockedAmount(tx) + InternalPending(tx);
    SumPlus(rows, LockedAmount, InternalPending, rest);
    SumPlus(rows, GroupedHeld, rest, SourceHeld);
  }

  /** With every INTERNAL row settled the grouped total is the sum of the account totals. */
  lemma {:induction false} GroupedTotalAgrees(rows: Table, accounts: seq<int>)
    requires Distinct(accounts) && ReferencesAccounts(rows, accounts)
    requires forall i :: 0 <= i < |rows| ==> InternalSettled(rows[i])
    ensures Sum(accounts, TotalsOf(rows)) == Sum(rows, GroupedNet)
    ensures Sum(accounts, FrozensOf(rows)) == Sum(rows, GroupedHeld) + Sum(rows, LockedAmount)
  {
    GroupedTotalAgreesIff(rows, accounts);
    SumZero(rows, InternalNet);
    SumZero(rows, InternalPending);
  }
}
