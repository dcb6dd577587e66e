/**
 * Rebuilding the ledger from the chain: both event streams of the wallet's on-chain account are
 * read page by page and every missing peer-to-peer transaction is entered.
 */
module Resync {
  import opened Wrappers
  import opened Sums
  import opened Ledger

  const PAGE_SIZE := 10

  /** A transaction of the chain; its version is its position in the chain. */
  datatype ChainTransaction = ChainTransaction(
    peerToPeer: bool, sender: string, receiver: string, amount: int, sequence: int,
    senderSubaddress: Option<string>, receiverSubaddress: Option<string>)

  type Chain = seq<ChainTransaction>

  /** The tables the resync reads and writes, and the constants it is configured with. */
  datatype Books = Books(
    vaspAddress: string, inventoryId: int, accounts: seq<int>, subaddresses: map<string, int>, rows: Table)

  function LowerChar(c: char): char { if 'A' <= c <= 'Z' then c - 'A' + 'a' else c }

  function Lower(s: string): string { seq(|s|, i requires 0 <= i < |s| => LowerChar(s[i])) }

  predicate Outgoing(vasp: string, tx: ChainTransaction) { Lower(tx.sender) == Lower(vasp) }

  predicate Incoming(vasp: string, tx: ChainTransaction) { Lower(tx.receiver) == Lower(vasp) }

  /** Transactions that get a row. */
  predicate Relevant(vasp: string, tx: ChainTransaction)
  {
    tx.peerToPeer && (Outgoing(vasp, tx) || Incoming(vasp, tx))
  }

  predicate HasVersion(rows: Table, version: int)
  {
    exists i :: 0 <= i < |rows| && rows[i].version == Some(version)
  }

  /** The account a subaddress belongs to, or the inventory; a missing one is drawn and registered. */
  function Owner(b: Books, subaddress: Option<string>, drawn: string): (int, string, map<string, int>)
  {
    if subaddress.Some? && subaddress.value != "" then
      (if subaddress.value in b.subaddresses then b.subaddresses[subaddress.value] else b.inventoryId,
       subaddress.value, b.subaddresses)
    else (b.inventoryId, drawn, b.subaddresses[drawn := b.inventoryId])
  }

  function Entered(b: Books, tx: ChainTransaction, version: int, drawn: string): Books
  {
    if Outgoing(b.vaspAddress, tx) then
      var (account, subaddress, subaddresses) := Owner(b, tx.senderSubaddress, drawn);
      b.(subaddresses := subaddresses,
         rows := b.rows + [Transaction(External, tx.amount, Completed, Some(account), Some(tx.sender), Some(subaddress),
                                       None, Some(tx.receiver), tx.receiverSubaddress, Some(tx.sequence), Some(version), None, None)])
    else if Incoming(b.vaspAddress, tx) then
      var (account, subaddress, subaddresses) := Owner(b, tx.receiverSubaddress, drawn);
      b.(subaddresses := subaddresses,
         rows := b.rows + [Transaction(External, tx.amount, Completed, None, Some(tx.sender), tx.senderSubaddress,
                                       Some(account), Some(tx.receiver), Some(subaddress), Some(tx.sequence), Some(version), None, None)])
    else b
  }

  /** What one event does: `version` is the transaction version it names. */
  function SyncOne(b: Books, chain: Chain, version: nat, upTo: int, draw: nat -> string): Books
  {
    if version < |chain| && version <= upTo && chain[version].peerToPeer && !HasVersion(b.rows, version)
    then Entered(b, chain[version], version, draw(version)) else b
  }

  function SyncAll(b: Books, chain: Chain, events: seq<nat>, upTo: int, draw: nat -> string): Books
  {
    if |events| == 0 then b
    else SyncOne(SyncAll(b, chain, events[..|events| - 1], upTo, draw), chain, events[|events| - 1], upTo, draw)
  }

  function Page(events: seq<nat>, start: nat, limit: nat): seq<nat>
  {
    if start >= |events| then [] else events[start..if start + limit < |events| then start + limit else |events|]
  }

  class Synchronizer {
    const vaspAddress: string
    const inventoryId: int
    const accounts: seq<int>
    var subaddresses: map<string, int>
    var rows: Table

    function State(): Books
      reads this
    {
      Books(vaspAddress, inventoryId, accounts, subaddresses, rows)
    }

    method HandleOwner(subaddress: Option<string>, drawn: string) returns (account: int, used: string)
      modifies this`subaddresses
      ensures (account, used, subaddresses) == Owner(old(State()), subaddress, drawn)
    {
      if subaddress.Some? && subaddress.value != "" {
        used := subaddress.value;
        account := if used in subaddresses then subaddresses[used] else inventoryId;
      } else {
        account := inventoryId;
        used := drawn;
        subaddresses := subaddresses[drawn := account];
      }
    }

    method AddTransactionToDb(tx: ChainTransaction, version: int, drawn: string)
      modifies this
      ensures State() == Entered(old(State()), tx, version, drawn)
    {
      var sourceId, destinationId: Option<int> := None, None;
      var senderSubaddress, receiverSubaddress := tx.senderSubaddress, tx.receiverSubaddress;
      if Outgoing(vaspAddress, tx) {
        var account, used := HandleOwner(senderSubaddress, drawn);
        sourceId, senderSubaddress := Some(account), Some(used);
      } else if Incoming(vaspAddress, tx) {
        var account, used := HandleOwner(receiverSubaddress, drawn);
        destinationId, receiverSubaddress := Some(account), Some(used);
      } else {
        return;
      }
      rows := rows + [Transaction(External, tx.amount, Completed, sourceId, Some(tx.sender), senderSubaddress,
                                  destinationId, Some(tx.receiver), receiverSubaddress, Some(tx.sequence), Some(version), None, None)];
    }

    method SyncTransaction(tx: ChainTransaction, version: nat, drawn: string)
      modifies this
      ensures State() == if tx.peerToPeer && !HasVersion(old(rows), version) then Entered(old(State()), tx, version, drawn)
                         else old(State())
    {
      if tx.peerToPeer && !HasVersion(rows, version) {
        AddTransactionToDb(tx, version, drawn);
      }
    }

    /** Walks one event stream page by page; returns the versions it saw on the chain. */
    method SyncTransactions(chain: Chain, events: seq<nat>, upTo: int, draw: nat -> string) returns (processed: set<nat>)
      modifies this
      ensures State() == SyncAll(old(State()), chain, events, upTo, draw)
      ensures forall v :: v in processed <==> v in events && v < |chain|
    {
      var start := 0;
      processed := {};
      while true
        invariant State() == SyncAll(old(State()), chain, events[..if start < |events| then start else |events|], upTo, draw)
        invariant forall v :: v in processed <==> v in events[..if start < |events| then start else |events|] && v < |chain|
        decreases if start < |events| then |events| - start else 0
      {
        var page := Page(events, start, PAGE_SIZE);
        if |page| == 0 {
          assert events[..|events|] == events;
          return;
        }
        for i := 0 to |page|
          invariant State() == SyncAll(old(State()), chain, events[..start + i], upTo, draw)
          invariant forall v :: v in processed <==> v in events[..start + i] && v < |chain|
        {
          var version := page[i];
          assert events[..start + i + 1] == events[..start + i] + [version];
          if version < |chain| {
            if version <= upTo {
              SyncTransaction(chain[version], version, draw(version));
            }
            processed := processed + {version};
          }
        }
        start := start + PAGE_SIZE;
      }
    }

    /** Sums the balances of all accounts, one page of accounts at a time. */
    method CalculateLrwBalance(upToVersion: int) returns (dbBalance: int)
      ensures dbBalance == LrwBalance(State(), upToVersion)
    {
      dbBalance := 0;
      var page := 0;
      var balances := BalancesUpTo(State(), upToVersion);
      while page < |accounts|
        invariant 0 <= page
        invariant dbBalance == Sum(accounts[..if page < |accounts| then page else |accounts|], balances)
        decreases |accounts| - page
      {
        var end := if page + PAGE_SIZE < |accounts| then page + PAGE_SIZE else |accounts|;
        for i := page to end
          invariant dbBalance == Sum(accounts[..i], balances)
        {
          var balance := GetAccountBalance(rows, accounts[i], Some(upToVersion));
          assert accounts[..i + 1] == accounts[..i] + [accounts[i]];
          SumSnoc(accounts[..i], accounts[i], balances);
          dbBalance := dbBalance + balance.total;
        }
        page := page + PAGE_SIZE;
      }
      assert accounts[..|accounts|] == accounts;
    }
  }

  function BalancesUpTo(b: Books, upToVersion: int): int -> int
  {
    (account: int) => Total(UpToVersion(b.rows, Some(upToVersion)), account)
  }

  function LrwBalance(b: Books, upToVersion: int): int { Sum(b.accounts, BalancesUpTo(b, upToVersion)) }

  // ---- What the chain says ----

  function Received(vasp: string, tx: ChainTransaction): int
  {
    if tx.peerToPeer && Incoming(vasp, tx) then tx.amount else 0
  }

  function SentOut(vasp: string, tx: ChainTransaction): int
  {
    if tx.peerToPeer && Outgoing(vasp, tx) then tx.amount else 0
  }

  /** A transfer from the wallet's on-chain address to itself. */
  function SelfSent(vasp: string, tx: ChainTransaction): int
  {
    if tx.peerToPeer && Outgoing(vasp, tx) && Incoming(vasp, tx) then tx.amount else 0
  }

  function ReceivedOf(vasp: string): ChainTransaction -> int { (tx: ChainTransaction) => Received(vasp, tx) }

  function SentOf(vasp: string): ChainTransaction -> int { (tx: ChainTransaction) => SentOut(vasp, tx) }

  function SelfOf(vasp: string): ChainTransaction -> int { (tx: ChainTransaction) => SelfSent(vasp, tx) }

  /** How a transaction is booked: sending wins over receiving. */
  function Booked(vasp: string, tx: ChainTransaction): int
  {
    if !tx.peerToPeer then 0 else if Outgoing(vasp, tx) then -tx.amount else if Incoming(vasp, tx) then tx.amount else 0
  }

  function BookedOf(vasp: string): ChainTransaction -> int { (tx: ChainTransaction) => Booked(vasp, tx) }

  // ---- Whose transaction it is ----

  /** The row says what the chain says. */
  predicate SaysChain(tx: Transaction, of: ChainTransaction, version: int)
  {
    && tx.kind.External? && tx.status.Completed? && tx.amount == of.amount
    && tx.sourceAddress == Some(of.sender) && tx.destinationAddress == Some(of.receiver)
    && tx.sequence == Some(of.sequence) && tx.version == Some(version)
  }

  predicate Missing(b: Books, chain: Chain, version: nat, upTo: int)
  {
    version < |chain| && version <= upTo && chain[version].peerToPeer && !HasVersion(b.rows, version)
  }

  /**
   * A transaction the wallet sent is entered once and debits the account its sender's subaddress was
   * registered for, or the inventory when it names none or an unknown one.
   */
  lemma {:induction false} SentIsDebited(b: Books, chain: Chain, version: nat, upTo: int, draw: nat -> string, account: int)
    requires Missing(b, chain, version, upTo) && Lower(chain[version].sender) == Lower(b.vaspAddress)
    ensures var tx, after := chain[version], SyncOne(b, chain, version, upTo, draw);
      var from := tx.senderSubaddress;
      var payer := if from.Some? && from.value != "" && from.value in b.subaddresses then b.subaddresses[from.value] else b.inventoryId;
      && |after.rows| == |b.rows| + 1 && b.rows <= after.rows
      && var row := after.rows[|b.rows|];
      && SaysChain(row, tx, version) && row.destinationSubaddress == tx.receiverSubaddress
      && (if from.Some? && from.value != "" then row.sourceSubaddress == from && after.subaddresses == b.subaddresses
          else row.sourceSubaddress == Some(draw(version)) && after.subaddresses == b.subaddresses[draw(version) := b.inventoryId])
      && Total(after.rows, account) == Total(b.rows, account) - At(account, payer, tx.amount)
  {
    SumSnoc(b.rows, SyncOne(b, chain, version, upTo, draw).rows[|b.rows|], NetOf(account));
  }

  /** One it received credits the account of its receiver's subaddress in the same way. */
  lemma {:induction false} ReceivedIsCredited(b: Books, chain: Chain, version: nat, upTo: int, draw: nat -> string, account: int)
    requires Missing(b, chain, version, upTo)
    requires Lower(chain[version].sender) != Lower(b.vaspAddress) && Lower(chain[version].receiver) == Lower(b.vaspAddress)
    ensures var tx, after := chain[version], SyncOne(b, chain, version, upTo, draw);
      var to := tx.receiverSubaddress;
      var payee := if to.Some? && to.value != "" && to.value in b.subaddresses then b.subaddresses[to.value] else b.inventoryId;
      && |after.rows| == |b.rows| + 1 && b.rows <= after.rows
      && var row := after.rows[|b.rows|];
      && SaysChain(row, tx, version) && row.sourceSubaddress == tx.senderSubaddress
      && (if to.Some? && to.value != "" then row.destinationSubaddress == to && after.subaddresses == b.subaddresses
          else row.destinationSubaddress == Some(draw(version)) && after.subaddresses == b.subaddresses[draw(version) := b.inventoryId])
      && Total(after.rows, account) == Total(b.rows, account) + At(account, payee, tx.amount)
  {
    SumSnoc(b.rows, SyncOne(b, chain, version, upTo, draw).rows[|b.rows|], NetOf(account));
  }

  /** Anything else enters nothing: other kinds, other wallets' transfers, later ones and known ones. */
  lemma {:induction false} OthersNotEntered(b: Books, chain: Chain, version: nat, upTo: int, draw: nat -> string)
    requires || !Missing(b, chain, version, upTo)
             || (Lower(chain[version].sender) != Lower(b.vaspAddress) && Lower(chain[version].receiver) != Lower(b.vaspAddress))
    ensures SyncOne(b, chain, version, upTo, draw) == b
  {
  }

  function Holder(b: Books, subaddress: Option<string>): int
  {
    if subaddress.Some? && subaddress.value != "" && subaddress.value in b.subaddresses then b.subaddresses[subaddress.value]
    else b.inventoryId
  }

  /** A subaddress that may be drawn is not in use, or was drawn for the inventory before. */
  ghost predicate DrawsFree(b: Books, draw: nat -> string)
  {
    forall version :: draw(version) in b.subaddresses ==> b.subaddresses[draw(version)] == b.inventoryId
  }

  /** How one account is booked: as payer of what the wallet sent, as payee of what others sent to it. */
  function BookedFor(b: Books, account: int, tx: ChainTransaction): int
  {
    if !tx.peerToPeer then 0
    else if Outgoing(b.vaspAddress, tx) then -At(account, Holder(b, tx.senderSubaddress), tx.amount)
    else if Incoming(b.vaspAddress, tx) then At(account, Holder(b, tx.receiverSubaddress), tx.amount)
    else 0
  }

  /** A row with a version of the chain moves each account as the chain books it. */
  predicate OwnedRow(b: Books, tx: Transaction, chain: Chain, account: int)
  {
    tx.version.Some? && 0 <= tx.version.value < |chain| ==> NetFor(tx, account) == BookedFor(b, account, chain[tx.version.value])
  }

  predicate Owned(b: Books, chain: Chain, account: int)
  {
    forall i :: 0 <= i < |b.rows| ==> OwnedRow(b, b.rows[i], chain, account)
  }

  predicate SameHolders(b: Books, b': Books)
  {
    && b'.vaspAddress == b.vaspAddress && b'.inventoryId == b.inventoryId
    && (forall s :: s in b.subaddresses ==> s in b'.subaddresses && b'.subaddresses[s] == b.subaddresses[s])
    && (forall s :: s in b'.subaddresses && s !in b.subaddresses ==> b'.subaddresses[s] == b.inventoryId)
  }

  lemma {:induction false} SyncOneKeepsOwned(b: Books, chain: Chain, version: nat, upTo: int, draw: nat -> string, account: int)
    requires Owned(b, chain, account) && DrawsFree(b, draw)
    ensures var b' := SyncOne(b, chain, version, upTo, draw);
      Owned(b', chain, account) && DrawsFree(b', draw) && SameHolders(b, b')
  {
    var b' := SyncOne(b, chain, version, upTo, draw);
    forall i | 0 <= i < |b.rows| ensures OwnedRow(b', b.rows[i], chain, account) {
      assert OwnedRow(b, b.rows[i], chain, account);
    }
  }

  lemma {:induction false} SyncAllKeepsOwned(b: Books, chain: Chain, events: seq<nat>, upTo: int, draw: nat -> string, account: int)
    requires Owned(b, chain, account) && DrawsFree(b, draw)
    ensures var b' := SyncAll(b, chain, events, upTo, draw);
      Owned(b', chain, account) && DrawsFree(b', draw) && SameHolders(b, b')
  {
    if |events| > 0 {
      var init := events[..|events| - 1];
      SyncAllKeepsOwned(b, chain, init, upTo, draw, account);
      SyncOneKeepsOwned(SyncAll(b, chain, init, upTo, draw), chain, events[|events| - 1], upTo, draw, account);
    }
  }

  // ---- A faithful table ----

  predicate FaithfulRow(b: Books, tx: Transaction, chain: Chain)
  {
    tx.version.Some? ==>
      && 0 <= tx.version.value < |chain|
      && Relevant(b.vaspAddress, chain[tx.version.value])
      && tx.status.Completed?
      && tx.amount == chain[tx.version.value].amount
      && (if Outgoing(b.vaspAddress, chain[tx.version.value])
          then tx.sourceId.Some? && tx.destinationId.None? else tx.sourceId.None? && tx.destinationId.Some?)
  }

  predicate NoVersionTwice(rows: Table)
  {
    forall i, j :: 0 <= i < j < |rows| && rows[i].version.Some? ==> rows[i].version != rows[j].version
  }

  ghost predicate Faithful(b: Books, chain: Chain)
  {
    && (forall i :: 0 <= i < |b.rows| ==> FaithfulRow(b, b.rows[i], chain))
    && NoVersionTwice(b.rows)
    && Distinct(b.accounts) && b.inventoryId in b.accounts
    && (forall s :: s in b.subaddresses ==> b.subaddresses[s] in b.accounts)
    && ReferencesAccounts(b.rows, b.accounts)
  }

  lemma {:induction false} SyncOneKeepsFaithful(b: Books, chain: Chain, version: nat, upTo: int, draw: nat -> string)
    requires Faithful(b, chain)
    ensures var b' := SyncOne(b, chain, version, upTo, draw);
      && Faithful(b', chain) && b'.vaspAddress == b.vaspAddress && b'.accounts == b.accounts
      && b.rows <= b'.rows
      && (forall i :: |b.rows| <= i < |b'.rows| ==> b'.rows[i].version == Some(version) && version <= upTo)
      && (version < |chain| && version <= upTo && Relevant(b.vaspAddress, chain[version]) ==> HasVersion(b'.rows, version))
  {
    var b' := SyncOne(b, chain, version, upTo, draw);
    if |b'.rows| > |b.rows| {
      assert b'.rows[|b.rows|].version == Some(version);
    }
  }

  lemma {:induction false} HasVersionGrows(rows: Table, rows': Table, version: int)
    requires rows <= rows' && HasVersion(rows, version)
    ensures HasVersion(rows', version)
  {
  }

  /** A row for an event of the stream, and none beyond the bound. */
  predicate EnteredFrom(tx: Transaction, events: seq<nat>, upTo: int)
  {
    tx.version.Some? && 0 <= tx.version.value <= upTo && tx.version.value in events
  }

  lemma {:induction false} SyncAllKeepsFaithful(b: Books, chain: Chain, events: seq<nat>, upTo: int, draw: nat -> string)
    requires Faithful(b, chain)
    ensures var b' := SyncAll(b, chain, events, upTo, draw);
      && Faithful(b', chain) && b'.vaspAddress == b.vaspAddress && b'.accounts == b.accounts
      && b.rows <= b'.rows
      && (forall i :: |b.rows| <= i < |b'.rows| ==> EnteredFrom(b'.rows[i], events, upTo))
      && (forall v :: v in events && v < |chain| && v <= upTo && Relevant(b.vaspAddress, chain[v]) ==> HasVersion(b'.rows, v))
  {
    if |events| > 0 {
      var init, last := events[..|events| - 1], events[|events| - 1];
      assert events == init + [last];
      SyncAllKeepsFaithful(b, chain, init, upTo, draw);
      var mid := SyncAll(b, chain, init, upTo, draw);
      SyncOneKeepsFaithful(mid, chain, last, upTo, draw);
      forall v | v in events && v < |chain| && v <= upTo && Relevant(b.vaspAddress, chain[v])
        ensures HasVersion(SyncAll(b, chain, events, upTo, draw).rows, v)
      {
        if v != last {
          HasVersionGrows(mid.rows, SyncAll(b, chain, events, upTo, draw).rows, v);
        }
      }
    }
  }

  /** Events whose transactions are all in the table already change nothing. */
  lemma {:induction false} SyncAgainIsIdle(b: Books, chain: Chain, events: seq<nat>, upTo: int, draw: nat -> string)
    requires forall v :: v in events && v < |chain| && v <= upTo && Relevant(b.vaspAddress, chain[v]) ==> HasVersion(b.rows, v)
    ensures SyncAll(b, chain, events, upTo, draw) == b
  {
    if |events| > 0 {
      var init, last := events[..|events| - 1], events[|events| - 1];
      assert events == init + [last];
      SyncAgainIsIdle(b, chain, init, upTo, draw);
    }
  }

  // ---- Summing a faithful table by version ----

  function Versions(n: nat): (r: seq<int>)
    ensures |r| == n && forall i :: 0 <= i < n ==> r[i] == i
  {
    seq(n, i => i)
  }

  function AtVersion(value: Transaction -> int): (int, Transaction) -> int
  {
    (version: int, tx: Transaction) => if tx.version == Some(version) then value(tx) else 0
  }

  lemma {:induction false} SumAtVersion(rows: Table, version: int, value: Transaction -> int)
    requires NoVersionTwice(rows)
    ensures forall i :: 0 <= i < |rows| && rows[i].version == Some(version) ==>
              Sum(rows, RowOf(AtVersion(value), version)) == value(rows[i])
    ensures !HasVersion(rows, version) ==> Sum(rows, RowOf(AtVersion(value), version)) == 0
  {
    if |rows| > 0 {
      var init, last := rows[..|rows| - 1], rows[|rows| - 1];
      SumAtVersion(init, version, value);
      if HasVersion(init, version) {
        HasVersionGrows(init, rows, version);
        var i :| 0 <= i < |init| && init[i].version == Some(version);
        assert rows[i].version == Some(version);
      }
      if last.version == Some(version) {
        assert rows[|rows| - 1].version == Some(version);
      }
    }
  }

  lemma {:induction false} FilterKeepsShape(rows: Table, upTo: int)
    requires NoVersionTwice(rows) && upTo > 0
    ensures var kept := UpToVersion(rows, Some(upTo));
      && NoVersionTwice(kept)
      && (forall tx :: tx in kept ==> tx in rows && tx.version.Some? && tx.version.value <= upTo)
      && (forall tx :: tx in rows && tx.version.Some? && tx.version.value <= upTo ==> tx in kept)
  {
    if |rows| > 0 {
      var init, last := rows[..|rows| - 1], rows[|rows| - 1];
      assert rows == init + [last];
      FilterKeepsShape(init, upTo);
      var kept := UpToVersion(init, Some(upTo));
      if InVersionRange(last, Some(upTo)) {
        forall i | 0 <= i < |kept| ensures kept[i].version != last.version {
          assert kept[i] in init;
          var j :| 0 <= j < |init| && init[j] == kept[i];
          assert rows[j] == kept[i];
        }
      }
    }
  }

  /** Every row with a version is worth what is booked for its transaction; what gets no row is worth nothing. */
  ghost predicate WorthBooked(b: Books, chain: Chain, value: Transaction -> int, booked: ChainTransaction -> int)
  {
    && (forall i :: 0 <= i < |b.rows| && b.rows[i].version.Some? && 0 <= b.rows[i].version.value < |chain| ==>
          value(b.rows[i]) == booked(chain[b.rows[i].version.value]))
    && (forall tx: ChainTransaction :: !Relevant(b.vaspAddress, tx) ==> booked(tx) == 0)
  }

  /** The rows of one version are worth what is booked for that version. */
  lemma {:induction false} VersionContributes(b: Books, chain: Chain, kept: Table, upTo: nat, version: int,
      value: Transaction -> int, booked: ChainTransaction -> int)
    requires Faithful(b, chain) && NoVersionTwice(kept) && 0 <= version <= upTo < |chain|
    requires forall tx :: tx in kept ==> tx in b.rows
    requires forall tx :: tx in b.rows && tx.version.Some? && tx.version.value <= upTo ==> tx in kept
    requires Relevant(b.vaspAddress, chain[version]) ==> HasVersion(b.rows, version)
    requires WorthBooked(b, chain, value, booked)
    ensures Sum(kept, RowOf(AtVersion(value), version)) == booked(chain[version])
  {
    SumAtVersion(kept, version, value);
    if HasVersion(b.rows, version) {
      var j :| 0 <= j < |b.rows| && b.rows[j].version == Some(version);
      assert b.rows[j] in kept;
      var i :| 0 <= i < |kept| && kept[i] == b.rows[j];
    } else {
      forall i | 0 <= i < |kept| ensures kept[i].version != Some(version) {
        assert kept[i] in b.rows;
      }
    }
  }

  lemma {:induction false} RowAtItsVersion(tx: Transaction, n: nat, value: Transaction -> int)
    requires tx.version.Some? && 0 <= tx.version.value < n
    ensures Sum(Versions(n), ColumnOf(AtVersion(value), tx)) == value(tx)
  {
    SumOnlyAt(Versions(n), tx.version.value, ColumnOf(AtVersion(value), tx));
    assert Versions(n)[tx.version.value] == tx.version.value;
  }

  /** Adding up the rows up to a version is adding up what is booked on the chain up to it. */
  lemma {:induction false} SumByVersion(b: Books, chain: Chain, upTo: nat, value: Transaction -> int, booked: ChainTransaction -> int)
    requires Faithful(b, chain) && 0 < upTo < |chain|
    requires forall v :: 0 <= v <= upTo && Relevant(b.vaspAddress, chain[v]) ==> HasVersion(b.rows, v)
    requires WorthBooked(b, chain, value, booked)
    ensures Sum(UpToVersion(b.rows, Some(upTo)), value) == Sum(chain[..upTo + 1], booked)
  {
    var kept := UpToVersion(b.rows, Some(upTo));
    var versions := Versions(upTo + 1);
    FilterKeepsShape(b.rows, upTo);
    forall i | 0 <= i < |kept| ensures value(kept[i]) == Sum(versions, ColumnOf(AtVersion(value), kept[i])) {
      assert kept[i] in b.rows;
      var j :| 0 <= j < |b.rows| && b.rows[j] == kept[i];
      assert FaithfulRow(b, b.rows[j], chain);
      RowAtItsVersion(kept[i], upTo + 1, value);
    }
    var byVersion := (v: int) => Sum(kept, RowOf(AtVersion(value), v));
    SumExchange(versions, kept, AtVersion(value), byVersion, value);
    BookedByVersion(b, chain, kept, upTo, value, booked, byVersion);
  }

  lemma {:induction false} BookedByVersion(b: Books, chain: Chain, kept: Table, upTo: nat, value: Transaction -> int,
      booked: ChainTransaction -> int, byVersion: int -> int)
    requires Faithful(b, chain) && NoVersionTwice(kept) && upTo < |chain|
    requires forall tx :: tx in kept ==> tx in b.rows
    requires forall tx :: tx in b.rows && tx.version.Some? && tx.version.value <= upTo ==> tx in kept
    requires forall v :: 0 <= v <= upTo && Relevant(b.vaspAddress, chain[v]) ==> HasVersion(b.rows, v)
    requires WorthBooked(b, chain, value, booked)
    requires forall v :: byVersion(v) == Sum(kept, RowOf(AtVersion(value), v))
    ensures Sum(Versions(upTo + 1), byVersion) == Sum(chain[..upTo + 1], booked)
  {
    forall v | 0 <= v <= upTo ensures byVersion(v) == booked(chain[v]) {
      VersionContributes(b, chain, kept, upTo, v, value, booked);
    }
    SumOfRange(Versions(upTo + 1), chain[..upTo + 1], byVersion, booked);
  }

  lemma {:induction false} FaithfulBalance(b: Books, chain: Chain, upTo: nat)
    requires Faithful(b, chain) && 0 < upTo < |chain|
    requires forall v :: 0 <= v <= upTo && Relevant(b.vaspAddress, chain[v]) ==> HasVersion(b.rows, v)
    ensures LrwBalance(b, upTo) == Sum(chain[..upTo + 1], BookedOf(b.vaspAddress))
  {
    var kept := UpToVersion(b.rows, Some(upTo));
    FilterKeepsShape(b.rows, upTo);
    forall i | 0 <= i < |kept| ensures RowReferences(kept[i], b.accounts) {
      assert kept[i] in b.rows;
    }
    WalletTotalByRows(kept, b.accounts);
    SumCongruent(b.accounts, BalancesUpTo(b, upTo), TotalsOf(kept));
    forall i | 0 <= i < |b.rows| && b.rows[i].version.Some?
      ensures WalletNet(b.rows[i]) == Booked(b.vaspAddress, chain[b.rows[i].version.value])
    {
      assert FaithfulRow(b, b.rows[i], chain);
    }
    SumByVersion(b, chain, upTo, WalletNet, BookedOf(b.vaspAddress));
  }

  lemma {:induction false} SumOfRange<A, B>(xs: seq<A>, ys: seq<B>, f: A -> int, g: B -> int)
    requires |xs| == |ys| && forall i :: 0 <= i < |xs| ==> f(xs[i]) == g(ys[i])
    ensures Sum(xs, f) == Sum(ys, g)
  {
    if |xs| > 0 {
      SumOfRange(xs[..|xs| - 1], ys[..|ys| - 1], f, g);
    }
  }

  /** The streams miss no relevant transaction. */
  ghost predicate Complete(vasp: string, chain: Chain, received: seq<nat>, sent: seq<nat>)
  {
    forall v :: 0 <= v < |chain| && Relevant(vasp, chain[v]) ==> v in received || v in sent
  }

  /** After both streams the table is faithful and has every relevant version up to the bound. */
  lemma {:induction false} BothStreamsCover(b: Books, chain: Chain, received: seq<nat>, sent: seq<nat>, upTo: nat, draw: nat -> string)
    requires Faithful(b, chain) && Complete(b.vaspAddress, chain, received, sent) && upTo < |chain|
    ensures var synced := SyncAll(SyncAll(b, chain, received, upTo, draw), chain, sent, upTo, draw);
      && Faithful(synced, chain) && synced.vaspAddress == b.vaspAddress && b.rows <= synced.rows
      && (forall i :: |b.rows| <= i < |synced.rows| ==> EnteredFrom(synced.rows[i], received + sent, upTo))
      && (forall w :: 0 <= w <= upTo && Relevant(b.vaspAddress, chain[w]) ==> HasVersion(synced.rows, w))
  {
    var mid := SyncAll(b, chain, received, upTo, draw);
    var synced := SyncAll(mid, chain, sent, upTo, draw);
    SyncAllKeepsFaithful(b, chain, received, upTo, draw);
    SyncAllKeepsFaithful(mid, chain, sent, upTo, draw);
    forall w | 0 <= w <= upTo && Relevant(b.vaspAddress, chain[w]) ensures HasVersion(synced.rows, w) {
      if w in received {
        HasVersionGrows(mid.rows, synced.rows, w);
      }
    }
    forall i | |b.rows| <= i < |synced.rows| ensures EnteredFrom(synced.rows[i], received + sent, upTo) {
      if i < |mid.rows| {
        assert synced.rows[i] == mid.rows[i];
      }
    }
  }

  /**
   * From any faithful part of the chain, syncing both streams brings the wallet to the chain: at
   * every version up to the bound its balance is everything received minus everything sent, less
   * the transfers to itself, which are booked as sent only; no version is recorded twice, nothing
   * beyond the bound is entered, and syncing again changes nothing.
   */
  lemma {:induction false} ResyncReachesChain(b: Books, chain: Chain, received: seq<nat>, sent: seq<nat>, upTo: nat, draw: nat -> string, v: nat)
    requires Faithful(b, chain) && Complete(b.vaspAddress, chain, received, sent)
    requires 0 < v <= upTo < |chain|
    ensures var synced := SyncAll(SyncAll(b, chain, received, upTo, draw), chain, sent, upTo, draw);
      var upToV := chain[..v + 1];
      && LrwBalance(synced, v) == Sum(upToV, ReceivedOf(b.vaspAddress)) - Sum(upToV, SentOf(b.vaspAddress))
                                  - Sum(upToV, SelfOf(b.vaspAddress))
      && NoVersionTwice(synced.rows) && b.rows <= synced.rows
      && (forall i :: |b.rows| <= i < |synced.rows| ==> EnteredFrom(synced.rows[i], received + sent, upTo))
      && SyncAll(SyncAll(synced, chain, received, upTo, draw), chain, sent, upTo, draw) == synced
  {
    var synced := SyncAll(SyncAll(b, chain, received, upTo, draw), chain, sent, upTo, draw);
    BothStreamsCover(b, chain, received, sent, upTo, draw);
    SyncAgainIsIdle(synced, chain, received, upTo, draw);
    SyncAgainIsIdle(synced, chain, sent, upTo, draw);
    FaithfulBalance(synced, chain, v);
    var upToV := chain[..v + 1];
    var minusSelf := (tx: ChainTransaction) => Received(b.vaspAddress, tx) - SelfSent(b.vaspAddress, tx);
    SumPlus(upToV, minusSelf, SelfOf(b.vaspAddress), ReceivedOf(b.vaspAddress));
    SumPlus(upToV, BookedOf(b.vaspAddress), SentOf(b.vaspAddress), minusSelf);
  }

  /** What an account is to get, what it is to pay, and what is paid to it from within the wallet. */
  function ReceivedBy(b: Books, account: int): ChainTransaction -> int
  {
    (tx: ChainTransaction) => At(account, Holder(b, tx.receiverSubaddress), Received(b.vaspAddress, tx))
  }

  function SentBy(b: Books, account: int): ChainTransaction -> int
  {
    (tx: ChainTransaction) => At(account, Holder(b, tx.senderSubaddress), SentOut(b.vaspAddress, tx))
  }

  function SelfPaidTo(b: Books, account: int): ChainTransaction -> int
  {
    (tx: ChainTransaction) => At(account, Holder(b, tx.receiverSubaddress), SelfSent(b.vaspAddress, tx))
  }

  function BookedForOf(b: Books, account: int): ChainTransaction -> int { (tx: ChainTransaction) => BookedFor(b, account, tx) }

  lemma {:induction false} BookedIsReceivedMinusSent(b: Books, chain: Chain, account: int)
    ensures Sum(chain, BookedForOf(b, account))
         == Sum(chain, ReceivedBy(b, account)) - Sum(chain, SentBy(b, account)) - Sum(chain, SelfPaidTo(b, account))
  {
    var minusSelf := (tx: ChainTransaction) => ReceivedBy(b, account)(tx) - SelfPaidTo(b, account)(tx);
    SumPlus(chain, minusSelf, SelfPaidTo(b, account), ReceivedBy(b, account));
    SumPlus(chain, BookedForOf(b, account), SentBy(b, account), minusSelf);
  }

  /**
   * Account by account: after both streams each balance is what the chain sent to subaddresses of that
   * account minus what it sent from them, less what the wallet paid to them itself.
   */
  lemma {:induction false} ResyncReachesEachAccount(b: Books, chain: Chain, received: seq<nat>, sent: seq<nat>, upTo: nat, draw: nat -> string,
      v: nat, account: int)
    requires Faithful(b, chain) && Complete(b.vaspAddress, chain, received, sent)
    requires Owned(b, chain, account) && DrawsFree(b, draw)
    requires 0 < v <= upTo < |chain|
    ensures var synced := SyncAll(SyncAll(b, chain, received, upTo, draw), chain, sent, upTo, draw);
      var upToV := chain[..v + 1];
      Total(UpToVersion(synced.rows, Some(v)), account)
      == Sum(upToV, ReceivedBy(b, account)) - Sum(upToV, SentBy(b, account)) - Sum(upToV, SelfPaidTo(b, account))
  {
    var mid := SyncAll(b, chain, received, upTo, draw);
    var synced := SyncAll(mid, chain, sent, upTo, draw);
    BothStreamsCover(b, chain, received, sent, upTo, draw);
    SyncAllKeepsOwned(b, chain, received, upTo, draw, account);
    SyncAllKeepsOwned(mid, chain, sent, upTo, draw, account);
    forall tx: ChainTransaction ensures BookedFor(synced, account, tx) == BookedFor(b, account, tx) {
    }
    SumByVersion(synced, chain, v, NetOf(account), BookedForOf(b, account));
    BookedIsReceivedMinusSent(b, chain[..v + 1], account);
  }

  function Synced(b: Books, chain: Chain, received: seq<nat>, sent: seq<nat>, upTo: nat, draw: nat -> string): Books
  {
    SyncAll(SyncAll(b, chain, received, upTo, draw), chain, sent, upTo, draw)
  }

  /** The balance is received minus sent exactly when the transfers to itself add up to nothing. */
  lemma {:induction false} ReceivedMinusSentIff(b: Books, chain: Chain, received: seq<nat>, sent: seq<nat>, upTo: nat, draw: nat -> string, v: nat)
    requires Faithful(b, chain) && Complete(b.vaspAddress, chain, received, sent)
    requires 0 < v <= upTo < |chain|
    ensures LrwBalance(Synced(b, chain, received, sent, upTo, draw), v)
              == Sum(chain[..v + 1], ReceivedOf(b.vaspAddress)) - Sum(chain[..v + 1], SentOf(b.vaspAddress))
            <==> Sum(chain[..v + 1], SelfOf(b.vaspAddress)) == 0
  {
    ResyncReachesChain(b, chain, received, sent, upTo, draw, v);
  }

  /** A wallet that has only ever paid itself 5 is resynchronised to a balance of -5. */
  lemma {:induction false} SelfTransferLowersBalance(draw: nat -> string)
    ensures var genesis := ChainTransaction(false, "", "", 0, 0, None, None);
      var chain := [genesis, ChainTransaction(true, "vasp", "vasp", 5, 0, None, None)];
      var b := Books("vasp", 1, [1], map[], []);
      && Faithful(b, chain) && Complete("vasp", chain, [1], [1])
      && LrwBalance(Synced(b, chain, [1], [1], 1, draw), 1) == -5
      && Sum(chain[..2], ReceivedOf("vasp")) - Sum(chain[..2], SentOf("vasp")) == 0
  {
    var genesis, self := ChainTransaction(false, "", "", 0, 0, None, None), ChainTransaction(true, "vasp", "vasp", 5, 0, None, None);
    var chain := [genesis, self];
    var b := Books("vasp", 1, [1], map[], []);
    assert chain[..2] == [] + [genesis] + [self];
    SumOfTwo(genesis, self, ReceivedOf("vasp"));
    SumOfTwo(genesis, self, SentOf("vasp"));
    SumOfTwo(genesis, self, SelfOf("vasp"));
    ResyncReachesChain(b, chain, [1], [1], 1, draw, 1);
  }

  lemma {:induction false} SumOfTwo<T>(x: T, y: T, f: T -> int)
    ensures Sum([] + [x] + [y], f) == f(x) + f(y)
  {
    SumSnoc([], x, f);
    SumSnoc([] + [x], y, f);
  }
}
