/** Applying emitted batches to the ledgers, and confirming deposits: worker/finder.go. */
module Finder {
  import opened Prelude
  import opened Node
  import opened Classify
  import opened Records
  import opened Database
  import Balances
  import BatchBlock
  import BigInt
  import Retry

  // GetTransactionByHash: an RPC error, an error code (nil without an error), or amount and fee.
  datatype TxInfo = TxFailed | TxMissing | Found(amount: int, fee: int)

  datatype Resolved = Resolved(tx: Transaction, amount: int, fee: int)

  // The first k transactions with their amounts; None when one cannot be fetched.
  function Resolve(txs: seq<Transaction>, info: nat -> TxInfo, k: nat): (items: Option<seq<Resolved>>)
    requires k <= |txs|
    ensures items.Some? ==> |items.value| == k && forall i | 0 <= i < k :: items.value[i].tx == txs[i]
  {
    if k == 0 then Some([]) else
      match Resolve(txs, info, k - 1)
      case None => None
      case Some(items) =>
        if info(k - 1).Found? then Some(items + [Resolved(txs[k - 1], info(k - 1).amount, info(k - 1).fee)]) else None
  }

  function EntryOf(r: Resolved): Balances.Entry {
    Balances.Entry(r.tx.from, r.tx.to, r.tx.token, r.amount, r.tx.kind)
  }

  function EntriesOf(items: seq<Resolved>): seq<Balances.Entry> {
    seq(|items|, i requires 0 <= i < |items| => EntryOf(items[i]))
  }

  function FlowOf(r: Resolved): Flow {
    Record(r.tx.hash, r.tx.blockNumber, Success, EntryOf(r))
  }

  function FlowsOf(items: seq<Resolved>): seq<Flow> {
    seq(|items|, i requires 0 <= i < |items| => FlowOf(items[i]))
  }

  function DepositsOf(items: seq<Resolved>): seq<Deposit> {
    if items == [] then [] else
      var r := Last(items);
      DepositsOf(items[..|items| - 1]) +
      if r.tx.kind.Deposit? then [Record(r.tx.hash, r.tx.blockNumber, Success, DepositData(EntryOf(r), 0))] else []
  }

  // The hashes of the withdrawals, or of the internal transfers.
  function HashesFor(items: seq<Resolved>, withdrawals: bool): seq<Hash> {
    if items == [] then [] else
      var r := Last(items);
      HashesFor(items[..|items| - 1], withdrawals) +
      if (if withdrawals then r.tx.kind.Withdraw? else Balances.IsTransfer(EntryOf(r))) then [r.tx.hash] else []
  }

  // The columns of deposits and transactions: block_number positive, amount and fee UINT256.
  predicate Storable(r: Resolved) {
    0 < r.tx.blockNumber < U256 && Balances.U256Range(r.amount) && Balances.U256Range(r.fee)
  }

  // The database transaction for one business: every effect, or none.
  function Persist(l: Ledger, items: seq<Resolved>): Retry.Attempt<Ledger> {
    match Balances.ApplyAll(l.balances, EntriesOf(items))
    case None => Retry.Erred
    case Some(balances) =>
      if exists i | 0 <= i < |items| :: !Storable(items[i]) then Retry.Erred
      else Retry.Done(Ledger(balances, l.deposits + DepositsOf(items), l.flows + FlowsOf(items),
                             SetStatus(l.withdraws, HashesFor(items, true), WalletDone),
                             SetStatus(l.internals, HashesFor(items, false), WalletDone)))
  }

  // What the outside world answers while one batch is handled.
  datatype Answers = Answers(businesses: Option<seq<Business>>, info: Business -> (nat -> TxInfo),
                             cancelled: Business -> (nat -> bool), up: Business -> (nat -> bool))

  // One business's share of the batch, retried; None when it cannot be applied.
  function HandleOne(l: Ledger, b: Business, batch: Batch, a: Answers): Option<Ledger> {
    match Resolve(batch.transactions, a.info(b), |batch.transactions|)
    case None => None
    case Some(items) =>
      var r := Retry.RunTransaction(a.cancelled(b), a.up(b), Persist(l, items));
      if r.Succeeded? then Some(r.value) else None
  }

  // The businesses in turn, stopping at the first that fails.
  function HandleList(ledgers: Ledgers, list: seq<Business>, batch: map<Business, Batch>, a: Answers)
    : (result: (bool, Ledgers))
  {
    if list == [] then (true, ledgers)
    else if list[0] !in batch then HandleList(ledgers, list[1..], batch, a)
    else if list[0] !in ledgers then (false, ledgers)
    else
      match HandleOne(ledgers[list[0]], list[0], batch[list[0]], a)
      case None => (false, ledgers)
      case Some(l) => HandleList(ledgers[list[0] := l], list[1..], batch, a)
  }

  function BatchHandled(ledgers: Ledgers, batch: map<Business, Batch>, a: Answers): (bool, Ledgers) {
    if a.businesses.None? || a.businesses.value == [] then (false, ledgers)
    else HandleList(ledgers, a.businesses.value, batch, a)
  }

  // One business in a confirmation round: its own request for the head, then its own transaction.
  function ConfirmBusiness(l: Ledger, head: Answer, up: bool, confirms: nat): Ledger {
    if up && head.Got? then
      l.(deposits := ConfirmAll(l.deposits, BigInt.Uint64(head.header.number), confirms))
    else l
  }

  // A failing business is skipped. A node that answers an error code ends the round: the code
  // dereferences the nil header.
  function ConfirmList(ledgers: Ledgers, list: seq<Business>, heads: Business -> Answer,
                       up: Business -> bool, confirms: nat): Ledgers {
    if list == [] || heads(list[0]).Unreported? then ledgers
    else if list[0] !in ledgers then ConfirmList(ledgers, list[1..], heads, up, confirms)
    else
      var b := list[0];
      ConfirmList(ledgers[b := ConfirmBusiness(ledgers[b], heads(b), up(b), confirms)], list[1..], heads, up, confirms)
  }

  class Finder {
    const database: Database
    const confirms: nat

    // The threshold is kept in a uint8.
    constructor (database: Database, confirmations: nat)
      ensures this.database == database && confirms == confirmations % 256
    {
      this.database := database;
      confirms := confirmations % 256;
    }

    // The rows and requests of one business's share, one transaction after the other.
    method BuildLists(items: seq<Resolved>)
      returns (entries: seq<Balances.Entry>, deposits: seq<Deposit>, withdraws: seq<Request>, internals: seq<Request>,
               flows: seq<Flow>)
      ensures entries == EntriesOf(items) && deposits == DepositsOf(items) && flows == FlowsOf(items)
      ensures HashesOf(withdraws) == HashesFor(items, true) && HashesOf(internals) == HashesFor(items, false)
    {
      entries, deposits, withdraws, internals, flows := [], [], [], [], [];
      for i := 0 to |items|
        invariant Built(items[..i], entries, deposits, withdraws, internals, flows)
      {
        var r := items[i];
        var request := Record(r.tx.hash, r.tx.blockNumber, Broadcasted, EntryOf(r));
        BuiltOneMore(items[..i], r, request, entries, deposits, withdraws, internals, flows);
        assert items[..i] + [r] == items[..i + 1];
        hide Built;
        entries := entries + [EntryOf(r)];
        flows := flows + [FlowOf(r)];
        match r.tx.kind
        case Deposit =>
          deposits := deposits + [Record(r.tx.hash, r.tx.blockNumber, Success, DepositData(EntryOf(r), 0))];
        case Withdraw =>
          withdraws := withdraws + [request];
        case Collection | Cold2Hot | Hot2Cold =>
          internals := internals + [request];
        case Unknown =>
      }
      assert items[..|items|] == items;
    }

    // The steps of the transaction for one business: every effect, or none.
    method PersistAll(l: Ledger, items: seq<Resolved>) returns (attempt: Retry.Attempt<Ledger>)
      ensures attempt == Persist(l, items)
    {
      var entries, depositList, withdrawList, internalList, flowList := BuildLists(items);
      hide EntriesOf, DepositsOf, HashesFor, FlowsOf, Storable, HashesOf, SetStatus, Balances.ApplyAll;
      var deposits := new DepositsTable(l.deposits);
      deposits.StoreDeposits(depositList);
      var balances := new Balances.BalancesTable(l.balances);
      var ok := balances.UpdateOrCreate(entries);
      if !ok {
        return Retry.Erred;
      }
      var withdraws := new WithdrawsTable(l.withdraws);
      withdraws.UpdateWithdrawStatusByTxHash(WalletDone, withdrawList);
      var internals := new InternalsTable(l.internals);
      internals.UpdateInternalStatusByTxHash(WalletDone, internalList);
      var transactions := new TransactionsTable(l.flows);
      transactions.StoreTransactions(flowList);
      // The constraints of the columns, which the inserts would violate.
      if exists i | 0 <= i < |items| :: !Storable(items[i]) {
        return Retry.Erred;
      }
      return Retry.Done(Ledger(balances.rows, deposits.rows, transactions.rows, withdraws.rows, internals.rows));
    }

    method HandleOneBusiness(b: Business, batch: Batch, a: Answers) returns (ok: bool)
      requires b in database.ledgers
      modifies database`ledgers
      ensures var l := HandleOne(old(database.ledgers)[b], b, batch, a);
        && ok == l.Some?
        && database.ledgers == if ok then old(database.ledgers)[b := l.value] else old(database.ledgers)
    {
      hide Persist;
      var items: seq<Resolved> := [];
      for i := 0 to |batch.transactions|
        invariant database.ledgers == old(database.ledgers)
        invariant Resolve(batch.transactions, a.info(b), i) == Some(items)
      {
        var answer := a.info(b)(i);
        if !answer.Found? {
          UnresolvedStops(batch.transactions, a.info(b), i + 1);
          return false;
        }
        items := items + [Resolved(batch.transactions[i], answer.amount, answer.fee)];
      }
      var attempt := PersistAll(database.ledgers[b], items);
      var result := Retry.Do(Retry.ATTEMPTS, a.cancelled(b), Retry.Transaction(a.up(b), attempt));
      ok := result.Succeeded?;
      if ok {
        database.ledgers := database.ledgers[b := result.value];
      }
    }

    method HandleBatch(batch: map<Business, Batch>, a: Answers) returns (ok: bool)
      modifies database`ledgers
      ensures (ok, database.ledgers) == BatchHandled(old(database.ledgers), batch, a)
    {
      if a.businesses.None? || a.businesses.value == [] {
        return false;
      }
      hide HandleOne;
      var businessList := a.businesses.value;
      for i := 0 to |businessList|
        invariant HandleList(database.ledgers, businessList[i..], batch, a) ==
            HandleList(old(database.ledgers), businessList, batch, a)
      {
        var business := businessList[i];
        assert businessList[i..][1..] == businessList[i + 1..];
        if business !in batch {
          continue;
        }
        if business !in database.ledgers {
          return false;
        }
        ok := HandleOneBusiness(business, batch[business], a);
        if !ok {
          return;
        }
      }
      ok := true;
    }

    // False: the business list cannot be read, which ends the worker.
    method HandleConfirmations(businesses: Option<seq<Business>>, heads: Business -> Answer, up: Business -> bool)
      returns (ok: bool)
      modifies database`ledgers
      ensures ok == businesses.Some?
      ensures database.ledgers ==
        if ok then ConfirmList(old(database.ledgers), businesses.value, heads, up, confirms) else old(database.ledgers)
    {
      if businesses.None? {
        return false;
      }
      ok := true;
      var list := businesses.value;
      for i := 0 to |list|
        invariant ConfirmList(database.ledgers, list[i..], heads, up, confirms) ==
            ConfirmList(old(database.ledgers), list, heads, up, confirms)
      {
        assert list[i..][1..] == list[i + 1..];
        var b := list[i];
        var latestBlock := heads(b);
        if latestBlock.Unreported? {
          return;
        }
        if b in database.ledgers {
          var l := database.ledgers[b];
          assert database.ledgers[b := l] == database.ledgers;
          if up(b) && latestBlock.Got? {
            var deposits := new DepositsTable(l.deposits);
            deposits.UpdateDepositsConfirms(BigInt.Uint64(latestBlock.header.number), confirms);
            database.ledgers := database.ledgers[b := l.(deposits := deposits.rows)];
          }
        }
      }
    }
  }

  // The lists of a share.
  ghost predicate Built(items: seq<Resolved>, entries: seq<Balances.Entry>, deposits: seq<Deposit>,
                        withdraws: seq<Request>, internals: seq<Request>, flows: seq<Flow>) {
    && entries == EntriesOf(items) && deposits == DepositsOf(items) && flows == FlowsOf(items)
    && HashesOf(withdraws) == HashesFor(items, true) && HashesOf(internals) == HashesFor(items, false)
  }

  lemma BuiltOneMore(items: seq<Resolved>, r: Resolved, request: Request, entries: seq<Balances.Entry>,
                     deposits: seq<Deposit>, withdraws: seq<Request>, internals: seq<Request>, flows: seq<Flow>)
    requires Built(items, entries, deposits, withdraws, internals, flows) && request.hash == r.tx.hash
    ensures var deposit := Record(r.tx.hash, r.tx.blockNumber, Success, DepositData(EntryOf(r), 0));
      Built(items + [r], entries + [EntryOf(r)], if r.tx.kind.Deposit? then deposits + [deposit] else deposits,
            if r.tx.kind.Withdraw? then withdraws + [request] else withdraws,
            if IsInternal(r.tx.kind) then internals + [request] else internals, flows + [FlowOf(r)])
  {
    assert (items + [r])[..|items|] == items;
    assert HashesOf(withdraws + [request]) == HashesOf(withdraws) + [r.tx.hash];
    assert HashesOf(internals + [request]) == HashesOf(internals) + [r.tx.hash];
  }

  lemma {:induction false} UnresolvedStops(txs: seq<Transaction>, info: nat -> TxInfo, k: nat)
    requires k <= |txs| && Resolve(txs, info, k) == None
    ensures Resolve(txs, info, |txs|) == None
    decreases |txs| - k
  {
    if k < |txs| {
      UnresolvedStops(txs, info, k + 1);
    }
  }

  // Every transaction must be found, and each keeps the amount and fee it was found with.
  lemma {:induction false} ResolvesExactly(txs: seq<Transaction>, info: nat -> TxInfo, k: nat)
    requires k <= |txs|
    ensures Resolve(txs, info, k).Some? <==> forall i | 0 <= i < k :: info(i).Found?
    ensures Resolve(txs, info, k).Some? ==> forall i | 0 <= i < k ::
      info(i).Found? && Resolve(txs, info, k).value[i] == Resolved(txs[i], info(i).amount, info(i).fee)
  {
    if k > 0 {
      ResolvesExactly(txs, info, k - 1);
    }
  }

  // ---- What handling a share does, by its transactions ----

  // What a transaction moves at an address in a token, by its type.
  function Movement(r: Resolved, address: Balances.Address, token: Balances.Address): int {
    var spent := if r.tx.from == address && r.tx.token == token then r.amount else 0;
    var received := if r.tx.to == address && r.tx.token == token then r.amount else 0;
    match r.tx.kind
    case Deposit => received
    case Withdraw => -spent
    case Collection | Hot2Cold | Cold2Hot => received - spent
    case Unknown => 0
  }

  function Moved(items: seq<Resolved>, address: Balances.Address, token: Balances.Address): int {
    if items == [] then 0 else Moved(items[..|items| - 1], address, token) + Movement(Last(items), address, token)
  }

  lemma {:induction false} EffectsAreMovements(items: seq<Resolved>, address: Balances.Address, token: Balances.Address)
    ensures Balances.Effects(EntriesOf(items), Balances.Cell(address, token)) == Moved(items, address, token)
  {
    if items != [] {
      var init := items[..|items| - 1];
      EffectsAreMovements(init, address, token);
      assert EntriesOf(items)[..|items| - 1] == EntriesOf(init);
    }
  }

  // Every balance changes by the sum of what the transactions move there.
  lemma ShareMoves(l: Ledger, items: seq<Resolved>, address: Balances.Address, token: Balances.Address)
    requires Balances.Unlocked(l.balances) && Persist(l, items).Done?
    ensures var cell, after := Balances.Cell(address, token), Persist(l, items).value;
      Balances.Value(after.balances, cell) == Balances.Value(l.balances, cell) + Moved(items, address, token)
  {
    Balances.ApplyAllMeans(l.balances, EntriesOf(items));
    EffectsAreMovements(items, address, token);
    hide Balances.ApplyAll, Balances.Value, Balances.Effects, Moved, EntriesOf, Balances.Unlocked;
  }

  // A row carries the transaction it was filed for.
  predicate Carries(e: Balances.Entry, hash: Hash, height: int, r: Resolved) {
    && hash == r.tx.hash && height == r.tx.blockNumber
    && e.from == r.tx.from && e.to == r.tx.to && e.token == r.tx.token && e.amount == r.amount && e.kind == r.tx.kind
  }

  predicate DepositOf(d: Deposit, r: Resolved) {
    Carries(d.data.entry, d.hash, d.block, r) && d.status.Success? && d.data.confirms == 0
  }

  // Behind the rows that were there, one flow row for each transaction, and one deposit for each of that type,
  // without a confirmation yet, both in the order of the transactions.
  lemma ShareFiles(l: Ledger, items: seq<Resolved>) returns (at: seq<nat>)
    requires Persist(l, items).Done?
    ensures var after, n := Persist(l, items).value, |l.flows|;
      && |after.flows| == n + |items| && after.flows[..n] == l.flows
      && forall i | 0 <= i < |items| ::
           var row := after.flows[n + i];
           Carries(row.data, row.hash, row.block, items[i]) && row.status.Success?
    ensures var after, n := Persist(l, items).value, |l.deposits|;
      && |after.deposits| == n + |at| && after.deposits[..n] == l.deposits
      && forall k | 0 <= k < |at| :: at[k] < |items| && DepositOf(after.deposits[n + k], items[at[k]])
    ensures forall j, k | 0 <= j < k < |at| :: at[j] < at[k]
    ensures forall i: nat | i < |items| :: i in at <==> items[i].tx.kind.Deposit?
  {
    at := DepositsPlaced(items);
    hide DepositsOf, SetStatus, HashesFor, Balances.ApplyAll, EntriesOf;
  }

  lemma {:induction false} DepositsPlaced(items: seq<Resolved>) returns (at: seq<nat>)
    ensures |at| == |DepositsOf(items)|
    ensures forall k | 0 <= k < |at| :: at[k] < |items| && DepositOf(DepositsOf(items)[k], items[at[k]])
    ensures forall j, k | 0 <= j < k < |at| :: at[j] < at[k]
    ensures forall i: nat | i < |items| :: i in at <==> items[i].tx.kind.Deposit?
  {
    at := [];
    if items != [] {
      var init, last := items[..|items| - 1], |items| - 1;
      var before := DepositsPlaced(init);
      var own := if items[last].tx.kind.Deposit? then [last] else [];
      at := before + own;
      assert last !in before;
      var d := DepositsOf(items);
      assert |d| == |at| && d[..|before|] == DepositsOf(init);
      assert own != [] ==> DepositOf(d[|before|], items[last]);
      hide DepositsOf, DepositOf;
      forall k | 0 <= k < |at| ensures at[k] < |items| && DepositOf(d[k], items[at[k]]) {
        if k < |before| {
          assert d[k] == d[..|before|][k] && items[at[k]] == init[before[k]];
        }
      }
    }
  }

  predicate IsInternal(kind: Balances.TxType) {
    kind.Collection? || kind.Hot2Cold? || kind.Cold2Hot?
  }

  // A transaction of the right type bears the hash.
  predicate Settles(items: seq<Resolved>, hash: Hash, withdrawal: bool) {
    exists i | 0 <= i < |items| :: items[i].tx.hash == hash
      && if withdrawal then items[i].tx.kind.Withdraw? else IsInternal(items[i].tx.kind)
  }

  // A filed request becomes wallet_done if and only if a transaction of its type bears its hash.
  predicate AllSettled(before: seq<Request>, after: seq<Request>, items: seq<Resolved>, withdrawal: bool) {
    && |after| == |before|
    && forall i | 0 <= i < |before| ::
         && after[i].hash == before[i].hash && after[i].block == before[i].block && after[i].data == before[i].data
         && after[i].status == if Settles(items, before[i].hash, withdrawal) then WalletDone else before[i].status
  }

  lemma ShareSettles(l: Ledger, items: seq<Resolved>)
    requires Persist(l, items).Done?
    ensures AllSettled(l.withdraws, Persist(l, items).value.withdraws, items, true)
    ensures AllSettled(l.internals, Persist(l, items).value.internals, items, false)
  {
    forall h ensures h in HashesFor(items, true) <==> Settles(items, h, true) {
      HashesForExactly(items, h, true);
    }
    forall h ensures h in HashesFor(items, false) <==> Settles(items, h, false) {
      HashesForExactly(items, h, false);
    }
    hide HashesFor, Settles, Balances.ApplyAll, DepositsOf, EntriesOf, FlowsOf;
  }

  lemma {:induction false} HashesForExactly(items: seq<Resolved>, h: Hash, withdrawal: bool)
    ensures h in HashesFor(items, withdrawal) <==> Settles(items, h, withdrawal)
  {
    if items != [] {
      var init, last := items[..|items| - 1], Last(items);
      HashesForExactly(init, h, withdrawal);
      SettlesOneMore(init, last, h, withdrawal);
      assert items == init + [last];
      var settles := if withdrawal then last.tx.kind.Withdraw? else IsInternal(last.tx.kind);
      var own := if settles then [last.tx.hash] else [];
      assert HashesFor(items, withdrawal) == HashesFor(init, withdrawal) + own;
      hide HashesFor, Settles;
    }
  }

  lemma SettlesOneMore(init: seq<Resolved>, last: Resolved, h: Hash, withdrawal: bool)
    ensures Settles(init + [last], h, withdrawal) <==>
      || Settles(init, h, withdrawal)
      || (last.tx.hash == h && if withdrawal then last.tx.kind.Withdraw? else IsInternal(last.tx.kind))
  {
    var all := init + [last];
    assert all[|init|] == last && forall i | 0 <= i < |init| :: all[i] == init[i];
  }

  // ---- A confirmation round ----

  // The round gets to a business: it is listed, and no error code came up to its own answer.
  predicate GetsTo(list: seq<Business>, heads: Business -> Answer, b: Business) {
    exists k | 0 <= k < |list| :: list[k] == b && Uninterrupted(list, heads, k)
  }

  predicate Uninterrupted(list: seq<Business>, heads: Business -> Answer, k: nat)
    requires k < |list|
  {
    forall j | 0 <= j <= k :: !heads(list[j]).Unreported?
  }

  lemma GetsToListed(list: seq<Business>, heads: Business -> Answer, b: Business)
    ensures GetsTo(list, heads, b) ==> b in list
  {
  }

  lemma RestDiffers(list: seq<Business>)
    requires NoDuplicates(list) && list != []
    ensures forall b | b in list[1..] :: b in list && b != list[0]
  {
    forall b | b in list[1..] ensures b in list && b != list[0] {
      var j :| 0 <= j < |list| - 1 && list[1..][j] == b;
      assert list[j + 1] == b;
    }
  }

  lemma GetsToNext(list: seq<Business>, heads: Business -> Answer, b: Business)
    requires list != []
    ensures GetsTo(list, heads, b) <==> !heads(list[0]).Unreported? && (list[0] == b || GetsTo(list[1..], heads, b))
  {
    var rest := list[1..];
    if GetsTo(rest, heads, b) && !heads(list[0]).Unreported? {
      var k :| 0 <= k < |rest| && rest[k] == b && Uninterrupted(rest, heads, k);
      forall j | 0 <= j <= k + 1 ensures !heads(list[j]).Unreported? {
        assert j > 0 ==> list[j] == rest[j - 1];
      }
      assert list[k + 1] == b && Uninterrupted(list, heads, k + 1);
    }
    if GetsTo(list, heads, b) {
      var k :| 0 <= k < |list| && list[k] == b && Uninterrupted(list, heads, k);
      if k > 0 {
        assert forall j | 0 <= j < k :: rest[j] == list[j + 1];
        assert rest[k - 1] == b && Uninterrupted(rest, heads, k - 1);
      }
    }
    if list[0] == b && !heads(b).Unreported? {
      assert Uninterrupted(list, heads, 0);
    }
  }

  // A ledger before and after a round: its deposits were counted under the business's own head, or nothing changed.
  predicate Confirmation(l: Ledger, after: Ledger, counted: bool, head: Answer, confirms: nat) {
    && after == l.(deposits := after.deposits)
    && if counted && head.Got? then AllCounted(l.deposits, after.deposits, head.header.number, confirms)
       else after == l
  }

  // With distinct businesses, each known one that the round gets to, that was answered a head and whose database
  // was up has its deposits counted under that head; every other ledger stays as it was.
  lemma {:induction false} RoundConfirms(ledgers: Ledgers, list: seq<Business>, heads: Business -> Answer,
                                         up: Business -> bool, confirms: nat)
    requires NoDuplicates(list) && confirms < 256
    requires forall b | b in list && heads(b).Got? :: 0 <= heads(b).header.number < U64
    requires forall b | b in ledgers :: Numbered(ledgers[b].deposits)
    ensures var after := ConfirmList(ledgers, list, heads, up, confirms);
      && after.Keys == ledgers.Keys
      && forall b | b in ledgers ::
           Confirmation(ledgers[b], after[b], GetsTo(list, heads, b) && up(b), heads(b), confirms)
    decreases |list|
  {
    if list != [] && !heads(list[0]).Unreported? {
      var first, rest := list[0], list[1..];
      RestDiffers(list);
      hide ConfirmBusiness, AllCounted, GetsTo;
      var mid := ledgers;
      if first in ledgers {
        ConfirmOne(ledgers[first], heads(first), up(first), confirms);
        mid := ledgers[first := ConfirmBusiness(ledgers[first], heads(first), up(first), confirms)];
      }
      RoundConfirms(mid, rest, heads, up, confirms);
      forall b ensures GetsTo(list, heads, b) <==> first == b || GetsTo(rest, heads, b) {
        GetsToNext(list, heads, b);
      }
      assert !GetsTo(rest, heads, first) by {
        GetsToListed(rest, heads, first);
      }
    } else if list != [] {
      forall b ensures !GetsTo(list, heads, b) {
        GetsToNext(list, heads, b);
      }
    }
  }

  lemma ConfirmOne(l: Ledger, head: Answer, up: bool, confirms: nat)
    requires head.Got? ==> 0 <= head.header.number < U64
    requires confirms < 256 && Numbered(l.deposits)
    ensures Confirmation(l, ConfirmBusiness(l, head, up, confirms), up, head, confirms)
    ensures Numbered(ConfirmBusiness(l, head, up, confirms).deposits)
  {
    if up && head.Got? {
      var n := head.header.number;
      assert BigInt.Uint64(n) == n;
      PassExactly(l.deposits, n, confirms);
      hide BigInt.Uint64, ConfirmAll;
      CountedNumbered(l.deposits, ConfirmBusiness(l, head, up, confirms).deposits, n, confirms);
      hide AllCounted, Numbered;
    }
  }

  lemma CountedNumbered(rows: seq<Deposit>, after: seq<Deposit>, head: int, confirms: nat)
    requires AllCounted(rows, after, head, confirms) && Numbered(rows)
    ensures Numbered(after)
  {
    assert forall i | 0 <= i < |rows| :: Counted(rows[i], after[i], head, confirms);
  }

  // ---- Batch atomicity ----

  // The business list restricted to the batch's keys.
  function Wanted(list: seq<Business>, batch: map<Business, Batch>): seq<Business> {
    if list == [] then [] else (if list[0] in batch then [list[0]] else []) + Wanted(list[1..], batch)
  }

  lemma {:induction false} WantedFrom(list: seq<Business>, batch: map<Business, Batch>, b: Business)
    ensures b in Wanted(list, batch) <==> b in list && b in batch
  {
    if list != [] {
      WantedFrom(list[1..], batch, b);
      assert list == [list[0]] + list[1..];
    }
  }

  // A business's share is applied if and only if all its transactions resolve, the transaction holds and
  // the database is reached within the attempts; and then it is applied once.
  lemma AppliedOnce(l: Ledger, b: Business, batch: Batch, a: Answers)
    ensures var items := Resolve(batch.transactions, a.info(b), |batch.transactions|);
      && (HandleOne(l, b, batch, a).Some? <==>
            items.Some? && Persist(l, items.value).Done? && Retry.Reachable(a.cancelled(b), a.up(b)))
      && (HandleOne(l, b, batch, a).Some? ==> HandleOne(l, b, batch, a).value == Persist(l, items.value).value)
  {
    var items := Resolve(batch.transactions, a.info(b), |batch.transactions|);
    if items.Some? {
      Retry.TransactionRunsOnce(a.cancelled(b), a.up(b), Persist(l, items.value));
    }
  }

  // A share is applied if and only if its transactions resolve, every entry fits by the sums before it, the
  // columns can hold the rows, and the database is reached.
  lemma AppliedExactly(l: Ledger, b: Business, batch: Batch, a: Answers)
    requires Balances.Unlocked(l.balances)
    ensures HandleOne(l, b, batch, a).Some? <==>
      var items := Resolve(batch.transactions, a.info(b), |batch.transactions|);
      && items.Some? && Retry.Reachable(a.cancelled(b), a.up(b))
      && (forall i | 0 <= i < |items.value| ::
            && 0 < items.value[i].tx.blockNumber < U256 && 0 <= items.value[i].amount < U256
            && 0 <= items.value[i].fee < U256)
      && (forall k | 0 <= k < |items.value| :: Balances.Fits(l.balances, EntriesOf(items.value), k))
  {
    AppliedOnce(l, b, batch, a);
    var items := Resolve(batch.transactions, a.info(b), |batch.transactions|);
    if items.Some? {
      Balances.ApplyAllExactly(l.balances, EntriesOf(items.value));
      ColumnsHold(items.value);
      hide HandleOne, Balances.ApplyAll, Balances.Fits, Storable, Retry.Reachable, Balances.Unlocked;
    }
  }

  lemma ColumnsHold(items: seq<Resolved>)
    ensures (forall i | 0 <= i < |items| :: Storable(items[i])) <==>
      forall i | 0 <= i < |items| ::
        0 < items[i].tx.blockNumber < U256 && 0 <= items[i].amount < U256 && 0 <= items[i].fee < U256
  {
  }

  // The finder goes on after a batch if and only if the business list can be read and every business of the
  // batch in it can take its share. Otherwise it stops for good.
  lemma GoesOnExactly(ledgers: Ledgers, batch: map<Business, Batch>, a: Answers)
    requires a.businesses.Some? ==> NoDuplicates(a.businesses.value)
    ensures BatchHandled(ledgers, batch, a).0 <==>
      && a.businesses.Some? && a.businesses.value != []
      && forall b | b in a.businesses.value && b in batch ::
           b in ledgers && HandleOne(ledgers[b], b, batch[b], a).Some?
  {
    if a.businesses.Some? {
      hide HandleOne;
      var list := a.businesses.value;
      var k := BatchIsAtomic(ledgers, list, batch, a);
      var wanted := Wanted(list, batch);
      forall b ensures b in wanted <==> b in list && b in batch {
        WantedFrom(list, batch, b);
      }
      if k < |wanted| {
        assert wanted[k] in wanted;
      }
      forall b | b in wanted && k == |wanted| ensures b in ledgers && HandleOne(ledgers[b], b, batch[b], a).Some? {
        var j :| 0 <= j < |wanted| && wanted[j] == b;
      }
    }
  }

  // A hot wallet that was filled from outside stops the finder: the payment in is of no type and never
  // credited, so the first withdrawal above the recorded balance cannot be applied.
  lemma OutsideFundsStop(l: Ledger, b: Business, batch: Batch, a: Answers, items: seq<Resolved>)
    requires Balances.Unlocked(l.balances) && batch.transactions != [] && batch.transactions[0].kind.Withdraw?
    requires Resolve(batch.transactions, a.info(b), |batch.transactions|) == Some(items)
    requires items[0].amount > Balances.Value(l.balances, Balances.From(EntryOf(items[0])))
    ensures TypeOf(None, Some(Balances.Hot)).Unknown?
    ensures HandleOne(l, b, batch, a) == None
  {
    AppliedExactly(l, b, batch, a);
    assert EntriesOf(items)[..0] == [] && EntriesOf(items)[0] == EntryOf(items[0]);
    assert !Balances.Fits(l.balances, EntriesOf(items), 0);
  }

  // The first k wanted businesses were applied, each to the ledger it had before the batch; nobody else
  // changed; if the batch failed, the next wanted business is the one that could not be applied.
  ghost predicate AppliedPrefix(ledgers: Ledgers, after: Ledgers, wanted: seq<Business>,
                                batch: map<Business, Batch>, a: Answers, k: nat)
    requires forall b | b in wanted :: b in batch
  {
    && k <= |wanted|
    && after.Keys == ledgers.Keys
    && (forall j | 0 <= j < k :: wanted[j] in ledgers
          && HandleOne(ledgers[wanted[j]], wanted[j], batch[wanted[j]], a) == Some(after[wanted[j]]))
    && (forall b | b in ledgers && b !in wanted[..k] :: after[b] == ledgers[b])
    && (k < |wanted| ==> wanted[k] !in ledgers || HandleOne(ledgers[wanted[k]], wanted[k], batch[wanted[k]], a) == None)
  }

  lemma PrefixExtends(ledgers: Ledgers, b: Business, mid: Ledgers, after: Ledgers,
                      wanted: seq<Business>, batch: map<Business, Batch>, a: Answers, k: nat)
    requires b in batch && forall c | c in wanted :: c in batch && c != b
    requires b in ledgers && HandleOne(ledgers[b], b, batch[b], a).Some?
    requires mid == ledgers[b := HandleOne(ledgers[b], b, batch[b], a).value]
    requires AppliedPrefix(mid, after, wanted, batch, a, k)
    ensures AppliedPrefix(ledgers, after, [b] + wanted, batch, a, k + 1)
  {
    hide HandleOne;
    var all := [b] + wanted;
    assert all[..k + 1] == [b] + wanted[..k];
    assert b !in wanted[..k];
    forall j | 0 <= j < k + 1
      ensures all[j] in ledgers && HandleOne(ledgers[all[j]], all[j], batch[all[j]], a) == Some(after[all[j]])
    {
      if j > 0 {
        assert all[j] == wanted[j - 1] && wanted[j - 1] != b;
      }
    }
  }

  lemma {:induction false} BatchIsAtomic(ledgers: Ledgers, list: seq<Business>, batch: map<Business, Batch>, a: Answers)
    returns (k: nat)
    requires NoDuplicates(list)
    ensures forall b | b in Wanted(list, batch) :: b in batch
    ensures AppliedPrefix(ledgers, HandleList(ledgers, list, batch, a).1, Wanted(list, batch), batch, a, k)
    ensures HandleList(ledgers, list, batch, a).0 <==> k == |Wanted(list, batch)|
  {
    hide HandleOne;
    k := 0;
    if list != [] {
      var b, rest := list[0], list[1..];
      var wanted := Wanted(rest, batch);
      forall c | c in wanted ensures c in batch && c != b {
        WantedFrom(rest, batch, c);
        var i :| 0 <= i < |rest| && rest[i] == c;
        assert list[i + 1] == c;
      }
      if b !in batch {
        k := BatchIsAtomic(ledgers, rest, batch, a);
        assert Wanted(list, batch) == wanted;
      } else if b in ledgers && HandleOne(ledgers[b], b, batch[b], a).Some? {
        var mid := ledgers[b := HandleOne(ledgers[b], b, batch[b], a).value];
        k := BatchIsAtomic(mid, rest, batch, a);
        PrefixExtends(ledgers, b, mid, HandleList(mid, rest, batch, a).1, wanted, batch, a, k);
        k := k + 1;
        assert Wanted(list, batch) == [b] + wanted;
      } else {
        assert Wanted(list, batch) == [b] + wanted;
      }
    }
  }

  // ---- The ledger as a replay of its live flow rows ----

  // The balances are what the live flow rows, replayed in order over the opening balances, amount to.
  ghost predicate Replays(opening: seq<Balances.Row>, l: Ledger) {
    var entries := FlowEntries(Live(l.flows));
    && Balances.Unlocked(opening) && Balances.Unlocked(l.balances) && Balances.NoSelfTransfer(entries)
    && Balances.ApplyAll(opening, entries).Some?
    && Balances.Same(l.balances, Balances.ApplyAll(opening, entries).value)
  }

  // What classification guarantees of a transaction.
  predicate Genuine(txs: seq<Transaction>) {
    forall i | 0 <= i < |txs| :: Balances.MovesWithin(txs[i].kind) ==> txs[i].from != txs[i].to
  }

  lemma {:induction false} ContributionIsGenuine(b: Business, items: seq<Item>)
    ensures Genuine(Contribution(b, items))
  {
    if |items| > 0 {
      ContributionIsGenuine(b, items[..|items| - 1]);
      if b in Last(items).businesses {
        MatchedIsGenuine(Last(items).lookups(b), b, Last(items).header, Last(items).txs);
      }
    }
  }

  lemma {:induction false} AllLive(flows: seq<Flow>)
    requires forall i | 0 <= i < |flows| :: flows[i].status.Success?
    ensures Live(flows) == flows
  {
    if flows != [] {
      AllLive(flows[..|flows| - 1]);
      assert flows == flows[..|flows| - 1] + [Last(flows)];
    }
  }

  lemma ReplayExtends(opening: seq<Balances.Row>, balances: seq<Balances.Row>, entries: seq<Balances.Entry>,
      more: seq<Balances.Entry>)
    requires Balances.Unlocked(opening) && Balances.Unlocked(balances)
    requires Balances.ApplyAll(opening, entries).Some?
        && Balances.Same(balances, Balances.ApplyAll(opening, entries).value)
    requires Balances.ApplyAll(balances, more).Some?
    ensures Balances.Unlocked(Balances.ApplyAll(balances, more).value)
    ensures Balances.ApplyAll(opening, entries + more).Some?
    ensures Balances.Same(Balances.ApplyAll(balances, more).value, Balances.ApplyAll(opening, entries + more).value)
  {
    hide Balances.Apply, Balances.Value, Balances.Find;
    var replayed := Balances.ApplyAll(opening, entries).value;
    Balances.ApplyAllMeans(opening, entries);
    Balances.ApplyAllSame(balances, replayed, more);
    Balances.ApplyAllConcat(opening, entries, more);
    Balances.ApplyAllMeans(balances, more);
  }

  lemma EntriesConcat(flows: seq<Flow>, items: seq<Resolved>)
    ensures FlowEntries(flows + FlowsOf(items)) == FlowEntries(flows) + EntriesOf(items)
  {
  }

  // Handling a batch extends the replay by the batch's transactions.
  lemma PersistExtendsReplay(opening: seq<Balances.Row>, l: Ledger, items: seq<Resolved>)
    requires Replays(opening, l) && Persist(l, items).Done?
    requires forall i | 0 <= i < |items| ::
      Balances.MovesWithin(items[i].tx.kind) ==> items[i].tx.from != items[i].tx.to
    ensures Replays(opening, Persist(l, items).value)
    ensures Live(Persist(l, items).value.flows) == Live(l.flows) + FlowsOf(items)
  {
    hide Balances.ApplyAll, Balances.Unlocked, Balances.Same, Live, DepositsOf, HashesFor, SetStatus;
    AllLive(FlowsOf(items));
    LiveConcat(l.flows, FlowsOf(items));
    EntriesConcat(Live(l.flows), items);
    ReplayExtends(opening, l.balances, FlowEntries(Live(l.flows)), EntriesOf(items));
  }

  // ---- Scan depth and confirmation depth ----

  // A block that the scanner returned is deep enough for the threshold under any head no lower than its own.
  lemma ScannedIsDeep(depth: nat, cursor: Header, view: View, maxSize: nat, i: nat, head: nat, headers: seq<Header>)
    requires RightNumbers(view) && cursor.number >= 0 && 1 <= maxSize < U64
    requires view.latest.Got? && view.latest.header.number < I63 && view.latest.header.number <= head
    requires BatchBlock.Next(depth, Some(cursor), view, maxSize) == BatchBlock.Headers(headers) && i < |headers|
    ensures 0 <= headers[i].number <= head - depth
  {
    BatchBlock.NextHeadersContract(depth, cursor, view, maxSize);
    hide BatchBlock.Next;
    var all := [cursor] + headers;
    LinkedNumbers(all, i + 1);
    LinkedNumbers(all, |headers|);
    assert all[i + 1] == headers[i] && all[|headers|] == Last(headers);
  }

  // A deposit from a block that the scanner returned is promoted by the first confirmation pass at a head
  // no lower than the one it was scanned under, although the finder keeps only eight bits of the depth.
  lemma ScannedMeansConfirmed(depth: nat, cursor: Header, view: View, maxSize: nat, i: nat, headers: seq<Header>,
      rows: seq<Deposit>, j: nat, head: nat)
    requires RightNumbers(view) && cursor.number >= 0 && 1 <= maxSize < U64
    requires view.latest.Got? && view.latest.header.number < I63 && view.latest.header.number <= head < U64
    requires BatchBlock.Next(depth, Some(cursor), view, maxSize) == BatchBlock.Headers(headers) && i < |headers|
    requires j < |rows| && rows[j].block == headers[i].number && rows[j].status.Success?
    ensures var after := ConfirmAll(rows, head, depth % 256);
      && |after| == |rows|
      && after[j] == rows[j].(data := rows[j].data.(confirms := depth % 256), status := WalletDone)
  {
    hide BatchBlock.Next, RightNumbers, BigInt.Uint64;
    ScannedIsDeep(depth, cursor, view, maxSize, i, head, headers);
    ConfirmedExactly(rows[j], head, depth % 256);
    hide Confirmed;
    assert depth % 256 <= depth;
  }
}
