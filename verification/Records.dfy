/** The deposit and transaction-flow tables of one business: database/deposit.go, database/transactions.go. */
module Records {
  import opened Prelude
  import opened Node
  import Balances
  import BigInt

  datatype Status = CreateUnsigned | Signed | Broadcasted | Success | WalletDone | Notified | Fallback

  datatype Record<+T> = Record(hash: Hash, block: int, status: Status, data: T)

  datatype DepositData = DepositData(entry: Balances.Entry, confirms: nat)

  type Deposit = Record<DepositData>
  type Flow = Record<Balances.Entry>

  // Withdrawals and internal transfers, filed by the business beforehand.
  type Request = Record<Balances.Entry>

  function FlowEntries(flows: seq<Flow>): seq<Balances.Entry> {
    seq(|flows|, i requires 0 <= i < |flows| => flows[i].data)
  }

  // ---- Rolling back a range of heights ----

  // The index of the first row at a height, |rows| when there is none.
  function FirstAt<T>(rows: seq<Record<T>>, n: int): (i: nat)
    ensures i <= |rows|
    ensures i < |rows| ==> rows[i].block == n
  {
    if rows == [] || rows[0].block == n then 0 else 1 + FirstAt(rows[1..], n)
  }

  function Marked<T>(rows: seq<Record<T>>, i: nat): seq<Record<T>>
    requires i < |rows|
  {
    rows[i := rows[i].(status := Fallback)]
  }

  // Height by height, mark one row; stop at the first height without a row.
  function MarkRange<T>(rows: seq<Record<T>>, start: int, end: int): seq<Record<T>>
    decreases end - start
  {
    if start > end || FirstAt(rows, start) == |rows| then rows
    else MarkRange(Marked(rows, FirstAt(rows, start)), start + 1, end)
  }

  // WHERE block_number >= start AND block_number <= end AND status = success.
  function InRange<T>(rows: seq<Record<T>>, start: int, end: int): seq<Record<T>> {
    if rows == [] then [] else
      InRange(rows[..|rows| - 1], start, end) +
      if start <= Last(rows).block <= end && Last(rows).status.Success? then [Last(rows)] else []
  }

  // ---- Confirmations ----

  // One row in UpdateDepositsConfirms: uint64 subtraction, uint8 counter.
  function Confirmed(row: Deposit, head: nat, confirms: nat): Deposit {
    if row.block <= head && row.status.Success? then
      var chainConfirm := (head - BigInt.Uint64(row.block)) % U64;
      if chainConfirm >= confirms
      then row.(data := row.data.(confirms := confirms % 256), status := WalletDone)
      else row.(data := row.data.(confirms := chainConfirm % 256))
    else row
  }

  function ConfirmAll(rows: seq<Deposit>, head: nat, confirms: nat): seq<Deposit> {
    seq(|rows|, i requires 0 <= i < |rows| => Confirmed(rows[i], head, confirms))
  }

  // ---- Notification ----

  function HashesOf<T>(rows: seq<Record<T>>): seq<Hash> {
    seq(|rows|, i requires 0 <= i < |rows| => rows[i].hash)
  }

  // UPDATE status WHERE hash IN hashes.
  function SetStatus<T>(rows: seq<Record<T>>, hashes: seq<Hash>, status: Status): seq<Record<T>> {
    seq(|rows|, i requires 0 <= i < |rows| => if rows[i].hash in hashes then rows[i].(status := status) else rows[i])
  }

  // WHERE status = wallet_done.
  function ToNotify<T>(rows: seq<Record<T>>): seq<Record<T>> {
    if rows == [] then [] else
      ToNotify(rows[..|rows| - 1]) + if Last(rows).status.WalletDone? then [Last(rows)] else []
  }

  // The tables as a transaction sees them.
  class DepositsTable {
    var rows: seq<Deposit>

    constructor (rows: seq<Deposit>)
      ensures this.rows == rows
    {
      this.rows := rows;
    }

    method StoreDeposits(deposits: seq<Deposit>)
      modifies this
      ensures rows == old(rows) + deposits
    {
      if |deposits| == 0 {
        assert rows + deposits == rows;
        return;
      }
      rows := rows + deposits;
    }

    method UpdateDepositsConfirms(head: nat, confirms: nat)
      modifies this
      ensures rows == ConfirmAll(old(rows), head, confirms)
    {
      for i := 0 to |rows|
        invariant |rows| == |old(rows)|
        invariant forall k | 0 <= k < i :: rows[k] == Confirmed(old(rows)[k], head, confirms)
        invariant forall k | i <= k < |rows| :: rows[k] == old(rows)[k]
      {
        var deposit := rows[i];
        if deposit.block <= head && deposit.status == Success {
          var chainConfirm := (head - BigInt.Uint64(deposit.block)) % U64;
          if chainConfirm >= confirms {
            deposit := deposit.(data := deposit.data.(confirms := confirms % 256));
            deposit := deposit.(status := WalletDone);
          } else {
            deposit := deposit.(data := deposit.data.(confirms := chainConfirm % 256));
          }
          rows := rows[i := deposit];
        }
      }
    }

    method HandleFallBackDeposits(startBlock: int, endBlock: int)
      modifies this
      ensures rows == MarkRange(old(rows), startBlock, endBlock)
    {
      var indexBlock := startBlock;
      while indexBlock <= endBlock
        invariant MarkRange(rows, indexBlock, endBlock) == MarkRange(old(rows), startBlock, endBlock)
      {
        var single := FirstAt(rows, indexBlock);
        if single == |rows| {
          return;
        }
        rows := rows[single := rows[single].(status := Fallback)];
        indexBlock := indexBlock + 1;
      }
    }

    // The confirmed rows, each as often as it is stored, in the order of the table; nothing when the query
    // fails, which is logged only.
    method QueryNotifyDeposits(up: bool) returns (found: seq<Deposit>)
      ensures !up ==> found == []
      ensures up ==> forall r: Deposit :: multiset(found)[r] == if r.status.WalletDone? then multiset(rows)[r] else 0
      ensures up ==> exists at :: Placed(found, rows, at)
    {
      if !up {
        return [];
      }
      found := ToNotify(rows);
      ToNotifyCounts(rows);
      ghost var at := ToNotifyPlaced(rows);
    }

    method UpdateDepositsStatusByTxHash(status: Status, deposits: seq<Deposit>)
      modifies this
      ensures rows == SetStatus(old(rows), HashesOf(deposits), status)
    {
      if |deposits| == 0 {
        assert SetStatus(rows, HashesOf(deposits), status) == rows;
        return;
      }
      var txHashList: seq<Hash> := [];
      for i := 0 to |deposits|
        invariant txHashList == HashesOf(deposits)[..i]
      {
        txHashList := txHashList + [deposits[i].hash];
      }
      rows := SetStatus(rows, txHashList, status);
    }
  }

  class TransactionsTable {
    var rows: seq<Flow>

    constructor (rows: seq<Flow>)
      ensures this.rows == rows
    {
      this.rows := rows;
    }

    method StoreTransactions(flows: seq<Flow>)
      modifies this
      ensures rows == old(rows) + flows
    {
      rows := rows + flows;
    }

    method QueryFallBackTransactions(startBlock: int, endBlock: int) returns (found: seq<Flow>)
      ensures found == InRange(rows, startBlock, endBlock)
      ensures forall r :: r in found <==> r in rows && startBlock <= r.block <= endBlock && r.status.Success?
    {
      found := InRange(rows, startBlock, endBlock);
      InRangeExactly(rows, startBlock, endBlock);
    }

    method HandleFallBackTransactions(startBlock: int, endBlock: int)
      modifies this
      ensures rows == MarkRange(old(rows), startBlock, endBlock)
    {
      var indexBlock := startBlock;
      while indexBlock <= endBlock
        invariant MarkRange(rows, indexBlock, endBlock) == MarkRange(old(rows), startBlock, endBlock)
      {
        var single := FirstAt(rows, indexBlock);
        if single == |rows| {
          return;
        }
        rows := rows[single := rows[single].(status := Fallback)];
        indexBlock := indexBlock + 1;
      }
    }
  }

  class WithdrawsTable {
    var rows: seq<Request>

    constructor (rows: seq<Request>)
      ensures this.rows == rows
    {
      this.rows := rows;
    }

    method UpdateWithdrawStatusByTxHash(status: Status, requests: seq<Request>)
      modifies this
      ensures rows == SetStatus(old(rows), HashesOf(requests), status)
    {
      if |requests| == 0 {
        assert SetStatus(rows, HashesOf(requests), status) == rows;
        return;
      }
      var txHashList: seq<Hash> := [];
      for i := 0 to |requests|
        invariant txHashList == HashesOf(requests)[..i]
      {
        txHashList := txHashList + [requests[i].hash];
      }
      rows := SetStatus(rows, txHashList, status);
    }

    method HandleFallBackWithdraw(startBlock: int, endBlock: int)
      modifies this
      ensures rows == MarkRange(old(rows), startBlock, endBlock)
    {
      var indexBlock := startBlock;
      while indexBlock <= endBlock
        invariant MarkRange(rows, indexBlock, endBlock) == MarkRange(old(rows), startBlock, endBlock)
      {
        var single := FirstAt(rows, indexBlock);
        if single == |rows| {
          return;
        }
        rows := rows[single := rows[single].(status := Fallback)];
        indexBlock := indexBlock + 1;
      }
    }
  }

  // This loop stops one height earlier.
  class InternalsTable {
    var rows: seq<Request>

    constructor (rows: seq<Request>)
      ensures this.rows == rows
    {
      this.rows := rows;
    }

    method UpdateInternalStatusByTxHash(status: Status, requests: seq<Request>)
      modifies this
      ensures rows == SetStatus(old(rows), HashesOf(requests), status)
    {
      if |requests| == 0 {
        assert SetStatus(rows, HashesOf(requests), status) == rows;
        return;
      }
      var txHashList: seq<Hash> := [];
      for i := 0 to |requests|
        invariant txHashList == HashesOf(requests)[..i]
      {
        txHashList := txHashList + [requests[i].hash];
      }
      rows := SetStatus(rows, txHashList, status);
    }

    method HandleFallBackInternals(startBlock: int, endBlock: int)
      modifies this
      ensures rows == MarkRange(old(rows), startBlock, endBlock - 1)
    {
      var indexBlock := startBlock;
      while indexBlock < endBlock
        invariant MarkRange(rows, indexBlock, endBlock - 1) == MarkRange(old(rows), startBlock, endBlock - 1)
      {
        var single := FirstAt(rows, indexBlock);
        if single == |rows| {
          return;
        }
        rows := rows[single := rows[single].(status := Fallback)];
        indexBlock := indexBlock + 1;
      }
    }
  }

  // ---- What a rollback pass does to the rows at the tip ----

  // The rows still counted, in table order.
  function Live<T>(rows: seq<Record<T>>): seq<Record<T>> {
    if rows == [] then [] else Live(rows[..|rows| - 1]) + if Last(rows).status.Success? then [Last(rows)] else []
  }

  lemma {:induction false} LiveConcat<T>(rows: seq<Record<T>>, more: seq<Record<T>>)
    ensures Live(rows + more) == Live(rows) + Live(more)
    decreases |more|
  {
    if more == [] {
      assert rows + more == rows;
    } else {
      var all := rows + more;
      assert all[..|all| - 1] == rows + more[..|more| - 1] && Last(all) == Last(more);
      LiveConcat(rows, more[..|more| - 1]);
    }
  }

  lemma {:induction false} LiveNone<T>(rows: seq<Record<T>>)
    requires forall r | r in rows :: !r.status.Success?
    ensures Live(rows) == []
  {
    if rows != [] {
      LiveNone(rows[..|rows| - 1]);
    }
  }

  lemma {:induction false} FirstAtFinds<T>(rows: seq<Record<T>>, n: int)
    ensures forall j | 0 <= j < FirstAt(rows, n) :: rows[j].block != n
  {
    if rows != [] && rows[0].block != n {
      FirstAtFinds(rows[1..], n);
      forall j | 0 <= j < FirstAt(rows, n) ensures rows[j].block != n {
        if j > 0 {
          assert rows[j] == rows[1..][j - 1];
        }
      }
    }
  }

  // Every row above height t is rolled back.
  ghost predicate SettledAbove<T>(rows: seq<Record<T>>, t: int) {
    forall i | 0 <= i < |rows| && rows[i].block > t :: rows[i].status.Fallback?
  }

  // The first row at a height, if there is one, is rolled back.
  predicate FirstSettled<T>(rows: seq<Record<T>>, n: int) {
    var i := FirstAt(rows, n);
    i < |rows| ==> rows[i].status.Fallback?
  }

  // The rows with the first one at height t marked.
  function FirstMarked<T>(rows: seq<Record<T>>, t: int): seq<Record<T>> {
    if FirstAt(rows, t) == |rows| then rows else Marked(rows, FirstAt(rows, t))
  }

  // Marking keeps heights, so it keeps which row is the first at a height.
  lemma {:induction false} FirstAtKept<T>(rows: seq<Record<T>>, after: seq<Record<T>>, n: int)
    requires |after| == |rows| && forall i | 0 <= i < |rows| :: after[i].block == rows[i].block
    ensures FirstAt(after, n) == FirstAt(rows, n)
  {
    if rows != [] && rows[0].block != n {
      FirstAtKept(rows[1..], after[1..], n);
    }
  }

  // The range t..t+1 of a pass marks one row at t, when there is one, if the first row at t + 1 was marked
  // before.
  lemma MarkFirst<T>(rows: seq<Record<T>>, t: int)
    requires FirstSettled(rows, t + 1)
    ensures MarkRange(rows, t, t + 1) == FirstMarked(rows, t)
  {
    var i := FirstAt(rows, t);
    if i < |rows| {
      var once := Marked(rows, i);
      FirstAtKept(rows, once, t + 1);
      var j := FirstAt(once, t + 1);
      if j < |rows| {
        assert once[j] == rows[j];
        assert Marked(once, j) == once;
        assert MarkRange(Marked(once, j), t + 2, t + 1) == once;
      }
      assert MarkRange(once, t + 1, t + 1) == once;
    }
  }

  // The range t..t+1 of a pass that removes the tip t marks one row at t, when there is one.
  lemma MarkTip<T>(rows: seq<Record<T>>, t: int)
    requires SettledAbove(rows, t)
    ensures MarkRange(rows, t, t + 1) ==
      if FirstAt(rows, t) == |rows| then rows else Marked(rows, FirstAt(rows, t))
  {
    MarkFirst(rows, t);
  }

  // No row before row i is at its height.
  predicate FirstOfHeight<T>(rows: seq<Record<T>>, i: nat)
    requires i < |rows|
  {
    forall j | 0 <= j < i :: rows[j].block != rows[i].block
  }

  predicate HasRow<T>(rows: seq<Record<T>>, n: int) {
    exists j | 0 <= j < |rows| :: rows[j].block == n
  }

  // There is a row at every height from `from` to `to`.
  ghost predicate Unbroken<T>(rows: seq<Record<T>>, from: int, to: int) {
    forall n | from <= n <= to :: HasRow(rows, n)
  }

  // The mark on row i, whatever its status was.
  ghost predicate MarkedWithin<T>(rows: seq<Record<T>>, i: nat, start: int, end: int)
    requires i < |rows|
  {
    start <= rows[i].block <= end && FirstOfHeight(rows, i) && Unbroken(rows, start, rows[i].block)
  }

  // A table before and after: the marked rows are rolled back, no other row changes.
  ghost predicate AllMarked<T>(rows: seq<Record<T>>, after: seq<Record<T>>, start: int, end: int) {
    && |after| == |rows|
    && forall i | 0 <= i < |rows| ::
         after[i] == if MarkedWithin(rows, i, start, end) then rows[i].(status := Fallback) else rows[i]
  }

  // What the marking of any range of heights does to a table: a row is rolled back if and only if it is in the
  // range, the first of its height, and no height below it in the range is empty. No other row changes.
  lemma {:induction false} MarkRangeExactly<T>(rows: seq<Record<T>>, start: int, end: int)
    ensures AllMarked(rows, MarkRange(rows, start, end), start, end)
    decreases end - start
  {
    var i := FirstAt(rows, start);
    FirstAtFinds(rows, start);
    if start <= end {
      if i == |rows| {
        assert !HasRow(rows, start);
      } else {
        var once := Marked(rows, i);
        MarkRangeExactly(once, start + 1, end);
        hide MarkRange;
        forall k | 0 <= k < |rows| ensures MarkedWithin(rows, k, start, end) <==>
            k == i || MarkedWithin(once, k, start + 1, end)
        {
          MarkedOneHigher(rows, once, i, k, start, end);
        }
      }
    }
  }

  lemma MarkedOneHigher<T>(rows: seq<Record<T>>, once: seq<Record<T>>, i: nat, k: nat, start: int, end: int)
    requires start <= end && i < |rows| && k < |rows| && once == Marked(rows, i)
    requires rows[i].block == start && forall j | 0 <= j < i :: rows[j].block != start
    ensures MarkedWithin(rows, k, start, end) <==> k == i || MarkedWithin(once, k, start + 1, end)
  {
    var b := rows[k].block;
    assert HasRow(rows, start);
    forall n ensures HasRow(once, n) <==> HasRow(rows, n) {
      SameHeights(rows, once, n);
    }
    assert FirstOfHeight(once, k) <==> FirstOfHeight(rows, k) by {
      assert forall j | 0 <= j < |rows| :: once[j].block == rows[j].block;
    }
    hide HasRow;
    assert start < b && Unbroken(once, start + 1, b) ==> Unbroken(rows, start, b);
  }

  lemma SameHeights<T>(rows: seq<Record<T>>, after: seq<Record<T>>, n: int)
    requires |after| == |rows| && forall i | 0 <= i < |rows| :: after[i].block == rows[i].block
    ensures HasRow(after, n) <==> HasRow(rows, n)
  {
    if HasRow(rows, n) {
      var j :| 0 <= j < |rows| && rows[j].block == n;
      assert after[j].block == n;
    }
  }

  predicate AtMostOneAt<T>(rows: seq<Record<T>>, n: int) {
    forall i, j | 0 <= i < j < |rows| :: !(rows[i].block == n && rows[j].block == n)
  }

  // The pass leaves no row at the tip that is not rolled back if and only if the tip has at most one row: it
  // marks one row per height and never looks again.
  lemma TipClearedExactly<T>(rows: seq<Record<T>>, t: int)
    requires SettledAbove(rows, t)
    requires forall i | 0 <= i < |rows| && rows[i].block == t :: !rows[i].status.Fallback?
    ensures SettledAbove(MarkRange(rows, t, t + 1), t - 1) <==> AtMostOneAt(rows, t)
  {
    MarkTip(rows, t);
    FirstAtFinds(rows, t);
    var i := FirstAt(rows, t);
    var after := MarkRange(rows, t, t + 1);
    if !AtMostOneAt(rows, t) {
      var a, b :| 0 <= a < b < |rows| && rows[a].block == t && rows[b].block == t;
      assert !after[if a == i then b else a].status.Fallback?;
    } else if i < |rows| {
      forall k | 0 <= k < |after| && after[k].block > t - 1 ensures after[k].status.Fallback? {
        if k != i {
          assert rows[k].block != t;
        }
      }
    }
  }

  // The markings of a whole recovery, one pass for each height from t down to a + 1.
  function MarkDown<T>(rows: seq<Record<T>>, a: int, t: int): seq<Record<T>>
    decreases t - a
  {
    if t <= a then rows else MarkDown(MarkRange(rows, t, t + 1), a, t - 1)
  }

  // The first row at each height from a + 1 to t marked, all others as they were.
  function FirstsMarked<T>(rows: seq<Record<T>>, a: int, t: int): seq<Record<T>> {
    seq(|rows|, i requires 0 <= i < |rows| =>
      if a < rows[i].block <= t && FirstAt(rows, rows[i].block) == i then rows[i].(status := Fallback) else rows[i])
  }

  lemma {:induction false} MarkDownIs<T>(rows: seq<Record<T>>, a: int, t: int)
    requires FirstSettled(rows, t + 1)
    ensures MarkDown(rows, a, t) == FirstsMarked(rows, a, t)
    decreases t - a
  {
    if t > a {
      MarkFirst(rows, t);
      FirstMarkedKeeps(rows, t);
      var after := FirstMarked(rows, t);
      MarkDownIs(after, a, t - 1);
      hide MarkRange, FirstMarked;
      forall i | 0 <= i < |rows| ensures FirstsMarked(after, a, t - 1)[i] == FirstsMarked(rows, a, t)[i] {
        FirstAtKept(rows, after, rows[i].block);
      }
    }
  }

  lemma FirstMarkedKeeps<T>(rows: seq<Record<T>>, t: int)
    ensures var after := FirstMarked(rows, t);
      && |after| == |rows| && FirstSettled(after, t)
      && forall i | 0 <= i < |rows| ::
           after[i] == if rows[i].block == t && FirstAt(rows, t) == i then rows[i].(status := Fallback) else rows[i]
  {
    FirstAtFinds(rows, t);
    var after := FirstMarked(rows, t);
    FirstAtKept(rows, after, t);
  }

  // A whole recovery leaves no row above height a that is not rolled back if and only if every height it went
  // through has at most one row.
  lemma AllClearedExactly<T>(rows: seq<Record<T>>, a: int, t: int)
    requires SettledAbove(rows, t)
    requires forall i | 0 <= i < |rows| && a < rows[i].block <= t :: !rows[i].status.Fallback?
    ensures SettledAbove(MarkDown(rows, a, t), a) <==> forall n | a < n <= t :: AtMostOneAt(rows, n)
  {
    MarkDownIs(rows, a, t);
    var after := FirstsMarked(rows, a, t);
    hide MarkDown;
    if SettledAbove(after, a) {
      forall n | a < n <= t ensures AtMostOneAt(rows, n) {
        forall i, j | 0 <= i < j < |rows| ensures !(rows[i].block == n && rows[j].block == n) {
          assert after[i].block == rows[i].block && after[j].block == rows[j].block;
        }
      }
    }
    if forall n | a < n <= t :: AtMostOneAt(rows, n) {
      forall i | 0 <= i < |after| && after[i].block > a ensures after[i].status.Fallback? {
        var n := rows[i].block;
        if n <= t {
          assert AtMostOneAt(rows, n);
          FirstAtHits(rows, i);
        }
      }
    }
  }

  lemma {:induction false} FirstAtHits<T>(rows: seq<Record<T>>, i: nat)
    requires i < |rows|
    ensures FirstAt(rows, rows[i].block) <= i
  {
    if rows[0].block != rows[i].block {
      FirstAtHits(rows[1..], i - 1);
    }
  }

  // Live rows stand in the order of their heights.
  ghost predicate Ascending<T>(rows: seq<Record<T>>) {
    forall i, j | 0 <= i < j < |rows| && rows[i].status.Success?
        && rows[j].status.Success? :: rows[i].block <= rows[j].block
  }

  lemma {:induction false} InRangeExactly<T(!new)>(rows: seq<Record<T>>, start: int, end: int)
    ensures forall r :: r in InRange(rows, start, end) <==> r in rows && start <= r.block <= end && r.status.Success?
  {
    if rows != [] {
      InRangeExactly(rows[..|rows| - 1], start, end);
      assert rows == rows[..|rows| - 1] + [Last(rows)];
    }
  }

  // In the order of the table, each as often as it is stored.
  lemma {:induction false} InRangePlaced<T(!new)>(rows: seq<Record<T>>, start: int, end: int) returns (at: seq<nat>)
    ensures Placed(InRange(rows, start, end), rows, at)
    ensures forall i: nat | i < |rows| :: i in at <==> start <= rows[i].block <= end && rows[i].status.Success?
  {
    at := [];
    if rows != [] {
      var init, row := rows[..|rows| - 1], Last(rows);
      assert rows == init + [row];
      at := InRangePlaced(init, start, end);
      PlacedOnwards(InRange(init, start, end), init, at, row);
      if start <= row.block <= end && row.status.Success? {
        at := at + [|init|];
      } else {
        assert InRange(rows, start, end) == InRange(init, start, end);
        assert |init| !in at;
      }
    }
  }

  lemma {:induction false} InRangeNone<T>(rows: seq<Record<T>>, start: int, end: int)
    requires forall r | r in rows :: !(start <= r.block <= end && r.status.Success?)
    ensures InRange(rows, start, end) == []
  {
    if rows != [] {
      InRangeNone(rows[..|rows| - 1], start, end);
    }
  }

  lemma {:induction false} InRangeConcat<T>(rows: seq<Record<T>>, more: seq<Record<T>>, start: int, end: int)
    ensures InRange(rows + more, start, end) == InRange(rows, start, end) + InRange(more, start, end)
    decreases |more|
  {
    if more == [] {
      assert rows + more == rows;
    } else {
      var all := rows + more;
      assert all[..|all| - 1] == rows + more[..|more| - 1] && Last(all) == Last(more);
      InRangeConcat(rows, more[..|more| - 1], start, end);
    }
  }

  // Around the only row at the tip: nothing live to its right, nothing in range to its left.
  lemma AroundTip<T>(rows: seq<Record<T>>, t: int, i: nat)
    requires SettledAbove(rows, t) && AtMostOneAt(rows, t) && Ascending(rows)
    requires i < |rows| && rows[i].block == t && rows[i].status.Success?
    ensures forall r | r in rows[i + 1..] :: !r.status.Success?
    ensures forall r | r in rows[..i] :: !(t <= r.block <= t + 1 && r.status.Success?)
  {
  }

  lemma LiveAround<T>(left: seq<Record<T>>, row: Record<T>, right: seq<Record<T>>)
    requires forall r | r in right :: !r.status.Success?
    ensures Live(left + [row] + right) == Live(left) + if row.status.Success? then [row] else []
  {
    LiveNone(right);
    LiveConcat(left + [row], right);
    assert (left + [row])[..|left|] == left;
  }

  lemma InRangeAround<T>(left: seq<Record<T>>, row: Record<T>, right: seq<Record<T>>, start: int, end: int)
    requires forall r | r in right :: !r.status.Success?
    requires forall r | r in left :: !(start <= r.block <= end && r.status.Success?)
    requires start <= row.block <= end && row.status.Success?
    ensures InRange(left + [row] + right, start, end) == [row]
  {
    InRangeNone(left, start, end);
    InRangeNone(right, start, end);
    InRangeConcat(left + [row], right, start, end);
    assert (left + [row])[..|left|] == left;
  }

  lemma NothingAtTip<T>(rows: seq<Record<T>>, t: int)
    requires SettledAbove(rows, t) && FirstAt(rows, t) == |rows|
    ensures InRange(rows, t, t + 1) == []
  {
    FirstAtFinds(rows, t);
    InRangeNone(rows, t, t + 1);
  }

  // With at most one row at the tip, the pass selects exactly the last live row when it is at the tip,
  // and marking takes exactly that row out of the live ones.
  lemma TipIsLastLive<T>(rows: seq<Record<T>>, t: int)
    requires SettledAbove(rows, t) && AtMostOneAt(rows, t) && Ascending(rows)
    requires forall i | 0 <= i < |rows| && rows[i].block == t :: rows[i].status.Success?
    ensures var i := FirstAt(rows, t);
      if i == |rows| then InRange(rows, t, t + 1) == []
      else InRange(rows, t, t + 1) == [rows[i]] && Live(rows) == Live(MarkRange(rows, t, t + 1)) + [rows[i]]
  {
    hide Live, InRange, MarkRange, SettledAbove, AtMostOneAt, Ascending;
    var i := FirstAt(rows, t);
    MarkTip(rows, t);
    if i == |rows| {
      NothingAtTip(rows, t);
    } else {
      var left, row, right := rows[..i], rows[i], rows[i + 1..];
      AroundTip(rows, t, i);
      assert rows == left + [row] + right;
      assert Marked(rows, i) == left + [row.(status := Fallback)] + right;
      LiveAround(left, row, right);
      LiveAround(left, row.(status := Fallback), right);
      InRangeAround(left, row, right, t, t + 1);
    }
  }

  // ---- Confirmation passes over a run ----

  // For heights and heads that fit a uint64 and a threshold that fits a uint8, no subtraction wraps and
  // no counter loses bits.
  lemma ConfirmedExactly(row: Deposit, head: nat, confirms: nat)
    requires 0 <= row.block && head < U64 && confirms < 256
    ensures Confirmed(row, head, confirms) ==
      if row.block > head || !row.status.Success? then row
      else if head - row.block >= confirms then row.(data := row.data.(confirms := confirms), status := WalletDone)
      else row.(data := row.data.(confirms := head - row.block))
  {
  }

  // A deposit before and after a pass: what was filed stays. A success row at or below the head now counts the
  // blocks above its own, and is promoted once there are enough. Any other row is left as it was.
  predicate Counted(before: Deposit, after: Deposit, head: int, confirms: nat) {
    var distance := head - before.block;
    && after.hash == before.hash && after.block == before.block && after.data.entry == before.data.entry
    && (if before.status.Success? && distance >= 0
        then after.data.confirms == BigInt.Min(distance, confirms)
            && after.status == if distance >= confirms then WalletDone else Success
        else after.data.confirms == before.data.confirms && after.status == before.status)
  }

  // The rows of a table before and after: none comes, goes or moves.
  predicate AllCounted(before: seq<Deposit>, after: seq<Deposit>, head: int, confirms: nat) {
    |after| == |before| && forall i | 0 <= i < |before| :: Counted(before[i], after[i], head, confirms)
  }

  predicate Numbered(rows: seq<Deposit>) {
    forall i | 0 <= i < |rows| :: rows[i].block >= 0
  }

  // One pass does to a table exactly that.
  lemma PassExactly(rows: seq<Deposit>, head: nat, confirms: nat)
    requires head < U64 && confirms < 256 && Numbered(rows)
    ensures AllCounted(rows, ConfirmAll(rows, head, confirms), head, confirms)
  {
    forall i | 0 <= i < |rows| ensures Counted(rows[i], ConfirmAll(rows, head, confirms)[i], head, confirms) {
      ConfirmedExactly(rows[i], head, confirms);
    }
  }

  // Passes at heads h1, h2, ... in turn.
  function ConfirmPasses(rows: seq<Deposit>, heads: seq<nat>, confirms: nat): seq<Deposit> {
    if heads == [] then rows
    else ConfirmAll(ConfirmPasses(rows, heads[..|heads| - 1], confirms), Last(heads), confirms)
  }

  // A run of passes with non-decreasing heads does to a table what one pass at the last head does. So a row is
  // promoted exactly when some head so far is `confirms` above its block, its counter is the distance to the
  // last head, capped, and repeating a pass changes nothing.
  lemma {:induction false} PassesCollapse(rows: seq<Deposit>, heads: seq<nat>, confirms: nat)
    requires heads != [] && confirms < 256
    requires Numbered(rows)
    requires forall i | 0 <= i < |heads| :: heads[i] < U64
    requires forall i, j | 0 <= i < j < |heads| :: heads[i] <= heads[j]
    ensures AllCounted(rows, ConfirmPasses(rows, heads, confirms), Last(heads), confirms)
    decreases |heads|
  {
    var init := heads[..|heads| - 1];
    if init == [] {
      assert ConfirmPasses(rows, init, confirms) == rows;
      PassExactly(rows, Last(heads), confirms);
    } else {
      PassesCollapse(rows, init, confirms);
      var before := ConfirmPasses(rows, init, confirms);
      assert forall i | 0 <= i < |rows| :: Counted(rows[i], before[i], Last(init), confirms);
      PassExactly(before, Last(heads), confirms);
      hide ConfirmPasses, ConfirmAll;
      assert Last(init) <= Last(heads);
    }
  }

  // One more pass at a head no lower: counters do not fall and stay at or below the threshold, only
  // success rows change, and only into wallet_done.
  lemma PassIsMonotone(row: Deposit, head: nat, next: nat, confirms: nat)
    requires 0 <= row.block && head <= next < U64 && confirms < 256 && row.data.confirms == 0 && row.status.Success?
    ensures var before, after := Confirmed(row, head, confirms), Confirmed(row, next, confirms);
      && before.data.confirms <= after.data.confirms <= confirms
      && (before.status != after.status ==> before.status.Success? && after.status.WalletDone?)
      && (after.status.WalletDone? <==> row.block <= next && next - row.block >= confirms)
  {
    ConfirmedExactly(row, head, confirms);
    ConfirmedExactly(row, next, confirms);
  }

  lemma {:induction false} ToNotifyPlaced<T(!new)>(rows: seq<Record<T>>) returns (at: seq<nat>)
    ensures Placed(ToNotify(rows), rows, at)
  {
    at := [];
    if rows != [] {
      hide Placed;
      var init, row := rows[..|rows| - 1], Last(rows);
      assert rows == init + [row];
      at := ToNotifyPlaced(init);
      PlacedOnwards(ToNotify(init), init, at, row);
      if row.status.WalletDone? {
        at := at + [|init|];
      } else {
        assert ToNotify(rows) == ToNotify(init);
      }
    }
  }

  lemma {:induction false} ToNotifyCounts<T(!new)>(rows: seq<Record<T>>)
    ensures forall r: Record<T> :: multiset(ToNotify(rows))[r] == if r.status.WalletDone? then multiset(rows)[r] else 0
  {
    if rows != [] {
      ToNotifyCounts(rows[..|rows| - 1]);
      assert rows == rows[..|rows| - 1] + [Last(rows)];
    }
  }

  // ToNotify selects exactly the confirmed rows that were not acknowledged yet.
  lemma {:induction false} ToNotifyExactly<T>(rows: seq<Record<T>>, r: Record<T>)
    ensures r in ToNotify(rows) <==> r in rows && r.status.WalletDone?
  {
    if rows != [] {
      ToNotifyExactly(rows[..|rows| - 1], r);
      assert rows == rows[..|rows| - 1] + [Last(rows)];
    }
  }
}
