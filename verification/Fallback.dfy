/** Undoing orphaned blocks: worker/fallback.go. */
module Fallback {
  import opened Prelude
  import opened Node
  import opened Database
  import opened Synchronizer
  import Balances
  import BatchBlock
  import Blocks
  import Classify
  import Records
  import Retry

  type Business = Classify.Business

  // ---- The walk back ----

  // Found: the stored rows passed, highest first, and the header where the walk stops. WalkPanicked: the
  // node answered an error code, and the code dereferences the nil header.
  datatype Walk = Found(rows: seq<Header>, entry: Header) | WalkFailed | WalkPanicked

  function PrependRow(row: Header, rest: Walk): Walk {
    if rest.Found? then Found([row] + rest.rows, rest.entry) else rest
  }

  // The constraints keep rows above height 0.
  ghost predicate StoredAboveZero(blocks: seq<Header>) {
    forall n :: n <= 0 ==> Blocks.RowAt(blocks, n) == None
  }

  // At height 0 or below no row is stored, so a walk that gets there fails.
  function WalkBack(view: View, blocks: seq<Header>, last: Header): Walk
    requires RightNumbers(view)
    decreases last.number
  {
    var n := last.number - 1;
    if n <= 0 then WalkFailed
    else if view.at(n).RpcFailed? then WalkFailed
    else if Blocks.RowAt(blocks, n) == None then WalkFailed
    else if view.at(n).Unreported? then WalkPanicked
    else
      var row, below := Blocks.RowAt(blocks, n).value, view.at(n).header;
      if last.parentHash == below.hash then Found([row], below)
      else PrependRow(row, WalkBack(view, blocks, below))
  }

  // ---- The rollback transaction ----

  // The flow rows of all listed businesses in a range of heights, pooled into one list.
  function Pooled(ledgers: Ledgers, list: seq<Business>, start: int, end: int): seq<Balances.Entry> {
    if list == [] then [] else
      (if list[0] in ledgers then Records.FlowEntries(Records.InRange(ledgers[list[0]].flows, start, end)) else []) +
      Pooled(ledgers, list[1..], start, end)
  }

  // One business: mark its deposits, withdrawals, internal transfers (whose loop stops one height earlier)
  // and flow rows, undo the first pooled entry.
  function RollBackOne(l: Ledger, pooled: seq<Balances.Entry>, start: int, end: int): Option<Ledger> {
    match Balances.UndoFirst(l.balances, pooled)
    case None => None
    case Some(balances) =>
      Some(Ledger(balances, Records.MarkRange(l.deposits, start, end), Records.MarkRange(l.flows, start, end),
                  Records.MarkRange(l.withdraws, start, end), Records.MarkRange(l.internals, start, end - 1)))
  }

  function RollBackList(ledgers: Ledgers, list: seq<Business>, pooled: seq<Balances.Entry>, start: int,
      end: int): Option<Ledgers> {
    if list == [] then Some(ledgers)
    else if list[0] !in ledgers then None
    else
      match RollBackOne(ledgers[list[0]], pooled, start, end)
      case None => None
      case Some(l) => RollBackList(ledgers[list[0] := l], list[1..], pooled, start, end)
  }

  // What the transaction changes: block table, backup table, ledgers.
  datatype Effect = Effect(blocks: seq<Header>, reorg: seq<Header>, ledgers: Ledgers)

  function RollBack(s: State, rows: seq<Header>, list: seq<Business>, start: int, end: int): Retry.Attempt<Effect> {
    var reorg := Blocks.Insert(s.reorg, rows);
    var ledgers := if end > start then RollBackList(s.ledgers, list, Pooled(s.ledgers, list, start, end), start, end)
                   else Some(s.ledgers);
    if reorg.Some? && ledgers.Some? then Retry.Done(Effect(Blocks.WithoutAll(s.blocks, rows), reorg.value,
        ledgers.value))
    else Retry.Erred
  }

  // What the outside world answers during one pass. latestUp: whether the last query for the highest
  // block succeeds.
  datatype PassInput = PassInput(view: View, businesses: Option<seq<Business>>, queriesUp: bool,
                                 cancelled: nat -> bool, up: nat -> bool, latestUp: bool)

  function OnFallback(s: State, header: Header, input: PassInput): State
    requires RightNumbers(input.view)
  {
    match WalkBack(input.view, s.blocks, header)
    case Found(rows, entry) =>
      if input.businesses.None? || !input.queriesUp then s else
        var r := Retry.RunTransaction(input.cancelled, input.up,
            RollBack(s, rows, input.businesses.value, entry.number, header.number));
        if r.Succeeded? then s.(blocks := r.value.blocks, reorg := r.value.reorg, ledgers := r.value.ledgers) else s
    case _ => s
  }

  // One round of the fallback task: handle the flagged header, whatever comes of it put the cursor on the
  // highest stored block, lower the flag. A panic ends the process before the last two steps.
  function Passed(s: State, input: PassInput): State
    requires RightNumbers(input.view)
  {
    if s.flag.None? || WalkBack(input.view, s.blocks, s.flag.value).WalkPanicked? then s else
      var after := OnFallback(s, s.flag.value, input);
      after.(cursor := if input.latestUp then Blocks.Latest(after.blocks) else None, flag := None)
  }

  class Fallback {
    const synchronizer: Synchronizer
    const database: Database
    const confirmations: nat

    constructor (synchronizer: Synchronizer, confirmations: nat)
      ensures this.synchronizer == synchronizer && database == synchronizer.database
          && this.confirmations == confirmations
    {
      this.synchronizer := synchronizer;
      this.database := synchronizer.database;
      this.confirmations := confirmations;
    }

    ghost predicate Valid()
      reads this, synchronizer
    {
      database == synchronizer.database && synchronizer.Valid()
    }

    method FindFallbackEntry(header: Header, view: View) returns (walk: Walk)
      requires RightNumbers(view) && Blocks.Consistent(database.blocks.rows)
      ensures walk == WalkBack(view, database.blocks.rows, header)
    {
      ConsistentAboveZero(database.blocks.rows);
      hide Blocks.Consistent;
      var reorgBlockHeaders: seq<Header> := [];
      var lastBlockHeader := header;
      while true
        invariant WalkBack(view, database.blocks.rows, header) ==
          var rest := WalkBack(view, database.blocks.rows, lastBlockHeader);
          if rest.Found? then Found(reorgBlockHeaders + rest.rows, rest.entry) else rest
        decreases lastBlockHeader.number
      {
        var lastBlockNumber := lastBlockHeader.number - 1;
        var answer := view.at(lastBlockNumber);
        if answer.RpcFailed? {
          return WalkFailed;
        }
        var row := Blocks.RowAt(database.blocks.rows, lastBlockNumber);
        if row.None? {
          return WalkFailed;
        }
        ghost var before := reorgBlockHeaders;
        reorgBlockHeaders := reorgBlockHeaders + [row.value];
        if answer.Unreported? {
          return WalkPanicked;
        }
        if lastBlockHeader.parentHash == answer.header.hash {
          return Found(reorgBlockHeaders, answer.header);
        }
        lastBlockHeader := answer.header;
        assert forall rest: seq<Header> :: before + ([row.value] + rest) == reorgBlockHeaders + rest;
      }
    }

    // The live flow rows of all listed businesses, pooled.
    method PoolTransactions(list: seq<Business>, start: int, end: int) returns (pooled: seq<Balances.Entry>)
      ensures pooled == Pooled(database.ledgers, list, start, end)
    {
      pooled := [];
      for i := 0 to |list|
        invariant pooled + Pooled(database.ledgers, list[i..], start, end) == Pooled(database.ledgers, list, start, end)
      {
        assert list[i..][0] == list[i] && list[i..][1..] == list[i + 1..];
        if list[i] in database.ledgers {
          var transactions := new Records.TransactionsTable(database.ledgers[list[i]].flows);
          var found := transactions.QueryFallBackTransactions(start, end);
          ghost var before := pooled;
          for k := 0 to |found|
            invariant pooled == before + Records.FlowEntries(found)[..k]
          {
            pooled := pooled + [found[k].data];
          }
        }
      }
    }

    // The steps of the transaction for one business.
    method RollBackBusiness(l: Ledger, pooled: seq<Balances.Entry>, start: int, end: int) returns (r: Option<Ledger>)
      ensures r == RollBackOne(l, pooled, start, end)
    {
      var deposits := new Records.DepositsTable(l.deposits);
      deposits.HandleFallBackDeposits(start, end);
      var withdraws := new Records.WithdrawsTable(l.withdraws);
      withdraws.HandleFallBackWithdraw(start, end);
      var internals := new Records.InternalsTable(l.internals);
      internals.HandleFallBackInternals(start, end);
      var transactions := new Records.TransactionsTable(l.flows);
      transactions.HandleFallBackTransactions(start, end);
      var balances := new Balances.BalancesTable(l.balances);
      var ok := balances.UpdateFallBackBalance(pooled);
      r := if ok then Some(Ledger(balances.rows, deposits.rows, transactions.rows, withdraws.rows, internals.rows))
           else None;
    }

    // The transaction: its effect on the tables, or nothing.
    method RollBackAll(rows: seq<Header>, list: seq<Business>, pooled: seq<Balances.Entry>, start: int, end: int)
      returns (attempt: Retry.Attempt<Effect>)
      requires Valid() && pooled == Pooled(database.ledgers, list, start, end)
      ensures attempt == RollBack(synchronizer.Snapshot(), rows, list, start, end)
    {
      hide RollBackOne, Pooled;
      var reorg := new Blocks.BlocksTable.Of(database.reorgBlocks);
      var stored := reorg.StoreBlocks(rows, true);
      if !stored {
        return Retry.Erred;
      }
      var blocks := new Blocks.BlocksTable.Of(database.blocks.rows);
      blocks.DeleteBlocksByNumber(rows);
      var ledgers := database.ledgers;
      if end > start {
        for i := 0 to |list|
          invariant reorg.rows == database.reorgBlocks + rows
          invariant blocks.rows == Blocks.WithoutAll(database.blocks.rows, rows)
          invariant RollBackList(ledgers, list[i..], pooled, start, end) ==
            RollBackList(database.ledgers, list, pooled, start, end)
        {
          assert list[i..][0] == list[i] && list[i..][1..] == list[i + 1..];
          if list[i] !in ledgers {
            return Retry.Erred;
          }
          var l := RollBackBusiness(ledgers[list[i]], pooled, start, end);
          if l.None? {
            return Retry.Erred;
          }
          ledgers := ledgers[list[i] := l.value];
        }
      }
      return Retry.Done(Effect(blocks.rows, reorg.rows, ledgers));
    }

    method HandleFallback(header: Header, input: PassInput) returns (walk: Walk)
      requires Valid() && RightNumbers(input.view) && Blocks.Consistent(database.blocks.rows)
      modifies database, database.blocks
      ensures walk == WalkBack(input.view, old(database.blocks.rows), header)
      ensures synchronizer.Snapshot() == OnFallback(old(synchronizer.Snapshot()), header, input)
    {
      hide Retry.Outcome, RollBack;
      walk := FindFallbackEntry(header, input.view);
      if !walk.Found? || input.businesses.None? || !input.queriesUp {
        return;
      }
      var list, start, end := input.businesses.value, walk.entry.number, header.number;
      var pooled := PoolTransactions(list, start, end);
      var attempt := RollBackAll(walk.rows, list, pooled, start, end);
      var result := Retry.Do(Retry.ATTEMPTS, input.cancelled, Retry.Transaction(input.up, attempt));
      if result.Succeeded? {
        database.blocks.rows := result.value.blocks;
        database.reorgBlocks := result.value.reorg;
        database.ledgers := result.value.ledgers;
      }
    }

    // The body of the worker loop.
    method Pass(input: PassInput) returns (panicked: bool)
      requires Valid() && RightNumbers(input.view) && Blocks.Consistent(database.blocks.rows)
      requires confirmations == synchronizer.blockBatch.blockConfirmationDepth
      modifies synchronizer, database, database.blocks
      ensures Valid() && synchronizer.Snapshot() == Passed(old(synchronizer.Snapshot()), input)
      ensures synchronizer.Settings(0) == old(synchronizer.Settings(0))
    {
      panicked := false;
      if synchronizer.isFallback {
        var walk := HandleFallback(synchronizer.fallbackBlockHeader.value, input);
        if walk.WalkPanicked? {
          return true;
        }
        var latest := if input.latestUp then Blocks.Latest(database.blocks.rows) else None;
        synchronizer.blockBatch := new BatchBlock.BatchBlock(latest, confirmations);
        synchronizer.isFallback := false;
        synchronizer.fallbackBlockHeader := None;
      }
    }
  }

  // A pass changes the block table only by deleting what the walk found, and then lowers the flag.
  lemma PassTables(s: State, input: PassInput)
    requires RightNumbers(input.view)
    ensures var after := Passed(s, input);
      && after.buffer == s.buffer && after.emitted == s.emitted
      && (after == s || (after.flag.None? && after.cursor == if input.latestUp then Blocks.Latest(after.blocks)
         else None))
      && (after.blocks == s.blocks ||
           (s.flag.Some? && var walk := WalkBack(input.view, s.blocks, s.flag.value);
             walk.Found? && after.blocks == Blocks.WithoutAll(s.blocks, walk.rows)))
  {
    if s.flag.Some? {
      var walk := WalkBack(input.view, s.blocks, s.flag.value);
      if walk.Found? && input.businesses.Some? {
        hide WalkBack;
        Retry.TransactionRunsOnce(input.cancelled, input.up,
          RollBack(s, walk.rows, input.businesses.value, walk.entry.number, s.flag.value.number));
      }
    }
  }

  // A pass whose walk succeeds and that reaches the database does what the rollback transaction does. The cursor
  // goes to the highest stored block, or is lost when that query fails.
  lemma PassCommits(s: State, input: PassInput, rows: seq<Header>, entry: Header, list: seq<Business>)
    requires RightNumbers(input.view) && s.flag.Some?
        && WalkBack(input.view, s.blocks, s.flag.value) == Found(rows, entry)
    requires input.businesses == Some(list) && input.queriesUp && Retry.Reachable(input.cancelled, input.up)
    ensures var effect := RollBack(s, rows, list, entry.number, s.flag.value.number);
      Passed(s, input) ==
        if effect.Done? then Resumed(s.(blocks := effect.value.blocks, reorg := effect.value.reorg,
                                        ledgers := effect.value.ledgers), input)
        else Resumed(s, input)
  {
    Retry.TransactionRunsOnce(input.cancelled, input.up, RollBack(s, rows, list, entry.number, s.flag.value.number));
    hide WalkBack, RollBack, Blocks.Latest, Retry.RunTransaction, Retry.Reachable, RightNumbers;
  }

  function Resumed(s: State, input: PassInput): State {
    s.(cursor := if input.latestUp then Blocks.Latest(s.blocks) else None, flag := None)
  }

  // A pass whose walk fails, that cannot read the businesses or their flow rows, or that does not reach the
  // database changes no table, and resumes all the same; one whose walk ends the process changes nothing.
  lemma PassFails(s: State, input: PassInput)
    requires RightNumbers(input.view) && s.flag.Some?
    requires !WalkBack(input.view, s.blocks, s.flag.value).Found? || input.businesses.None? || !input.queriesUp
        || !Retry.Reachable(input.cancelled, input.up)
    ensures Passed(s, input) ==
      if WalkBack(input.view, s.blocks, s.flag.value).WalkPanicked? then s else Resumed(s, input)
  {
    var walk := WalkBack(input.view, s.blocks, s.flag.value);
    if walk.Found? && input.businesses.Some? {
      Retry.TransactionRunsOnce(input.cancelled, input.up,
        RollBack(s, walk.rows, input.businesses.value, walk.entry.number, s.flag.value.number));
    }
    hide WalkBack, RollBack, Blocks.Latest, Retry.RunTransaction, Retry.Reachable, RightNumbers;
  }

  // ---- The pooled entries ----

  // The businesses' rows follow each other in the order of the list.
  lemma {:induction false} PooledConcat(ledgers: Ledgers, list: seq<Business>, more: seq<Business>, start: int,
      end: int)
    ensures Pooled(ledgers, list + more, start, end) ==
        Pooled(ledgers, list, start, end) + Pooled(ledgers, more, start, end)
  {
    if list == [] {
      assert list + more == more;
    } else {
      assert (list + more)[1..] == list[1..] + more;
      PooledConcat(ledgers, list[1..], more, start, end);
    }
  }

  predicate LiveWithin(flow: Records.Flow, start: int, end: int) {
    start <= flow.block <= end && flow.status.Success?
  }

  ghost predicate NoneWithin(ledgers: Ledgers, b: Business, start: int, end: int) {
    b in ledgers ==> forall f | f in ledgers[b].flows :: !LiveWithin(f, start, end)
  }

  // The entry that a rollback undoes is that of the first live row in the range, in the order of its table, of
  // the first business in the list that has one.
  lemma {:induction false} PooledFirst(ledgers: Ledgers, list: seq<Business>, start: int, end: int, k: nat, i: nat)
    requires k < |list| && forall j | 0 <= j < k :: NoneWithin(ledgers, list[j], start, end)
    requires list[k] in ledgers && i < |ledgers[list[k]].flows| && LiveWithin(ledgers[list[k]].flows[i], start, end)
    requires forall j | 0 <= j < i :: !LiveWithin(ledgers[list[k]].flows[j], start, end)
    ensures var pooled := Pooled(ledgers, list, start, end);
      pooled != [] && pooled[0] == ledgers[list[k]].flows[i].data
  {
    if k > 0 {
      NonePooled(ledgers, list[0], start, end);
      PooledFirst(ledgers, list[1..], start, end, k - 1, i);
    } else {
      var flows := ledgers[list[0]].flows;
      var at := Records.InRangePlaced(flows, start, end);
      hide Records.InRange;
      assert i in at;
      var m :| 0 <= m < |at| && at[m] == i;
      assert at[0] in at;
    }
  }

  lemma NonePooled(ledgers: Ledgers, b: Business, start: int, end: int)
    requires NoneWithin(ledgers, b, start, end)
    ensures b in ledgers ==> Records.InRange(ledgers[b].flows, start, end) == []
  {
    if b in ledgers {
      var flows := ledgers[b].flows;
      Records.InRangeExactly(flows, start, end);
      var found := Records.InRange(flows, start, end);
      if found != [] {
        assert found[0] in found && LiveWithin(found[0], start, end);
      }
    }
  }

  // Nothing is pooled if and only if no listed business has a live row in the range.
  lemma {:induction false} PooledNone(ledgers: Ledgers, list: seq<Business>, start: int, end: int)
    ensures Pooled(ledgers, list, start, end) == [] <==> forall b | b in list :: NoneWithin(ledgers, b, start, end)
  {
    if list != [] {
      PooledNone(ledgers, list[1..], start, end);
      assert forall b | b in list :: b == list[0] || b in list[1..];
      if NoneWithin(ledgers, list[0], start, end) {
        NonePooled(ledgers, list[0], start, end);
      } else {
        Records.InRangeExactly(ledgers[list[0]].flows, start, end);
        var f :| f in ledgers[list[0]].flows && LiveWithin(f, start, end);
        assert f in Records.InRange(ledgers[list[0]].flows, start, end);
      }
    }
  }

  // What the rollback of one business leaves in its tables: deposits, withdrawals and flow rows are marked over
  // the range, internal transfers over all of it but the last height, and one entry is undone.
  lemma RollBackOneMarks(l: Ledger, pooled: seq<Balances.Entry>, start: int, end: int)
    requires RollBackOne(l, pooled, start, end).Some?
    ensures var after := RollBackOne(l, pooled, start, end).value;
      && Records.AllMarked(l.deposits, after.deposits, start, end)
      && Records.AllMarked(l.withdraws, after.withdraws, start, end)
      && Records.AllMarked(l.internals, after.internals, start, end - 1)
      && Records.AllMarked(l.flows, after.flows, start, end)
      && Some(after.balances) == Balances.UndoFirst(l.balances, pooled)
  {
    Records.MarkRangeExactly(l.deposits, start, end);
    Records.MarkRangeExactly(l.withdraws, start, end);
    Records.MarkRangeExactly(l.internals, start, end - 1);
    Records.MarkRangeExactly(l.flows, start, end);
    hide Records.AllMarked, Records.MarkRange, Balances.UndoFirst;
  }

  // ---- The fork walk ----

  // The header the walk holds at height n: the flagged one at the top, the node's answers below.
  function HeldAt(view: View, header: Header, n: int): Header
    requires n < header.number ==> view.at(n).Got?
  {
    if n < header.number then view.at(n).header else header
  }

  // The walk passed height n: the node answered, the row is stored and taken, and the header above links
  // to the answer exactly when the walk ends here.
  ghost predicate PassedAt(view: View, blocks: seq<Header>, header: Header, rows: seq<Header>, entry: Header, n: int)
    requires entry.number <= n < header.number && entry.number == header.number - |rows|
  {
    && view.at(n).Got?
    && Blocks.RowAt(blocks, n) == Some(rows[header.number - 1 - n])
    && (n + 1 < header.number ==> view.at(n + 1).Got?)
    && (HeldAt(view, header, n + 1).parentHash == view.at(n).header.hash <==> n == entry.number)
  }

  // A walk that succeeds passed consecutive heights from just below the flagged header down to the entry,
  // and the entry is the node's header there.
  ghost predicate WalkedTo(view: View, blocks: seq<Header>, header: Header, rows: seq<Header>, entry: Header) {
    && |rows| > 0 && entry.number == header.number - |rows| && view.at(entry.number) == Got(entry)
    && forall n | entry.number <= n < header.number :: PassedAt(view, blocks, header, rows, entry, n)
  }

  lemma WalkedOneMore(view: View, blocks: seq<Header>, header: Header, below: Header, row: Header, rows: seq<Header>,
      entry: Header)
    requires WalkedTo(view, blocks, below, rows, entry)
    requires below.number == header.number - 1 && view.at(below.number) == Got(below)
    requires header.parentHash != below.hash && Blocks.RowAt(blocks, below.number) == Some(row)
    ensures WalkedTo(view, blocks, header, [row] + rows, entry)
  {
    forall n | entry.number <= n < header.number ensures PassedAt(view, blocks, header, [row] + rows, entry, n) {
      if n < below.number {
        assert PassedAt(view, blocks, below, rows, entry, n);
      }
    }
  }

  lemma {:induction false} WalkRange(view: View, blocks: seq<Header>, header: Header)
    requires RightNumbers(view)
    ensures WalkBack(view, blocks, header).Found? ==>
      WalkedTo(view, blocks, header, WalkBack(view, blocks, header).rows, WalkBack(view, blocks, header).entry)
    decreases header.number
  {
    hide WalkedTo;
    if WalkBack(view, blocks, header).Found? {
      var below := view.at(header.number - 1).header;
      if header.parentHash == below.hash {
        WalkedOnce(view, blocks, header, below, Blocks.RowAt(blocks, below.number).value);
      } else {
        WalkRange(view, blocks, below);
        var rest := WalkBack(view, blocks, below);
        WalkedOneMore(view, blocks, header, below, Blocks.RowAt(blocks, below.number).value, rest.rows, rest.entry);
      }
    }
  }

  lemma WalkedOnce(view: View, blocks: seq<Header>, header: Header, below: Header, row: Header)
    requires below.number == header.number - 1 && view.at(below.number) == Got(below)
    requires header.parentHash == below.hash && Blocks.RowAt(blocks, below.number) == Some(row)
    ensures WalkedTo(view, blocks, header, [row], below)
  {
  }

  lemma WalkedTop(view: View, blocks: seq<Header>, header: Header, rows: seq<Header>, entry: Header)
    requires WalkedTo(view, blocks, header, rows, entry)
    ensures var n := header.number - 1;
      && view.at(n).Got? && Blocks.RowAt(blocks, n) == Some(rows[0])
      && (header.parentHash == view.at(n).header.hash <==> |rows| == 1)
      && (|rows| == 1 ==> view.at(n).header == entry)
  {
    assert PassedAt(view, blocks, header, rows, entry, header.number - 1);
  }

  lemma WalkedRest(view: View, blocks: seq<Header>, header: Header, rows: seq<Header>, entry: Header, below: Header)
    requires WalkedTo(view, blocks, header, rows, entry) && |rows| > 1
    requires below.number == header.number - 1 && view.at(below.number) == Got(below)
    ensures WalkedTo(view, blocks, below, rows[1..], entry)
  {
    forall n | entry.number <= n < below.number ensures PassedAt(view, blocks, below, rows[1..], entry, n) {
      assert PassedAt(view, blocks, header, rows, entry, n);
    }
  }

  // And every stretch of heights that can be passed that way is walked to its end, however long.
  lemma {:induction false} WalkReaches(view: View, blocks: seq<Header>, header: Header, rows: seq<Header>,
      entry: Header)
    requires RightNumbers(view) && WalkedTo(view, blocks, header, rows, entry) && entry.number > 0
    ensures WalkBack(view, blocks, header) == Found(rows, entry)
    decreases |rows|
  {
    WalkedTop(view, blocks, header, rows, entry);
    var below := view.at(header.number - 1).header;
    assert |rows| > 0 && entry.number == header.number - |rows|;
    if |rows| == 1 {
      assert rows == [rows[0]];
    } else {
      WalkedRest(view, blocks, header, rows, entry, below);
      hide WalkedTo;
      WalkReaches(view, blocks, below, rows[1..], entry);
      assert [rows[0]] + rows[1..] == rows;
    }
  }

  // A walk succeeds with these rows and this entry if and only if it can pass those heights.
  lemma WalkExactly(view: View, blocks: seq<Header>, header: Header, rows: seq<Header>, entry: Header)
    requires RightNumbers(view) && StoredAboveZero(blocks)
    ensures WalkBack(view, blocks, header) == Found(rows, entry) <==>
      WalkedTo(view, blocks, header, rows, entry) && entry.number > 0
  {
    if WalkBack(view, blocks, header) == Found(rows, entry) {
      WalkRange(view, blocks, header);
      assert PassedAt(view, blocks, header, rows, entry, entry.number);
    } else if WalkedTo(view, blocks, header, rows, entry) && entry.number > 0 {
      WalkReaches(view, blocks, header, rows, entry);
    }
  }

  // The walk goes on below height n: the node answered, the row is stored, and the header above does not link
  // to the answer.
  ghost predicate MissedAt(view: View, blocks: seq<Header>, header: Header, n: int) {
    && view.at(n).Got? && Blocks.RowAt(blocks, n).Some?
    && (n + 1 < header.number ==> view.at(n + 1).Got?)
    && HeldAt(view, header, n + 1).parentHash != view.at(n).header.hash
  }

  // The heights from just below the flagged header down to just above n were all missed.
  ghost predicate MissedDownTo(view: View, blocks: seq<Header>, header: Header, n: int) {
    forall m | n < m < header.number :: MissedAt(view, blocks, header, m)
  }

  // Where the error code dereferenced lies.
  ghost predicate TripsAt(view: View, blocks: seq<Header>, header: Header, n: int) {
    0 < n < header.number && view.at(n).Unreported? && Blocks.RowAt(blocks, n).Some?
    && MissedDownTo(view, blocks, header, n)
  }

  lemma MissedOneMore(view: View, blocks: seq<Header>, header: Header, below: Header, n: int)
    requires below.number == header.number - 1 && view.at(below.number) == Got(below) && n < below.number
    requires Blocks.RowAt(blocks, below.number).Some? && header.parentHash != below.hash
    ensures MissedDownTo(view, blocks, header, n) <==> MissedDownTo(view, blocks, below, n)
  {
    forall m | n < m < below.number
      ensures MissedAt(view, blocks, header, m) <==> MissedAt(view, blocks, below, m)
    {
    }
    assert MissedAt(view, blocks, header, below.number);
  }

  // The walk ends the process if and only if, below a stretch of missed heights, a stored height is answered
  // with an error code.
  lemma {:induction false} WalkPanicsExactly(view: View, blocks: seq<Header>, header: Header)
    requires RightNumbers(view)
    ensures WalkBack(view, blocks, header).WalkPanicked? <==> exists n :: TripsAt(view, blocks, header, n)
    decreases header.number
  {
    var n := header.number - 1;
    var answer := view.at(n);
    if n > 0 && answer.Unreported? && Blocks.RowAt(blocks, n).Some? {
      assert TripsAt(view, blocks, header, n);
    }
    forall m ensures TripsAt(view, blocks, header, m) ==> m == n || MissedAt(view, blocks, header, n) {
    }
    if n > 0 && answer.Got? && Blocks.RowAt(blocks, n).Some? && header.parentHash != answer.header.hash {
      WalkPanicsExactly(view, blocks, answer.header);
      forall m ensures TripsAt(view, blocks, header, m) <==> TripsAt(view, blocks, answer.header, m) {
        if m < n {
          MissedOneMore(view, blocks, header, answer.header, m);
        }
      }
    }
  }

  // When the flagged header and all answers come from one chain, the walk succeeds after a single step if
  // the row below the flagged header is stored, and fails otherwise.
  lemma WalkOnChain(view: View, chain: int -> Header, head: int, blocks: seq<Header>, n: int)
    requires RightNumbers(view) && IsChain(chain) && Serves(view, chain, head)
    requires 1 < n <= head + 1
    ensures WalkBack(view, blocks, chain(n)) ==
      if Blocks.RowAt(blocks, n - 1).Some? then Found([Blocks.RowAt(blocks, n - 1).value], chain(n - 1)) else WalkFailed
  {
    assert Extends(chain, n - 1);
  }

  // A valid block table has no row at height 0 or below.
  lemma {:induction false} ConsistentAboveZero(blocks: seq<Header>)
    requires Blocks.Consistent(blocks)
    ensures StoredAboveZero(blocks)
  {
    if blocks != [] {
      ConsistentAboveZero(blocks[..|blocks| - 1]);
      assert Blocks.ValidRow(Last(blocks));
    }
  }
}
