/** Reorganisation recovery: repeated detection and rollback against a node that has settled on one chain. */
module Recovery {
  import opened Prelude
  import opened Node
  import opened Records
  import opened Database
  import opened Synchronizer
  import opened Fallback
  import Balances
  import BatchBlock
  import BigInt
  import Blocks
  import Finder
  import Retry
  import Safety

  // One tick, then one pass of the fallback task.
  datatype Round = Round(tick: TickInput, pass: PassInput)

  function Taken(cfg: Config, s: State, r: Round): State
    requires cfg.step < U64 && RightNumbers(r.pass.view)
  {
    Passed(Ticked(cfg, s, r.tick), r.pass)
  }

  ghost predicate RightRounds(rounds: seq<Round>) {
    forall r | r in rounds :: RightNumbers(r.pass.view)
  }

  function Rounds(cfg: Config, s: State, rounds: seq<Round>): State
    requires cfg.step < U64 && RightRounds(rounds)
    decreases |rounds|
  {
    if rounds == [] then s else Rounds(cfg, Taken(cfg, s, rounds[0]), rounds[1..])
  }

  // A safe state between batches: nothing waits, no flag, the cursor on the highest stored block.
  ghost predicate Resting(s: State) {
    Safety.Safe(s) && s.buffer == [] && s.flag.None? && s.blocks != [] && s.cursor == Some(Last(s.blocks))
  }

  function HeadOf(view: View): int {
    if view.latest.Got? then view.latest.header.number else 0
  }

  // The round sees one chain, grown far enough to show a confirmed block above `top`, and the database
  // can be reached.
  ghost predicate Settled(cfg: Config, chain: int -> Header, top: int, list: seq<Business>, r: Round) {
    && RightNumbers(r.tick.view) && RightNumbers(r.pass.view)
    && Serves(r.tick.view, chain, HeadOf(r.tick.view)) && top + 1 + cfg.depth <= HeadOf(r.tick.view) < I63
    && Serves(r.pass.view, chain, HeadOf(r.pass.view)) && top <= HeadOf(r.pass.view)
    && r.pass.businesses == Some(list) && r.pass.queriesUp && r.pass.latestUp
    && Retry.Reachable(r.pass.cancelled, r.pass.up)
  }

  // Equal hashes belong to equal headers.
  ghost predicate HashesIdentify(chain: int -> Header, blocks: seq<Header>) {
    forall i | 0 <= i < |blocks| ::
      blocks[i].hash == chain(blocks[i].number).hash ==> blocks[i] == chain(blocks[i].number)
  }

  // ---- One round ----

  // The tick finds that the next block of the chain does not link to an orphaned tip.
  lemma TickDetects(cfg: Config, chain: int -> Header, list: seq<Business>, s: State, r: Round)
    requires 1 <= cfg.step < U64 && Resting(s) && IsChain(chain) && HashesIdentify(chain, s.blocks)
    requires var t := Last(s.blocks).number; Last(s.blocks) != chain(t) && Settled(cfg, chain, t, list, r)
    ensures Ticked(cfg, s, r.tick) == s.(flag := Some(chain(Last(s.blocks).number + 1)))
  {
    var tip := Last(s.blocks);
    var t := tip.number;
    var view, head := r.tick.view, HeadOf(r.tick.view);
    assert Blocks.ValidRow(tip);
    assert Extends(chain, t);
    assert view.at(t + 1) == Got(chain(t + 1));
    assert chain(t + 1).parentHash != tip.hash;
    BigInt.WindowFits(t + 1, head - cfg.depth, cfg.step);
    hide BigInt.Clamp, BigInt.Count;
    assert BatchBlock.Next(cfg.depth, s.cursor, view, cfg.step) == BatchBlock.Reorg(chain(t + 1));
  }

  // The state after a rollback of the tip.
  function TipRolledBack(s: State, effect: Effect): State {
    s.(blocks := effect.blocks, reorg := effect.reorg, ledgers := effect.ledgers,
        cursor := Blocks.Latest(effect.blocks), flag := None)
  }

  lemma RollBackIgnoresFlag(s: State, flag: Option<Header>, rows: seq<Header>, list: seq<Business>, start: int,
      end: int)
    ensures RollBack(s.(flag := flag), rows, list, start, end) == RollBack(s, rows, list, start, end)
  {
  }

  // The pass walks one step and rolls back exactly the tip, or nothing when the transaction cannot hold.
  lemma PassRollsBackTip(chain: int -> Header, list: seq<Business>, s: State, input: PassInput)
    requires Resting(s) && IsChain(chain) && RightNumbers(input.view)
    requires var t := Last(s.blocks).number; Serves(input.view, chain, HeadOf(input.view)) && t <= HeadOf(input.view)
    requires input.businesses == Some(list) && input.queriesUp && input.latestUp
        && Retry.Reachable(input.cancelled, input.up)
    ensures var t := Last(s.blocks).number;
      var effect := RollBack(s, [Last(s.blocks)], list, t, t + 1);
      Passed(s.(flag := Some(chain(t + 1))), input) == if effect.Done? then TipRolledBack(s, effect.value) else s
  {
    var t := Last(s.blocks).number;
    var flagged := s.(flag := Some(chain(t + 1)));
    assert Blocks.ValidRow(Last(s.blocks));
    Blocks.RowAtLinked(s.blocks, t);
    LinkedNumbers(s.blocks, |s.blocks| - 1);
    Blocks.LatestOfLinked(s.blocks);
    WalkOnChain(input.view, chain, HeadOf(input.view), s.blocks, t + 1);
    RollBackIgnoresFlag(s, Some(chain(t + 1)), [Last(s.blocks)], list, t, t + 1);
    PassCommits(flagged, input, [Last(s.blocks)], chain(t), list);
  }

  lemma RoundRollsBackTip(cfg: Config, chain: int -> Header, list: seq<Business>, s: State, r: Round)
    requires 1 <= cfg.step < U64 && Resting(s) && IsChain(chain) && HashesIdentify(chain, s.blocks)
    requires var t := Last(s.blocks).number; Last(s.blocks) != chain(t) && Settled(cfg, chain, t, list, r)
    ensures var t := Last(s.blocks).number;
      var effect := RollBack(s, [Last(s.blocks)], list, t, t + 1);
      Taken(cfg, s, r) == if effect.Done? then TipRolledBack(s, effect.value) else s
  {
    TickDetects(cfg, chain, list, s, r);
    PassRollsBackTip(chain, list, s, r.pass);
  }

  // A tip that cannot be rolled back stops the recovery for good: every later round ends where it began.
  lemma {:induction false} StuckForGood(cfg: Config, chain: int -> Header, list: seq<Business>,
      s: State, rounds: seq<Round>)
    requires 1 <= cfg.step < U64 && Resting(s) && IsChain(chain) && HashesIdentify(chain, s.blocks)
    requires Last(s.blocks) != chain(Last(s.blocks).number)
    requires RightRounds(rounds) && forall r | r in rounds :: Settled(cfg, chain, Last(s.blocks).number, list, r)
    requires RollBack(s, [Last(s.blocks)], list, Last(s.blocks).number, Last(s.blocks).number + 1) == Retry.Erred
    ensures Rounds(cfg, s, rounds) == s
    decreases |rounds|
  {
    hide RollBack, Resting, HashesIdentify, Taken;
    if rounds != [] {
      RoundRollsBackTip(cfg, chain, list, s, rounds[0]);
      StuckForGood(cfg, chain, list, s, rounds[1..]);
    }
  }

  // ---- The ledger in one round ----

  // Every row above height a marked as rolled back, the rows up to a as they were.
  function RolledBackTo<T>(rows: seq<Record<T>>, a: int): seq<Record<T>> {
    seq(|rows|, i requires 0 <= i < |rows| => if rows[i].block > a then rows[i].(status := Status.Fallback)
        else rows[i])
  }

  lemma MarkTipRollsBack<T>(rows: seq<Record<T>>, t: int)
    requires SettledAbove(rows, t) && AtMostOneAt(rows, t)
    ensures MarkRange(rows, t, t + 1) == RolledBackTo(rows, t - 1)
  {
    MarkTip(rows, t);
    FirstAtFinds(rows, t);
    var i, after := FirstAt(rows, t), MarkRange(rows, t, t + 1);
    hide MarkRange;
    forall k | 0 <= k < |rows| ensures after[k] == RolledBackTo(rows, t - 1)[k] {
      assert k != i ==> rows[k].block != t;
    }
  }

  // At most one row at each height from a + 1 to t, none of them settled yet; everything above t settled.
  ghost predicate OnePerHeight<T>(rows: seq<Record<T>>, a: int, t: int) {
    && SettledAbove(rows, t)
    && forall n | a < n <= t :: AtMostOneAt(rows, n)
  }

  lemma OnePerHeightBelow<T>(rows: seq<Record<T>>, a: int, t: int)
    requires OnePerHeight(rows, a, t) && a < t
    ensures OnePerHeight(RolledBackTo(rows, t - 1), a, t - 1)
  {
    var after := RolledBackTo(rows, t - 1);
    forall n | a < n <= t - 1 ensures AtMostOneAt(after, n) {
      assert AtMostOneAt(rows, n);
      forall i, j | 0 <= i < j < |after| ensures !(after[i].block == n && after[j].block == n) {
        assert after[i].block == rows[i].block && after[j].block == rows[j].block;
      }
    }
  }

  // Withdrawals and internal transfers are filed under block number 1 and keep it.
  predicate AtCreation<T>(rows: seq<Record<T>>) {
    forall i | 0 <= i < |rows| :: rows[i].block == 1
  }

  lemma CreationUnmarked<T>(rows: seq<Record<T>>, start: int, end: int)
    requires AtCreation(rows) && start > 1
    ensures MarkRange(rows, start, end) == rows
  {
  }

  // A ledger ready to be rolled back from tip t to height a: its balances are the replay of its live flow
  // rows, which stand in height order, at most one at each height to be rolled back.
  ghost predicate Ready(opening: seq<Balances.Row>, l: Ledger, a: int, t: int) {
    && Finder.Replays(opening, l)
    && OnePerHeight(l.flows, a, t) && OnePerHeight(l.deposits, a, t)
    && Ascending(l.flows) && AtCreation(l.withdraws) && AtCreation(l.internals) && 0 < a
    && forall i | 0 <= i < |l.flows| && a < l.flows[i].block <= t :: l.flows[i].status.Success?
  }

  // Taking the last live row out of the replay and undoing it in the balances go together.
  lemma UndoLastLive(opening: seq<Balances.Row>, balances: seq<Balances.Row>, entries: seq<Balances.Entry>,
      e: Balances.Entry)
    requires Balances.Unlocked(opening) && Balances.Unlocked(balances) && Balances.NoSelfTransfer(entries + [e])
    requires Balances.ApplyAll(opening, entries + [e]).Some?
    requires Balances.Same(balances, Balances.ApplyAll(opening, entries + [e]).value)
    ensures Balances.ApplyAll(opening, entries).Some? && Balances.Undo(balances, e).Some?
    ensures Balances.Unlocked(Balances.Undo(balances, e).value)
    ensures Balances.Same(Balances.Undo(balances, e).value, Balances.ApplyAll(opening, entries).value)
  {
    var all := entries + [e];
    assert all[..|all| - 1] == entries && Last(all) == e && all[|entries|] == e;
    Balances.ApplyAllMeans(opening, entries);
    Balances.UndoOne(Balances.ApplyAll(opening, entries).value, e, balances);
  }

  // The balances follow when the tip's flow row is taken out.
  lemma ReplayRound(opening: seq<Balances.Row>, l: Ledger, t: int)
    requires Finder.Replays(opening, l) && SettledAbove(l.flows, t) && AtMostOneAt(l.flows, t) && Ascending(l.flows)
    requires forall i | 0 <= i < |l.flows| && l.flows[i].block == t :: l.flows[i].status.Success?
    ensures var balances := Balances.UndoFirst(l.balances, FlowEntries(InRange(l.flows, t, t + 1)));
      && balances.Some?
      && Finder.Replays(opening, l.(balances := balances.value, flows := MarkRange(l.flows, t, t + 1)))
  {
    TipIsLastLive(l.flows, t);
    MarkTip(l.flows, t);
    hide Live, InRange, MarkRange, SettledAbove, AtMostOneAt, Ascending, Marked;
    hide Balances.ApplyAll, Balances.Undo, Balances.Same, Balances.Unlocked;
    var i := FirstAt(l.flows, t);
    if i < |l.flows| {
      var e := l.flows[i].data;
      var kept := FlowEntries(Live(MarkRange(l.flows, t, t + 1)));
      assert FlowEntries(Live(l.flows)) == kept + [e];
      assert FlowEntries([l.flows[i]]) == [e];
      UndoLastLive(opening, l.balances, kept, e);
      assert forall k | 0 <= k < |kept| :: kept[k] == (kept + [e])[k];
    }
  }

  lemma OrderKept<T>(rows: seq<Record<T>>, a: int, t: int)
    requires Ascending(rows)
    requires forall i | 0 <= i < |rows| && a < rows[i].block <= t :: rows[i].status.Success?
    ensures Ascending(RolledBackTo(rows, t - 1))
    ensures forall i | 0 <= i < |rows| && a < rows[i].block <= t - 1 :: RolledBackTo(rows, t - 1)[i].status.Success?
  {
  }

  // What the rollback of block t makes of the ledger of the only business.
  function Undone(l: Ledger, t: int): Option<Ledger> {
    RollBackOne(l, FlowEntries(InRange(l.flows, t, t + 1)), t, t + 1)
  }

  lemma LedgerRound(opening: seq<Balances.Row>, l: Ledger, a: int, t: int, below: int)
    requires Ready(opening, l, a, t) && a <= below && below == t - 1
    ensures var r := Undone(l, t);
      r.Some? && Ready(opening, r.value, a, below) && RolledBackBy(l, r.value, t)
  {
    assert AtMostOneAt(l.flows, t) && AtMostOneAt(l.deposits, t);
    ReplayRound(opening, l, t);
    MarkTipRollsBack(l.flows, t);
    MarkTipRollsBack(l.deposits, t);
    OnePerHeightBelow(l.flows, a, t);
    OnePerHeightBelow(l.deposits, a, t);
    OrderKept(l.flows, a, t);
    CreationUnmarked(l.withdraws, t, t + 1);
    CreationUnmarked(l.internals, t, t);
    hide Finder.Replays, Balances.UndoFirst, InRange, MarkRange, OnePerHeight, FlowEntries, Ascending, SettledAbove,
        AtMostOneAt;
  }

  // The records of a ledger when the blocks from t upwards are rolled back.
  ghost predicate RolledBackBy(l: Ledger, back: Ledger, t: int) {
    && back.flows == RolledBackTo(l.flows, t - 1) && back.deposits == RolledBackTo(l.deposits, t - 1)
    && back.withdraws == l.withdraws && back.internals == l.internals
  }

  lemma RolledBackTwice<T>(rows: seq<Record<T>>, a: int, t: int)
    requires a <= t
    ensures RolledBackTo(RolledBackTo(rows, t), a) == RolledBackTo(rows, a)
  {
  }

  // ---- The recovery ----

  // The table reorg_blocks, where hash, parent hash and number are unique, can take these rows.
  ghost predicate Backupable(reorg: seq<Header>, rows: seq<Header>) {
    forall i, j | 0 <= i < |reorg| && 0 <= j < |rows| :: Blocks.Distinct(reorg[i], rows[j])
  }

  lemma InsertOne(reorg: seq<Header>, row: Header)
    requires Blocks.Consistent(reorg) && Blocks.ValidRow(row)
    ensures Blocks.Insert(reorg, [row]).Some? <==> Backupable(reorg, [row])
  {
    var all := reorg + [row];
    if Blocks.Consistent(all) {
      forall i | 0 <= i < |reorg| ensures Blocks.Distinct(reorg[i], [row][0]) {
        assert all[i] == reorg[i] && all[|reorg|] == row;
      }
    }
    if Backupable(reorg, [row]) {
      assert forall i | 0 <= i < |reorg| :: Blocks.Distinct(reorg[i], [row][0]);
    }
  }

  // The rollback transaction for one row and one business.
  lemma RollBackAlone(s: State, tip: Header, b: Business, t: int)
    requires b in s.ledgers && tip.number == t
    ensures var back := Undone(s.ledgers[b], t);
      RollBack(s, [tip], [b], t, t + 1) ==
        if Blocks.Insert(s.reorg, [tip]).Some? && back.Some?
        then Retry.Done(Effect(Blocks.Without(s.blocks, t), s.reorg + [tip], s.ledgers[b := back.value]))
        else Retry.Erred
  {
    hide RollBackOne, Blocks.Without, InRange, FlowEntries, Blocks.Consistent;
    assert [tip][1..] == [] && [b][1..] == [];
    assert Blocks.WithoutAll(s.blocks, [tip]) == Blocks.WithoutAll(Blocks.Without(s.blocks, t), []);
    var pooled := Pooled(s.ledgers, [b], t, t + 1);
    assert Pooled(s.ledgers, [], t, t + 1) == [];
    assert pooled == FlowEntries(InRange(s.ledgers[b].flows, t, t + 1));
    var back := RollBackOne(s.ledgers[b], pooled, t, t + 1);
    if back.Some? {
      assert RollBackList(s.ledgers, [b], pooled, t, t + 1) ==
          RollBackList(s.ledgers[b := back.value], [], pooled, t, t + 1);
    }
  }

  lemma RollBackTipExactly(s: State, b: Business)
    requires s.blocks != [] && Linked(s.blocks) && Blocks.Consistent(s.reorg) && Blocks.ValidRow(Last(s.blocks))
        && b in s.ledgers
    ensures var tip, t := Last(s.blocks), Last(s.blocks).number;
      var back := Undone(s.ledgers[b], t);
      RollBack(s, [tip], [b], t, t + 1) ==
        if Backupable(s.reorg, [tip]) && back.Some?
        then Retry.Done(Effect(s.blocks[..|s.blocks| - 1], s.reorg + [tip], s.ledgers[b := back.value]))
        else Retry.Erred
  {
    hide RollBack, Undone, Backupable, Linked, Blocks.Consistent, Blocks.Without, Blocks.Insert;
    InsertOne(s.reorg, Last(s.blocks));
    Blocks.WithoutTip(s.blocks);
    RollBackAlone(s, Last(s.blocks), b, Last(s.blocks).number);
  }

  function AfterTip(s: State, b: Business, back: Ledger): State
    requires s.blocks != []
  {
    TipRolledBack(s, Effect(s.blocks[..|s.blocks| - 1], s.reorg + [Last(s.blocks)], s.ledgers[b := back]))
  }

  function TipUndone(s: State, b: Business): Option<Ledger>
    requires s.blocks != [] && b in s.ledgers
  {
    Undone(s.ledgers[b], Last(s.blocks).number)
  }

  // The rollback of the tip cannot be committed.
  ghost predicate Refused(s: State, b: Business)
    requires s.blocks != []
  {
    var t := Last(s.blocks).number;
    RollBack(s, [Last(s.blocks)], [b], t, t + 1) == Retry.Erred
  }

  lemma RoundAlone(cfg: Config, chain: int -> Header, b: Business, s: State, r: Round)
    requires 1 <= cfg.step < U64 && Resting(s) && IsChain(chain) && HashesIdentify(chain, s.blocks)
    requires Last(s.blocks) != chain(Last(s.blocks).number) && Settled(cfg, chain, Last(s.blocks).number, [b], r)
    requires Blocks.Consistent(s.reorg) && b in s.ledgers
    ensures if Backupable(s.reorg, [Last(s.blocks)]) && TipUndone(s, b).Some?
      then Taken(cfg, s, r) == AfterTip(s, b, TipUndone(s, b).value)
      else Taken(cfg, s, r) == s && Refused(s, b)
  {
    assert s.blocks != [] && Blocks.ValidRow(Last(s.blocks));
    LinkedOfResting(s);
    RoundRollsBackTip(cfg, chain, [b], s, r);
    hide Resting, Safety.Safe, Settled, HashesIdentify, IsChain, Taken, RollBack, RollBackOne, Backupable,
        Blocks.Insert;
    hide Linked, Blocks.Latest, Blocks.Without, InRange, FlowEntries, Blocks.Consistent;
    RollBackTipExactly(s, b);
  }

  // One business, ready to be rolled back: the round takes the tip off if and only if the backup table can
  // hold it, and otherwise changes nothing.
  lemma RoundWithLedger(cfg: Config, chain: int -> Header, opening: seq<Balances.Row>, b: Business,
                        a: int, t: int, below: int, s: State, r: Round) returns (back: Ledger)
    requires 1 <= cfg.step < U64 && Resting(s) && IsChain(chain) && HashesIdentify(chain, s.blocks)
    requires t == Last(s.blocks).number && Last(s.blocks) != chain(t) && Settled(cfg, chain, t, [b], r)
    requires Blocks.Consistent(s.reorg) && b in s.ledgers && Ready(opening, s.ledgers[b], a, t)
    requires a <= below && below == t - 1
    ensures Ready(opening, back, a, below) && RolledBackBy(s.ledgers[b], back, t)
    ensures if Backupable(s.reorg, [Last(s.blocks)])
      then Taken(cfg, s, r) == AfterTip(s, b, back)
      else Taken(cfg, s, r) == s && Refused(s, b)
  {
    assert s.blocks != [];
    hide Resting, Safety.Safe, Settled, HashesIdentify, IsChain, Taken, RollBack, Undone, Backupable, Ready;
    hide RolledBackBy, Linked, Blocks.Latest, Blocks.Consistent, AfterTip, Refused;
    RoundAlone(cfg, chain, b, s, r);
    LedgerRound(opening, s.ledgers[b], a, t, below);
    back := TipUndone(s, b).value;
  }

  lemma AfterTipIs(s: State, b: Business, back: Ledger)
    requires s.blocks != []
    ensures var next := AfterTip(s, b, back);
      && next.blocks == s.blocks[..|s.blocks| - 1] && next.reorg == s.reorg + [Last(s.blocks)]
      && next.ledgers == s.ledgers[b := back]
  {
  }

  lemma RestingBelow(s: State, b: Business, back: Ledger)
    requires Resting(s) && |s.blocks| > 1
    ensures Resting(AfterTip(s, b, back))
  {
    var below := s.blocks[..|s.blocks| - 1];
    Safety.PrefixIsSound(s.blocks, |s.blocks| - 1);
    Blocks.LatestOfLinked(below);
    assert Blocks.ValidRow(Last(below));
    hide Linked, Blocks.Consistent, Blocks.Latest;
  }

  // The rows to be taken off can all be backed up if and only if the tip can, and then the rest beside it.
  lemma BackupableStep(blocks: seq<Header>, keep: nat, reorg: seq<Header>)
    requires Blocks.Consistent(blocks) && keep < |blocks|
    ensures Backupable(reorg, blocks[keep..]) <==>
      Backupable(reorg, [Last(blocks)]) && Backupable(reorg + [Last(blocks)], blocks[keep..|blocks| - 1])
    ensures Blocks.Consistent(reorg) && Backupable(reorg, [Last(blocks)]) ==> Blocks.Consistent(reorg + [Last(blocks)])
  {
    var all, rest, more := blocks[keep..], blocks[keep..|blocks| - 1], reorg + [Last(blocks)];
    assert all == rest + [Last(blocks)];
    if Backupable(reorg, all) {
      assert Backupable(reorg, [Last(blocks)]) by {
        assert all[|rest|] == Last(blocks);
      }
      forall i, j | 0 <= i < |more| && 0 <= j < |rest| ensures Blocks.Distinct(more[i], rest[j]) {
        assert rest[j] == all[j] && rest[j] == blocks[keep + j];
        if i == |reorg| {
          assert Blocks.Distinct(blocks[keep + j], blocks[|blocks| - 1]);
        }
      }
    }
    if Backupable(reorg, [Last(blocks)]) && Backupable(more, rest) {
      forall i, j | 0 <= i < |reorg| && 0 <= j < |all| ensures Blocks.Distinct(reorg[i], all[j]) {
        assert more[i] == reorg[i];
        if j == |rest| {
          assert Blocks.Distinct(reorg[i], [Last(blocks)][0]);
        }
      }
    }
    if Backupable(reorg, [Last(blocks)]) {
      assert forall i | 0 <= i < |reorg| :: Blocks.Distinct(reorg[i], [Last(blocks)][0]);
      assert Blocks.ValidRow(Last(blocks));
    }
  }

  // Where a successful recovery ends: the top rows moved to the backup table, highest first; deposits and
  // flow rows above the last kept block rolled back and all others as they were; the balances the replay
  // of the flow rows still live.
  ghost predicate Recovered(opening: seq<Balances.Row>, b: Business, keep: nat, s: State, after: State)
    requires 0 < keep <= |s.blocks| && b in s.ledgers
  {
    var a := s.blocks[keep - 1].number;
    && b in after.ledgers
    && after == s.(blocks := s.blocks[..keep], cursor := Some(s.blocks[keep - 1]),
                   reorg := s.reorg + Blocks.Reverse(s.blocks[keep..]), ledgers := s.ledgers[b := after.ledgers[b]])
    && var l, l' := s.ledgers[b], after.ledgers[b];
      && l' == l.(balances := l'.balances, deposits := RolledBackTo(l.deposits, a), flows := RolledBackTo(l.flows, a))
      && Finder.Replays(opening, l')
  }

  // What the recovery needs of the state: orphaned blocks above the kept ones, and a ledger ready for it.
  ghost predicate Orphaned(chain: int -> Header, opening: seq<Balances.Row>, b: Business, keep: nat, s: State) {
    && Resting(s) && IsChain(chain) && HashesIdentify(chain, s.blocks) && Blocks.Consistent(s.reorg)
    && 0 < keep <= |s.blocks| && b in s.ledgers
    && (forall i | keep <= i < |s.blocks| :: s.blocks[i] != chain(s.blocks[i].number))
    && Ready(opening, s.ledgers[b], s.blocks[keep - 1].number, Last(s.blocks).number)
  }

  lemma HashesBelow(chain: int -> Header, blocks: seq<Header>, keep: nat)
    requires HashesIdentify(chain, blocks) && 0 < keep < |blocks|
    requires forall i | keep <= i < |blocks| :: blocks[i] != chain(blocks[i].number)
    ensures var init := blocks[..|blocks| - 1];
      HashesIdentify(chain, init) && forall i | keep <= i < |init| :: init[i] != chain(init[i].number)
  {
  }

  ghost predicate OneFewer(chain: int -> Header, opening: seq<Balances.Row>, b: Business, keep: nat, s: State,
      next: State)
    requires s.blocks != []
  {
    && Orphaned(chain, opening, b, keep, next)
    && |next.blocks| == |s.blocks| - 1 && Last(next.blocks).number == Last(s.blocks).number - 1
  }

  lemma OrphanedBelow(chain: int -> Header, opening: seq<Balances.Row>, b: Business, keep: nat, s: State,
                      back: Ledger, below: int)
    requires Orphaned(chain, opening, b, keep, s) && keep < |s.blocks| && Backupable(s.reorg, [Last(s.blocks)])
    requires below == Last(s.blocks).number - 1 && Ready(opening, back, s.blocks[keep - 1].number, below)
    ensures OneFewer(chain, opening, b, keep, s, AfterTip(s, b, back))
  {
    hide Ready, IsChain, Safety.Safe, Backupable, HashesIdentify, Linked, Blocks.Consistent;
    AfterTipIs(s, b, back);
    RestingBelow(s, b, back);
    hide AfterTip;
    HashesBelow(chain, s.blocks, keep);
    LinkedOfResting(s);
    LinkedNumbers(s.blocks, |s.blocks| - 1);
    LinkedNumbers(s.blocks, |s.blocks| - 2);
    ConsistentOfResting(s);
    BackupableStep(s.blocks, keep, s.reorg);
    hide Resting;
    assert Last(AfterTip(s, b, back).blocks) == s.blocks[|s.blocks| - 2];
  }

  lemma ConsistentOfResting(s: State)
    requires Resting(s)
    ensures Blocks.Consistent(s.blocks)
  {
  }

  lemma RecoveredFromNext(opening: seq<Balances.Row>, b: Business, keep: nat, s: State, back: Ledger, after: State)
    requires 0 < keep < |s.blocks| && b in s.ledgers && Linked(s.blocks)
    requires RolledBackBy(s.ledgers[b], back, Last(s.blocks).number)
    requires s.flag.None?
    requires Recovered(opening, b, keep, AfterTip(s, b, back), after)
    ensures Recovered(opening, b, keep, s, after)
  {
    hide Finder.Replays, RolledBackTo, Blocks.Latest;
    var a, t, init := s.blocks[keep - 1].number, Last(s.blocks).number, s.blocks[..|s.blocks| - 1];
    LinkedNumbers(s.blocks, keep - 1);
    LinkedNumbers(s.blocks, |s.blocks| - 1);
    RolledBackTwice(s.ledgers[b].flows, a, t - 1);
    RolledBackTwice(s.ledgers[b].deposits, a, t - 1);
    assert init[..keep] == s.blocks[..keep] && init[keep - 1] == s.blocks[keep - 1];
    var top := s.blocks[keep..];
    assert top[..|top| - 1] == init[keep..] && Last(top) == Last(s.blocks);
    assert Blocks.Reverse(top) == [Last(s.blocks)] + Blocks.Reverse(init[keep..]);
    assert (s.reorg + [Last(s.blocks)]) + Blocks.Reverse(init[keep..]) == s.reorg + Blocks.Reverse(top);
    assert s.ledgers[b := back][b := after.ledgers[b]] == s.ledgers[b := after.ledgers[b]];
  }

  lemma SettledLower(cfg: Config, chain: int -> Header, top: int, list: seq<Business>, rounds: seq<Round>)
    requires forall r | r in rounds :: Settled(cfg, chain, top, list, r)
    ensures forall r | r in rounds :: Settled(cfg, chain, top - 1, list, r)
  {
  }

  // The recovery ends with exactly the kept blocks if and only if the others can be backed up, and then
  // the ledger has followed.
  ghost predicate EndsExactly(opening: seq<Balances.Row>, b: Business, keep: nat, s: State, after: State)
    requires 0 < keep <= |s.blocks| && b in s.ledgers
  {
    && (after.blocks == s.blocks[..keep] <==> Backupable(s.reorg, s.blocks[keep..]))
    && (Backupable(s.reorg, s.blocks[keep..]) ==> Recovered(opening, b, keep, s, after))
  }

  // What the first round needs of an orphaned state.
  lemma OrphanedTip(chain: int -> Header, opening: seq<Balances.Row>, b: Business, keep: nat, s: State, a: int, t: int)
    requires Orphaned(chain, opening, b, keep, s) && keep < |s.blocks|
    requires a == s.blocks[keep - 1].number && t == Last(s.blocks).number
    ensures Resting(s) && IsChain(chain) && HashesIdentify(chain, s.blocks) && Blocks.Consistent(s.reorg)
    ensures Last(s.blocks) != chain(t) && b in s.ledgers && Ready(opening, s.ledgers[b], a, t) && a < t
  {
    LinkedOfResting(s);
    LinkedNumbers(s.blocks, keep - 1);
    LinkedNumbers(s.blocks, |s.blocks| - 1);
  }

  // Everything a round does to an orphaned tip, given a ledger ready for it.
  lemma OrphanRound(cfg: Config, chain: int -> Header, opening: seq<Balances.Row>, b: Business,
                    keep: nat, s: State, r: Round) returns (back: Ledger)
    requires 1 <= cfg.step < U64 && 0 < keep < |s.blocks| && b in s.ledgers && RightNumbers(r.pass.view)
    requires Orphaned(chain, opening, b, keep, s) && Settled(cfg, chain, Last(s.blocks).number, [b], r)
    ensures RolledBackBy(s.ledgers[b], back, Last(s.blocks).number)
    ensures if Backupable(s.reorg, [Last(s.blocks)])
      then Taken(cfg, s, r) == AfterTip(s, b, back) && OneFewer(chain, opening, b, keep, s, AfterTip(s, b, back))
      else Taken(cfg, s, r) == s && Refused(s, b)
  {
    var a, t := s.blocks[keep - 1].number, Last(s.blocks).number;
    hide Resting, Safety.Safe, Settled, HashesIdentify, IsChain, Ready, Taken, RollBack, Backupable, Linked;
    hide RolledBackBy, AfterTip, Refused, Blocks.Consistent, Orphaned, OneFewer;
    OrphanedTip(chain, opening, b, keep, s, a, t);
    back := RoundWithLedger(cfg, chain, opening, b, a, t, t - 1, s, r);
    if Backupable(s.reorg, [Last(s.blocks)]) {
      OrphanedBelow(chain, opening, b, keep, s, back, t - 1);
    }
  }

  // From the state after a round back to the state before it.
  lemma EndsFromNext(chain: int -> Header, opening: seq<Balances.Row>, b: Business, keep: nat, s: State,
      back: Ledger, after: State)
    requires Orphaned(chain, opening, b, keep, s) && keep < |s.blocks| && Backupable(s.reorg, [Last(s.blocks)])
    requires RolledBackBy(s.ledgers[b], back, Last(s.blocks).number)
    requires EndsExactly(opening, b, keep, AfterTip(s, b, back), after)
    ensures EndsExactly(opening, b, keep, s, after)
  {
    hide Ready, IsChain, Safety.Safe, Backupable, HashesIdentify, Linked, Blocks.Consistent, RolledBackBy, Recovered;
    AfterTipIs(s, b, back);
    hide AfterTip;
    LinkedOfResting(s);
    ConsistentOfResting(s);
    BackupableStep(s.blocks, keep, s.reorg);
    var init := s.blocks[..|s.blocks| - 1];
    assert init[..keep] == s.blocks[..keep] && init[keep..] == s.blocks[keep..|s.blocks| - 1];
    if Backupable(s.reorg + [Last(s.blocks)], init[keep..]) {
      assert s.flag.None?;
      hide Resting;
      RecoveredFromNext(opening, b, keep, s, back, after);
    }
  }

  lemma LinkedOfResting(s: State)
    requires Resting(s)
    ensures Linked(s.blocks)
  {
  }

  // Recovery converges exactly when it can be backed up. One round for each orphaned block, against a node
  // settled on one chain: the orphaned blocks, and only they, are gone at the end if and only if the backup
  // table holds no row with the number, hash or parent hash of one of them; and then the ledger has followed.
  lemma {:induction false} RecoversExactly(cfg: Config, chain: int -> Header,
      opening: seq<Balances.Row>, b: Business,
                                           keep: nat, s: State, rounds: seq<Round>)
    requires 1 <= cfg.step < U64 && Orphaned(chain, opening, b, keep, s)
    requires |rounds| == |s.blocks| - keep
    requires RightRounds(rounds) && forall r | r in rounds :: Settled(cfg, chain, Last(s.blocks).number, [b], r)
    ensures EndsExactly(opening, b, keep, s, Rounds(cfg, s, rounds))
    decreases |rounds|
  {
    hide Resting, Safety.Safe, Ready, Settled, Taken, AfterTip, RollBack, Backupable, HashesIdentify, IsChain,
        EndsExactly, RightNumbers;
    if keep == |s.blocks| {
      NothingOrphaned(opening, b, s);
    } else {
      var back := OrphanRound(cfg, chain, opening, b, keep, s, rounds[0]);
      if Backupable(s.reorg, [Last(s.blocks)]) {
        SettledLower(cfg, chain, Last(s.blocks).number, [b], rounds);
        assert forall r | r in rounds[1..] :: r in rounds;
        RecoversExactly(cfg, chain, opening, b, keep, AfterTip(s, b, back), rounds[1..]);
        EndsFromNext(chain, opening, b, keep, s, back, Rounds(cfg, s, rounds));
      } else {
        StuckForGood(cfg, chain, [b], s, rounds);
        EndsStuck(opening, b, keep, s);
      }
    }
  }

  lemma EndsStuck(opening: seq<Balances.Row>, b: Business, keep: nat, s: State)
    requires Resting(s) && 0 < keep < |s.blocks| && b in s.ledgers && !Backupable(s.reorg, [Last(s.blocks)])
    ensures EndsExactly(opening, b, keep, s, s)
  {
  }

  lemma NothingOrphaned(opening: seq<Balances.Row>, b: Business, s: State)
    requires Resting(s) && b in s.ledgers && Ready(opening, s.ledgers[b], Last(s.blocks).number, Last(s.blocks).number)
    ensures EndsExactly(opening, b, |s.blocks|, s, s)
  {
  }

  lemma OrphanedAbove(chain: int -> Header, opening: seq<Balances.Row>, b: Business, keep: nat, kept: nat, s: State)
    requires Orphaned(chain, opening, b, keep, s) && keep <= kept <= |s.blocks|
    ensures Orphaned(chain, opening, b, kept, s)
  {
    LinkedOfResting(s);
    LinkedNumbers(s.blocks, keep - 1);
    LinkedNumbers(s.blocks, kept - 1);
    ReadyAbove(opening, s.ledgers[b], s.blocks[keep - 1].number, s.blocks[kept - 1].number, Last(s.blocks).number);
    hide Ready, Resting, HashesIdentify, IsChain, Linked, Blocks.Consistent;
  }

  // The same holds of every shorter run: when `kept` blocks are left, exactly the others have moved to the
  // backup table, highest first.
  lemma RecoversInOrder(cfg: Config, chain: int -> Header, opening: seq<Balances.Row>, b: Business,
                        keep: nat, kept: nat, s: State, rounds: seq<Round>)
    requires 1 <= cfg.step < U64 && Orphaned(chain, opening, b, keep, s)
    requires keep <= kept <= |s.blocks| && |rounds| == |s.blocks| - kept && Backupable(s.reorg, s.blocks[keep..])
    requires RightRounds(rounds) && forall r | r in rounds :: Settled(cfg, chain, Last(s.blocks).number, [b], r)
    ensures Recovered(opening, b, kept, s, Rounds(cfg, s, rounds))
  {
    OrphanedAbove(chain, opening, b, keep, kept, s);
    BackupableTop(s.reorg, s.blocks, keep, kept);
    hide Resting, Settled, Backupable, RightNumbers, Rounds, Ready, HashesIdentify, IsChain;
    RecoversExactly(cfg, chain, opening, b, kept, s, rounds);
  }

  lemma BackupableTop(reorg: seq<Header>, blocks: seq<Header>, keep: nat, kept: nat)
    requires keep <= kept <= |blocks| && Backupable(reorg, blocks[keep..])
    ensures Backupable(reorg, blocks[kept..])
  {
  }

  lemma ReadyAbove(opening: seq<Balances.Row>, l: Ledger, a: int, higher: int, t: int)
    requires Ready(opening, l, a, t) && a <= higher
    ensures Ready(opening, l, higher, t)
  {
  }

  // After the recovery the scanner extends the kept blocks along the chain.
  lemma ResumesOnChain(cfg: Config, chain: int -> Header, s: State, view: View)
    requires 1 <= cfg.step < U64 && Resting(s) && IsChain(chain) && Last(s.blocks) == chain(Last(s.blocks).number)
    requires Serves(view, chain, HeadOf(view)) && HeadOf(view) < I63
        && Last(s.blocks).number <= HeadOf(view) - cfg.depth
    ensures var t := Last(s.blocks).number;
      Fetch(cfg, s, view).buffer == BatchBlock.Stretch(chain, t + 1, BigInt.Min(HeadOf(view) - cfg.depth - t, cfg.step))
  {
    assert Blocks.ValidRow(Last(s.blocks));
    BatchBlock.CallOnChain(cfg.depth, Last(s.blocks).number, view, chain, HeadOf(view), cfg.step);
  }

  // The live flow rows up to a height.
  function LiveUpTo(rows: seq<Flow>, a: int): seq<Flow> {
    if rows == [] then [] else
      LiveUpTo(rows[..|rows| - 1], a) + if Last(rows).block <= a && Last(rows).status.Success? then [Last(rows)] else []
  }

  lemma {:induction false} LiveRolledBack(rows: seq<Flow>, a: int)
    ensures Live(RolledBackTo(rows, a)) == LiveUpTo(rows, a)
  {
    if rows != [] {
      var back := RolledBackTo(rows, a);
      assert back[..|back| - 1] == RolledBackTo(rows[..|rows| - 1], a);
      LiveRolledBack(rows[..|rows| - 1], a);
    }
  }
}
