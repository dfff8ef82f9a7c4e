/** Rolling back with several businesses: exactly when the tip goes, and what it does to each ledger. */
module Businesses {
  import opened Prelude
  import opened Node
  import opened Database
  import opened Synchronizer
  import opened Fallback
  import opened Recovery
  import Balances
  import Blocks
  import Classify
  import Records
  import Retry
  import Safety

  // The rollback of all businesses goes through if and only if each is known and can undo the first pooled
  // entry; and then each ledger is what its own step makes of it, and no other ledger changes.
  lemma {:induction false} RollBackListExactly(ledgers: Ledgers, list: seq<Business>, pooled: seq<Balances.Entry>,
                                               start: int, end: int)
    requires NoDuplicates(list)
    ensures RollBackList(ledgers, list, pooled, start, end).Some? <==>
      forall b | b in list :: b in ledgers && Balances.UndoFirst(ledgers[b].balances, pooled).Some?
    ensures RollBackList(ledgers, list, pooled, start, end).Some? ==>
      var after := RollBackList(ledgers, list, pooled, start, end).value;
      && after.Keys == ledgers.Keys
      && (forall b | b in list :: b in ledgers && RollBackOne(ledgers[b], pooled, start, end) == Some(after[b]))
      && (forall b | b in ledgers && b !in list :: after[b] == ledgers[b])
    decreases |list|
  {
    hide Balances.UndoFirst, Records.MarkRange;
    if list != [] {
      var b, rest := list[0], list[1..];
      forall c | c in rest ensures c in list && c != b {
        var i :| 0 <= i < |rest| && rest[i] == c;
        assert list[i + 1] == c;
      }
      assert forall c | c in list :: c == b || c in rest;
      if b in ledgers && RollBackOne(ledgers[b], pooled, start, end).Some? {
        RollBackListExactly(ledgers[b := RollBackOne(ledgers[b], pooled, start, end).value], rest, pooled, start, end);
      }
    }
  }

  // A business's tables after a rollback of the heights from start to end.
  ghost predicate RolledBack(l: Ledger, after: Ledger, pooled: seq<Balances.Entry>, start: int, end: int) {
    && Records.AllMarked(l.deposits, after.deposits, start, end)
    && Records.AllMarked(l.withdraws, after.withdraws, start, end)
    && Records.AllMarked(l.internals, after.internals, start, end - 1)
    && Records.AllMarked(l.flows, after.flows, start, end)
    && Balances.UndoFirst(l.balances, pooled) == Some(after.balances)
  }

  // The rollback of any walk's rows goes through if and only if the backup table can take them and every listed
  // business is known and can undo the first pooled entry; and then it moves the rows to the backup table, marks
  // the tables of every listed business, and touches no other.
  lemma RollBackExactly(s: State, rows: seq<Header>, list: seq<Business>, start: int, end: int)
    requires NoDuplicates(list) && start < end
    ensures var effect, pooled := RollBack(s, rows, list, start, end), Pooled(s.ledgers, list, start, end);
      && (effect.Done? <==>
            && Blocks.Insert(s.reorg, rows).Some?
            && forall b | b in list :: b in s.ledgers && Balances.UndoFirst(s.ledgers[b].balances, pooled).Some?)
      && (effect.Done? ==>
            && effect.value.blocks == Blocks.WithoutAll(s.blocks, rows) && effect.value.reorg == s.reorg + rows
            && effect.value.ledgers.Keys == s.ledgers.Keys
            && (forall b | b in list :: RolledBack(s.ledgers[b], effect.value.ledgers[b], pooled, start, end))
            && (forall b | b in s.ledgers && b !in list :: effect.value.ledgers[b] == s.ledgers[b]))
  {
    var effect, pooled := RollBack(s, rows, list, start, end), Pooled(s.ledgers, list, start, end);
    RollBackListExactly(s.ledgers, list, pooled, start, end);
    hide RollBackList, RollBackOne, Blocks.Consistent, Pooled, Balances.UndoFirst;
    if effect.Done? {
      forall b | b in list ensures RolledBack(s.ledgers[b], effect.value.ledgers[b], pooled, start, end) {
        RollBackOneMarks(s.ledgers[b], pooled, start, end);
      }
    }
  }

  // The stored balances leave room for undoing an entry: what comes back must fit the sender's row, then
  // what was received must still be on the recipient's.
  predicate Reversible(rows: seq<Balances.Row>, e: Balances.Entry) {
    var from, to := Balances.Value(rows, Balances.From(e)), Balances.Value(rows, Balances.To(e));
    match e.kind
    case Deposit => Balances.U256Range(to - e.amount)
    case Withdraw => Balances.U256Range(from + e.amount)
    case Unknown => false
    case _ => Balances.U256Range(from + e.amount) && (e.from == e.to || Balances.U256Range(to - e.amount))
  }

  lemma UndoFirstExactly(rows: seq<Balances.Row>, pooled: seq<Balances.Entry>)
    requires Balances.Unlocked(rows)
    ensures Balances.UndoFirst(rows, pooled).Some? <==> pooled == [] || Reversible(rows, pooled[0])
  {
    hide Balances.Post, Balances.Value;
    if pooled != [] {
      Balances.PostSucceeds(rows, pooled[0], -pooled[0].amount);
      Balances.InRange(rows, Balances.To(pooled[0]));
      hide Balances.Unlocked;
    }
  }

  // What the rollback of block t must undo, in the eyes of every business.
  function PooledAt(s: State, list: seq<Business>, t: int): seq<Balances.Entry> {
    Pooled(s.ledgers, list, t, t + 1)
  }

  predicate AllFit(s: State, list: seq<Business>, pooled: seq<Balances.Entry>) {
    forall b | b in list :: b in s.ledgers && (pooled == [] || Reversible(s.ledgers[b].balances, pooled[0]))
  }

  // The first pooled entry is undone in this ledger, whoever's it is.
  ghost predicate FirstUndone(l: Ledger, after: Ledger, pooled: seq<Balances.Entry>, t: int) {
    && Balances.Unlocked(after.balances)
    && (forall c :: Balances.Value(after.balances, c) == Balances.Value(l.balances, c) +
          if pooled == [] then 0 else Balances.Effect(pooled[0], -pooled[0].amount, c))
    && after.deposits == Records.MarkRange(l.deposits, t, t + 1) && after.flows == Records.MarkRange(l.flows, t, t + 1)
    && after.withdraws == Records.MarkRange(l.withdraws, t, t + 1)
    && after.internals == Records.MarkRange(l.internals, t, t)
  }

  // A committed round: the tip is in the backup table, and every listed ledger has the first entry undone.
  ghost predicate TipTaken(s: State, list: seq<Business>, pooled: seq<Balances.Entry>, t: int, after: State)
    requires s.blocks != []
  {
    && after.blocks == s.blocks[..|s.blocks| - 1] && after.reorg == s.reorg + [Last(s.blocks)]
    && after.cursor == Blocks.Latest(after.blocks) && after.flag.None?
    && after.buffer == s.buffer && after.emitted == s.emitted && after.ledgers.Keys == s.ledgers.Keys
    && (forall b | b in list :: b in s.ledgers && FirstUndone(s.ledgers[b], after.ledgers[b], pooled, t))
    && (forall b | b in s.ledgers && b !in list :: after.ledgers[b] == s.ledgers[b])
  }

  lemma OneUndone(l: Ledger, pooled: seq<Balances.Entry>, t: int)
    requires Balances.Unlocked(l.balances) && RollBackOne(l, pooled, t, t + 1).Some?
    ensures FirstUndone(l, RollBackOne(l, pooled, t, t + 1).value, pooled, t)
  {
    hide Balances.Post, Balances.Value, Balances.Effect, Balances.Unlocked, Records.MarkRange;
    if pooled != [] {
      Balances.PostMeans(l.balances, pooled[0], -pooled[0].amount);
    }
  }

  // The rollback transaction for the tip holds if and only if the backup table can take the tip and every
  // listed business can undo the first pooled entry.
  lemma TipRollBack(s: State, list: seq<Business>, pooled: seq<Balances.Entry>, t: int)
    requires s.blocks != [] && Linked(s.blocks) && Blocks.Consistent(s.reorg) && Blocks.ValidRow(Last(s.blocks))
    requires NoDuplicates(list) && t == Last(s.blocks).number && pooled == PooledAt(s, list, t)
    requires forall b | b in list && b in s.ledgers :: Balances.Unlocked(s.ledgers[b].balances)
    ensures var effect := RollBack(s, [Last(s.blocks)], list, t, t + 1);
      if Backupable(s.reorg, [Last(s.blocks)]) && AllFit(s, list, pooled)
      then effect.Done? && TipTaken(s, list, pooled, t, TipRolledBack(s, effect.value))
      else effect == Retry.Erred
  {
    var tip := Last(s.blocks);
    InsertOne(s.reorg, tip);
    Blocks.WithoutTip(s.blocks);
    assert [tip][1..] == [];
    assert Blocks.WithoutAll(s.blocks, [tip]) == Blocks.WithoutAll(Blocks.Without(s.blocks, t), []);
    hide Linked, Backupable, Blocks.Consistent, Blocks.Without, Blocks.Latest, Balances.Unlocked, Balances.UndoFirst;
    hide Reversible, FirstUndone, RollBackOne, RollBackList, Pooled;
    RollBackListExactly(s.ledgers, list, pooled, t, t + 1);
    forall b | b in list && b in s.ledgers
      ensures Balances.UndoFirst(s.ledgers[b].balances, pooled).Some? <==>
        pooled == [] || Reversible(s.ledgers[b].balances, pooled[0])
      ensures RollBackOne(s.ledgers[b], pooled, t, t + 1).Some? ==>
        FirstUndone(s.ledgers[b], RollBackOne(s.ledgers[b], pooled, t, t + 1).value, pooled, t)
    {
      UndoFirstExactly(s.ledgers[b].balances, pooled);
      if RollBackOne(s.ledgers[b], pooled, t, t + 1).Some? {
        OneUndone(s.ledgers[b], pooled, t);
      }
    }
  }

  // With any list of businesses, a round against a node settled on one chain takes an orphaned tip off if and
  // only if the backup table can hold it and every listed business's stored balances leave room for undoing
  // the first pooled entry; and then that entry, and no other, is undone in every one of them. Otherwise
  // nothing changes, in this round and all later ones.
  lemma TipTakenExactly(cfg: Config, chain: int -> Header, list: seq<Business>, s: State, r: Round,
                        pooled: seq<Balances.Entry>, t: int)
    requires 1 <= cfg.step < U64 && Resting(s) && IsChain(chain) && HashesIdentify(chain, s.blocks)
    requires t == Last(s.blocks).number && Last(s.blocks) != chain(t) && Settled(cfg, chain, t, list, r)
    requires Blocks.Consistent(s.reorg) && NoDuplicates(list) && pooled == PooledAt(s, list, t)
    requires forall b | b in list && b in s.ledgers :: Balances.Unlocked(s.ledgers[b].balances)
    ensures if Backupable(s.reorg, [Last(s.blocks)]) && AllFit(s, list, pooled)
      then TipTaken(s, list, pooled, t, Taken(cfg, s, r))
      else Taken(cfg, s, r) == s
  {
    assert s.blocks != [] && Blocks.ValidRow(Last(s.blocks));
    LinkedOfResting(s);
    RoundRollsBackTip(cfg, chain, list, s, r);
    hide Resting, Settled, HashesIdentify, IsChain, Taken, RollBack, Backupable, Linked, Blocks.Consistent;
    hide AllFit, TipTaken, PooledAt, TipRolledBack, RightNumbers;
    TipRollBack(s, list, pooled, t);
  }

  lemma BlockedForGood(cfg: Config, chain: int -> Header, list: seq<Business>, s: State, rounds: seq<Round>,
                       pooled: seq<Balances.Entry>, t: int)
    requires 1 <= cfg.step < U64 && Resting(s) && IsChain(chain) && HashesIdentify(chain, s.blocks)
    requires t == Last(s.blocks).number && Last(s.blocks) != chain(t)
    requires RightRounds(rounds) && forall r | r in rounds :: Settled(cfg, chain, t, list, r)
    requires Blocks.Consistent(s.reorg) && NoDuplicates(list) && pooled == PooledAt(s, list, t)
    requires forall b | b in list && b in s.ledgers :: Balances.Unlocked(s.ledgers[b].balances)
    requires !(Backupable(s.reorg, [Last(s.blocks)]) && AllFit(s, list, pooled))
    ensures Rounds(cfg, s, rounds) == s
  {
    assert s.blocks != [] && Blocks.ValidRow(Last(s.blocks));
    LinkedOfResting(s);
    hide Resting, Settled, HashesIdentify, IsChain, RollBack, Backupable, Linked, Blocks.Consistent;
    hide AllFit, TipTaken, PooledAt, TipRolledBack, RightNumbers, Rounds;
    TipRollBack(s, list, pooled, t);
    StuckForGood(cfg, chain, list, s, rounds);
  }

  lemma RestsAfterTip(s: State, list: seq<Business>, pooled: seq<Balances.Entry>, t: int, after: State)
    requires Resting(s) && |s.blocks| > 1 && TipTaken(s, list, pooled, t, after)
    ensures Resting(after)
  {
    var below := s.blocks[..|s.blocks| - 1];
    Safety.PrefixIsSound(s.blocks, |s.blocks| - 1);
    hide Linked, Blocks.Consistent;
    Blocks.LatestOfLinked(below);
    assert Blocks.ValidRow(Last(below)) by {
      LastIsValid(below);
    }
    hide Blocks.Latest, FirstUndone;
  }

  lemma LastIsValid(blocks: seq<Header>)
    requires Blocks.Consistent(blocks) && blocks != []
    ensures Blocks.ValidRow(Last(blocks))
  {
  }

  // The records of a ledger after a whole recovery from height t to height a.
  ghost predicate MarkedDown(l: Ledger, after: Ledger, a: int, t: int) {
    after.deposits == Records.MarkDown(l.deposits, a, t) && after.flows == Records.MarkDown(l.flows, a, t)
  }

  lemma MarkedOneMore(l: Ledger, mid: Ledger, after: Ledger, pooled: seq<Balances.Entry>, a: int, t: int, below: int)
    requires FirstUndone(l, mid, pooled, t) && MarkedDown(mid, after, a, below) && a <= below == t - 1
    ensures MarkedDown(l, after, a, t)
  {
    hide Records.MarkRange;
  }

  // What a recovery needs of the state, whatever the records of the businesses.
  ghost predicate OrphanedBlocks(chain: int -> Header, list: seq<Business>, keep: nat, s: State) {
    && Resting(s) && IsChain(chain) && HashesIdentify(chain, s.blocks) && Blocks.Consistent(s.reorg)
    && 0 < keep <= |s.blocks| && NoDuplicates(list)
    && (forall i | keep <= i < |s.blocks| :: s.blocks[i] != chain(s.blocks[i].number))
    && (forall b | b in list && b in s.ledgers :: Balances.Unlocked(s.ledgers[b].balances))
  }

  lemma OrphanedBlocksBelow(chain: int -> Header, list: seq<Business>, keep: nat, s: State, pooled: seq<Balances.Entry>,
                            t: int, after: State)
    requires OrphanedBlocks(chain, list, keep, s) && keep < |s.blocks| && Backupable(s.reorg, [Last(s.blocks)])
    requires t == Last(s.blocks).number && TipTaken(s, list, pooled, t, after)
    ensures OrphanedBlocks(chain, list, keep, after) && Last(after.blocks).number == t - 1
  {
    hide IsChain, Safety.Safe, Backupable, HashesIdentify, Linked, Blocks.Consistent, Balances.Unlocked;
    RestsAfterTip(s, list, pooled, t, after);
    HashesBelow(chain, s.blocks, keep);
    LinkedOfResting(s);
    LinkedNumbers(s.blocks, |s.blocks| - 1);
    LinkedNumbers(s.blocks, |s.blocks| - 2);
    ConsistentOfResting(s);
    BackupableStep(s.blocks, keep, s.reorg);
    hide Resting;
  }

  // The first round of a recovery that gets to its end takes the tip off.
  lemma FirstRound(cfg: Config, chain: int -> Header, list: seq<Business>, keep: nat, s: State, rounds: seq<Round>,
                   pooled: seq<Balances.Entry>, t: int, below: int)
    requires 1 <= cfg.step < U64 && OrphanedBlocks(chain, list, keep, s) && keep < |s.blocks| && rounds != []
    requires t == Last(s.blocks).number && below == t - 1 && pooled == PooledAt(s, list, t)
    requires RightRounds(rounds) && forall r | r in rounds :: Settled(cfg, chain, t, list, r)
    requires Rounds(cfg, s, rounds).blocks == s.blocks[..keep]
    ensures var next := Taken(cfg, s, rounds[0]);
      && OrphanedBlocks(chain, list, keep, next) && Last(next.blocks).number == below
      && TipTaken(s, list, pooled, t, next)
  {
    assert rounds[0] in rounds;
    hide Resting, Settled, HashesIdentify, IsChain, Taken, Backupable, Linked, Blocks.Consistent, AllFit, PooledAt;
    hide RightNumbers, TipTaken, Rounds;
    TipTakenExactly(cfg, chain, list, s, rounds[0], pooled, t);
    if Backupable(s.reorg, [Last(s.blocks)]) && AllFit(s, list, pooled) {
      OrphanedBlocksBelow(chain, list, keep, s, pooled, t, Taken(cfg, s, rounds[0]));
    } else {
      BlockedForGood(cfg, chain, list, s, rounds, pooled, t);
    }
  }

  // Whatever the businesses and however many rows stand at a height: when the recovery removes the orphaned
  // blocks, the records of every listed business are marked once for each of their heights.
  lemma {:induction false} RecoveryMarks(cfg: Config, chain: int -> Header, list: seq<Business>, keep: nat, s: State,
                                         rounds: seq<Round>, b: Business, a: int, t: int)
    requires 1 <= cfg.step < U64 && OrphanedBlocks(chain, list, keep, s) && |rounds| == |s.blocks| - keep
    requires a == s.blocks[keep - 1].number && t == Last(s.blocks).number && b in list && b in s.ledgers
    requires RightRounds(rounds) && forall r | r in rounds :: Settled(cfg, chain, t, list, r)
    requires Rounds(cfg, s, rounds).blocks == s.blocks[..keep]
    ensures b in Rounds(cfg, s, rounds).ledgers
    ensures MarkedDown(s.ledgers[b], Rounds(cfg, s, rounds).ledgers[b], a, t)
    decreases |rounds|
  {
    if rounds != [] {
      var pooled, next, below := PooledAt(s, list, t), Taken(cfg, s, rounds[0]), t - 1;
      FirstRound(cfg, chain, list, keep, s, rounds, pooled, t, below);
      AboveKept(s, keep, a, t);
      RestSettled(cfg, chain, t, below, list, rounds);
      var end := Rounds(cfg, next, rounds[1..]);
      assert Rounds(cfg, s, rounds) == end;
      TipTakenOf(s, list, pooled, t, next, b, keep);
      hide *;
      RecoveryMarks(cfg, chain, list, keep, next, rounds[1..], b, a, below);
      MarkedOneMore(s.ledgers[b], next.ledgers[b], end.ledgers[b], pooled, a, t, below);
    }
  }

  lemma AboveKept(s: State, keep: nat, a: int, t: int)
    requires Resting(s) && 0 < keep < |s.blocks| && a == s.blocks[keep - 1].number && t == Last(s.blocks).number
    ensures a < t
  {
    LinkedNumbers(s.blocks, |s.blocks| - 1);
    LinkedNumbers(s.blocks, keep - 1);
  }

  lemma RestSettled(cfg: Config, chain: int -> Header, t: int, below: int, list: seq<Business>, rounds: seq<Round>)
    requires RightRounds(rounds) && rounds != [] && below == t - 1
    requires forall r | r in rounds :: Settled(cfg, chain, t, list, r)
    ensures RightRounds(rounds[1..]) && forall r | r in rounds[1..] :: Settled(cfg, chain, below, list, r)
  {
    assert forall r | r in rounds[1..] :: r in rounds;
    SettledLower(cfg, chain, t, list, rounds);
    hide Settled, RightNumbers;
  }

  lemma TipTakenOf(s: State, list: seq<Business>, pooled: seq<Balances.Entry>, t: int, next: State, b: Business,
      keep: nat)
    requires s.blocks != [] && TipTaken(s, list, pooled, t, next) && b in list && 0 < keep < |s.blocks|
    ensures b in s.ledgers && b in next.ledgers && FirstUndone(s.ledgers[b], next.ledgers[b], pooled, t)
    ensures |next.blocks| == |s.blocks| - 1 && next.blocks[..keep] == s.blocks[..keep]
    ensures next.blocks[keep - 1] == s.blocks[keep - 1]
  {
    hide FirstUndone;
  }

  // So it leaves a deposit of an orphaned block standing unless each of those heights has at most one, and
  // likewise a flow row.
  lemma RecoveryClearsExactly(cfg: Config, chain: int -> Header, list: seq<Business>, keep: nat, s: State,
                              rounds: seq<Round>, b: Business, a: int, t: int)
    requires 1 <= cfg.step < U64 && OrphanedBlocks(chain, list, keep, s) && |rounds| == |s.blocks| - keep
    requires a == s.blocks[keep - 1].number && t == Last(s.blocks).number && b in list && b in s.ledgers
    requires RightRounds(rounds) && forall r | r in rounds :: Settled(cfg, chain, t, list, r)
    requires Rounds(cfg, s, rounds).blocks == s.blocks[..keep]
    requires var l := s.ledgers[b];
      && Records.SettledAbove(l.deposits, t) && Records.SettledAbove(l.flows, t)
      && (forall i | 0 <= i < |l.deposits| && a < l.deposits[i].block <= t :: !l.deposits[i].status.Fallback?)
      && (forall i | 0 <= i < |l.flows| && a < l.flows[i].block <= t :: !l.flows[i].status.Fallback?)
    ensures b in Rounds(cfg, s, rounds).ledgers
    ensures var l, after := s.ledgers[b], Rounds(cfg, s, rounds).ledgers[b];
      && (Records.SettledAbove(after.deposits, a) <==> forall n | a < n <= t :: Records.AtMostOneAt(l.deposits, n))
      && (Records.SettledAbove(after.flows, a) <==> forall n | a < n <= t :: Records.AtMostOneAt(l.flows, n))
  {
    RecoveryMarks(cfg, chain, list, keep, s, rounds, b, a, t);
    Records.AllClearedExactly(s.ledgers[b].deposits, a, t);
    Records.AllClearedExactly(s.ledgers[b].flows, a, t);
    hide *;
  }

  // The ledger of a business is left alone by a committed round if and only if the first pooled entry moves
  // nothing: a business with no transaction in the orphaned block loses or gains what another's moved.
  lemma BystanderExactly(l: Ledger, after: Ledger, pooled: seq<Balances.Entry>, t: int)
    requires FirstUndone(l, after, pooled, t) && pooled != [] && !pooled[0].kind.Unknown?
    ensures Balances.Same(after.balances, l.balances) <==>
      pooled[0].amount == 0 || (Balances.IsTransfer(pooled[0]) && pooled[0].from == pooled[0].to)
  {
    var e := pooled[0];
    var c := if e.kind.Deposit? then Balances.To(e) else Balances.From(e);
    assert Balances.Value(after.balances, c) == Balances.Value(l.balances, c) + Balances.Effect(e, -e.amount, c);
  }

  // A recovery that never gets anywhere: business "a" holds the orphaned deposit it must give back, and "b"
  // holds nothing. With "a" alone the same round takes the tip off.
  function ChainOf(n: int): Header {
    Header(if n < 0 then 0 else 2 * n + 2, if n < 0 then 0 else 2 * n, n, 1)
  }

  const ORPHAN := Balances.Entry(8, 7, 0, 5, Balances.Deposit)

  function StuckState(): State {
    State(Some(Header(1, 4, 2, 1)), [], None, [ChainOf(1), Header(1, 4, 2, 1)], [], [],
          map["a" := Ledger([Balances.Row(7, 0, Balances.User, 5, 0)], [],
                            [Records.Record(9, 2, Records.Success, ORPHAN)], [], []),
              "b" := Ledger([], [], [], [], [])])
  }

  lemma StuckWitness(rounds: seq<Round>)
    requires RightRounds(rounds)
    requires forall r | r in rounds :: Settled(Config(0, 1, 0), ChainOf, 2, ["a", "b"], r)
    ensures Resting(StuckState()) && IsChain(ChainOf) && HashesIdentify(ChainOf, StuckState().blocks)
    ensures Last(StuckState().blocks) != ChainOf(2) && Backupable(StuckState().reorg, [Last(StuckState().blocks)])
    ensures Rounds(Config(0, 1, 0), StuckState(), rounds) == StuckState()
    ensures AllFit(StuckState(), ["a"], PooledAt(StuckState(), ["a"], 2))
  {
    StuckRests();
    StuckPooled();
    StuckFits();
    StuckTip();
    hide Resting, IsChain, HashesIdentify, Settled, RightRounds, Rounds, AllFit, PooledAt, StuckState, Backupable;
    hide Blocks.Consistent, Balances.Unlocked;
    BlockedForGood(Config(0, 1, 0), ChainOf, ["a", "b"], StuckState(), rounds, [ORPHAN], 2);
  }

  lemma StuckTip()
    ensures StuckState().blocks != [] && Last(StuckState().blocks).number == 2
    ensures Last(StuckState().blocks) != ChainOf(2)
    ensures Blocks.Consistent(StuckState().reorg) && Backupable(StuckState().reorg, [Last(StuckState().blocks)])
    ensures NoDuplicates(["a", "b"])
  {
  }

  lemma StuckPooled()
    ensures PooledAt(StuckState(), ["a", "b"], 2) == [ORPHAN] && PooledAt(StuckState(), ["a"], 2) == [ORPHAN]
  {
    var s := StuckState();
    OneRow(s.ledgers["a"].flows[0]);
    assert ["a", "b"][1..] == ["b"] && ["b"][1..] == [] && ["a"][1..] == [];
    assert Records.FlowEntries(s.ledgers["a"].flows) == [ORPHAN];
    assert Pooled(s.ledgers, ["b"], 2, 3) == [];
  }

  lemma StuckFits()
    ensures !AllFit(StuckState(), ["a", "b"], [ORPHAN]) && AllFit(StuckState(), ["a"], [ORPHAN])
    ensures forall b | b in ["a", "b"] ::
      b in StuckState().ledgers && Balances.Unlocked(StuckState().ledgers[b].balances)
  {
    OneBalance(5);
    assert Balances.Value([], Balances.To(ORPHAN)) == 0;
    assert !Reversible([], ORPHAN) && Reversible([Balances.Row(7, 0, Balances.User, 5, 0)], ORPHAN);
    assert "b" in ["a", "b"] && StuckState().ledgers["b"].balances == [];
  }

  // A node with the chain up to height 3.
  function NodeView(): View {
    View(Got(ChainOf(3)), n => if 0 < n <= 3 then Got(ChainOf(n)) else RpcFailed)
  }

  lemma SomeRound(cfg: Config, list: seq<Business>) returns (r: Round)
    requires cfg.depth == 0
    ensures Settled(cfg, ChainOf, 2, list, r)
  {
    var feed := Classify.Reads(k => Classify.TxsFailed, k => None, (k, b) => Classify.Sure(map[]));
    r := Round(TickInput(NodeView(), feed, true),
               PassInput(NodeView(), Some(list), true, k => false, k => true, true));
    var done := Retry.Transaction(r.pass.up, Retry.Done(()));
    assert Retry.FirstSuccess(Retry.ATTEMPTS, r.pass.cancelled, done, 0, 0);
  }

  lemma OneBalance(n: int)
    ensures Balances.Value([Balances.Row(7, 0, Balances.User, n, 0)], Balances.Cell(7, 0)) == n
  {
    var row := Balances.Row(7, 0, Balances.User, n, 0);
    assert [row][..0] == [];
  }

  lemma OneRow(row: Records.Flow)
    requires row.block == 2 && row.status.Success?
    ensures Records.InRange([row], 2, 3) == [row]
  {
    assert [row][..0] == [];
  }

  lemma StuckRests()
    ensures Resting(StuckState()) && IsChain(ChainOf) && HashesIdentify(ChainOf, StuckState().blocks)
  {
    assert forall n | n > 0 :: Extends(ChainOf, n);
  }
}
