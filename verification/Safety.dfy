/** Stored-chain safety: what every run of the scanner and the fallback task keeps, against any node. */
module Safety {
  import opened Prelude
  import opened Node
  import opened Synchronizer
  import BatchBlock
  import BigInt
  import Blocks
  import Classify
  import Database
  import Fallback

  // The stored blocks are contiguous and parent-hash linked. An empty buffer means the cursor is on the
  // highest stored block; a waiting buffer links onto it and ends at the cursor. A raised flag names a
  // header above everything stored.
  ghost predicate Safe(s: State) {
    && Linked(s.blocks) && Blocks.Consistent(s.blocks)
    && (s.cursor.Some? ==> s.cursor.value.number >= 0)
    && (s.buffer == [] && s.blocks != [] && s.cursor.Some? ==> s.cursor.value == Last(s.blocks))
    && (s.buffer != [] ==> Linked(s.blocks + s.buffer) && s.cursor == Some(Last(s.buffer)))
    && (s.flag.Some? ==> s.buffer == [] && (s.blocks != [] ==> s.flag.value.number > Last(s.blocks).number))
  }

  // Ledgers: the finder, the confirmation and the notification tasks may do anything to the ledgers.
  datatype Event =
    | TickEvent(tick: TickInput)
    | PassEvent(pass: Fallback.PassInput)
    | RestartEvent(view: View, latestUp: bool)
    | LedgersEvent(ledgers: Database.Ledgers)

  // Nodes answer a request for a positive height with a header of that height, of whatever chain.
  ghost predicate RightEvent(e: Event) {
    match e
    case TickEvent(tick) => RightNumbers(tick.view)
    case PassEvent(pass) => RightNumbers(pass.view)
    case RestartEvent(view, _) => RightNumbers(view)
    case LedgersEvent(_) => true
  }

  function Step(cfg: Config, s: State, e: Event): State
    requires cfg.step < U64 && RightEvent(e)
  {
    match e
    case TickEvent(tick) => Ticked(cfg, s, tick)
    case PassEvent(pass) => Fallback.Passed(s, pass)
    case RestartEvent(view, latestUp) => Restart(cfg, s, view, latestUp)
    case LedgersEvent(ledgers) => s.(ledgers := ledgers)
  }

  // The schedule: the scanner ticks only while the flag is down and the cursor is known.
  predicate Scheduled(s: State, e: Event) {
    e.TickEvent? ==> s.flag.None? && s.cursor.Some?
  }

  ghost predicate ScheduledRun(cfg: Config, s: State, events: seq<Event>)
    requires cfg.step < U64
    decreases |events|
  {
    events == [] ||
      (RightEvent(events[0]) && Scheduled(s, events[0])
          && ScheduledRun(cfg, Step(cfg, s, events[0]), events[1..]))
  }

  function Run(cfg: Config, s: State, events: seq<Event>): State
    requires cfg.step < U64 && ScheduledRun(cfg, s, events)
    decreases |events|
  {
    if events == [] then s else Run(cfg, Step(cfg, s, events[0]), events[1..])
  }

  // ---- One tick ----

  lemma FetchIsSafe(cfg: Config, s: State, view: View)
    requires cfg.step < U64 && RightNumbers(view)
    requires Safe(s) && s.flag.None? && s.cursor.Some?
    ensures Safe(Fetch(cfg, s, view))
  {
    if s.buffer == [] {
      var cursor := s.cursor.value;
      BatchBlock.NextLinks(cfg.depth, cursor, view, cfg.step);
      var outcome := BatchBlock.Next(cfg.depth, s.cursor, view, cfg.step);
      if outcome.Headers? && outcome.headers != [] {
        var linked := [cursor] + outcome.headers;
        LinkedNumbers(linked, |outcome.headers|);
        assert linked[|outcome.headers|] == Last(outcome.headers);
        LinkedTail(linked);
        assert linked[1..] == outcome.headers && linked[1] == outcome.headers[0];
        if s.blocks != [] {
          LinkedConcat(s.blocks, outcome.headers);
        } else {
          assert s.blocks + outcome.headers == outcome.headers;
        }
      }
    }
  }

  lemma LinkedTail(headers: seq<Header>)
    requires Linked(headers) && headers != []
    ensures Linked(headers[1..])
  {
  }

  lemma CommitIsSafe(s: State, input: TickInput)
    requires Safe(s)
    ensures Safe(Commit(s, Processed(s, input)))
  {
  }

  lemma TickIsSafe(cfg: Config, s: State, input: TickInput)
    requires cfg.step < U64 && RightNumbers(input.view)
    requires Safe(s) && s.flag.None? && s.cursor.Some?
    ensures Safe(Ticked(cfg, s, input))
  {
    FetchIsSafe(cfg, s, input.view);
    CommitIsSafe(Fetch(cfg, s, input.view), input);
  }

  // ---- One pass ----

  lemma {:induction false} ReverseAt(rows: seq<Header>, i: nat)
    requires i < |rows|
    ensures |Blocks.Reverse(rows)| == |rows| && Blocks.Reverse(rows)[i] == rows[|rows| - 1 - i]
  {
    if |rows| > 1 {
      ReverseAt(rows[..|rows| - 1], if i == 0 then 0 else i - 1);
    }
  }

  lemma RowTaken(view: View, blocks: seq<Header>, header: Header, rows: seq<Header>, entry: Header, i: nat)
    requires Linked(blocks) && Fallback.WalkedTo(view, blocks, header, rows, entry) && i < |rows|
    ensures blocks != [] && 0 <= header.number - 1 - i - blocks[0].number < |blocks|
    ensures rows[i] == blocks[header.number - 1 - i - blocks[0].number]
  {
    assert Fallback.PassedAt(view, blocks, header, rows, entry, header.number - 1 - i);
    Blocks.RowAtLinked(blocks, header.number - 1 - i);
  }

  // Rows taken downwards from the tip are the reverse of the top rows.
  lemma TopReversed(blocks: seq<Header>, rows: seq<Header>)
    requires |rows| <= |blocks| && forall i | 0 <= i < |rows| :: rows[i] == blocks[|blocks| - 1 - i]
    ensures rows == Blocks.Reverse(blocks[|blocks| - |rows|..])
  {
    var top := blocks[|blocks| - |rows|..];
    if rows != [] {
      ReverseAt(top, 0);
      forall i | 0 <= i < |rows| ensures Blocks.Reverse(top)[i] == rows[i] {
        ReverseAt(top, i);
      }
    }
  }

  // A walk from above the tip passes the top rows, highest first.
  lemma WalkTakesTop(view: View, blocks: seq<Header>, header: Header)
    requires RightNumbers(view) && Linked(blocks)
    requires blocks != [] ==> header.number > Last(blocks).number
    requires Fallback.WalkBack(view, blocks, header).Found?
    ensures var rows := Fallback.WalkBack(view, blocks, header).rows;
      && 0 < |rows| <= |blocks|
      && rows == Blocks.Reverse(blocks[|blocks| - |rows|..])
      && header.number == Last(blocks).number + 1
  {
    Fallback.WalkRange(view, blocks, header);
    var walk := Fallback.WalkBack(view, blocks, header);
    var rows := walk.rows;
    assert |rows| > 0;
    hide Fallback.WalkBack, Fallback.WalkedTo, Linked, Blocks.Reverse;
    RowTaken(view, blocks, header, rows, walk.entry, 0);
    RowTaken(view, blocks, header, rows, walk.entry, |rows| - 1);
    LinkedNumbers(blocks, |blocks| - 1);
    forall i | 0 <= i < |rows| ensures rows[i] == blocks[|blocks| - 1 - i] {
      RowTaken(view, blocks, header, rows, walk.entry, i);
    }
    TopReversed(blocks, rows);
  }

  lemma PrefixIsSound(blocks: seq<Header>, keep: nat)
    requires Linked(blocks) && Blocks.Consistent(blocks) && keep <= |blocks|
    ensures Linked(blocks[..keep]) && Blocks.Consistent(blocks[..keep])
  {
  }

  // The tables after a pass: some rows at the top are gone, or nothing is.
  lemma PassTakesTop(s: State, input: Fallback.PassInput)
    requires RightNumbers(input.view) && Linked(s.blocks)
    requires s.flag.Some? && s.blocks != [] ==> s.flag.value.number > Last(s.blocks).number
    ensures Fallback.Passed(s, input).blocks <= s.blocks
  {
    hide Fallback.Passed, Fallback.WalkBack, Blocks.Without, Blocks.WithoutAll, Blocks.Latest, Linked;
    Fallback.PassTables(s, input);
    if Fallback.Passed(s, input).blocks != s.blocks {
      WalkTakesTop(input.view, s.blocks, s.flag.value);
      var rows := Fallback.WalkBack(input.view, s.blocks, s.flag.value).rows;
      Blocks.WithoutTop(s.blocks, |s.blocks| - |rows|);
    }
  }

  lemma PassIsSafe(s: State, input: Fallback.PassInput)
    requires RightNumbers(input.view) && Safe(s)
    ensures Safe(Fallback.Passed(s, input))
  {
    PassTakesTop(s, input);
    Fallback.PassTables(s, input);
    var after := Fallback.Passed(s, input);
    hide Fallback.Passed;
    if s.flag.Some? {
      PrefixIsSound(s.blocks, |after.blocks|);
      assert after.blocks == s.blocks[..|after.blocks|];
      if after.blocks != [] {
        Blocks.LatestOfLinked(after.blocks);
        assert Blocks.ValidRow(Last(after.blocks));
      }
    }
  }

  lemma RestartIsSafe(cfg: Config, s: State, view: View, latestUp: bool)
    requires RightNumbers(view) && Safe(s)
    ensures Safe(Restart(cfg, s, view, latestUp))
  {
    if s.blocks != [] {
      Blocks.LatestOfLinked(s.blocks);
      assert Blocks.ValidRow(Last(s.blocks));
    }
  }

  // ---- Every run ----

  // Stored-chain safety: whatever the node answers, possibly from a different chain on every request, and
  // whatever fails, every state a scheduled run reaches is safe.
  lemma {:induction false} RunsAreSafe(cfg: Config, s: State, events: seq<Event>)
    requires cfg.step < U64 && ScheduledRun(cfg, s, events) && Safe(s)
    ensures Safe(Run(cfg, s, events))
    decreases |events|
  {
    if events != [] {
      match events[0] {
        case TickEvent(tick) => TickIsSafe(cfg, s, tick);
        case PassEvent(pass) => PassIsSafe(s, pass);
        case RestartEvent(view, latestUp) => RestartIsSafe(cfg, s, view, latestUp);
        case LedgersEvent(_) =>
      }
      RunsAreSafe(cfg, Step(cfg, s, events[0]), events[1..]);
    }
  }

  // ---- Why the schedule: exactly when a tick and a pass are safe ----

  // A tick from a nil cursor: height 0 means the head, so the batch jumps from the head's height to 1.
  lemma NilCursorJumps(cfg: Config, s: State) returns (input: TickInput)
    requires Safe(s) && s.flag.None? && s.buffer == [] && s.cursor.None? && 1 <= cfg.step < U64
    requires cfg.step > 1 || s.blocks != []
    ensures RightNumbers(input.view) && !Safe(Ticked(cfg, s, input))
  {
    var top := if s.blocks == [] then 5 else Last(s.blocks).number + 5;
    var head, first := Header(7, 0, top, 1), Header(8, 7, 1, 1);
    var at := (n: int) => if n == 0 then Got(head) else if n == 1 then Got(first) else RpcFailed;
    assert s.blocks != [] ==> Blocks.ValidRow(Last(s.blocks));
    input := TickInput(View(Got(Header(1, 0, cfg.depth + 1, 1)), at),
        Classify.Reads(k => Classify.TxsFailed, k => None, (k, b) => Classify.Sure(map[])), false);
    var outcome := BatchBlock.Next(cfg.depth, None, input.view, cfg.step);
    assert BigInt.Clamp(0, 1, cfg.step) == if cfg.step == 1 then 0 else 1;
    assert BatchBlock.Collect(input.view, Some(first), 2, 0) == BatchBlock.Headers([]);
    if cfg.step == 1 {
      assert BatchBlock.Collect(input.view, None, 0, 1) == BatchBlock.Headers([head]);
      assert outcome == BatchBlock.Headers([head]);
    } else {
      assert BatchBlock.Collect(input.view, Some(head), 1, 1) == BatchBlock.Headers([first]);
      assert outcome == BatchBlock.Headers([head, first]);
    }
    var all := s.blocks + outcome.headers;
    assert all[|s.blocks|] == head;
    assert cfg.step > 1 ==> all[|s.blocks| + 1] == first;
    assert s.blocks != [] ==> all[|s.blocks| - 1] == Last(s.blocks);
    assert !Linked(all);
  }

  lemma SingleBlockFromNil(cfg: Config, s: State, view: View)
    requires Safe(s) && s.flag.None? && s.buffer == [] && s.cursor.None? && s.blocks == [] && cfg.step == 1
    requires RightNumbers(view)
    ensures Safe(Fetch(cfg, s, view))
  {
  }

  // From a safe state with nothing waiting, a tick is safe against every node if and only if the cursor is
  // known, or the table is empty and a single block is fetched at a time.
  lemma TickSafeExactly(cfg: Config, s: State)
    requires Safe(s) && s.flag.None? && s.buffer == [] && 1 <= cfg.step < U64
    ensures (forall input: TickInput | RightNumbers(input.view) :: Safe(Ticked(cfg, s, input)))
      <==> s.cursor.Some? || (cfg.step == 1 && s.blocks == [])
  {
    if s.cursor.Some? {
      forall input: TickInput | RightNumbers(input.view) ensures Safe(Ticked(cfg, s, input)) {
        TickIsSafe(cfg, s, input);
      }
    } else if cfg.step == 1 && s.blocks == [] {
      forall input: TickInput | RightNumbers(input.view) ensures Safe(Ticked(cfg, s, input)) {
        SingleBlockFromNil(cfg, s, input.view);
        CommitIsSafe(Fetch(cfg, s, input.view), input);
      }
    } else {
      var input := NilCursorJumps(cfg, s);
    }
  }

  lemma {:induction false} WithoutInside(blocks: seq<Header>, n: int)
    requires Linked(blocks) && blocks != [] && blocks[0].number <= n <= Last(blocks).number
    ensures var i := n - blocks[0].number;
      0 <= i < |blocks| && Blocks.Without(blocks, n) == blocks[..i] + blocks[i + 1..]
    decreases |blocks|
  {
    LinkedNumbers(blocks, |blocks| - 1);
    if n == Last(blocks).number {
      Blocks.WithoutTip(blocks);
      assert blocks[..|blocks| - 1] + blocks[|blocks|..] == blocks[..|blocks| - 1];
    } else {
      var init := blocks[..|blocks| - 1];
      assert Last(init) == blocks[|blocks| - 2];
      LinkedNumbers(blocks, |blocks| - 2);
      WithoutInside(init, n);
      hide Linked;
      var i := n - blocks[0].number;
      assert init[..i] + init[i + 1..] + [Last(blocks)] == blocks[..i] + blocks[i + 1..];
    }
  }

  // A pass whose walk stops after one row that can be backed up, with the database up and no business to
  // roll back.
  lemma OneRowPass(s: State, at: int -> Answer, n: int, row: Header) returns (input: Fallback.PassInput)
    requires RightNumbers(View(RpcFailed, at)) && s.flag.Some? && s.flag.value.number == n + 1 && n > 0
    requires at(n).Got? && at(n).header.hash == s.flag.value.parentHash && Blocks.RowAt(s.blocks, n) == Some(row)
    requires Blocks.Insert(s.reorg, [row]).Some? && row.number == n
    ensures input.view == View(RpcFailed, at)
    ensures Fallback.Passed(s, input).blocks == Blocks.Without(s.blocks, n)
  {
    input := Fallback.PassInput(View(RpcFailed, at), Some([]), true, k => false, k => true, true);
    var effect := Fallback.RollBack(s, [row], [], n, n + 1);
    hide Blocks.Consistent;
    assert [row][1..] == [];
    assert Blocks.WithoutAll(s.blocks, [row]) == Blocks.WithoutAll(Blocks.Without(s.blocks, row.number), []);
    assert effect.Done? && effect.value.blocks == Blocks.Without(s.blocks, n);
    Fallback.Retry.TransactionRunsOnce(input.cancelled, input.up, effect);
    assert Fallback.Retry.Outcome(0, 10, input.cancelled, Fallback.Retry.Transaction(input.up, effect)).Succeeded?;
  }

  // The row below the flagged header is strictly inside the stored chain, and the backup table can take it.
  predicate TearsHole(s: State)
    requires s.blocks != [] && s.flag.Some?
  {
    var n := s.flag.value.number - 1;
    && s.blocks[0].number < n < Last(s.blocks).number
    && Blocks.RowAt(s.blocks, n).Some? && Blocks.Insert(s.reorg, [Blocks.RowAt(s.blocks, n).value]).Some?
  }

  // A pass for a flag that has gone stale takes a block out of the middle.
  lemma StaleFlagTearsHole(s: State) returns (input: Fallback.PassInput)
    requires Linked(s.blocks) && Blocks.Consistent(s.blocks) && s.blocks != [] && s.flag.Some? && TearsHole(s)
    ensures RightNumbers(input.view) && !Linked(Fallback.Passed(s, input).blocks)
  {
    var n, base := s.flag.value.number - 1, s.blocks[0].number;
    assert Blocks.ValidRow(s.blocks[0]);
    var at := (k: int) => if k == n then Got(Header(s.flag.value.parentHash, 0, n, 1)) else RpcFailed;
    Blocks.RowAtLinked(s.blocks, n);
    LinkedNumbers(s.blocks, |s.blocks| - 1);
    LinkedNumbers(s.blocks, n - base);
    hide Blocks.Consistent, Blocks.Insert;
    input := OneRowPass(s, at, n, s.blocks[n - base]);
    hide Fallback.Passed;
    WithoutInside(s.blocks, n);
    LinkedNumbers(s.blocks, n - base - 1);
    LinkedNumbers(s.blocks, n - base + 1);
    var after := Blocks.Without(s.blocks, n);
    assert after[n - base - 1] == s.blocks[n - base - 1] && after[n - base] == s.blocks[n - base + 1];
  }

  lemma WalkStartsBelow(view: View, blocks: seq<Header>, header: Header)
    requires RightNumbers(view) && Fallback.WalkBack(view, blocks, header).Found?
    ensures var rows := Fallback.WalkBack(view, blocks, header).rows;
      rows != [] && Blocks.RowAt(blocks, header.number - 1) == Some(rows[0])
  {
  }

  lemma InsertFirst(reorg: seq<Header>, rows: seq<Header>)
    requires rows != []
    ensures Blocks.Insert(reorg, rows).Some? ==> Blocks.Insert(reorg, [rows[0]]).Some?
  {
    var all := reorg + rows;
    PrefixIsConsistent(all, |reorg| + 1);
    assert all[..|reorg| + 1] == reorg + [rows[0]];
  }

  lemma PrefixIsConsistent(rows: seq<Header>, keep: nat)
    requires keep <= |rows|
    ensures Blocks.Consistent(rows) ==> Blocks.Consistent(rows[..keep])
  {
  }

  // Every walk takes the row below the flagged header first, so a pass changes nothing when the backup table
  // refuses that row.
  lemma RefusedPassKeeps(s: State, input: Fallback.PassInput)
    requires RightNumbers(input.view) && s.flag.Some?
    requires var row := Blocks.RowAt(s.blocks, s.flag.value.number - 1);
      row.Some? ==> Blocks.Insert(s.reorg, [row.value]) == None
    ensures Fallback.Passed(s, input).blocks == s.blocks
  {
    var walk := Fallback.WalkBack(input.view, s.blocks, s.flag.value);
    if walk.Found? {
      WalkStartsBelow(input.view, s.blocks, s.flag.value);
      InsertFirst(s.reorg, walk.rows);
      hide Fallback.WalkBack, Blocks.Insert;
      if input.businesses.Some? {
        Fallback.Retry.TransactionRunsOnce(input.cancelled, input.up,
          Fallback.RollBack(s, walk.rows, input.businesses.value, walk.entry.number, s.flag.value.number));
      }
    }
  }

  // At or below the first block, a walk takes the first row or fails.
  lemma LowWalk(view: View, blocks: seq<Header>, header: Header)
    requires RightNumbers(view) && Linked(blocks) && blocks != [] && header.number - 1 <= blocks[0].number
    ensures var walk := Fallback.WalkBack(view, blocks, header);
      walk.Found? ==> walk.rows == [blocks[0]]
  {
    Blocks.RowAtLinked(blocks, header.number - 1);
    Blocks.RowAtLinked(blocks, header.number - 2);
  }

  lemma LowPassIsSafe(s: State, input: Fallback.PassInput)
    requires RightNumbers(input.view) && Linked(s.blocks) && s.blocks != []
    requires s.flag.Some? && s.flag.value.number - 1 <= s.blocks[0].number
    ensures Linked(Fallback.Passed(s, input).blocks)
  {
    Fallback.PassTables(s, input);
    LowWalk(input.view, s.blocks, s.flag.value);
    FirstGone(s.blocks);
    hide Fallback.Passed, Fallback.WalkBack, Blocks.WithoutAll, Linked;
  }

  lemma FirstGone(blocks: seq<Header>)
    requires Linked(blocks) && blocks != []
    ensures Linked(Blocks.WithoutAll(blocks, [blocks[0]]))
  {
    LinkedNumbers(blocks, |blocks| - 1);
    WithoutInside(blocks, blocks[0].number);
    assert [blocks[0]][1..] == [] && blocks[..0] + blocks[1..] == blocks[1..];
    LinkedTail(blocks);
    hide Linked, Blocks.Without;
  }

  // Whatever the node answers, a pass keeps the stored chain linked if and only if the block below the
  // flagged header is not strictly inside the stored chain, or the backup table refuses it: the flag must be
  // handled before the scanner stores more blocks.
  lemma PassSafeExactly(s: State)
    requires Linked(s.blocks) && Blocks.Consistent(s.blocks) && s.blocks != [] && s.flag.Some?
    ensures (forall input: Fallback.PassInput | RightNumbers(input.view) :: Linked(Fallback.Passed(s, input).blocks))
      <==> !TearsHole(s)
  {
    if TearsHole(s) {
      var input := StaleFlagTearsHole(s);
    } else {
      forall input: Fallback.PassInput | RightNumbers(input.view) ensures Linked(Fallback.Passed(s, input).blocks) {
        if s.flag.value.number - 1 <= s.blocks[0].number {
          LowPassIsSafe(s, input);
        } else if s.flag.value.number - 1 < Last(s.blocks).number {
          RefusedPassKeeps(s, input);
        } else {
          PassTakesTop(s, input);
          hide Fallback.Passed;
          var keep := |Fallback.Passed(s, input).blocks|;
          assert Fallback.Passed(s, input).blocks == s.blocks[..keep];
          PrefixIsSound(s.blocks, keep);
        }
      }
    }
  }
}
