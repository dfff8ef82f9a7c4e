/** Exactly-once emission: what runs of ticks store and send, whatever fails in between. */
module Emission {
  import opened Prelude
  import opened Node
  import opened Classify
  import opened Balances
  import opened Synchronizer
  import BatchBlock
  import Blocks

  function Ticks(cfg: Config, s: State, inputs: seq<TickInput>): State
    requires cfg.step < U64
    decreases |inputs|
  {
    if inputs == [] then s else Ticks(cfg, Ticked(cfg, s, inputs[0]), inputs[1..])
  }

  // The blocks one tick fetches: none while a batch waits.
  function FetchedBy(cfg: Config, s: State, view: View): seq<Header>
    requires cfg.step < U64
  {
    if s.buffer == [] then Fetch(cfg, s, view).buffer else []
  }

  // The blocks a run of ticks fetches, in order.
  function FetchedRun(cfg: Config, s: State, inputs: seq<TickInput>): seq<Header>
    requires cfg.step < U64
    decreases |inputs|
  {
    if inputs == [] then [] else
      FetchedBy(cfg, s, inputs[0].view) + FetchedRun(cfg, Ticked(cfg, s, inputs[0]), inputs[1..])
  }

  // The blocks a run of ticks stores, with what was read for each in the attempt that went through.
  function StoredRun(cfg: Config, s: State, inputs: seq<TickInput>): seq<Item>
    requires cfg.step < U64
    decreases |inputs|
  {
    if inputs == [] then [] else
      Processed(Fetch(cfg, s, inputs[0].view), inputs[0]) + StoredRun(cfg, Ticked(cfg, s, inputs[0]),
          inputs[1..])
  }

  // All that was sent to one business.
  function Sent(emitted: seq<map<Business, Batch>>, b: Business): seq<Transaction> {
    if emitted == [] then [] else Sent(emitted[..|emitted| - 1], b) + Stream(Last(emitted), b)
  }

  lemma {:induction false} SentConcat(emitted: seq<map<Business, Batch>>, more: seq<map<Business, Batch>>, b: Business)
    ensures Sent(emitted + more, b) == Sent(emitted, b) + Sent(more, b)
    decreases |more|
  {
    var all := emitted + more;
    if more == [] {
      assert all == emitted;
    } else {
      assert all[..|all| - 1] == emitted + more[..|more| - 1] && Last(all) == Last(more);
      SentConcat(emitted, more[..|more| - 1], b);
    }
  }

  // Between two states: the fetched blocks were stored in order, each once, or wait in the buffer behind
  // those that waited before; and each business was sent exactly the classification of the stored blocks.
  ghost predicate Delivered(s: State, fetched: seq<Header>, stored: seq<Item>, after: State) {
    && after.blocks == s.blocks + HeadersOf(stored)
    && s.buffer + fetched == HeadersOf(stored) + after.buffer
    && s.emitted <= after.emitted
    && forall b :: SentIs(after.emitted[|s.emitted|..], stored, b)
  }

  ghost predicate SentIs(emitted: seq<map<Business, Batch>>, stored: seq<Item>, b: Business) {
    Sent(emitted, b) == Contribution(b, stored)
  }

  lemma DeliveredOnwards(s: State, fetched: seq<Header>, stored: seq<Item>, mid: State,
                         fetchedNext: seq<Header>, storedNext: seq<Item>, after: State)
    requires Delivered(s, fetched, stored, mid) && Delivered(mid, fetchedNext, storedNext, after)
    ensures Delivered(s, fetched + fetchedNext, stored + storedNext, after)
  {
    hide Sent, Contribution;
    assert HeadersOf(stored + storedNext) == HeadersOf(stored) + HeadersOf(storedNext);
    assert s.buffer + (fetched + fetchedNext) == (s.buffer + fetched) + fetchedNext;
    assert (HeadersOf(stored) + mid.buffer) + fetchedNext == HeadersOf(stored) + (mid.buffer + fetchedNext);
    forall b ensures SentIs(after.emitted[|s.emitted|..], stored + storedNext, b) {
      var first, second := mid.emitted[|s.emitted|..], after.emitted[|mid.emitted|..];
      assert after.emitted[|s.emitted|..] == first + second;
      assert SentIs(first, stored, b) && SentIs(second, storedNext, b);
      SentConcat(first, second, b);
      ContributionConcat(b, stored, storedNext);
    }
  }

  lemma SentOne(items: seq<Item>, b: Business)
    ensures var m := Classified(items);
      SentIs(if m == map[] then [] else [m], items, b)
  {
    var m := Classified(items);
    StreamOfClassified(items, b);
    hide Classified;
    if m != map[] {
      assert [m][..0] == [];
      assert Sent([m], b) == [] + Stream(m, b);
    }
  }

  // What a committed batch puts into the channel: nothing if it concerns no business; otherwise one map, with an
  // entry for exactly the businesses it concerns, each with its transactions and the height of its last block.
  lemma CommitEmits(s: State, items: seq<Item>)
    requires items != []
    ensures var news := Commit(s, items).emitted;
      if forall b :: Contribution(b, items) == [] then news == s.emitted
      else
        && |news| == |s.emitted| + 1 && news[..|s.emitted|] == s.emitted
        && forall b ::
             && (b in Last(news) <==> Contribution(b, items) != [])
             && (b in Last(news) ==> Last(news)[b] == Batch(LastHeight(b, items), Contribution(b, items)))
  {
    forall b ensures Contribution(b, items) != [] ==> b in Listed(items) {
      ContributorsAreListed(b, items);
    }
    hide Contribution, LastHeight, Listed;
    var m := Classified(items);
    if b :| Contribution(b, items) != [] {
      assert b in m;
    }
    if m != map[] {
      var b :| b in m;
    }
  }

  // Committing a batch is a delivery that fetches nothing.
  lemma CommitDelivers(s: State, input: TickInput)
    ensures Delivered(s, [], Processed(s, input), Commit(s, Processed(s, input)))
  {
    var items := Processed(s, input);
    var after := Commit(s, items);
    hide Processed, Classified;
    var m := Classified(items);
    var news := after.emitted[|s.emitted|..];
    if items != [] {
      assert HeadersOf(items) == s.buffer;
      assert news == if m == map[] then [] else [m];
      forall b ensures SentIs(news, items, b) {
        SentOne(items, b);
      }
    } else {
      assert HeadersOf(items) == [] && news == [];
      assert forall b :: SentIs([], [], b);
    }
  }

  // Fetching is a delivery that stores and sends nothing.
  lemma FetchDelivers(cfg: Config, s: State, view: View)
    requires cfg.step < U64
    ensures Delivered(s, FetchedBy(cfg, s, view), [], Fetch(cfg, s, view))
  {
  }

  lemma TickDelivers(cfg: Config, s: State, input: TickInput)
    requires cfg.step < U64
    ensures Delivered(s, FetchedBy(cfg, s, input.view), Processed(Fetch(cfg, s, input.view), input),
        Ticked(cfg, s, input))
  {
    hide Delivered, Fetch, FetchedBy, Processed, Commit;
    var fetched := Fetch(cfg, s, input.view);
    FetchDelivers(cfg, s, input.view);
    CommitDelivers(fetched, input);
    DeliveredOnwards(s, FetchedBy(cfg, s, input.view), [], fetched, [], Processed(fetched, input),
        Ticked(cfg, s, input));
    assert FetchedBy(cfg, s, input.view) + [] == FetchedBy(cfg, s, input.view)
        && [] + Processed(fetched, input) == Processed(fetched, input);
  }

  // Exactly-once emission: every run of ticks delivers the blocks as read, with any header request, block
  // read, business query or store failing at any time, a block's transactions answered with an error code
  // standing for none, and whatever the address lookups answer.
  lemma {:induction false} ExactlyOnce(cfg: Config, s: State, inputs: seq<TickInput>)
    requires cfg.step < U64
    ensures Delivered(s, FetchedRun(cfg, s, inputs), StoredRun(cfg, s, inputs),
        Ticks(cfg, s, inputs))
    decreases |inputs|
  {
    if inputs == [] {
      assert HeadersOf([]) == [] && s.emitted[|s.emitted|..] == [];
      assert forall b :: SentIs([], [], b);
    } else {
      hide Delivered;
      var next := Ticked(cfg, s, inputs[0]);
      TickDelivers(cfg, s, inputs[0]);
      ExactlyOnce(cfg, next, inputs[1..]);
      DeliveredOnwards(s, FetchedBy(cfg, s, inputs[0].view),
          Processed(Fetch(cfg, s, inputs[0].view), inputs[0]), next,
        FetchedRun(cfg, next, inputs[1..]), StoredRun(cfg, next, inputs[1..]),
            Ticks(cfg, s, inputs));
    }
  }

  // ---- Missed address lookups and unreported blocks ----

  // The stored blocks stand at different heights, and what was sent is their contribution.
  lemma SentFromDistinctBlocks(cfg: Config, s: State, inputs: seq<TickInput>, b: Business)
    requires cfg.step < U64 && Blocks.Consistent(s.blocks)
    ensures var stored, end := StoredRun(cfg, s, inputs), Ticks(cfg, s, inputs);
      && |s.emitted| <= |end.emitted| && NoDuplicates(NumbersOf(stored))
      && Sent(end.emitted[|s.emitted|..], b) == Contribution(b, stored)
  {
    var stored, end := StoredRun(cfg, s, inputs), Ticks(cfg, s, inputs);
    ExactlyOnce(cfg, s, inputs);
    TicksConsistent(cfg, s, inputs);
    assert SentIs(end.emitted[|s.emitted|..], stored, b);
    hide StoredRun, Ticks, FetchedRun, Contribution, Sent, Blocks.Consistent, HeadersOf;
    HeightsDiffer(s.blocks, stored, end.blocks);
  }

  // A lookup that fails is answered like an unknown address and is not retried. So what a business is sent
  // is what its registered addresses call for in the blocks as read if and only if every transaction of every
  // stored block got the type its registered addresses give it.
  lemma SentAsRegisteredExactly(cfg: Config, s: State, inputs: seq<TickInput>, b: Business)
    requires cfg.step < U64 && Blocks.Consistent(s.blocks)
    ensures var stored, end := StoredRun(cfg, s, inputs), Ticks(cfg, s, inputs);
      && |s.emitted| <= |end.emitted|
      && (Sent(end.emitted[|s.emitted|..], b) == DueContribution(b, stored) <==>
            forall i | 0 <= i < |stored| :: ReadRight(b, stored[i]))
  {
    SentFromDistinctBlocks(cfg, s, inputs, b);
    SentAsDueExactly(b, StoredRun(cfg, s, inputs));
    hide *;
  }

  // A block whose transactions are answered with an error code is stored as empty and is not read again. So
  // from a node that reports a block's transactions or an error code, a business is sent what the stored
  // blocks call for by the chain and the registered addresses if and only if each of them was classified with
  // its transactions and right types, or calls for nothing.
  lemma SentAsOnChainExactly(cfg: Config, s: State, inputs: seq<TickInput>, b: Business, txsAt: TxLists, bookAt: Books)
    requires cfg.step < U64 && Blocks.Consistent(s.blocks)
    requires var stored := StoredRun(cfg, s, inputs);
      forall i | 0 <= i < |stored| :: OfNode(b, stored[i], txsAt, bookAt)
    ensures var stored, end := StoredRun(cfg, s, inputs), Ticks(cfg, s, inputs);
      && |s.emitted| <= |end.emitted|
      && (Sent(end.emitted[|s.emitted|..], b) == OfChain(b, HeadersOf(stored), txsAt, bookAt) <==>
            forall i | 0 <= i < |stored| :: ReadWhole(b, stored[i], txsAt, bookAt))
  {
    SentFromDistinctBlocks(cfg, s, inputs, b);
    SentOfChainExactly(b, StoredRun(cfg, s, inputs), txsAt, bookAt);
    hide *;
  }

  lemma HeightsDiffer(blocks: seq<Header>, stored: seq<Item>, after: seq<Header>)
    requires after == blocks + HeadersOf(stored) && Blocks.Consistent(after)
    ensures NoDuplicates(NumbersOf(stored))
  {
    forall i, j | 0 <= i < j < |stored| ensures NumbersOf(stored)[i] != NumbersOf(stored)[j] {
      var n := |blocks|;
      assert after[n + i] == HeadersOf(stored)[i] && after[n + j] == HeadersOf(stored)[j];
      assert Blocks.Distinct(after[n + i], after[n + j]);
    }
  }

  lemma {:induction false} TicksConsistent(cfg: Config, s: State, inputs: seq<TickInput>)
    requires cfg.step < U64 && Blocks.Consistent(s.blocks)
    ensures Blocks.Consistent(Ticks(cfg, s, inputs).blocks)
    decreases |inputs|
  {
    if inputs != [] {
      hide Classified, Blocks.Consistent, BatchBlock.Next;
      TicksConsistent(cfg, Ticked(cfg, s, inputs[0]), inputs[1..]);
    }
  }

  // One waiting block with one deposit of business "a", and what a tick reads for it.
  function OneBlock(): State {
    State(Some(Header(1, 2, 1, 1)), [Header(1, 2, 1, 1)], None, [], [], [], map[])
  }

  const DEPOSIT := ChainTx(7, 8, 9, 0, 0)

  function OneRead(txs: TxAnswer, missed: bool): TickInput {
    TickInput(View(RpcFailed, n => RpcFailed),
              Reads(k => txs, k => Some(["a"]), (k, b) => Lookups(map[9 := User], (i, side) => missed)), true)
  }

  // A tick that reads nothing for the block stores it, sends nothing and keeps nothing waiting.
  lemma ReadInVain(txs: TxAnswer, missed: bool) returns (item: Item)
    requires txs == TxsUnreported || (txs == Txs([DEPOSIT]) && missed)
    ensures item.header == Header(1, 2, 1, 1) && item.businesses == ["a"] && item.lookups("a").book == map[9 := User]
    ensures item.txs == if txs.Txs? then txs.list else []
    ensures ReadItems(OneBlock().buffer, OneRead(txs, missed).feed, 1) == Some([item])
    ensures var after := Ticked(Config(0, 1, 0), OneBlock(), OneRead(txs, missed));
      after.blocks == [item.header] && after.buffer == [] && after.emitted == []
  {
    var header, feed := OneBlock().buffer[0], OneRead(txs, missed).feed;
    item := ReadOne([header][0], feed, 0).value;
    assert ReadOne([header][0], feed, 0) == Some(item) && [] + [item] == [item];
    assert ReadItems([header], feed, 0) == Some([]);
    assert ReadItems([header], feed, 1) == Some([item]);
    assert [item][..0] == [] && [DEPOSIT][..0] == [];
    assert Blocks.Consistent([] + [header]) && [] + [header] == [header];
    NothingMatched(item.lookups("a"), "a", header, item.txs);
    assert Share("a", item) == [];
    assert Listed([item]) == {"a"};
    assert Contribution("a", [item]) == [];
    assert Classified([item]) == map[];
  }

  lemma OneDeposit(header: Header)
    ensures Matched(Sure(map[9 := User]), "a", header, [DEPOSIT]) == [Labelled("a", header, DEPOSIT, Deposit)]
  {
    assert [DEPOSIT][..0] == [];
    assert Matched(Sure(map[9 := User]), "a", header, []) == [];
  }

  // A deposit lost for good: its lookups fail once, and the block is stored and out of the buffer.
  lemma MissedLookupLosesDeposit() returns (input: TickInput, item: Item)
    ensures input.feed.txs(0) == Txs([DEPOSIT]) && ReadItems(OneBlock().buffer, input.feed, 1) == Some([item])
    ensures DueContribution("a", [item]) == [Labelled("a", item.header, DEPOSIT, Deposit)]
    ensures var after := Ticked(Config(0, 1, 0), OneBlock(), input);
      after.blocks == [item.header] && after.buffer == [] && after.emitted == []
  {
    input := OneRead(Txs([DEPOSIT]), true);
    item := ReadInVain(Txs([DEPOSIT]), true);
    OneDeposit(item.header);
    hide Ticked, Matched, ReadItems;
    assert [item][..0] == [];
  }

  // A deposit lost for good: the node answers the request for the block's transactions with an error code
  // once, and the block is stored as empty and out of the buffer.
  lemma UnreportedBlockLosesDeposit() returns (input: TickInput, item: Item)
    ensures input.feed.txs(0).TxsUnreported? && ReadItems(OneBlock().buffer, input.feed, 1) == Some([item])
    ensures item.lookups("a").book == map[9 := User] && "a" in item.businesses
    ensures OfChain("a", [item.header], n => [DEPOSIT], n => map[9 := User]) ==
      [Labelled("a", item.header, DEPOSIT, Deposit)]
    ensures var after := Ticked(Config(0, 1, 0), OneBlock(), input);
      after.blocks == [item.header] && after.buffer == [] && after.emitted == []
  {
    input := OneRead(TxsUnreported, false);
    item := ReadInVain(TxsUnreported, false);
    OneDeposit(item.header);
    hide Ticked, Matched, ReadItems;
    assert [item.header][..0] == [];
  }

  // And a move from the hot to the cold wallet comes out as a withdrawal.
  lemma MissedLookupMistypes(tx: ChainTx) returns (l: Lookups)
    requires tx.from != tx.to
    ensures DueType(l.book, tx) == Hot2Cold && TypeAt(l, 0, tx) == Withdraw
  {
    l := Lookups(map[tx.from := Hot, tx.to := Cold], (i, side) => side == Recipient);
  }
}
