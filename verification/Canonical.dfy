/** The ledger follows the node's chain: recovery, catching up, emission and the finder put together. */
module Canonical {
  import opened Prelude
  import opened Node
  import opened Classify
  import opened Records
  import opened Database
  import opened Finder
  import opened Synchronizer
  import opened Recovery
  import opened Convergence
  import Balances
  import Blocks
  import Businesses
  import Emission
  import Retry
  import BatchBlock
  import BigInt

  // ---- The finder over a run of emitted batches ----

  // The batches in order; the finder stops for good at the first that fails.
  function HandleAll(ledgers: Ledgers, emitted: seq<map<Business, Batch>>, answers: seq<Answers>): Option<Ledgers>
    requires |answers| == |emitted|
  {
    if emitted == [] then Some(ledgers) else
      match HandleAll(ledgers, emitted[..|emitted| - 1], answers[..|answers| - 1])
      case None => None
      case Some(mid) =>
        var result := BatchHandled(mid, Last(emitted), Last(answers));
        if result.0 then Some(result.1) else None
  }

  // The listed businesses are distinct, and b is one of them.
  predicate Lists(a: Answers, b: Business) {
    a.businesses.Some? ==> NoDuplicates(a.businesses.value) && b in a.businesses.value
  }

  function TxsOf(items: seq<Resolved>): seq<Transaction> {
    seq(|items|, i requires 0 <= i < |items| => items[i].tx)
  }

  // The tables of a ledger after some transactions were handled: one flow row for each, one deposit for each
  // deposit, and requests still filed where they were.
  ghost predicate Grown(l: Ledger, after: Ledger, handled: seq<Resolved>) {
    && after.flows == l.flows + FlowsOf(handled) && after.deposits == l.deposits + DepositsOf(handled)
    && (AtCreation(l.withdraws) ==> AtCreation(after.withdraws))
    && (AtCreation(l.internals) ==> AtCreation(after.internals))
  }

  lemma PersistGrows(l: Ledger, items: seq<Resolved>)
    requires Persist(l, items).Done?
    ensures Grown(l, Persist(l, items).value, items)
  {
    hide Balances.ApplyAll;
  }

  lemma {:induction false} DepositsConcat(x: seq<Resolved>, y: seq<Resolved>)
    ensures DepositsOf(x + y) == DepositsOf(x) + DepositsOf(y)
    decreases |y|
  {
    if y == [] {
      assert x + y == x;
    } else {
      assert (x + y)[..|x + y| - 1] == x + y[..|y| - 1];
      DepositsConcat(x, y[..|y| - 1]);
    }
  }

  lemma GrownOnwards(l: Ledger, mid: Ledger, end: Ledger, x: seq<Resolved>, y: seq<Resolved>)
    requires Grown(l, mid, x) && Grown(mid, end, y)
    ensures Grown(l, end, x + y)
  {
    hide AtCreation, DepositsOf;
    DepositsConcat(x, y);
    assert FlowsOf(x + y) == FlowsOf(x) + FlowsOf(y);
  }

  // A batch handled to its end does for business b what its own share does, once.
  lemma BatchForOne(ledgers: Ledgers, batch: map<Business, Batch>, a: Answers, b: Business)
    returns (items: seq<Resolved>)
    requires BatchHandled(ledgers, batch, a).0 && Lists(a, b) && b in ledgers
    ensures b in BatchHandled(ledgers, batch, a).1 && TxsOf(items) == Stream(batch, b)
    ensures var after := BatchHandled(ledgers, batch, a).1[b];
      if b in batch then Persist(ledgers[b], items) == Retry.Done(after) else items == [] && after == ledgers[b]
  {
    hide HandleOne, Persist;
    var list := a.businesses.value;
    var k := BatchIsAtomic(ledgers, list, batch, a);
    var wanted := Wanted(list, batch);
    assert wanted[..k] == wanted;
    WantedFrom(list, batch, b);
    items := [];
    if b in batch {
      var j :| 0 <= j < |wanted| && wanted[j] == b;
      AppliedOnce(ledgers[b], b, batch[b], a);
      items := Resolve(batch[b].transactions, a.info(b), |batch[b].transactions|).value;
    }
  }

  lemma {:induction false} TxsGenuine(items: seq<Resolved>, txs: seq<Transaction>)
    requires TxsOf(items) == txs && Genuine(txs)
    ensures forall i | 0 <= i < |items| :: Balances.MovesWithin(items[i].tx.kind) ==> items[i].tx.from != items[i].tx.to
  {
    forall i | 0 <= i < |items|
      ensures Balances.MovesWithin(items[i].tx.kind) ==> items[i].tx.from != items[i].tx.to
    {
      assert txs[i] == items[i].tx;
    }
  }

  lemma GenuineParts(x: seq<Transaction>, y: seq<Transaction>)
    requires Genuine(x + y)
    ensures Genuine(x) && Genuine(y)
  {
    assert forall i | 0 <= i < |x| :: x[i] == (x + y)[i];
    assert forall i | 0 <= i < |y| :: y[i] == (x + y)[|x| + i];
  }

  lemma BatchReplays(opening: seq<Balances.Row>, l: Ledger, after: Ledger, items: seq<Resolved>,
                     batch: map<Business, Batch>, b: Business)
    requires Replays(opening, l) && TxsOf(items) == Stream(batch, b) && Genuine(Stream(batch, b))
    requires if b in batch then Persist(l, items) == Retry.Done(after) else items == [] && after == l
    ensures Replays(opening, after) && Live(after.flows) == Live(l.flows) + FlowsOf(items) && Grown(l, after, items)
  {
    if items == [] {
      assert l.flows + FlowsOf(items) == l.flows && l.deposits + DepositsOf(items) == l.deposits;
    }
    hide Replays, Persist, Live;
    if b in batch {
      TxsGenuine(items, Stream(batch, b));
      PersistGrows(l, items);
      hide Grown;
      PersistExtendsReplay(opening, l, items);
    } else {
      assert Live(l.flows) + FlowsOf([]) == Live(l.flows);
    }
  }

  // Handling a run of batches appends one flow row for each transaction sent to the business, in order, and
  // the balances stay the replay of the live rows.
  lemma {:induction false} RunForOne(opening: seq<Balances.Row>, ledgers: Ledgers, emitted: seq<map<Business, Batch>>,
                                     answers: seq<Answers>, b: Business) returns (handled: seq<Resolved>)
    requires |answers| == |emitted| && HandleAll(ledgers, emitted, answers).Some?
    requires forall a | a in answers :: Lists(a, b)
    requires b in ledgers && Replays(opening, ledgers[b]) && Genuine(Emission.Sent(emitted, b))
    ensures b in HandleAll(ledgers, emitted, answers).value && TxsOf(handled) == Emission.Sent(emitted, b)
    ensures var after := HandleAll(ledgers, emitted, answers).value[b];
      && Replays(opening, after) && Live(after.flows) == Live(ledgers[b].flows) + FlowsOf(handled)
      && Grown(ledgers[b], after, handled)
    decreases |emitted|
  {
    handled := [];
    if emitted == [] {
      assert Live(ledgers[b].flows) + FlowsOf([]) == Live(ledgers[b].flows);
      assert ledgers[b].flows + FlowsOf([]) == ledgers[b].flows;
      assert ledgers[b].deposits + DepositsOf([]) == ledgers[b].deposits;
    } else {
      hide Replays, BatchHandled, Live, Lists, Stream, Genuine, Grown;
      var init, last, rest := emitted[..|emitted| - 1], Last(emitted), answers[..|answers| - 1];
      var sent, stream := Emission.Sent(init, b), Stream(last, b);
      assert Emission.Sent(emitted, b) == sent + stream;
      GenuineParts(sent, stream);
      assert Last(answers) in answers && forall a | a in rest :: a in answers;
      var mid := HandleAll(ledgers, init, rest).value;
      var after := BatchHandled(mid, last, Last(answers)).1;
      assert HandleAll(ledgers, emitted, answers) == Some(after);
      hide HandleAll, Emission.Sent;
      handled := RunForOne(opening, ledgers, init, rest, b);
      var items := BatchStep(opening, mid, last, Last(answers), b);
      hide *;
      GrownOnwards(ledgers[b], mid[b], after[b], handled, items);
      Joined(Live(ledgers[b].flows), handled, items, Live(mid[b].flows), Live(after[b].flows));
      assert TxsOf(handled + items) == sent + stream by {
        TxsJoined(handled, items);
      }
      handled := handled + items;
    }
  }

  lemma TxsJoined(x: seq<Resolved>, y: seq<Resolved>)
    ensures TxsOf(x + y) == TxsOf(x) + TxsOf(y)
  {
  }

  lemma Joined(start: seq<Flow>, x: seq<Resolved>, y: seq<Resolved>, mid: seq<Flow>, end: seq<Flow>)
    requires mid == start + FlowsOf(x) && end == mid + FlowsOf(y)
    ensures end == start + FlowsOf(x + y)
  {
    assert FlowsOf(x + y) == FlowsOf(x) + FlowsOf(y);
  }

  lemma BatchStep(opening: seq<Balances.Row>, ledgers: Ledgers, batch: map<Business, Batch>, a: Answers, b: Business)
    returns (items: seq<Resolved>)
    requires BatchHandled(ledgers, batch, a).0 && Lists(a, b) && b in ledgers
    requires Replays(opening, ledgers[b]) && Genuine(Stream(batch, b))
    ensures b in BatchHandled(ledgers, batch, a).1 && TxsOf(items) == Stream(batch, b)
    ensures var after := BatchHandled(ledgers, batch, a).1[b];
      && Replays(opening, after) && Live(after.flows) == Live(ledgers[b].flows) + FlowsOf(items)
      && Grown(ledgers[b], after, items)
  {
    hide Replays, Persist, BatchHandled, Live, Lists, Genuine, Grown;
    items := BatchForOne(ledgers, batch, a, b);
    BatchReplays(opening, ledgers[b], BatchHandled(ledgers, batch, a).1[b], items, batch, b);
  }

  // ---- The ledger follows the chain ----

  lemma {:induction false} TicksKeepLedgers(cfg: Config, s: State, inputs: seq<TickInput>)
    requires cfg.step < U64
    ensures Emission.Ticks(cfg, s, inputs).ledgers == s.ledgers
    decreases |inputs|
  {
    if inputs != [] {
      hide Classified, BatchBlock.Next;
      TicksKeepLedgers(cfg, Ticked(cfg, s, inputs[0]), inputs[1..]);
    }
  }

  // What is sent after the recovery.
  function News(cfg: Config, s: State, rounds: seq<Round>, inputs: seq<TickInput>): seq<map<Business, Batch>>
    requires cfg.step < U64 && RightRounds(rounds)
  {
    var mid := Rounds(cfg, s, rounds);
    var end := Emission.Ticks(cfg, mid, inputs);
    if |mid.emitted| <= |end.emitted| then end.emitted[|mid.emitted|..] else []
  }

  // The ledgers when the finder has handled it; None when one batch fails.
  function Final(cfg: Config, s: State, rounds: seq<Round>, inputs: seq<TickInput>,
                 answers: seq<Answers>): Option<Ledgers>
    requires cfg.step < U64 && RightRounds(rounds)
  {
    if |answers| != |News(cfg, s, rounds, inputs)| then None
    else HandleAll(Rounds(cfg, s, rounds).ledgers, News(cfg, s, rounds, inputs), answers)
  }

  function StoredSince(cfg: Config, s: State, rounds: seq<Round>, inputs: seq<TickInput>): seq<Item>
    requires cfg.step < U64 && RightRounds(rounds)
  {
    Emission.StoredRun(cfg, Rounds(cfg, s, rounds), inputs)
  }

  // Under the premises of `ConvergesToChain`: the blocks stored after the recovery are exactly the chain's
  // from a + 1 to the confirmed head, and when the finder has handled all that was sent since, the business's
  // live flow rows are those up to height a that survived, followed by exactly one row for each transaction
  // that those blocks contribute to the business, in order; and the balances are their replay.
  lemma LedgerFollowsChain(cfg: Config, chain: int -> Header, head: int, opening: seq<Balances.Row>, b: Business,
                           keep: nat, s: State, rounds: seq<Round>, inputs: seq<TickInput>, a: int, gap: nat,
                           answers: seq<Answers>)
    returns (stored: seq<Item>, handled: seq<Resolved>)
    requires ConvergencePremises(cfg, chain, head, opening, b, keep, s, rounds, inputs, a, gap)
    requires Final(cfg, s, rounds, inputs, answers).Some? && forall x | x in answers :: Lists(x, b)
    ensures stored == StoredSince(cfg, s, rounds, inputs)
    ensures HeadersOf(stored) == Above(chain, a, gap)
    ensures TxsOf(handled) == Contribution(b, stored)
    ensures var final := Final(cfg, s, rounds, inputs, answers).value;
      && b in s.ledgers && b in Rounds(cfg, s, rounds).ledgers && b in final
      && Live(final[b].flows) == LiveUpTo(s.ledgers[b].flows, a) + FlowsOf(handled)
      && Replays(opening, final[b])
      && Grown(Rounds(cfg, s, rounds).ledgers[b], final[b], handled)
  {
    var mid := Rounds(cfg, s, rounds);
    var end := Emission.Ticks(cfg, mid, inputs);
    stored := Emission.StoredRun(cfg, mid, inputs);
    RecoversInOrder(cfg, chain, opening, b, keep, keep, s, rounds);
    ConvergesToChain(cfg, chain, head, opening, b, keep, s, rounds, inputs, a, gap);
    Emission.ExactlyOnce(cfg, mid, inputs);
    ContributionIsGenuine(b, stored);
    LiveRolledBack(s.ledgers[b].flows, a);
    assert Emission.SentIs(end.emitted[|mid.emitted|..], stored, b);
    assert mid.blocks == s.blocks[..keep] && end.blocks == s.blocks[..keep] + Above(chain, a, gap);
    hide *;
    TailsEqual(s.blocks[..keep], HeadersOf(stored), Above(chain, a, gap), end.blocks);
    handled := RunForOne(opening, mid.ledgers, News(cfg, s, rounds, inputs), answers, b);
  }

  lemma TailsEqual(start: seq<Header>, x: seq<Header>, y: seq<Header>, whole: seq<Header>)
    requires whole == start + x && whole == start + y
    ensures x == y
  {
    assert x == whole[|start|..] && y == whole[|start|..];
  }

  // The ledger is the chain's: from a node that reported each block's transactions or an error code for them,
  // the rows added since the recovery carry exactly the chain's transactions of heights a + 1 to the confirmed
  // head that concern the business, each once and in order, if and only if each of those blocks was classified
  // with its transactions and right types, or concerns the business in nothing.
  lemma LedgerIsOfChain(cfg: Config, chain: int -> Header, head: int, opening: seq<Balances.Row>, b: Business,
                        keep: nat, s: State, rounds: seq<Round>, inputs: seq<TickInput>, a: int, gap: nat,
                        answers: seq<Answers>, txsAt: TxLists, bookAt: Books)
    returns (stored: seq<Item>, handled: seq<Resolved>)
    requires ConvergencePremises(cfg, chain, head, opening, b, keep, s, rounds, inputs, a, gap)
    requires Final(cfg, s, rounds, inputs, answers).Some? && forall x | x in answers :: Lists(x, b)
    requires var stored := StoredSince(cfg, s, rounds, inputs);
      forall i | 0 <= i < |stored| :: OfNode(b, stored[i], txsAt, bookAt)
    ensures stored == StoredSince(cfg, s, rounds, inputs)
    ensures TxsOf(handled) == OfChain(b, Above(chain, a, gap), txsAt, bookAt) <==>
      forall i | 0 <= i < |stored| :: ReadWhole(b, stored[i], txsAt, bookAt)
    ensures var final := Final(cfg, s, rounds, inputs, answers).value;
      && b in s.ledgers && b in final && Replays(opening, final[b])
      && Live(final[b].flows) == LiveUpTo(s.ledgers[b].flows, a) + FlowsOf(handled)
  {
    stored, handled := LedgerFollowsChain(cfg, chain, head, opening, b, keep, s, rounds, inputs, a, gap, answers);
    AIsPositive(cfg, chain, head, opening, b, keep, s, rounds, inputs, a, gap);
    hide *;
    StoredHeights(chain, a, gap, stored);
    NumbersDiffer(stored, a);
    SentOfChainExactly(b, stored, txsAt, bookAt);
  }

  lemma AIsPositive(cfg: Config, chain: int -> Header, head: int, opening: seq<Balances.Row>, b: Business,
                    keep: nat, s: State, rounds: seq<Round>, inputs: seq<TickInput>, a: int, gap: nat)
    requires ConvergencePremises(cfg, chain, head, opening, b, keep, s, rounds, inputs, a, gap)
    ensures a > 0 && IsChain(chain)
  {
    assert Ready(opening, s.ledgers[b], a, Last(s.blocks).number);
  }

  lemma NumbersDiffer(stored: seq<Item>, a: int)
    requires forall i | 0 <= i < |stored| :: stored[i].header.number == a + 1 + i
    ensures NoDuplicates(NumbersOf(stored))
  {
    assert forall i | 0 <= i < |stored| :: NumbersOf(stored)[i] == a + 1 + i;
  }

  // ---- Ready for the next reorganisation ----

  // Strictly ascending heights above `low` and up to `high`.
  ghost predicate Climbs(heights: seq<int>, low: int, high: int) {
    && (forall i | 0 <= i < |heights| :: low < heights[i] <= high)
    && (forall i, j | 0 <= i < j < |heights| :: heights[i] < heights[j])
  }

  function HeightsOf<T>(rows: seq<Record<T>>): seq<int> {
    seq(|rows|, i requires 0 <= i < |rows| => rows[i].block)
  }

  lemma ClimbsOn(heights: seq<int>, low: int, n: int, high: int)
    requires Climbs(heights, low, n - 1) && low < n <= high
    ensures Climbs(heights, low, high) && Climbs(heights + [n], low, high)
  {
  }

  lemma ClimbsInit(init: seq<int>, n: int, low: int, high: int)
    requires Climbs(init + [n], low, high)
    ensures Climbs(init, low, n - 1) && low < n <= high
  {
    assert (init + [n])[|init|] == n;
    assert forall i | 0 <= i < |init| :: (init + [n])[i] == init[i];
  }

  lemma {:induction false} DepositsClimb(items: seq<Resolved>, low: int, high: int)
    requires Climbs(HeightsOf(FlowsOf(items)), low, high)
    ensures Climbs(HeightsOf(DepositsOf(items)), low, high)
  {
    hide Climbs;
    if items != [] {
      var init, n := items[..|items| - 1], Last(items).tx.blockNumber;
      assert HeightsOf(FlowsOf(items)) == HeightsOf(FlowsOf(init)) + [n];
      ClimbsInit(HeightsOf(FlowsOf(init)), n, low, high);
      DepositsClimb(init, low, n - 1);
      ClimbsOn(HeightsOf(DepositsOf(init)), low, n, high);
      assert DepositsOf(items) == DepositsOf(init) ||
        HeightsOf(DepositsOf(items)) == HeightsOf(DepositsOf(init)) + [n];
    } else {
      assert HeightsOf(DepositsOf(items)) == HeightsOf(FlowsOf(items));
    }
  }

  // No row above height t is above height a2.
  ghost predicate BoundedAbove<T>(rows: seq<Record<T>>, t: int, a2: int) {
    forall i | 0 <= i < |rows| && rows[i].block > t :: rows[i].block <= a2
  }

  // Rows at risk between a2 and t2 after more rows were appended, all above t and one per height.
  lemma OnePerHeightGrows<T>(rows: seq<Record<T>>, more: seq<Record<T>>, a: int, t: int, a2: int, t2: int)
    requires OnePerHeight(rows, a, t) && Climbs(HeightsOf(more), t, t2) && a <= a2 && t <= t2
    requires BoundedAbove(rows, t, a2)
    ensures OnePerHeight(rows + more, a2, t2)
  {
    var all := rows + more;
    assert forall i | 0 <= i < |more| :: more[i].block == HeightsOf(more)[i];
    forall n | a2 < n <= t2 ensures AtMostOneAt(all, n) {
      assert n <= t ==> AtMostOneAt(rows, n);
    }
  }

  lemma OrderGrows<T>(rows: seq<Record<T>>, more: seq<Record<T>>, a: int, t: int, a2: int, t2: int)
    requires SettledAbove(rows, t) && Ascending(rows) && Climbs(HeightsOf(more), t, t2)
    requires forall i | 0 <= i < |more| :: more[i].status.Success?
    requires BoundedAbove(rows, t, a2)
    requires a <= a2 && forall i | 0 <= i < |rows| && a < rows[i].block <= t :: rows[i].status.Success?
    ensures Ascending(rows + more)
    ensures forall i | 0 <= i < |rows + more| && a2 < (rows + more)[i].block <= t2 :: (rows + more)[i].status.Success?
  {
    assert forall i | 0 <= i < |more| :: more[i].block == HeightsOf(more)[i];
  }

  // Handling transactions at ascending heights above t, one for each height, leaves a ledger that was ready up
  // to t ready up to t2, for a reorganisation down to any a2 above the heights rolled back before.
  lemma ReadyGrows(opening: seq<Balances.Row>, l: Ledger, after: Ledger, handled: seq<Resolved>,
                   a: int, t: int, a2: int, t2: int)
    requires Ready(opening, l, a, t) && Grown(l, after, handled) && Replays(opening, after)
    requires Climbs(HeightsOf(FlowsOf(handled)), t, t2) && a <= a2 && t <= t2
    requires BoundedAbove(l.flows, t, a2) && BoundedAbove(l.deposits, t, a2)
    ensures Ready(opening, after, a2, t2)
  {
    DepositsClimb(handled, t, t2);
    hide Replays, Climbs;
    OnePerHeightGrows(l.flows, FlowsOf(handled), a, t, a2, t2);
    OnePerHeightGrows(l.deposits, DepositsOf(handled), a, t, a2, t2);
    OrderGrows(l.flows, FlowsOf(handled), a, t, a2, t2);
    hide OnePerHeight, Ascending, AtCreation;
  }

  // Blocks of ascending heights that contribute at most one transaction each.
  lemma {:induction false} ContributionClimbs(b: Business, items: seq<Item>, low: int, heights: seq<int>)
    requires forall i | 0 <= i < |items| :: |Share(b, items[i])| <= 1 && items[i].header.number == low + 1 + i
    requires |heights| == |Contribution(b, items)|
    requires forall i | 0 <= i < |heights| :: heights[i] == Contribution(b, items)[i].blockNumber
    ensures Climbs(heights, low, low + |items|)
  {
    hide Share;
    if |items| > 0 {
      var init, item := items[..|items| - 1], Last(items);
      var k := |Contribution(b, init)|;
      assert forall i | 0 <= i < |init| :: init[i] == items[i];
      ShareHeight(b, item);
      ContributionClimbs(b, init, low, heights[..k]);
      assert |Share(b, item)| == 1 ==> heights[k] == low + |items|;
      assert heights == heights[..k] + heights[k..];
    }
  }

  lemma ShareHeight(b: Business, item: Item)
    ensures forall i | 0 <= i < |Share(b, item)| :: Share(b, item)[i].blockNumber == item.header.number
  {
    MatchedIsGenuine(item.lookups(b), b, item.header, item.txs);
    assert forall i | 0 <= i < |Share(b, item)| :: Share(b, item)[i] in Share(b, item);
  }

  // After the recovery the ledger is ready at height a.
  lemma RecoveredIsReady(opening: seq<Balances.Row>, l: Ledger, after: Ledger, a: int, t: int, a2: int)
    requires Ready(opening, l, a, t) && Replays(opening, after)
    requires after.flows == RolledBackTo(l.flows, a) && after.deposits == RolledBackTo(l.deposits, a)
    requires after.withdraws == l.withdraws && after.internals == l.internals
    requires BoundedAbove(l.flows, a, a2) && BoundedAbove(l.deposits, a, a2)
    ensures Ready(opening, after, a, a) && BoundedAbove(after.flows, a, a2) && BoundedAbove(after.deposits, a, a2)
  {
    hide Replays;
  }

  // So a recovered ledger that followed the chain is ready for the next reorganisation, when each block holds
  // at most one transaction of the business and that reorganisation stays above all heights rolled back so far.
  lemma ReadyAgain(cfg: Config, chain: int -> Header, head: int, opening: seq<Balances.Row>, b: Business,
                   keep: nat, s: State, rounds: seq<Round>, inputs: seq<TickInput>, a: int, gap: nat,
                   answers: seq<Answers>, a2: int, top: int)
    requires ConvergencePremises(cfg, chain, head, opening, b, keep, s, rounds, inputs, a, gap)
    requires Final(cfg, s, rounds, inputs, answers).Some? && forall x | x in answers :: Lists(x, b)
    requires var stored := StoredSince(cfg, s, rounds, inputs);
      forall i | 0 <= i < |stored| :: |Share(b, stored[i])| <= 1
    requires a <= a2 && b in s.ledgers && top == head - cfg.depth
    requires BoundedAbove(s.ledgers[b].flows, a, a2) && BoundedAbove(s.ledgers[b].deposits, a, a2)
    ensures var final := Final(cfg, s, rounds, inputs, answers).value;
      b in final && Ready(opening, final[b], a2, top)
  {
    var stored, handled := LedgerFollowsChain(cfg, chain, head, opening, b, keep, s, rounds, inputs, a, gap, answers);
    var mid, final := Rounds(cfg, s, rounds).ledgers[b], Final(cfg, s, rounds, inputs, answers).value[b];
    MidIsReady(cfg, chain, head, opening, b, keep, s, rounds, inputs, a, gap, a2);
    assert IsChain(chain) && top == a + gap;
    hide *;
    StoredHeights(chain, a, gap, stored);
    HandledClimbs(b, stored, handled, a, top);
    ReadyGrows(opening, mid, final, handled, a, a, a2, top);
  }

  lemma MidIsReady(cfg: Config, chain: int -> Header, head: int, opening: seq<Balances.Row>, b: Business,
                   keep: nat, s: State, rounds: seq<Round>, inputs: seq<TickInput>, a: int, gap: nat, a2: int)
    requires ConvergencePremises(cfg, chain, head, opening, b, keep, s, rounds, inputs, a, gap) && b in s.ledgers
    requires BoundedAbove(s.ledgers[b].flows, a, a2) && BoundedAbove(s.ledgers[b].deposits, a, a2)
    ensures b in Rounds(cfg, s, rounds).ledgers && a > 0
    ensures var mid := Rounds(cfg, s, rounds).ledgers[b];
      Ready(opening, mid, a, a) && BoundedAbove(mid.flows, a, a2) && BoundedAbove(mid.deposits, a, a2)
  {
    RecoversInOrder(cfg, chain, opening, b, keep, keep, s, rounds);
    var mid := Rounds(cfg, s, rounds).ledgers[b];
    assert Ready(opening, s.ledgers[b], a, Last(s.blocks).number) && Replays(opening, mid);
    assert a > 0;
    assert mid.flows == RolledBackTo(s.ledgers[b].flows, a) && mid.deposits == RolledBackTo(s.ledgers[b].deposits, a);
    assert mid.withdraws == s.ledgers[b].withdraws && mid.internals == s.ledgers[b].internals;
    hide *;
    RecoveredIsReady(opening, s.ledgers[b], mid, a, Last(s.blocks).number, a2);
  }

  lemma HandledClimbs(b: Business, stored: seq<Item>, handled: seq<Resolved>, a: int, top: int)
    requires TxsOf(handled) == Contribution(b, stored) && top == a + |stored|
    requires forall i | 0 <= i < |stored| :: |Share(b, stored[i])| <= 1 && stored[i].header.number == a + 1 + i
    ensures Climbs(HeightsOf(FlowsOf(handled)), a, top)
  {
    assert forall i | 0 <= i < |handled| :: HeightsOf(FlowsOf(handled))[i] == TxsOf(handled)[i].blockNumber;
    ContributionClimbs(b, stored, a, HeightsOf(FlowsOf(handled)));
  }

  lemma StoredHeights(chain: int -> Header, a: int, gap: nat, stored: seq<Item>)
    requires IsChain(chain) && a >= 0 && HeadersOf(stored) == Above(chain, a, gap)
    ensures |stored| == gap && forall i | 0 <= i < |stored| :: stored[i].header.number == a + 1 + i
  {
    forall i | 0 <= i < |stored| ensures stored[i].header.number == a + 1 + i {
      assert stored[i].header == HeadersOf(stored)[i];
    }
  }

  // ---- An instance ----

  // A node that reports one more deposit of business "a", in block 2, to a scanner that takes two blocks at a
  // time.
  const CFG := Config(0, 2, 0)
  const AGAIN := ChainTx(11, 8, 7, 0, 0)

  function CatchUp(): TickInput {
    TickInput(Businesses.NodeView(),
              Reads(k => Txs(if k == 0 then [AGAIN] else []), k => Some(["a"]),
                    (k, b) => Sure(map[7 := Balances.User])),
              true)
  }

  // A finder whose requests are answered.
  function Plain(): Answers {
    Answers(Some(["a"]), b => (k => Found(5, 0)), b => (k => false), b => (k => true))
  }

  // The premises can be met: the state in which two businesses get stuck recovers when "a" is the only one,
  // the scanner then stores two blocks in one tick, and the finder handles the deposit they hold.
  lemma PremisesAreMet() returns (opening: seq<Balances.Row>, rounds: seq<Round>)
    ensures ConvergencePremises(CFG, Businesses.ChainOf, 3, opening, "a", 1, Businesses.StuckState(),
                                rounds, [CatchUp()], 1, 2)
    ensures Final(CFG, Businesses.StuckState(), rounds, [CatchUp()], [Plain()]).Some? && Lists(Plain(), "a")
    ensures Contribution("a", StoredSince(CFG, Businesses.StuckState(), rounds, [CatchUp()])) ==
      [Labelled("a", Businesses.ChainOf(2), AGAIN, Balances.Deposit)]
  {
    opening := [Balances.Row(7, 0, Balances.User, 0, 0)];
    var r := Businesses.SomeRound(CFG, ["a"]);
    rounds := [r];
    var s, mid := Businesses.StuckState(), Rounds(CFG, Businesses.StuckState(), [r]);
    PremisesHold(opening, r);
    MidState(opening, r, mid);
    hide *;
    CatchUpTick(mid);
    var batch := Batch(2, [Labelled("a", Businesses.ChainOf(2), AGAIN, Balances.Deposit)]);
    BatchTaken(mid.ledgers, batch);
    HandledOnce(s, rounds, mid, map["a" := batch]);
  }

  lemma PremisesHold(opening: seq<Balances.Row>, r: Round)
    requires opening == [Balances.Row(7, 0, Balances.User, 0, 0)]
    requires Settled(CFG, Businesses.ChainOf, 2, ["a"], r)
    ensures ConvergencePremises(CFG, Businesses.ChainOf, 3, opening, "a", 1, Businesses.StuckState(),
                                [r], [CatchUp()], 1, 2)
    ensures Lists(Plain(), "a")
  {
    SettledIsRight(r);
    StuckIsOrphaned(opening);
    StuckBlocks();
    CatchUpWorks();
    hide Orphaned, Settled, Works, Backupable, Blocks.Consistent, RightNumbers;
  }

  lemma MidState(opening: seq<Balances.Row>, r: Round, mid: State)
    requires opening == [Balances.Row(7, 0, Balances.User, 0, 0)]
    requires ConvergencePremises(CFG, Businesses.ChainOf, 3, opening, "a", 1, Businesses.StuckState(),
                                 [r], [CatchUp()], 1, 2)
    requires mid == Rounds(CFG, Businesses.StuckState(), [r])
    ensures mid.blocks == [Businesses.ChainOf(1)] && mid.cursor == Some(Businesses.ChainOf(1))
    ensures mid.buffer == [] && mid.flag.None? && mid.emitted == []
    ensures "a" in mid.ledgers && Balances.Unlocked(mid.ledgers["a"].balances)
    ensures Balances.Value(mid.ledgers["a"].balances, Balances.Cell(7, 0)) == 0
  {
    hide Orphaned, Settled, Works, Backupable, Blocks.Consistent, RightNumbers, Replays, Rounds, Balances.Value;
    var s := Businesses.StuckState();
    StuckBlocks();
    RecoversInOrder(CFG, Businesses.ChainOf, opening, "a", 1, 1, s, [r]);
    OrphanGone(opening, s.ledgers["a"], mid.ledgers["a"]);
  }

  lemma SettledIsRight(r: Round)
    requires Settled(CFG, Businesses.ChainOf, 2, ["a"], r)
    ensures RightNumbers(r.pass.view)
  {
  }

  lemma StuckBlocks()
    ensures var s := Businesses.StuckState();
      && s.blocks == [Businesses.ChainOf(1), Header(1, 4, 2, 1)] && s.blocks[0].number == 1
      && s.blocks[..1] == [Businesses.ChainOf(1)]
      && s.buffer == [] && s.flag.None? && s.emitted == [] && Backupable(s.reorg, s.blocks[1..])
      && Blocks.Consistent(s.blocks[..1] + Above(Businesses.ChainOf, 1, 2))
  {
    var s := Businesses.StuckState();
    assert s.blocks[..1] + Above(Businesses.ChainOf, 1, 2) ==
      [Businesses.ChainOf(1), Businesses.ChainOf(2), Businesses.ChainOf(3)];
  }

  lemma CatchUpWorks()
    ensures Works(Businesses.ChainOf, 3, CatchUp())
  {
  }

  // After the recovery nothing is live, and the balances are the opening ones.
  lemma OrphanGone(opening: seq<Balances.Row>, l: Ledger, after: Ledger)
    requires l == Businesses.StuckState().ledgers["a"] && after.flows == RolledBackTo(l.flows, 1)
    requires Replays(opening, after) && opening == [Balances.Row(7, 0, Balances.User, 0, 0)]
    ensures Balances.Unlocked(after.balances) && Balances.Value(after.balances, Balances.Cell(7, 0)) == 0
  {
    assert after.flows[..0] == [] && Live(after.flows) == [] && FlowEntries(Live(after.flows)) == [];
    assert Balances.ApplyAll(opening, []) == Some(opening);
    Businesses.OneBalance(0);
  }

  lemma CatchUpTick(mid: State)
    requires mid.blocks == [Businesses.ChainOf(1)] && mid.cursor == Some(Businesses.ChainOf(1))
    requires mid.buffer == [] && mid.flag.None? && mid.emitted == []
    ensures var t := Labelled("a", Businesses.ChainOf(2), AGAIN, Balances.Deposit);
      && Ticked(CFG, mid, CatchUp()).emitted == [map["a" := Batch(2, [t])]]
      && Contribution("a", Emission.StoredRun(CFG, mid, [CatchUp()])) == [t]
  {
    var input, headers := CatchUp(), [Businesses.ChainOf(2), Businesses.ChainOf(3)];
    var fetched, items := Fetch(CFG, mid, input.view), ReadItems(headers, input.feed, 2);
    CatchUpFetch(mid, headers);
    CatchUpItems(headers);
    CatchUpStored(fetched, input, headers);
    hide Fetch, ReadItems, Contribution, Processed, CatchUp, Labelled;
    OneTick(CFG, mid, input);
    hide Emission.StoredRun, Emission.Ticks;
    assert items.value != [] && Classified(items.value) != map[] by {
      assert "a" in Classified(items.value);
    }
    hide Classified;
  }

  lemma CatchUpStored(s: State, input: TickInput, headers: seq<Header>)
    requires headers == [Businesses.ChainOf(2), Businesses.ChainOf(3)] && s.blocks == [Businesses.ChainOf(1)]
    requires s.buffer == headers && input.storeUp && ReadItems(headers, input.feed, 2).Some?
    ensures Processed(s, input) == ReadItems(headers, input.feed, 2).value
  {
    StuckBlocks();
    hide ReadItems, Blocks.Consistent;
    assert Businesses.StuckState().blocks[..1] + Above(Businesses.ChainOf, 1, 2) == s.blocks + headers;
  }

  lemma OneTick(cfg: Config, s: State, input: TickInput)
    requires cfg.step < U64
    ensures Emission.StoredRun(cfg, s, [input]) == Processed(Fetch(cfg, s, input.view), input)
    ensures Emission.Ticks(cfg, s, [input]) == Ticked(cfg, s, input)
  {
    hide Fetch, Processed, Ticked;
    assert [input][1..] == [];
    assert Emission.StoredRun(cfg, Ticked(cfg, s, input), []) == [];
  }

  lemma CatchUpFetch(mid: State, headers: seq<Header>)
    requires mid.blocks == [Businesses.ChainOf(1)] && mid.cursor == Some(Businesses.ChainOf(1))
    requires mid.buffer == [] && mid.flag.None? && headers == [Businesses.ChainOf(2), Businesses.ChainOf(3)]
    ensures var fetched := Fetch(CFG, mid, CatchUp().view);
      fetched.buffer == headers && fetched.blocks == mid.blocks && fetched.emitted == mid.emitted
  {
    Businesses.StuckRests();
    CatchUpWorks();
    BatchBlock.CallOnChain(0, 1, CatchUp().view, Businesses.ChainOf, 3, 2);
    assert BatchBlock.Stretch(Businesses.ChainOf, 2, 2) == headers;
    hide BatchBlock.Next, IsChain, Works, Serves;
  }

  lemma CatchUpItems(headers: seq<Header>)
    requires headers == [Businesses.ChainOf(2), Businesses.ChainOf(3)]
    ensures var read := ReadItems(headers, CatchUp().feed, 2);
      && read.Some? && |read.value| == 2
      && Contribution("a", read.value) == [Labelled("a", headers[0], AGAIN, Balances.Deposit)]
      && Classified(read.value) == map["a" := Batch(2, [Labelled("a", headers[0], AGAIN, Balances.Deposit)])]
  {
    var x, y := ReadTwo(headers);
    hide ReadItems;
    FirstShare(x);
    assert Share("a", y) == [];
    hide Share;
    TwoItems("a", x, y);
    assert Listed([x] + [y]) == {"a"} by {
      assert ([x] + [y])[0].businesses == ["a"] && ([x] + [y])[1].businesses == ["a"];
    }
    hide Contribution, LastHeight, Listed;
  }

  lemma ReadTwo(headers: seq<Header>) returns (x: Item, y: Item)
    requires headers == [Businesses.ChainOf(2), Businesses.ChainOf(3)]
    ensures var feed := CatchUp().feed;
      && ReadOne(headers[0], feed, 0) == Some(x) && ReadOne(headers[1], feed, 1) == Some(y)
      && ReadItems(headers, feed, 2) == Some([x] + [y])
  {
    var feed := CatchUp().feed;
    x, y := ReadOne(headers[0], feed, 0).value, ReadOne(headers[1], feed, 1).value;
    hide ReadOne;
    assert ReadItems(headers, feed, 0) == Some([]) && [] + [x] == [x];
    assert ReadItems(headers, feed, 1) == Some([x]);
  }

  lemma FirstShare(x: Item)
    requires x.txs == [AGAIN] && "a" in x.businesses && x.lookups("a") == CatchUp().feed.lookups(0, "a")
    ensures Share("a", x) == [Labelled("a", x.header, AGAIN, Balances.Deposit)]
  {
    assert [AGAIN][..0] == [] && Matched(x.lookups("a"), "a", x.header, []) == [];
  }

  lemma TwoItems(b: Business, x: Item, y: Item)
    requires Share(b, x) != [] && Share(b, y) == []
    ensures Contribution(b, [x] + [y]) == Share(b, x) && LastHeight(b, [x] + [y]) == BigInt.Uint64(x.header.number)
  {
    hide Share;
    var items := [x] + [y];
    assert items[..1] == [x] && [x][..0] == [];
    assert Contribution(b, [x]) == Share(b, x) && LastHeight(b, [x]) == BigInt.Uint64(x.header.number);
  }

  lemma BatchTaken(ledgers: Ledgers, batch: Batch)
    requires "a" in ledgers && Balances.Unlocked(ledgers["a"].balances)
    requires Balances.Value(ledgers["a"].balances, Balances.Cell(7, 0)) == 0
    requires batch == Batch(2, [Labelled("a", Businesses.ChainOf(2), AGAIN, Balances.Deposit)])
    ensures BatchHandled(ledgers, map["a" := batch], Plain()).0
  {
    hide HandleOne, BatchHandled, Balances.Value, Balances.Unlocked, Labelled;
    GoesOnExactly(ledgers, map["a" := batch], Plain());
    ShareTaken(ledgers["a"], batch);
  }

  lemma ShareTaken(l: Ledger, batch: Batch)
    requires Balances.Unlocked(l.balances) && Balances.Value(l.balances, Balances.Cell(7, 0)) == 0
    requires batch == Batch(2, [Labelled("a", Businesses.ChainOf(2), AGAIN, Balances.Deposit)])
    ensures HandleOne(l, "a", batch, Plain()).Some?
  {
    var a := Plain();
    AppliedExactly(l, "a", batch, a);
    Retry.OutageSurvived(a.cancelled("a"), a.up("a"), 0);
    hide HandleOne, Balances.Value, Balances.Unlocked, Retry.Reachable;
    var items := ShareResolved(batch);
    hide Resolve;
    assert EntriesOf(items)[..0] == [] && Balances.Fits(l.balances, EntriesOf(items), 0);
  }

  lemma ShareResolved(batch: Batch) returns (items: seq<Resolved>)
    requires |batch.transactions| == 1
    ensures items == [Resolved(batch.transactions[0], 5, 0)]
    ensures Resolve(batch.transactions, Plain().info("a"), 1) == Some(items)
  {
    items := [Resolved(batch.transactions[0], 5, 0)];
    assert Resolve(batch.transactions, Plain().info("a"), 0) == Some([]) && [] + items == items;
  }

  lemma HandledOnce(s: State, rounds: seq<Round>, mid: State, m: map<Business, Batch>)
    requires RightRounds(rounds) && mid == Rounds(CFG, s, rounds) && mid.emitted == []
    requires Ticked(CFG, mid, CatchUp()).emitted == [m] && BatchHandled(mid.ledgers, m, Plain()).0
    ensures Final(CFG, s, rounds, [CatchUp()], [Plain()]).Some?
  {
    var end := Ticked(CFG, mid, CatchUp());
    OneTick(CFG, mid, CatchUp());
    assert end.emitted[0..] == [m];
    hide Ticked, BatchHandled, Rounds;
    assert [m][..0] == [] && [Plain()][..0] == [];
    assert HandleAll(mid.ledgers, [], []) == Some(mid.ledgers);
  }

  lemma StuckIsOrphaned(opening: seq<Balances.Row>)
    requires opening == [Balances.Row(7, 0, Balances.User, 0, 0)]
    ensures Orphaned(Businesses.ChainOf, opening, "a", 1, Businesses.StuckState())
  {
    var s := Businesses.StuckState();
    Businesses.StuckRests();
    StuckReplays(opening);
    var l := s.ledgers["a"];
    assert OnePerHeight(l.flows, 1, 2) && OnePerHeight(l.deposits, 1, 2);
    assert Ascending(l.flows) && AtCreation(l.withdraws) && AtCreation(l.internals);
    hide Replays, OnePerHeight, Ascending, AtCreation, Resting, HashesIdentify, IsChain;
    assert Ready(opening, l, 1, 2);
    hide Ready;
  }

  lemma StuckReplays(opening: seq<Balances.Row>)
    requires opening == [Balances.Row(7, 0, Balances.User, 0, 0)]
    ensures Replays(opening, Businesses.StuckState().ledgers["a"])
  {
    var l := Businesses.StuckState().ledgers["a"];
    DepositOfFive(opening, l.flows[0].data);
    OneRowReplays(opening, l, l.flows[0]);
  }

  // A ledger of one live row replays it.
  lemma OneRowReplays(opening: seq<Balances.Row>, l: Ledger, flow: Flow)
    requires Balances.Unlocked(opening) && Balances.Unlocked(l.balances) && l.flows == [flow] && flow.status.Success?
    requires Balances.Apply(opening, flow.data) == Some(l.balances) && !Balances.IsTransfer(flow.data)
    ensures Replays(opening, l)
  {
    hide Balances.Apply, Balances.Unlocked;
    assert l.flows[..0] == [] && [flow.data][..0] == [];
    assert Live(l.flows) == [flow] && FlowEntries([flow]) == [flow.data];
    assert Balances.ApplyAll(opening, [flow.data]) == Some(l.balances);
  }

  lemma DepositOfFive(opening: seq<Balances.Row>, e: Balances.Entry)
    requires opening == [Balances.Row(7, 0, Balances.User, 0, 0)] && e == Balances.Entry(8, 7, 0, 5, Balances.Deposit)
    ensures Balances.Apply(opening, e) == Some([Balances.Row(7, 0, Balances.User, 5, 0)])
  {
    assert opening[..0] == [] && Balances.Find(opening, Balances.To(e)) == 0;
    assert opening[0 := Balances.Row(7, 0, Balances.User, 5, 0)] == [Balances.Row(7, 0, Balances.User, 5, 0)];
  }
}
