/** From a reorganisation to the stored chain of the node: recovery, then catching up. */
module Convergence {
  import opened Prelude
  import opened Node
  import opened Synchronizer
  import opened Fallback
  import opened Recovery
  import BatchBlock
  import BigInt
  import Balances
  import Blocks
  import Classify
  import Emission
  import Safety

  // A tick that sees one chain up to a head, with no read or store failing. An error code for a block's
  // transactions is no failure to the scanner, which takes the block for empty.
  ghost predicate Works(chain: int -> Header, head: int, input: TickInput) {
    && RightNumbers(input.view) && Serves(input.view, chain, head) && input.storeUp
    && (forall k | 0 <= k :: !input.feed.txs(k).TxsFailed?)
    && (forall k | 0 <= k :: input.feed.businesses(k).Some?)
  }

  lemma {:induction false} ReadsAll(headers: seq<Header>, feed: Classify.Reads, k: nat)
    requires k <= |headers|
    requires forall j | 0 <= j :: !feed.txs(j).TxsFailed? && feed.businesses(j).Some?
    ensures Classify.ReadItems(headers, feed, k).Some?
  {
    if k > 0 {
      ReadsAll(headers, feed, k - 1);
    }
  }

  // ---- From any safe state to a resting one ----

  // A waiting batch comes through in one tick whose reads and store succeed, when the table can hold it.
  lemma BatchComesToRest(cfg: Config, s: State, input: TickInput)
    requires cfg.step < U64 && Safety.Safe(s) && s.buffer != [] && RightNumbers(input.view)
    requires forall k | 0 <= k :: !input.feed.txs(k).TxsFailed? && input.feed.businesses(k).Some?
    requires input.storeUp && Blocks.Consistent(s.blocks + s.buffer)
    ensures var after := Ticked(cfg, s, input);
      && Resting(after) && after.blocks == s.blocks + s.buffer
      && after.reorg == s.reorg && after.ledgers == s.ledgers && after.cursor == s.cursor
  {
    ReadsAll(s.buffer, input.feed, |s.buffer|);
    Safety.TickIsSafe(cfg, s, input);
    hide Classify.Classified, Linked, Blocks.Consistent, RightNumbers;
  }

  // A raised flag is settled by one pass that can read the highest block, unless the node kills the process:
  // some rows at the top are gone, and the scanner rests on what is left, if anything is.
  lemma FlagComesToRest(s: State, input: PassInput)
    requires Safety.Safe(s) && s.flag.Some? && RightNumbers(input.view) && input.latestUp
    requires !WalkBack(input.view, s.blocks, s.flag.value).WalkPanicked?
    ensures var after := Passed(s, input);
      after.blocks <= s.blocks && after.flag.None? && (after.blocks != [] ==> Resting(after))
  {
    Safety.PassTakesTop(s, input);
    Safety.PassIsSafe(s, input);
    PassTables(s, input);
    var after := Passed(s, input);
    assert after != s;
    hide Passed, WalkBack;
    if after.blocks != [] {
      Blocks.LatestOfLinked(after.blocks);
    }
  }

  // Blocks stored on the chain: resting, with the tip at height t of the chain.
  ghost predicate OnChain(chain: int -> Header, s: State, t: int) {
    Resting(s) && Last(s.blocks) == chain(t) && Last(s.blocks).number == t
  }

  lemma TipIsPositive(s: State)
    requires Resting(s)
    ensures Last(s.blocks).number > 0
  {
    assert Blocks.ValidRow(Last(s.blocks));
  }

  // One tick appends the next stretch of the chain.
  lemma TickExtends(cfg: Config, chain: int -> Header, head: int, s: State, input: TickInput,
                    t: int, n: nat)
    requires 1 <= cfg.step < U64 && IsChain(chain) && OnChain(chain, s, t) && Works(chain, head, input) && head < I63
    requires t <= head - cfg.depth && n == BigInt.Min(head - cfg.depth - t, cfg.step)
    requires Blocks.Consistent(s.blocks + BatchBlock.Stretch(chain, t + 1, n))
    ensures var after := Ticked(cfg, s, input);
      && after.blocks == s.blocks + BatchBlock.Stretch(chain, t + 1, n)
      && OnChain(chain, after, t + n)
  {
    TipIsPositive(s);
    BatchBlock.CallOnChain(cfg.depth, t, input.view, chain, head, cfg.step);
    Safety.TickIsSafe(cfg, s, input);
    hide BatchBlock.Next, Classify.Classified, IsChain, Serves, RightNumbers, Linked, Blocks.Consistent;
    var fetched, after := Fetch(cfg, s, input.view), Ticked(cfg, s, input);
    assert fetched.buffer == BatchBlock.Stretch(chain, t + 1, n);
    ReadsAll(fetched.buffer, input.feed, |fetched.buffer|);
    assert s.blocks + [] == s.blocks;
    assert after.blocks == s.blocks + BatchBlock.Stretch(chain, t + 1, n) && after.buffer == [] && after.flag.None?;
    assert after.cursor.Some?;
    hide Ticked, Fetch, Commit, Processed;
    assert Last(after.blocks) == chain(t + n);
  }

  // The chain's blocks right above height t.
  function Above(chain: int -> Header, t: int, n: nat): seq<Header> {
    BatchBlock.Stretch(chain, t + 1, n)
  }

  lemma AboveConcat(chain: int -> Header, t: int, n: nat, top: int, m: nat, sum: nat)
    requires top == t + n && sum == n + m
    ensures Above(chain, t, n) + Above(chain, top, m) == Above(chain, t, sum)
  {
  }

  lemma Joined(start: seq<Header>, a: seq<Header>, b: seq<Header>, both: seq<Header>, mid: seq<Header>,
               end: seq<Header>)
    requires mid == start + a && end == mid + b && both == a + b
    ensures end == start + both
  {
  }

  lemma ConsistentPrefix(blocks: seq<Header>, keep: nat)
    requires Blocks.Consistent(blocks) && keep <= |blocks|
    ensures Blocks.Consistent(blocks[..keep])
  {
  }

  // One tick on the way to the confirmed head, `gap` blocks above.
  lemma TickToward(cfg: Config, chain: int -> Header, head: int, s: State, input: TickInput,
                   t: int, gap: nat, n: nat, top: int, rest: nat)
    requires 1 <= cfg.step < U64 && IsChain(chain) && OnChain(chain, s, t) && Works(chain, head, input) && head < I63
    requires gap == head - cfg.depth - t && n == BigInt.Min(gap, cfg.step) && top == t + n && rest == gap - n
    requires Blocks.Consistent(s.blocks + Above(chain, t, gap))
    ensures var next := Ticked(cfg, s, input);
      && next.blocks == s.blocks + Above(chain, t, n) && OnChain(chain, next, top)
      && next.blocks + Above(chain, top, rest) == s.blocks + Above(chain, t, gap)
  {
    hide Ticked, OnChain, Works, IsChain, Blocks.Consistent;
    var all := s.blocks + Above(chain, t, gap);
    AboveConcat(chain, t, n, top, rest, gap);
    ConsistentPrefix(all, |s.blocks| + n);
    assert all[..|s.blocks| + n] == s.blocks + Above(chain, t, n);
    TickExtends(cfg, chain, head, s, input, t, n);
  }

  // How far k batches of `step` blocks get.
  function Reached(gap: nat, step: nat, k: nat): (n: nat)
    ensures n <= gap
  {
    if k == 0 then 0 else BigInt.Min(gap, step) + Reached(gap - BigInt.Min(gap, step), step, k - 1)
  }

  lemma {:induction false} ReachedIs(gap: nat, step: nat, k: nat)
    ensures Reached(gap, step, k) == BigInt.Min(gap, k * step)
  {
    if k > 0 {
      ReachedIs(gap - BigInt.Min(gap, step), step, k - 1);
      assert k * step == step + (k - 1) * step && (k - 1) * step >= 0;
    }
  }

  // Catching up: after k ticks the stored blocks have grown by the next k * step blocks of the chain, or by
  // all up to the confirmed head.
  lemma {:induction false} CatchesUp(cfg: Config, chain: int -> Header, head: int, s: State,
                                     inputs: seq<TickInput>, t: int, gap: nat, reached: nat)
    requires 1 <= cfg.step < U64 && IsChain(chain) && OnChain(chain, s, t) && head < I63
    requires gap == head - cfg.depth - t && Blocks.Consistent(s.blocks + Above(chain, t, gap))
    requires reached == Reached(gap, cfg.step, |inputs|)
    requires forall input | input in inputs :: Works(chain, head, input)
    ensures Emission.Ticks(cfg, s, inputs).blocks == s.blocks + Above(chain, t, reached)
    decreases |inputs|
  {
    if inputs == [] {
      assert s.blocks + [] == s.blocks;
    } else {
      hide Ticked, OnChain, Works, IsChain, Blocks.Consistent, Above;
      assert inputs[0] in inputs && forall input | input in inputs[1..] :: input in inputs;
      var n := BigInt.Min(gap, cfg.step);
      var next, top, rest, more := Ticked(cfg, s, inputs[0]), t + n, gap - n, reached - n;
      var end := Emission.Ticks(cfg, next, inputs[1..]);
      assert Emission.Ticks(cfg, s, inputs) == end && more == Reached(rest, cfg.step, |inputs[1..]|);
      hide Emission.Ticks, Reached;
      TickToward(cfg, chain, head, s, inputs[0], t, gap, n, top, rest);
      CatchesUp(cfg, chain, head, next, inputs[1..], top, rest, more);
      AboveConcat(chain, t, n, top, more, reached);
      hide *;
      Joined(s.blocks, Above(chain, t, n), Above(chain, top, more), Above(chain, t, reached), next.blocks, end.blocks);
    }
  }

  // Orphaned blocks above height a, a round for each, and ticks enough for the gap to the confirmed head.
  ghost predicate ConvergencePremises(cfg: Config, chain: int -> Header, head: int, opening: seq<Balances.Row>,
                                      b: Classify.Business, keep: nat, s: State, rounds: seq<Round>,
                                      inputs: seq<TickInput>, a: int, gap: nat)
  {
    && 1 <= cfg.step < U64 && Orphaned(chain, opening, b, keep, s) && Backupable(s.reorg, s.blocks[keep..])
    && |rounds| == |s.blocks| - keep && RightRounds(rounds)
    && (forall r | r in rounds :: Settled(cfg, chain, Last(s.blocks).number, [b], r))
    && a == s.blocks[keep - 1].number && s.blocks[keep - 1] == chain(a)
    && gap == head - cfg.depth - a && head < I63
    && Blocks.Consistent(s.blocks[..keep] + Above(chain, a, gap))
    && (forall input | input in inputs :: Works(chain, head, input)) && |inputs| * cfg.step >= gap
  }

  // From a reorganisation to the node's chain: the stored blocks end as the kept ones followed by exactly the
  // chain's blocks from a + 1 to the confirmed head.
  lemma ConvergesToChain(cfg: Config, chain: int -> Header, head: int, opening: seq<Balances.Row>,
                         b: Classify.Business, keep: nat, s: State, rounds: seq<Round>, inputs: seq<TickInput>,
                         a: int, gap: nat)
    requires ConvergencePremises(cfg, chain, head, opening, b, keep, s, rounds, inputs, a, gap)
    ensures Emission.Ticks(cfg, Rounds(cfg, s, rounds), inputs).blocks == s.blocks[..keep] + Above(chain, a, gap)
  {
    RecoversInOrder(cfg, chain, opening, b, keep, keep, s, rounds);
    KeptIsOnChain(chain, opening, b, keep, s, Rounds(cfg, s, rounds));
    ReachedIs(gap, cfg.step, |inputs|);
    hide Orphaned, Recovered, Settled, Works, OnChain, Blocks.Consistent, Rounds, Above, RightNumbers;
    CatchesUp(cfg, chain, head, Rounds(cfg, s, rounds), inputs, a, gap, gap);
  }

  lemma KeptIsOnChain(chain: int -> Header, opening: seq<Balances.Row>, b: Classify.Business, keep: nat, s: State,
                      after: State)
    requires Orphaned(chain, opening, b, keep, s) && s.blocks[keep - 1] == chain(s.blocks[keep - 1].number)
    requires Recovered(opening, b, keep, s, after)
    ensures OnChain(chain, after, s.blocks[keep - 1].number) && after.blocks == s.blocks[..keep] && IsChain(chain)
  {
    hide Ready, HashesIdentify, Linked, RolledBackTo, Blocks.Reverse;
    Safety.PrefixIsSound(s.blocks, keep);
    assert Blocks.ValidRow(s.blocks[keep - 1]);
    hide Blocks.Consistent;
  }
}
