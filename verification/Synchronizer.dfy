/** The scanner loop: worker/synchronizer.go. */
module Synchronizer {
  import opened Prelude
  import opened Node
  import opened BatchBlock
  import opened Classify
  import opened Database
  import BigInt
  import Blocks

  datatype Config = Config(depth: nat, step: nat, startingHeight: nat)

  // Everything the scanner, the finder and the fallback task share. flag holds the header that raised the
  // fallback flag; emitted lists what went through the business channel, oldest first.
  datatype State = State(cursor: Option<Header>, buffer: seq<Header>, flag: Option<Header>,
                         blocks: seq<Header>, reorg: seq<Header>,
                         emitted: seq<map<Business, Batch>>, ledgers: Ledgers)

  // What the outside world answers during one tick.
  datatype TickInput = TickInput(view: View, feed: Reads, storeUp: bool)

  // Ask for new headers unless a batch is waiting to be retried.
  function Fetch(cfg: Config, s: State, view: View): State
    requires cfg.step < U64
  {
    if s.buffer != [] then s else
      var outcome := Next(cfg.depth, s.cursor, view, cfg.step);
      match outcome
      case Headers(headers) => s.(buffer := headers, cursor := Advanced(s.cursor, outcome))
      case Reorg(header) => if s.flag.None? then s.(flag := Some(header)) else s
      case _ => s
  }

  // The waiting blocks with what was read for them, when the batch goes through; otherwise nothing.
  function Processed(s: State, input: TickInput): (items: seq<Item>)
    ensures items != [] ==> |items| == |s.buffer| && forall i | 0 <= i < |items| :: items[i].header == s.buffer[i]
  {
    var items := ReadItems(s.buffer, input.feed, |s.buffer|);
    if items.Some? && input.storeUp && Blocks.Insert(s.blocks, s.buffer).Some? then items.value else []
  }

  // Store the waiting blocks, emit what concerns any business, clear the buffer.
  function Commit(s: State, items: seq<Item>): State {
    if items == [] then s else
      var m := Classified(items);
      s.(blocks := s.blocks + s.buffer, buffer := [], emitted := s.emitted + if m == map[] then [] else [m])
  }

  function Ticked(cfg: Config, s: State, input: TickInput): State
    requires cfg.step < U64
  {
    var fetched := Fetch(cfg, s, input.view);
    Commit(fetched, Processed(fetched, input))
  }

  // The process dies when the node answers an error code for a block header.
  predicate Panics(cfg: Config, s: State, input: TickInput)
    requires cfg.step < U64
  {
    s.buffer == [] && Next(cfg.depth, s.cursor, input.view, cfg.step).Panicked?
  }

  // Where a new process starts: the highest stored block, else the configured height, else the head.
  // None: the start fails, because of the query for the highest block (latestUp) or of the node.
  // Some(None): the node answered an error code, which leaves a nil cursor.
  function Boot(blocks: seq<Header>, startingHeight: nat, view: View, latestUp: bool): Option<Option<Header>> {
    if !latestUp then None
    else if Blocks.Latest(blocks).Some? then Some(Blocks.Latest(blocks))
    else
      match if startingHeight > 0 then view.at(startingHeight) else view.latest
      case RpcFailed => None
      case Unreported => Some(None)
      case Got(header) => Some(Some(header))
  }

  // A restart keeps the tables and loses everything in memory.
  function Restart(cfg: Config, s: State, view: View, latestUp: bool): State {
    match Boot(s.blocks, cfg.startingHeight, view, latestUp)
    case None => s
    case Some(cursor) => s.(cursor := cursor, buffer := [], flag := None)
  }

  // A start from stored blocks takes the highest of them. A start from an empty table takes what the node answers
  // for the configured height, or for its head when none is configured.
  lemma BootsExactly(blocks: seq<Header>, startingHeight: nat, view: View, latestUp: bool)
    ensures var cursor, asked := Boot(blocks, startingHeight, view, latestUp),
        if startingHeight > 0 then view.at(startingHeight) else view.latest;
      && (cursor == None <==> !latestUp || (blocks == [] && asked.RpcFailed?))
      && (cursor == Some(None) <==> latestUp && blocks == [] && asked.Unreported?)
      && (cursor.Some? && cursor.value.Some? ==>
            var header := cursor.value.value;
            if blocks == [] then asked == Got(header)
            else header in blocks && forall r | r in blocks :: r.number <= header.number)
  {
    Blocks.LatestIsHighest(blocks);
  }

  // So the first fetch from an empty table begins right above the configured height.
  lemma FetchesFromStart(cfg: Config, s: State, chain: int -> Header, head: int, start: View, view: View)
    requires IsChain(chain) && Serves(start, chain, head) && Serves(view, chain, head) && head < I63
    requires 1 <= cfg.step < U64 && 0 < cfg.startingHeight <= head - cfg.depth && s.blocks == []
    ensures Fetch(cfg, Restart(cfg, s, start, true), view).buffer ==
      Stretch(chain, cfg.startingHeight + 1, BigInt.Min(head - cfg.depth - cfg.startingHeight, cfg.step))
  {
    hide Next;
    CallOnChain(cfg.depth, cfg.startingHeight, view, chain, head, cfg.step);
  }

  // Waiting blocks are stored if and only if every read succeeds, the database answers, and the table admits them.
  lemma StoresExactly(s: State, input: TickInput)
    ensures Processed(s, input) != [] <==>
      && s.buffer != [] && input.storeUp && Blocks.Insert(s.blocks, s.buffer).Some?
      && forall k | 0 <= k < |s.buffer| :: !input.feed.txs(k).TxsFailed? && input.feed.businesses(k).Some?
  {
    ReadsExactly(s.buffer, input.feed, |s.buffer|);
    hide Blocks.Insert;
  }

  // From a known cursor a tick ends the process if and only if nothing waits, the head shows confirmed blocks above
  // the cursor, and one of those asked for is answered with an error code while all below it link.
  lemma PanicsExactly(cfg: Config, s: State, input: TickInput, cursor: Header, next: int, gap: int)
    requires 1 <= cfg.step < U64 && next == cursor.number + 1 && s.cursor == Some(cursor) && cursor.number >= 0
    requires input.view.latest.Got? ==> input.view.latest.header.number < I63
    requires gap == (if input.view.latest.Got? then input.view.latest.header.number - cfg.depth - cursor.number else 0)
    ensures Panics(cfg, s, input) <==>
      && s.buffer == [] && gap > 0
      && exists j | 0 <= j < BigInt.Min(gap, cfg.step) :: UnreportedAt(input.view, Some(cursor), next, j)
  {
    NextExactly(cfg.depth, cursor, input.view, cfg.step);
    hide Next;
    if gap > 0 {
      CollectPanics(input.view, Some(cursor), next, BigInt.Min(gap, cfg.step));
    }
  }

  // A tick raises the flag exactly for a reorganisation met with nothing waiting, and leaves a raised flag alone.
  lemma FlagExactly(cfg: Config, s: State, input: TickInput)
    requires cfg.step < U64
    ensures s.flag.Some? ==> Ticked(cfg, s, input).flag == s.flag
    ensures s.flag.None? ==> forall h :: Ticked(cfg, s, input).flag == Some(h) <==>
      s.buffer == [] && Next(cfg.depth, s.cursor, input.view, cfg.step) == Reorg(h)
  {
    hide Next, Processed, Classified;
  }

  class Synchronizer {
    const headerBufferSize: nat
    const database: Database
    var blockBatch: BatchBlock
    var headers: seq<Header>
    var fallbackBlockHeader: Option<Header>
    var isFallback: bool
    var businessChannels: seq<map<Business, Batch>>

    ghost predicate Valid()
      reads this
    {
      headerBufferSize < U64 && isFallback == fallbackBlockHeader.Some?
    }

    ghost function Snapshot(): State
      reads this, blockBatch, database, database.blocks
    {
      State(blockBatch.lastTraversedHeader, headers, fallbackBlockHeader, database.blocks.rows,
            database.reorgBlocks, businessChannels, database.ledgers)
    }

    ghost function Settings(startingHeight: nat): Config
      reads this, blockBatch
    {
      Config(blockBatch.blockConfirmationDepth, headerBufferSize, startingHeight)
    }

    constructor (cfg: Config, database: Database, fromHeader: Option<Header>)
      requires cfg.step < U64
      ensures Valid() && this.database == database && fresh(blockBatch) && Settings(cfg.startingHeight) == cfg
      ensures Snapshot() == State(fromHeader, [], None, database.blocks.rows, database.reorgBlocks, [],
          database.ledgers)
    {
      headerBufferSize := cfg.step;
      this.database := database;
      blockBatch := new BatchBlock(fromHeader, cfg.depth);
      headers, fallbackBlockHeader, isFallback, businessChannels := [], None, false, [];
    }

    static method NewSynchronizer(cfg: Config, database: Database, view: View, latestUp: bool)
      returns (syncer: Synchronizer?)
      requires cfg.step < U64
      ensures syncer == null <==> Boot(database.blocks.rows, cfg.startingHeight, view, latestUp) == None
      ensures syncer != null ==> fresh(syncer) && syncer.Valid() && syncer.database == database
      ensures syncer != null ==> syncer.Settings(cfg.startingHeight) == cfg
      ensures syncer != null ==>
          syncer.Snapshot() == State(Boot(database.blocks.rows, cfg.startingHeight, view, latestUp).value, [], None,
                                     database.blocks.rows, database.reorgBlocks, [], database.ledgers)
    {
      if !latestUp {
        return null;
      }
      var latest := Blocks.Latest(database.blocks.rows);
      if latest.Some? {
        syncer := new Synchronizer(cfg, database, latest);
        return;
      }
      var answer := if cfg.startingHeight > 0 then view.at(cfg.startingHeight) else view.latest;
      if answer.RpcFailed? {
        return null;
      }
      syncer := new Synchronizer(cfg, database, if answer.Got? then Some(answer.header) else None);
    }

    method Tick(input: TickInput) returns (panicked: bool)
      requires Valid() && UniqueBusinesses(input.feed)
      modifies this, blockBatch, database.blocks
      ensures Valid() && blockBatch == old(blockBatch)
      ensures Snapshot() == Ticked(old(Settings(0)), old(Snapshot()), input)
      ensures panicked == Panics(old(Settings(0)), old(Snapshot()), input)
    {
      hide Next, Classified, ReadItems, Blocks.Insert;
      if |headers| == 0 {
        var outcome := blockBatch.NextHeaders(input.view, headerBufferSize);
        match outcome {
          case Reorg(header) =>
            if !isFallback {
              isFallback := true;
              fallbackBlockHeader := Some(header);
            }
          case Headers(newHeaders) =>
            if |newHeaders| > 0 {
              headers := newHeaders;
            }
          case Failed(_) =>
          case Panicked =>
            return true;
        }
      }
      panicked := false;
      var ok := ProcessBatch(input);
      if ok {
        headers := [];
      }
    }

    // Classify, store, then emit.
    method ProcessBatch(input: TickInput) returns (ok: bool)
      requires Valid() && UniqueBusinesses(input.feed)
      modifies this`businessChannels, database.blocks
      ensures ok == (headers == [] || Processed(old(Snapshot()), input) != [])
      ensures Snapshot() == Commit(old(Snapshot()), Processed(old(Snapshot()), input)).(buffer := headers)
    {
      hide Classified, ReadItems, Blocks.Insert;
      if |headers| == 0 {
        return true;
      }
      var businessTxsMap := ClassifyBatch(headers, input.feed);
      if businessTxsMap.None? {
        return false;
      }
      ok := database.blocks.StoreBlocks(headers, input.storeUp);
      if ok && |businessTxsMap.value| > 0 {
        businessChannels := businessChannels + [businessTxsMap.value];
      }
    }
  }
}
