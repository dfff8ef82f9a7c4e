/** The cursor over confirmed headers: rpcclient/batch_block.go. */
module BatchBlock {
  import opened Prelude
  import opened Node
  import BigInt

  datatype ScanError = HeadFailed | HeadUnreported | AheadOfProvider | HeaderFailed

  // What NextHeaders returns. Panicked: the node answered an error code for a height, and the code
  // dereferences the nil header.
  datatype Outcome =
    | Headers(headers: seq<Header>)
    | Reorg(header: Header)
    | Failed(error: ScanError)
    | Panicked

  function Prepend(headers: seq<Header>, rest: Outcome): Outcome {
    if rest.Headers? then Headers(headers + rest.headers) else rest
  }

  // `count` headers from height `next` upwards, each compared with the one before.
  function Collect(view: View, previous: Option<Header>, next: int, count: nat): Outcome
    decreases count
  {
    if count == 0 then Headers([]) else
      match view.at(next)
      case RpcFailed => Failed(HeaderFailed)
      case Unreported => Panicked
      case Got(header) =>
        if previous.Some? && header.parentHash != previous.value.hash then Reorg(header)
        else Prepend([header], Collect(view, Some(header), next + 1, count - 1))
  }

  function NextHeight(cursor: Option<Header>): int {
    if cursor.Some? then cursor.value.number + 1 else 0
  }

  function Next(depth: nat, cursor: Option<Header>, view: View, maxSize: nat): Outcome
    requires maxSize < U64
  {
    match view.latest
    case RpcFailed => Failed(HeadFailed)
    case Unreported => Failed(HeadUnreported)
    case Got(head) =>
      var end := head.number - depth;
      if end < 0 || (cursor.Some? && cursor.value.number == end) then Headers([])
      else if cursor.Some? && cursor.value.number > end then Failed(AheadOfProvider)
      else
        var next := NextHeight(cursor);
        Collect(view, cursor, next, BigInt.Count(next, BigInt.Clamp(next, end, maxSize)))
  }

  // The cursor after a call.
  function Advanced(cursor: Option<Header>, outcome: Outcome): Option<Header> {
    if outcome.Headers? && outcome.headers != [] then Some(Last(outcome.headers)) else cursor
  }

  class BatchBlock {
    var latestHeader: Option<Header>
    var lastTraversedHeader: Option<Header>
    const blockConfirmationDepth: nat

    constructor (fromHeader: Option<Header>, confDepth: nat)
      ensures lastTraversedHeader == fromHeader && latestHeader == None
      ensures blockConfirmationDepth == confDepth
    {
      latestHeader := None;
      lastTraversedHeader := fromHeader;
      blockConfirmationDepth := confDepth;
    }

    method NextHeaders(view: View, maxSize: nat) returns (outcome: Outcome)
      requires maxSize < U64
      modifies this
      ensures outcome == Next(blockConfirmationDepth, old(lastTraversedHeader), view, maxSize)
      ensures lastTraversedHeader == Advanced(old(lastTraversedHeader), outcome)
      ensures latestHeader == if view.latest.Got? then Some(view.latest.header) else old(latestHeader)
    {
      hide BigInt.Clamp, BigInt.Uint64;
      if view.latest.RpcFailed? {
        return Failed(HeadFailed);
      } else if view.latest.Unreported? {
        return Failed(HeadUnreported);
      }
      latestHeader := Some(view.latest.header);
      var endHeight := view.latest.header.number - blockConfirmationDepth;
      if endHeight < 0 {
        return Headers([]);
      }
      if lastTraversedHeader.Some? {
        if lastTraversedHeader.value.number == endHeight {
          return Headers([]);
        } else if lastTraversedHeader.value.number > endHeight {
          return Failed(AheadOfProvider);
        }
      }
      var nextHeight := 0;
      if lastTraversedHeader.Some? {
        nextHeight := lastTraversedHeader.value.number + 1;
      }
      endHeight := BigInt.Clamp(nextHeight, endHeight, maxSize);
      var count := (BigInt.Uint64(endHeight - nextHeight) + 1) % U64;
      var headers: seq<Header> := [];
      var i := 0;
      while i < count
        invariant i <= count && |headers| == i
        invariant lastTraversedHeader == old(lastTraversedHeader)
        invariant Collect(view, lastTraversedHeader, nextHeight, count) ==
          Prepend(headers, Collect(view, if i == 0 then lastTraversedHeader else Some(Last(headers)),
                                   nextHeight + i, count - i))
      {
        var answer := view.at(nextHeight + i);
        if answer.RpcFailed? {
          return Failed(HeaderFailed);
        } else if answer.Unreported? {
          return Panicked;
        }
        ghost var before := headers;
        headers := headers + [answer.header];
        if |headers| == 1 && lastTraversedHeader.Some? && headers[0].parentHash != lastTraversedHeader.value.hash {
          return Reorg(answer.header);
        }
        if |headers| > 1 && headers[i - 1].hash != headers[i].parentHash {
          return Reorg(answer.header);
        }
        assert forall rest: seq<Header> :: before + ([answer.header] + rest) == headers + rest;
        i := i + 1;
      }
      assert Prepend(headers, Headers([])) == Headers(headers);
      if |headers| == 0 {
        return Headers([]);
      }
      lastTraversedHeader := Some(headers[|headers| - 1]);
      return Headers(headers);
    }
  }

  // What `count` requests from height `next` may end in.
  ghost predicate Sound(view: View, previous: Option<Header>, next: int, count: nat, outcome: Outcome) {
    match outcome
    case Headers(headers) =>
      && |headers| == count
      && (count > 0 ==> headers[0].number == next)
      && Linked((if previous.Some? then [previous.value] else []) + headers)
      && forall i | 0 <= i < |headers| :: view.at(headers[i].number) == Got(headers[i])
    case Reorg(header) => next <= header.number < next + count && view.at(header.number) == Got(header)
    case _ => true
  }

  lemma SoundStep(view: View, previous: Option<Header>, header: Header, count: nat, rest: Outcome)
    requires view.at(header.number) == Got(header)
    requires previous.Some? ==> previous.value.number == header.number - 1 && header.parentHash == previous.value.hash
    requires Sound(view, Some(header), header.number + 1, count, rest)
    ensures Sound(view, previous, header.number, count + 1, Prepend([header], rest))
  {
  }

  // Whatever the node answers, collected headers are consecutive, linked, and come from the heights asked for.
  lemma {:induction false} CollectLinks(view: View, previous: Option<Header>, next: int, count: nat)
    requires RightNumbers(view) && next > 0
    requires previous.Some? ==> previous.value.number == next - 1
    ensures Sound(view, previous, next, count, Collect(view, previous, next, count))
    decreases count
  {
    if count > 0 {
      hide Sound;
      if view.at(next).Got? && !(previous.Some? && view.at(next).header.parentHash != previous.value.hash) {
        var header := view.at(next).header;
        CollectLinks(view, Some(header), next + 1, count - 1);
        SoundStep(view, previous, header, count - 1, Collect(view, Some(header), next + 1, count - 1));
      } else {
        SoundStop(view, previous, next, count, Collect(view, previous, next, count));
      }
    } else {
      assert (if previous.Some? then [previous.value] else []) + [] == if previous.Some? then [previous.value] else [];
    }
  }

  lemma SoundStop(view: View, previous: Option<Header>, next: int, count: nat, outcome: Outcome)
    requires count > 0 && !outcome.Headers?
    requires outcome.Reorg? ==> outcome.header.number == next && view.at(next) == Got(outcome.header)
    ensures Sound(view, previous, next, count, outcome)
  {
  }

  // The answer for the m-th height asked for is a header that links to the one before it.
  predicate LinksAt(view: View, previous: Option<Header>, next: int, m: nat) {
    var here, before := view.at(next + m), view.at(next + m - 1);
    if m == 0 then here.Got? && (previous.None? || here.header.parentHash == previous.value.hash)
    else before.Got? && here.Got? && here.header.parentHash == before.header.hash
  }

  predicate LinksUpTo(view: View, previous: Option<Header>, next: int, j: nat) {
    forall m | 0 <= m < j :: LinksAt(view, previous, next, m)
  }

  lemma LinksOneLess(view: View, previous: Option<Header>, next: int, header: Header, m: nat)
    requires view.at(next) == Got(header)
    ensures LinksAt(view, Some(header), next + 1, m) <==> LinksAt(view, previous, next, m + 1)
  {
  }

  // What collecting ends in, decided by the first answer that does not link: with none, in all the headers;
  // otherwise that answer is the failure, the end of the process, or the header that reveals the reorganisation.
  lemma {:induction false} CollectExactly(view: View, previous: Option<Header>, next: int, count: nat, j: nat)
    requires j <= count && LinksUpTo(view, previous, next, j)
    requires j < count ==> !LinksAt(view, previous, next, j)
    ensures var outcome := Collect(view, previous, next, count);
      if j == count then
        && outcome.Headers? && |outcome.headers| == count
        && forall m | 0 <= m < count :: view.at(next + m) == Got(outcome.headers[m])
      else
        match view.at(next + j)
        case RpcFailed => outcome == Failed(HeaderFailed)
        case Unreported => outcome == Panicked
        case Got(header) => outcome == Reorg(header)
    decreases count
  {
    if j > 0 {
      assert LinksAt(view, previous, next, 0);
      var header, above := view.at(next).header, next + 1;
      forall m: nat | m < j - 1 ensures LinksAt(view, Some(header), above, m) {
        assert LinksAt(view, previous, next, m + 1);
        LinksOneLess(view, previous, next, header, m);
      }
      LinksOneLess(view, previous, next, header, j - 1);
      hide LinksAt;
      CollectExactly(view, Some(header), next + 1, count - 1, j - 1);
      if j == count {
        var rest := Collect(view, Some(header), next + 1, count - 1).headers;
        forall m | 0 <= m < count ensures view.at(next + m) == Got(([header] + rest)[m]) {
          assert m > 0 ==> view.at(next + 1 + (m - 1)) == Got(rest[m - 1]);
        }
      }
    }
  }

  predicate UnreportedAt(view: View, previous: Option<Header>, next: int, j: nat) {
    LinksUpTo(view, previous, next, j) && view.at(next + j).Unreported?
  }

  // So the process ends exactly when an error code is the first answer that does not link.
  lemma CollectPanics(view: View, previous: Option<Header>, next: int, count: nat)
    ensures Collect(view, previous, next, count).Panicked? <==>
      exists j | 0 <= j < count :: UnreportedAt(view, previous, next, j)
  {
    var j := FirstStop(view, previous, next, count);
    CollectExactly(view, previous, next, count, j);
    hide Collect;
    if k :| 0 <= k < count && UnreportedAt(view, previous, next, k) {
      assert !LinksAt(view, previous, next, k);
    }
    if j < count && view.at(next + j).Unreported? {
      assert UnreportedAt(view, previous, next, j);
    }
  }

  lemma {:induction false} FirstStop(view: View, previous: Option<Header>, next: int, count: nat) returns (j: nat)
    ensures j <= count && LinksUpTo(view, previous, next, j) && (j < count ==> !LinksAt(view, previous, next, j))
  {
    hide LinksAt;
    j := 0;
    if count > 0 {
      j := FirstStop(view, previous, next, count - 1);
      if j == count - 1 && LinksAt(view, previous, next, j) {
        j := count;
      }
    }
  }

  // When a call from a known cursor asks for no header, and which and how many it asks for otherwise.
  lemma NextExactly(depth: nat, cursor: Header, view: View, maxSize: nat)
    requires cursor.number >= 0 && 1 <= maxSize < U64
    requires view.latest.Got? ==> view.latest.header.number < I63
    ensures var outcome := Next(depth, Some(cursor), view, maxSize);
      match view.latest
      case RpcFailed => outcome == Failed(HeadFailed)
      case Unreported => outcome == Failed(HeadUnreported)
      case Got(head) =>
        var gap := head.number - depth - cursor.number;
        && (gap == 0 || head.number < depth ==> outcome == Headers([]))
        && (gap < 0 && head.number >= depth ==> outcome == Failed(AheadOfProvider))
        && (gap > 0 && head.number >= depth ==>
              outcome == Collect(view, Some(cursor), cursor.number + 1, BigInt.Min(gap, maxSize)))
  {
    if view.latest.Got? && view.latest.header.number - depth > cursor.number {
      BigInt.WindowFits(cursor.number + 1, view.latest.header.number - depth, maxSize);
    }
  }

  lemma NextLinks(depth: nat, cursor: Header, view: View, maxSize: nat)
    requires RightNumbers(view) && cursor.number >= 0 && maxSize < U64
    ensures match Next(depth, Some(cursor), view, maxSize)
      case Headers(headers) => Linked([cursor] + headers)
      case Reorg(header) => cursor.number < header.number
      case _ => true
  {
    hide BigInt.Clamp, BigInt.Count;
    if view.latest.Got? {
      var next := cursor.number + 1;
      var end := view.latest.header.number - depth;
      CollectLinks(view, Some(cursor), next, BigInt.Count(next, BigInt.Clamp(next, end, maxSize)));
    }
  }

  // The contract of NextHeaders from a known cursor, against any node.
  lemma NextHeadersContract(depth: nat, cursor: Header, view: View, maxSize: nat)
    requires RightNumbers(view) && cursor.number >= 0 && 1 <= maxSize < U64
    requires view.latest.Got? ==> view.latest.header.number < I63
    ensures match Next(depth, Some(cursor), view, maxSize)
      case Headers(headers) =>
        && Linked([cursor] + headers)
        && (headers != [] ==>
              && view.latest.Got?
              && |headers| == BigInt.Min(view.latest.header.number - depth - cursor.number, maxSize)
              && Last(headers).number <= view.latest.header.number - depth
              && Advanced(Some(cursor), Headers(headers)) == Some(Last(headers)))
      case Reorg(header) =>
        && Advanced(Some(cursor), Reorg(header)) == Some(cursor)
        && view.latest.Got?
        && cursor.number < header.number <= view.latest.header.number - depth
        && header.number <= cursor.number + maxSize
      case other => Advanced(Some(cursor), other) == Some(cursor)
  {
    if view.latest.Got? {
      var end := view.latest.header.number - depth;
      var next := cursor.number + 1;
      if cursor.number < end && end >= 0 {
        BigInt.WindowFits(next, end, maxSize);
        var count := BigInt.Count(next, BigInt.Clamp(next, end, maxSize));
        CollectLinks(view, Some(cursor), next, count);
        var outcome := Collect(view, Some(cursor), next, count);
        if outcome.Headers? && outcome.headers != [] {
          LinkedNumbers([cursor] + outcome.headers, count);
          assert Last(outcome.headers) == ([cursor] + outcome.headers)[count];
        }
      }
    }
  }

  // A stretch of one chain.
  function Stretch(chain: int -> Header, from: int, count: nat): seq<Header> {
    seq(count, i requires 0 <= i => chain(from + i))
  }

  // A node holding one chain hands out that chain, when the cursor's hash fits below it.
  lemma {:induction false} CollectChain(view: View, chain: int -> Header, head: int, previous: Header, next: int,
      count: nat)
    requires IsChain(chain) && Serves(view, chain, head)
    requires 0 < next && next + count <= head + 1
    requires chain(next).parentHash == previous.hash
    ensures Collect(view, Some(previous), next, count) == Headers(Stretch(chain, next, count))
    decreases count
  {
    if count > 0 {
      assert view.at(next) == Got(chain(next));
      if count > 1 {
        assert Extends(chain, next);
        CollectChain(view, chain, head, chain(next), next + 1, count - 1);
      }
      assert Stretch(chain, next, count) == [chain(next)] + Stretch(chain, next + 1, count - 1);
    }
  }

  // The cursor after k calls against the same answers.
  function Calls(depth: nat, cursor: Option<Header>, view: View, maxSize: nat, k: nat): Option<Header>
    requires maxSize < U64
  {
    if k == 0 then cursor else
      var before := Calls(depth, cursor, view, maxSize, k - 1);
      Advanced(before, Next(depth, before, view, maxSize))
  }

  lemma CallOnChain(depth: nat, from: int, view: View, chain: int -> Header, head: int, maxSize: nat)
    requires IsChain(chain) && Serves(view, chain, head) && head < I63 && 1 <= maxSize < U64
    requires 0 < from <= head - depth
    ensures Next(depth, Some(chain(from)), view, maxSize) ==
      Headers(Stretch(chain, from + 1, BigInt.Min(head - depth - from, maxSize)))
  {
    if from < head - depth {
      BigInt.WindowFits(from + 1, head - depth, maxSize);
      assert Extends(chain, from);
      CollectChain(view, chain, head, chain(from), from + 1, BigInt.Min(head - depth - from, maxSize));
    }
  }

  lemma CallMoves(depth: nat, start: int, from: int, view: View, chain: int -> Header, head: int, maxSize: nat, k: nat)
    requires IsChain(chain) && Serves(view, chain, head) && head < I63 && 1 <= maxSize < U64
    requires 0 < from <= head - depth
    requires Calls(depth, Some(chain(start)), view, maxSize, k) == Some(chain(from))
    ensures Calls(depth, Some(chain(start)), view, maxSize, k + 1) ==
        Some(chain(BigInt.Min(head - depth, from + maxSize)))
  {
    CallOnChain(depth, from, view, chain, head, maxSize);
  }

  // On a fixed chain the cursor moves maxSize blocks a call until it rests at head - depth: a gap of g
  // blocks takes ceil(g / maxSize) calls and further calls change nothing.
  lemma {:induction false} CatchesUp(depth: nat, from: int, view: View, chain: int -> Header, head: int,
      maxSize: nat, k: nat)
    requires IsChain(chain) && Serves(view, chain, head) && head < I63 && 1 <= maxSize < U64
    requires 0 < from <= head - depth
    ensures Calls(depth, Some(chain(from)), view, maxSize, k) ==
      Some(chain(BigInt.Min(head - depth, from + k * maxSize)))
  {
    hide Next;
    if k > 0 {
      CatchesUp(depth, from, view, chain, head, maxSize, k - 1);
      var done := (k - 1) * maxSize;
      assert done >= 0 && k * maxSize == done + maxSize;
      CallMoves(depth, from, BigInt.Min(head - depth, from + done), view, chain, head, maxSize, k - 1);
    }
  }
}
