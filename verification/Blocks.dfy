/** The tables blocks and reorg_blocks: database/blocks.go, database/reorg_blocks.go and their constraints. */
module Blocks {
  import opened Prelude
  import opened Node

  // CHECK (number > 0), CHECK (timestamp > 0), and the column types UINT256 and INTEGER.
  predicate ValidRow(row: Header) {
    0 < row.number < U256 && 0 < row.timestamp < 0x8000_0000
  }

  // hash is the primary key; parent_hash and number are UNIQUE.
  predicate Distinct(a: Header, b: Header) {
    a.hash != b.hash && a.parentHash != b.parentHash && a.number != b.number
  }

  predicate Consistent(rows: seq<Header>) {
    && (forall i | 0 <= i < |rows| :: ValidRow(rows[i]))
    && (forall i, j | 0 <= i < j < |rows| :: Distinct(rows[i], rows[j]))
  }

  // One batch insert: all rows or none.
  function Insert(rows: seq<Header>, added: seq<Header>): Option<seq<Header>> {
    if Consistent(rows + added) then Some(rows + added) else None
  }

  // ORDER BY number DESC, first row.
  function Latest(rows: seq<Header>): Option<Header> {
    if rows == [] then None else
      var before := Latest(rows[..|rows| - 1]);
      if before.Some? && before.value.number > Last(rows).number then before else Some(Last(rows))
  }

  // The row WHERE number = n.
  function RowAt(rows: seq<Header>, n: int): Option<Header> {
    if rows == [] then None
    else if Last(rows).number == n then Some(Last(rows))
    else RowAt(rows[..|rows| - 1], n)
  }

  // DELETE WHERE number = n.
  function Without(rows: seq<Header>, n: int): seq<Header> {
    if rows == [] then []
    else Without(rows[..|rows| - 1], n) + (if Last(rows).number == n then [] else [Last(rows)])
  }

  function WithoutAll(rows: seq<Header>, gone: seq<Header>): seq<Header>
    decreases |gone|
  {
    if gone == [] then rows else WithoutAll(Without(rows, gone[0].number), gone[1..])
  }

  // The table blocks.
  class BlocksTable {
    var rows: seq<Header>

    constructor ()
      ensures rows == []
    {
      rows := [];
    }

    // The table as a transaction sees it.
    constructor Of(rows: seq<Header>)
      ensures this.rows == rows
    {
      this.rows := rows;
    }

    // `up` says whether the database answered.
    method StoreBlocks(headers: seq<Header>, up: bool) returns (ok: bool)
      modifies this
      ensures ok == (up && Insert(old(rows), headers).Some?)
      ensures rows == if ok then old(rows) + headers else old(rows)
    {
      ok := up && Consistent(rows + headers);
      if ok {
        rows := rows + headers;
      }
    }

    method DeleteBlocksByNumber(headers: seq<Header>)
      modifies this
      ensures rows == WithoutAll(old(rows), headers)
    {
      for k := 0 to |headers|
        invariant WithoutAll(old(rows), headers) == WithoutAll(rows, headers[k..])
      {
        rows := Without(rows, headers[k].number);
        assert headers[k..][1..] == headers[k + 1..];
      }
    }
  }

  // A batch is stored if and only if each height and timestamp fits its column and no hash, parent hash or
  // height occurs twice in the batch or stands in the table already.
  lemma InsertExactly(rows: seq<Header>, added: seq<Header>)
    requires Consistent(rows)
    ensures Insert(rows, added).Some? <==>
      && (forall i | 0 <= i < |added| :: 0 < added[i].number < U256 && 0 < added[i].timestamp < 0x8000_0000)
      && (forall i, j | 0 <= i < j < |added| :: added[i].hash != added[j].hash
            && added[i].parentHash != added[j].parentHash && added[i].number != added[j].number)
      && (forall i, j | 0 <= i < |rows| && 0 <= j < |added| :: rows[i].hash != added[j].hash
            && rows[i].parentHash != added[j].parentHash && rows[i].number != added[j].number)
    ensures Insert(rows, added).Some? ==> Insert(rows, added).value == rows + added
  {
    var all, n := rows + added, |rows|;
    if Consistent(all) {
      assert forall i | 0 <= i < |added| :: ValidRow(all[n + i]) && all[n + i] == added[i];
      forall i, j | 0 <= i < j < |added| ensures Distinct(added[i], added[j]) {
        assert Distinct(all[n + i], all[n + j]);
      }
      forall i, j | 0 <= i < n && 0 <= j < |added| ensures Distinct(rows[i], added[j]) {
        assert Distinct(all[i], all[n + j]);
      }
    }
  }

  // Latest is the row with the greatest number.
  lemma {:induction false} LatestIsHighest(rows: seq<Header>)
    ensures rows == [] <==> Latest(rows) == None
    ensures rows != [] ==> Latest(rows).value in rows && forall r | r in rows :: r.number <= Latest(rows).value.number
  {
    if rows != [] {
      LatestIsHighest(rows[..|rows| - 1]);
      assert rows == rows[..|rows| - 1] + [Last(rows)];
    }
  }

  lemma {:induction false} LatestOfLinked(rows: seq<Header>)
    requires Linked(rows) && rows != []
    ensures Latest(rows) == Some(Last(rows))
  {
    LatestIsHighest(rows);
    LatestIsHighest(rows[..|rows| - 1]);
    forall r | r in rows[..|rows| - 1] ensures r.number < Last(rows).number {
      var i :| 0 <= i < |rows| - 1 && rows[i] == r;
      LinkedNumbers(rows, i);
      LinkedNumbers(rows, |rows| - 1);
    }
  }

  // In a linked table the row at height n is the one n - base places after the first.
  lemma {:induction false} RowAtLinked(rows: seq<Header>, n: int)
    requires Linked(rows)
    ensures RowAt(rows, n) ==
      if rows != [] && 0 <= n - rows[0].number < |rows| then Some(rows[n - rows[0].number]) else None
  {
    if rows != [] {
      LinkedNumbers(rows, |rows| - 1);
      RowAtLinked(rows[..|rows| - 1], n);
    }
  }

  lemma {:induction false} WithoutAbsent(rows: seq<Header>, n: int)
    requires forall r | r in rows :: r.number != n
    ensures Without(rows, n) == rows
  {
    if rows != [] {
      WithoutAbsent(rows[..|rows| - 1], n);
      assert rows == rows[..|rows| - 1] + [Last(rows)];
    }
  }

  // Deleting the highest row of a linked table takes off its last row.
  lemma WithoutTip(rows: seq<Header>)
    requires Linked(rows) && rows != []
    ensures Without(rows, Last(rows).number) == rows[..|rows| - 1]
  {
    forall r | r in rows[..|rows| - 1] ensures r.number != Last(rows).number {
      var i :| 0 <= i < |rows| - 1 && rows[i] == r;
      LinkedNumbers(rows, i);
      LinkedNumbers(rows, |rows| - 1);
    }
    WithoutAbsent(rows[..|rows| - 1], Last(rows).number);
  }

  predicate Numbered(rows: seq<Header>, n: int) {
    exists k | 0 <= k < |rows| :: rows[k].number == n
  }

  // What any deletion leaves: the rows whose numbers are not listed, in the order of the table.
  lemma {:induction false} DeletionExactly(rows: seq<Header>, gone: seq<Header>) returns (at: seq<nat>)
    ensures Placed(WithoutAll(rows, gone), rows, at)
    ensures forall i: nat | i < |rows| :: i in at <==> !Numbered(gone, rows[i].number)
    decreases |gone|
  {
    if gone == [] {
      at := seq(|rows|, i => i);
      assert forall i: nat | i < |rows| :: at[i] == i;
    } else {
      var mid := Without(rows, gone[0].number);
      var first := WithoutPlaced(rows, gone[0].number);
      var rest := DeletionExactly(mid, gone[1..]);
      at := Through(WithoutAll(mid, gone[1..]), mid, rows, first, rest);
      hide Placed, Numbered, Without, WithoutAll;
      forall i: nat | i < |rows| ensures i in at <==> !Numbered(gone, rows[i].number) {
        NumberedOneMore(gone, rows[i].number);
        if i in first {
          var j :| 0 <= j < |first| && first[j] == i;
        }
      }
    }
  }

  // Places found in two steps.
  lemma Through(left: seq<Header>, mid: seq<Header>, rows: seq<Header>, first: seq<nat>, rest: seq<nat>)
    returns (at: seq<nat>)
    requires Placed(mid, rows, first) && Placed(left, mid, rest)
    ensures Placed(left, rows, at) && |first| == |mid|
    ensures forall i | i in at :: i in first
    ensures forall j | 0 <= j < |first| :: first[j] < |rows| && mid[j] == rows[first[j]]
    ensures forall j | 0 <= j < |first| :: first[j] in at <==> j in rest
  {
    at := seq(|rest|, k requires 0 <= k < |rest| => first[rest[k]]);
    forall j | 0 <= j < |first| ensures first[j] in at <==> j in rest {
      if j in rest {
        var k :| 0 <= k < |rest| && rest[k] == j;
        assert at[k] == first[j];
      }
      if first[j] in at {
        var k :| 0 <= k < |at| && at[k] == first[j];
        assert rest[k] == j;
      }
    }
  }

  lemma NumberedOneMore(gone: seq<Header>, n: int)
    requires gone != []
    ensures Numbered(gone, n) <==> gone[0].number == n || Numbered(gone[1..], n)
  {
    if Numbered(gone, n) {
      var k :| 0 <= k < |gone| && gone[k].number == n;
      if k > 0 {
        assert gone[1..][k - 1].number == n;
      }
    }
    if Numbered(gone[1..], n) {
      var k :| 0 <= k < |gone[1..]| && gone[1..][k].number == n;
      assert gone[k + 1].number == n;
    }
  }

  lemma {:induction false} WithoutPlaced(rows: seq<Header>, n: int) returns (at: seq<nat>)
    ensures Placed(Without(rows, n), rows, at)
    ensures forall i: nat | i < |rows| :: i in at <==> rows[i].number != n
  {
    at := [];
    if rows != [] {
      var init := rows[..|rows| - 1];
      at := WithoutPlaced(init, n);
      PlacedOnwards(Without(init, n), init, at, Last(rows));
      assert rows == init + [Last(rows)] && |init| !in at;
      if Last(rows).number != n {
        at := at + [|rows| - 1];
      }
    }
  }

  // Highest row first.
  function Reverse(rows: seq<Header>): seq<Header> {
    if rows == [] then [] else [Last(rows)] + Reverse(rows[..|rows| - 1])
  }

  // Deleting the top rows, highest first, leaves the rows below.
  lemma {:induction false} WithoutTop(rows: seq<Header>, keep: nat)
    requires Linked(rows) && keep <= |rows|
    ensures WithoutAll(rows, Reverse(rows[keep..])) == rows[..keep]
    decreases |rows|
  {
    if keep < |rows| {
      var init := rows[..|rows| - 1];
      WithoutTip(rows);
      assert rows[keep..][..|rows[keep..]| - 1] == init[keep..];
      assert Last(rows[keep..]) == Last(rows);
      WithoutTop(init, keep);
      assert init[..keep] == rows[..keep];
    }
  }
}
