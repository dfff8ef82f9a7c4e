/** One business's balance table: database/balances.go. */
module Balances {
  import opened Prelude

  type Address = nat

  datatype WalletKind = User | Hot | Cold
  datatype TxType = Deposit | Withdraw | Collection | Hot2Cold | Cold2Hot | Unknown

  // One movement of a token amount (database/types.go).
  datatype Entry = Entry(from: Address, to: Address, token: Address, amount: int, kind: TxType)

  datatype Row = Row(address: Address, token: Address, kind: WalletKind, balance: int, lock: int)

  // A cell of the ledger: an address and a token.
  datatype Cell = Cell(address: Address, token: Address)

  predicate U256Range(x: int) {
    0 <= x < U256
  }

  // The index of the first row of an address and token, |rows| when there is none.
  function Find(rows: seq<Row>, cell: Cell): (i: nat)
    ensures i <= |rows|
    ensures i < |rows| ==> rows[i].address == cell.address && rows[i].token == cell.token
  {
    if rows == [] then 0
    else
      var i := Find(rows[..|rows| - 1], cell);
      if i < |rows| - 1 then i
      else if Last(rows).address == cell.address && Last(rows).token == cell.token then |rows| - 1
      else |rows|
  }

  // Query a row, creating it at zero when it is missing.
  function Ensure(rows: seq<Row>, kind: WalletKind, cell: Cell): (r: seq<Row>)
    ensures rows <= r && Find(r, cell) < |r|
    ensures Find(rows, cell) < |rows| ==> r == rows
  {
    if Find(rows, cell) < |rows| then rows
    else
      var r := rows + [Row(cell.address, cell.token, kind, 0, 0)];
      assert r[..|r| - 1] == rows;
      r
  }

  // Query or create a row and save it with a changed balance. Saving adds the lock balance just read to
  // itself. None: the row leaves the range of its columns, which aborts the transaction.
  function Adjust(rows: seq<Row>, kind: WalletKind, cell: Cell, delta: int): Option<seq<Row>> {
    var ready := Ensure(rows, kind, cell);
    var i := Find(ready, cell);
    var row := ready[i].(balance := ready[i].balance + delta, lock := ready[i].lock + ready[i].lock);
    if U256Range(row.balance) && U256Range(row.lock) then Some(ready[i := row]) else None
  }

  function From(e: Entry): Cell { Cell(e.from, e.token) }

  function To(e: Entry): Cell { Cell(e.to, e.token) }

  // Move an amount out of one row, then into another.
  function Transfer(rows: seq<Row>, e: Entry, fromKind: WalletKind, toKind: WalletKind, amount: int): Option<seq<Row>> {
    match Adjust(rows, fromKind, From(e), -amount)
    case None => None
    case Some(mid) => Adjust(mid, toKind, To(e), amount)
  }

  // A forward update with the entry's amount; a rollback is the same update with the amount negated.
  function Post(rows: seq<Row>, e: Entry, amount: int): Option<seq<Row>> {
    match e.kind
    case Deposit => Adjust(rows, User, To(e), amount)
    case Withdraw => Adjust(rows, Hot, From(e), -amount)
    case Collection => Transfer(rows, e, User, Hot, amount)
    case Hot2Cold => Transfer(rows, e, Hot, Cold, amount)
    case Cold2Hot => Transfer(rows, e, Cold, Hot, amount)
    case Unknown => None
  }

  function Apply(rows: seq<Row>, e: Entry): Option<seq<Row>> { Post(rows, e, e.amount) }

  function Undo(rows: seq<Row>, e: Entry): Option<seq<Row>> { Post(rows, e, -e.amount) }

  // UpdateOrCreate: all entries in order, or nothing.
  function ApplyAll(rows: seq<Row>, es: seq<Entry>): Option<seq<Row>> {
    if es == [] then Some(rows) else
      match ApplyAll(rows, es[..|es| - 1])
      case None => None
      case Some(mid) => Apply(mid, Last(es))
  }

  // The rollback handlers from the last entry to the first.
  function UndoAll(rows: seq<Row>, es: seq<Entry>): Option<seq<Row>>
    decreases |es|
  {
    if es == [] then Some(rows) else
      match Undo(rows, Last(es))
      case None => None
      case Some(mid) => UndoAll(mid, es[..|es| - 1])
  }

  // UpdateFallBackBalance returns from inside its loop: only the first entry is undone.
  function UndoFirst(rows: seq<Row>, es: seq<Entry>): Option<seq<Row>> {
    if es == [] then Some(rows) else Undo(rows, es[0])
  }

  class BalancesTable {
    var rows: seq<Row>

    // The table as a transaction sees it.
    constructor (rows: seq<Row>)
      ensures this.rows == rows
    {
      this.rows := rows;
    }

    method QueryWalletBalanceByTokenAndAddress(kind: WalletKind, cell: Cell) returns (row: Row)
      modifies this
      ensures rows == Ensure(old(rows), kind, cell)
      ensures row == rows[Find(rows, cell)]
    {
      if Find(rows, cell) == |rows| {
        rows := rows + [Row(cell.address, cell.token, kind, 0, 0)];
      }
      row := rows[Find(rows, cell)];
    }

    method UpdateAndSaveBalance(row: Row) returns (ok: bool)
      modifies this
      ensures var i := Find(old(rows), Cell(row.address, row.token));
        if i == |old(rows)| then ok && rows == old(rows)
        else
          var saved := old(rows)[i].(balance := row.balance, lock := old(rows)[i].lock + row.lock);
          && ok == (U256Range(saved.balance) && U256Range(saved.lock))
          && rows == if ok then old(rows)[i := saved] else old(rows)
    {
      var i := Find(rows, Cell(row.address, row.token));
      if i == |rows| {
        return true;
      }
      var current := rows[i];
      current := current.(balance := row.balance);
      current := current.(lock := current.lock + row.lock);
      ok := U256Range(current.balance) && U256Range(current.lock);
      if ok {
        rows := rows[i := current];
      }
    }

    // Query or create, add, save: the pattern every handler repeats.
    method AddTo(kind: WalletKind, cell: Cell, delta: int) returns (ok: bool)
      modifies this
      ensures ok == Adjust(old(rows), kind, cell, delta).Some?
      ensures ok ==> rows == Adjust(old(rows), kind, cell, delta).value
    {
      var row := QueryWalletBalanceByTokenAndAddress(kind, cell);
      row := row.(balance := row.balance + delta);
      ok := UpdateAndSaveBalance(row);
    }

    // handleBalanceUpdate and its five handlers; with the amount negated, the five rollback handlers.
    method Handle(e: Entry, amount: int) returns (ok: bool)
      modifies this
      ensures ok == Post(old(rows), e, amount).Some?
      ensures ok ==> rows == Post(old(rows), e, amount).value
    {
      hide Adjust;
      match e.kind
      case Deposit =>
        ok := AddTo(User, To(e), amount);
      case Withdraw =>
        ok := AddTo(Hot, From(e), -amount);
      case Collection =>
        ok := AddTo(User, From(e), -amount);
        if ok {
          ok := AddTo(Hot, To(e), amount);
        }
      case Hot2Cold =>
        ok := AddTo(Hot, From(e), -amount);
        if ok {
          ok := AddTo(Cold, To(e), amount);
        }
      case Cold2Hot =>
        ok := AddTo(Cold, From(e), -amount);
        if ok {
          ok := AddTo(Hot, To(e), amount);
        }
      case Unknown =>
        ok := false;
    }

    // One transaction: a failing entry rolls the table back.
    method UpdateOrCreate(entries: seq<Entry>) returns (ok: bool)
      modifies this
      ensures ok == ApplyAll(old(rows), entries).Some?
      ensures rows == if ok then ApplyAll(old(rows), entries).value else old(rows)
    {
      hide Post;
      var before := rows;
      for k := 0 to |entries|
        invariant ApplyAll(before, entries[..k]) == Some(rows)
      {
        assert entries[..k + 1][..k] == entries[..k];
        ok := Handle(entries[k], entries[k].amount);
        if !ok {
          rows := before;
          ApplyAllStops(before, entries, k + 1);
          return;
        }
      }
      assert entries[..|entries|] == entries;
      ok := true;
    }

    method UpdateFallBackBalance(entries: seq<Entry>) returns (ok: bool)
      modifies this
      ensures ok == UndoFirst(old(rows), entries).Some?
      ensures rows == if ok then UndoFirst(old(rows), entries).value else old(rows)
    {
      hide Post;
      var before := rows;
      for k := 0 to |entries|
        invariant k == 0 && rows == before
      {
        ok := Handle(entries[k], -entries[k].amount);
        if !ok {
          rows := before;
        }
        return;
      }
      ok := true;
    }
  }

  lemma {:induction false} ApplyAllStops(rows: seq<Row>, es: seq<Entry>, k: nat)
    requires k <= |es| && ApplyAll(rows, es[..k]) == None
    ensures ApplyAll(rows, es) == None
    decreases |es| - k
  {
    if k < |es| {
      assert es[..k + 1][..k] == es[..k];
      ApplyAllStops(rows, es, k + 1);
    } else {
      assert es[..k] == es;
    }
  }

  // ---- What the updates mean, cell by cell ----

  // The balance of a cell; a row that does not exist yet counts as zero.
  function Value(rows: seq<Row>, cell: Cell): int {
    var i := Find(rows, cell);
    if i < |rows| then rows[i].balance else 0
  }

  ghost predicate Same(a: seq<Row>, b: seq<Row>) {
    forall cell :: Value(a, cell) == Value(b, cell)
  }

  // Rows are in range and carry no lock balance; this is how every row is created.
  predicate Unlocked(rows: seq<Row>) {
    forall i | 0 <= i < |rows| :: U256Range(rows[i].balance) && rows[i].lock == 0
  }

  function If(b: bool, x: int): int { if b then x else 0 }

  // What posting an amount does to one cell.
  function Effect(e: Entry, amount: int, cell: Cell): int {
    match e.kind
    case Deposit => If(cell == To(e), amount)
    case Withdraw => If(cell == From(e), -amount)
    case Unknown => 0
    case _ => If(cell == From(e), -amount) + If(cell == To(e), amount)
  }

  function Effects(es: seq<Entry>, cell: Cell): int {
    if es == [] then 0 else Effects(es[..|es| - 1], cell) + Effect(Last(es), Last(es).amount, cell)
  }

  // Find depends on the addresses and tokens of the rows alone.
  lemma {:induction false} FindKeys(a: seq<Row>, b: seq<Row>, cell: Cell)
    requires |a| == |b|
    requires forall j | 0 <= j < |a| :: a[j].address == b[j].address && a[j].token == b[j].token
    ensures Find(a, cell) == Find(b, cell)
  {
    if a != [] {
      FindKeys(a[..|a| - 1], b[..|b| - 1], cell);
    }
  }

  lemma FindAppend(rows: seq<Row>, row: Row, cell: Cell)
    ensures Value(rows + [row], cell) ==
      if Find(rows, cell) == |rows| && cell == Cell(row.address, row.token) then row.balance else Value(rows, cell)
  {
  }

  lemma ValueAt(rows: seq<Row>, i: nat, row: Row, cell: Cell)
    requires i < |rows| && i == Find(rows, Cell(row.address, row.token))
    ensures Value(rows[i := row], cell) == if cell == Cell(row.address, row.token) then row.balance
        else Value(rows, cell)
  {
    FindKeys(rows, rows[i := row], cell);
    FindKeys(rows, rows[i := row], Cell(row.address, row.token));
  }

  // The row found is the first of the address and token.
  lemma {:induction false} FindsFirst(rows: seq<Row>, cell: Cell)
    ensures forall j | 0 <= j < Find(rows, cell) :: Cell(rows[j].address, rows[j].token) != cell
  {
    if rows != [] {
      FindsFirst(rows[..|rows| - 1], cell);
    }
  }

  // The wallets a transaction takes from and gives to.
  function Payer(kind: TxType): WalletKind {
    match kind
    case Collection => User
    case Cold2Hot => Cold
    case _ => Hot
  }

  function Payee(kind: TxType): WalletKind {
    match kind
    case Deposit => User
    case Hot2Cold => Cold
    case _ => Hot
  }

  // Row i is new, for a side of the entry that had none, under that side's wallet.
  predicate Created(rows: seq<Row>, e: Entry, row: Row) {
    var cell := Cell(row.address, row.token);
    && Find(rows, cell) == |rows|
    && ((cell == From(e) && !e.kind.Deposit? && row.kind == Payer(e.kind))
        || (cell == To(e) && !e.kind.Withdraw? && row.kind == Payee(e.kind)))
  }

  predicate SameRow(a: Row, b: Row) {
    a.address == b.address && a.token == b.token && a.kind == b.kind
  }

  lemma AdjustKeepsRows(rows: seq<Row>, kind: WalletKind, cell: Cell, delta: int)
    requires Adjust(rows, kind, cell, delta).Some?
    ensures var r := Adjust(rows, kind, cell, delta).value;
      && |rows| <= |r| <= |rows| + 1 && (forall i | 0 <= i < |rows| :: SameRow(r[i], rows[i]))
      && (|r| > |rows| ==> Find(rows, cell) == |rows| && SameRow(r[|rows|], Row(cell.address, cell.token, kind, 0, 0)))
  {
  }

  // A posting keeps every row's place, address, token and wallet, and appends rows only for sides that had none.
  lemma PostKeepsRows(rows: seq<Row>, e: Entry, amount: int)
    requires Post(rows, e, amount).Some?
    ensures var r := Post(rows, e, amount).value;
      && |rows| <= |r| && (forall i | 0 <= i < |rows| :: SameRow(r[i], rows[i]))
      && (forall i | |rows| <= i < |r| :: Created(rows, e, r[i]))
  {
    hide Adjust;
    match e.kind
    case Deposit => AdjustKeepsRows(rows, User, To(e), amount);
    case Withdraw => AdjustKeepsRows(rows, Hot, From(e), -amount);
    case Unknown =>
    case _ =>
      var mid := Adjust(rows, Payer(e.kind), From(e), -amount).value;
      AdjustKeepsRows(rows, Payer(e.kind), From(e), -amount);
      AdjustKeepsRows(mid, Payee(e.kind), To(e), amount);
      if Find(rows, To(e)) < |rows| {
        FindKeysPrefix(rows, mid, To(e));
      }
  }

  // Rows with the same keys in front find the same row.
  lemma {:induction false} FindKeysPrefix(a: seq<Row>, b: seq<Row>, cell: Cell)
    requires |a| <= |b| && Find(a, cell) < |a|
    requires forall j | 0 <= j < |a| :: a[j].address == b[j].address && a[j].token == b[j].token
    ensures Find(b, cell) == Find(a, cell)
    decreases |b|
  {
    if |b| > |a| {
      FindKeysPrefix(a, b[..|b| - 1], cell);
    } else {
      FindKeys(a, b, cell);
    }
  }

  // On unlocked rows an adjustment succeeds exactly when the new balance is in range, and it changes
  // that cell alone.
  lemma AdjustMeans(rows: seq<Row>, kind: WalletKind, cell: Cell, delta: int)
    requires Unlocked(rows)
    ensures Adjust(rows, kind, cell, delta).Some? <==> U256Range(Value(rows, cell) + delta)
    ensures Adjust(rows, kind, cell, delta).Some? ==>
      var r := Adjust(rows, kind, cell, delta).value;
      && Unlocked(r)
      && forall c :: Value(r, c) == Value(rows, c) + If(c == cell, delta)
  {
    var ready := Ensure(rows, kind, cell);
    forall c ensures Value(ready, c) == Value(rows, c) {
      FindAppend(rows, Row(cell.address, cell.token, kind, 0, 0), c);
    }
    assert Value(ready, cell) == Value(rows, cell);
    var r := Adjust(rows, kind, cell, delta);
    if r.Some? {
      var i := Find(ready, cell);
      forall c ensures Value(r.value, c) == Value(rows, c) + If(c == cell, delta) {
        assert Value(ready, c) == Value(rows, c);
        ValueAt(ready, i, r.value[i], c);
      }
    }
  }

  function Locked(rows: seq<Row>, cell: Cell): int {
    var i := Find(rows, cell);
    if i < |rows| then rows[i].lock else 0
  }

  // On any rows it fails exactly when the new balance or the doubled lock balance leaves its column.
  lemma AdjustFails(rows: seq<Row>, kind: WalletKind, cell: Cell, delta: int)
    ensures Adjust(rows, kind, cell, delta) == None <==>
      !(0 <= Value(rows, cell) + delta < U256 && 0 <= 2 * Locked(rows, cell) < U256)
  {
    var row := Row(cell.address, cell.token, kind, 0, 0);
    assert Find(rows, cell) == |rows| ==> (rows + [row])[..|rows|] == rows;
  }

  predicate MovesWithin(kind: TxType) {
    kind.Collection? || kind.Hot2Cold? || kind.Cold2Hot?
  }

  predicate IsTransfer(e: Entry) {
    MovesWithin(e.kind)
  }

  // A posting that succeeds changes every cell by its effect.
  lemma PostMeans(rows: seq<Row>, e: Entry, amount: int)
    requires Unlocked(rows)
    ensures Post(rows, e, amount).Some? ==>
      var r := Post(rows, e, amount).value;
      Unlocked(r) && forall c :: Value(r, c) == Value(rows, c) + Effect(e, amount, c)
  {
    hide Adjust;
    var kinds := match e.kind case Collection => (User, Hot) case Hot2Cold => (Hot, Cold) case _ => (Cold, Hot);
    if IsTransfer(e) {
      AdjustMeans(rows, kinds.0, From(e), -amount);
      var mid := Adjust(rows, kinds.0, From(e), -amount);
      if mid.Some? {
        AdjustMeans(mid.value, kinds.1, To(e), amount);
      }
    } else if e.kind.Deposit? {
      AdjustMeans(rows, User, To(e), amount);
    } else if e.kind.Withdraw? {
      AdjustMeans(rows, Hot, From(e), -amount);
    }
  }

  // When a posting succeeds: the outgoing cell first, then the incoming one, must stay in range.
  lemma PostSucceeds(rows: seq<Row>, e: Entry, amount: int)
    requires Unlocked(rows)
    ensures Post(rows, e, amount).Some? <==>
      && !e.kind.Unknown?
      && (!e.kind.Deposit? ==> U256Range(Value(rows, From(e)) - amount))
      && (!e.kind.Withdraw? ==> U256Range(Value(rows, To(e)) + amount - If(IsTransfer(e) && From(e) == To(e), amount)))
  {
    hide Adjust;
    var kinds := match e.kind case Collection => (User, Hot) case Hot2Cold => (Hot, Cold) case _ => (Cold, Hot);
    if IsTransfer(e) {
      AdjustMeans(rows, kinds.0, From(e), -amount);
      var mid := Adjust(rows, kinds.0, From(e), -amount);
      if mid.Some? {
        AdjustMeans(mid.value, kinds.1, To(e), amount);
      }
    } else if e.kind.Deposit? {
      AdjustMeans(rows, User, To(e), amount);
    } else if e.kind.Withdraw? {
      AdjustMeans(rows, Hot, From(e), -amount);
    }
  }

  lemma EffectsCancel(rows: seq<Row>, e: Entry, amount: int, mid: seq<Row>, after: seq<Row>, back: seq<Row>)
    requires forall c :: Value(mid, c) == Value(rows, c) + Effect(e, amount, c)
    requires Same(after, mid)
    requires forall c :: Value(back, c) == Value(after, c) + Effect(e, -amount, c)
    ensures Same(back, rows)
  {
  }

  // Undoing one entry right after it was applied: it succeeds unless the entry moves tokens from a row
  // to itself and the balance cannot hold the amount twice over; when it succeeds, every balance is back.
  lemma UndoOne(rows: seq<Row>, e: Entry, after: seq<Row>)
    requires Unlocked(rows) && Unlocked(after) && Apply(rows, e).Some? && Same(after, Apply(rows, e).value)
    ensures Undo(after, e).Some? <==> (IsTransfer(e) && e.from == e.to ==> U256Range(Value(rows, From(e)) + e.amount))
    ensures Undo(after, e).Some? ==> Unlocked(Undo(after, e).value) && Same(Undo(after, e).value, rows)
  {
    hide Post;
    assert Value(after, From(e)) == Value(rows, From(e)) + Effect(e, e.amount, From(e))
        && Value(after, To(e)) == Value(rows, To(e)) + Effect(e, e.amount, To(e)) by {
      PostMeans(rows, e, e.amount);
    }
    PostSucceeds(rows, e, e.amount);
    PostSucceeds(after, e, -e.amount);
    InRange(rows, From(e));
    InRange(rows, To(e));
    if Undo(after, e).Some? {
      PostMeans(rows, e, e.amount);
      PostMeans(after, e, -e.amount);
      EffectsCancel(rows, e, e.amount, Apply(rows, e).value, after, Undo(after, e).value);
    }
  }

  lemma InRange(rows: seq<Row>, cell: Cell)
    requires Unlocked(rows)
    ensures U256Range(Value(rows, cell))
  {
  }

  // No entry moves tokens from a row to itself; classification guarantees it.
  predicate NoSelfTransfer(es: seq<Entry>) {
    forall i | 0 <= i < |es| :: IsTransfer(es[i]) ==> es[i].from != es[i].to
  }

  // Entry k, if it moves tokens from a row to itself, leaves room for its amount once more.
  predicate FitsTwice(rows: seq<Row>, es: seq<Entry>, k: nat)
    requires k < |es|
  {
    IsTransfer(es[k]) && es[k].from == es[k].to ==>
      match ApplyAll(rows, es[..k])
      case None => false
      case Some(mid) => U256Range(Value(mid, From(es[k])) + es[k].amount)
  }

  // Undo in reverse order: whatever UpdateOrCreate applied, the rollback handlers from last to first all
  // succeed if and only if every transfer from a row to itself fits twice; and then they restore every
  // balance, rows created on demand counting as zero.
  lemma {:induction false} UndoInReverse(rows: seq<Row>, es: seq<Entry>, after: seq<Row>)
    requires Unlocked(rows) && Unlocked(after)
    requires ApplyAll(rows, es).Some? && Same(after, ApplyAll(rows, es).value)
    ensures UndoAll(after, es).Some? <==> forall k | 0 <= k < |es| :: FitsTwice(rows, es, k)
    ensures UndoAll(after, es).Some? ==> Same(UndoAll(after, es).value, rows)
    decreases |es|
  {
    hide Post;
    if es != [] {
      var init := es[..|es| - 1];
      var mid := ApplyAll(rows, init).value;
      ApplyAllMeans(rows, init);
      UndoOne(mid, Last(es), after);
      InitFits(rows, init, Last(es), es);
      if Undo(after, Last(es)).Some? {
        UndoInReverse(rows, init, Undo(after, Last(es)).value);
      }
    }
  }

  lemma InitFits(rows: seq<Row>, init: seq<Entry>, e: Entry, es: seq<Entry>)
    requires es == init + [e]
    ensures (forall k | 0 <= k < |es| :: FitsTwice(rows, es, k)) <==>
      (forall k | 0 <= k < |init| :: FitsTwice(rows, init, k)) && FitsTwice(rows, es, |init|)
  {
    forall k | 0 <= k < |init| ensures FitsTwice(rows, init, k) == FitsTwice(rows, es, k) {
      assert init[..k] == es[..k];
    }
  }

  // Classified lists hold no such transfer, so their undoing is total.
  lemma UndoIsTotal(rows: seq<Row>, es: seq<Entry>, after: seq<Row>)
    requires Unlocked(rows) && Unlocked(after) && NoSelfTransfer(es)
    requires ApplyAll(rows, es).Some? && Same(after, ApplyAll(rows, es).value)
    ensures UndoAll(after, es).Some? && Same(UndoAll(after, es).value, rows)
  {
    UndoInReverse(rows, es, after);
  }

  // A whole list changes every cell by the sum of its effects.
  lemma {:induction false} ApplyAllMeans(rows: seq<Row>, es: seq<Entry>)
    requires Unlocked(rows) && ApplyAll(rows, es).Some?
    ensures Unlocked(ApplyAll(rows, es).value)
    ensures forall c :: Value(ApplyAll(rows, es).value, c) == Value(rows, c) + Effects(es, c)
    decreases |es|
  {
    hide Post;
    if es != [] {
      ApplyAllMeans(rows, es[..|es| - 1]);
      PostMeans(ApplyAll(rows, es[..|es| - 1]).value, Last(es), Last(es).amount);
    }
  }

  // Entry k fits: its cells stay in range, the outgoing one first, after the effects of the entries before it.
  predicate Fits(rows: seq<Row>, es: seq<Entry>, k: nat)
    requires k < |es|
  {
    var e, before := es[k], es[..k];
    var from, to := Value(rows, From(e)) + Effects(before, From(e)), Value(rows, To(e)) + Effects(before, To(e));
    && !e.kind.Unknown?
    && (!e.kind.Deposit? ==> U256Range(from - e.amount))
    && (!e.kind.Withdraw? ==> U256Range(if IsTransfer(e) && From(e) == To(e) then to else to + e.amount))
  }

  // A list is applied if and only if each entry fits by the sums of the effects before it.
  lemma {:induction false} ApplyAllExactly(rows: seq<Row>, es: seq<Entry>)
    requires Unlocked(rows)
    ensures ApplyAll(rows, es).Some? <==> forall k | 0 <= k < |es| :: Fits(rows, es, k)
    decreases |es|
  {
    hide Post, Unlocked, Value, Effects;
    if es != [] {
      var init, e := es[..|es| - 1], Last(es);
      ApplyAllExactly(rows, init);
      InitAllFit(rows, init, e, es);
      if ApplyAll(rows, init).Some? {
        ApplyAllMeans(rows, init);
        PostSucceeds(ApplyAll(rows, init).value, e, e.amount);
      }
    }
  }

  lemma InitAllFit(rows: seq<Row>, init: seq<Entry>, e: Entry, es: seq<Entry>)
    requires es == init + [e]
    ensures (forall k | 0 <= k < |es| :: Fits(rows, es, k)) <==>
      (forall k | 0 <= k < |init| :: Fits(rows, init, k)) && Fits(rows, es, |init|)
  {
    forall k | 0 <= k < |init| ensures Fits(rows, init, k) == Fits(rows, es, k) {
      assert init[..k] == es[..k];
    }
  }

  // Only balances decide what a list does: tables that agree on them accept the same lists.
  lemma {:induction false} ApplyAllSame(a: seq<Row>, b: seq<Row>, es: seq<Entry>)
    requires Unlocked(a) && Unlocked(b) && Same(a, b)
    ensures ApplyAll(a, es).Some? == ApplyAll(b, es).Some?
    ensures ApplyAll(a, es).Some? ==> Same(ApplyAll(a, es).value, ApplyAll(b, es).value)
    decreases |es|
  {
    hide Post;
    if es != [] {
      var init := es[..|es| - 1];
      ApplyAllSame(a, b, init);
      if ApplyAll(a, init).Some? {
        ApplyAllMeans(a, init);
        ApplyAllMeans(b, init);
        PostSucceeds(ApplyAll(a, init).value, Last(es), Last(es).amount);
        PostSucceeds(ApplyAll(b, init).value, Last(es), Last(es).amount);
        PostMeans(ApplyAll(a, init).value, Last(es), Last(es).amount);
        PostMeans(ApplyAll(b, init).value, Last(es), Last(es).amount);
      }
    }
  }

  lemma {:induction false} ApplyAllConcat(rows: seq<Row>, es: seq<Entry>, more: seq<Entry>)
    ensures ApplyAll(rows, es + more) ==
      if ApplyAll(rows, es).Some? then ApplyAll(ApplyAll(rows, es).value, more) else None
    decreases |more|
  {
    if more == [] {
      assert es + more == es;
    } else {
      assert (es + more)[..|es + more| - 1] == es + more[..|more| - 1];
      ApplyAllConcat(rows, es, more[..|more| - 1]);
    }
  }

  // ---- Conservation ----

  // All balances of a token, over every row.
  function Total(rows: seq<Row>, token: Address): int {
    if rows == [] then 0 else Total(rows[..|rows| - 1], token) + If(Last(rows).token == token, Last(rows).balance)
  }

  // Deposits minus withdrawals of a token.
  function NetInflow(es: seq<Entry>, token: Address): int {
    if es == [] then 0 else
      NetInflow(es[..|es| - 1], token) +
      If(Last(es).token == token && Last(es).kind.Deposit?, Last(es).amount) -
      If(Last(es).token == token && Last(es).kind.Withdraw?, Last(es).amount)
  }

  lemma {:induction false} TotalUpdate(rows: seq<Row>, i: nat, row: Row, token: Address)
    requires i < |rows| && row.token == rows[i].token
    ensures Total(rows[i := row], token) == Total(rows, token) + If(row.token == token, row.balance - rows[i].balance)
  {
    var changed := rows[i := row];
    if i < |rows| - 1 {
      TotalUpdate(rows[..|rows| - 1], i, row, token);
      assert changed[..|rows| - 1] == rows[..|rows| - 1][i := row];
    } else {
      assert changed[..|rows| - 1] == rows[..|rows| - 1];
    }
  }

  lemma TotalAdjust(rows: seq<Row>, kind: WalletKind, cell: Cell, delta: int, token: Address)
    requires Adjust(rows, kind, cell, delta).Some?
    ensures Total(Adjust(rows, kind, cell, delta).value, token) == Total(rows, token) + If(cell.token == token, delta)
  {
    var ready := Ensure(rows, kind, cell);
    var i := Find(ready, cell);
    assert Total(ready, token) == Total(rows, token) by {
      if ready != rows {
        assert ready[..|ready| - 1] == rows;
      }
    }
    TotalUpdate(ready, i, Adjust(rows, kind, cell, delta).value[i], token);
  }

  lemma TotalTransfer(rows: seq<Row>, e: Entry, fromKind: WalletKind, toKind: WalletKind, amount: int, token: Address)
    requires Transfer(rows, e, fromKind, toKind, amount).Some?
    ensures Total(Transfer(rows, e, fromKind, toKind, amount).value, token) == Total(rows, token)
  {
    hide Adjust;
    TotalAdjust(rows, fromKind, From(e), -amount, token);
    TotalAdjust(Adjust(rows, fromKind, From(e), -amount).value, toKind, To(e), amount, token);
  }

  lemma TotalPost(rows: seq<Row>, e: Entry, amount: int, token: Address)
    requires Post(rows, e, amount).Some?
    ensures Total(Post(rows, e, amount).value, token) == Total(rows, token) +
      If(e.token == token && e.kind.Deposit?, amount) - If(e.token == token && e.kind.Withdraw?, amount)
  {
    hide Adjust;
    match e.kind
    case Deposit => TotalAdjust(rows, User, To(e), amount, token);
    case Withdraw => TotalAdjust(rows, Hot, From(e), -amount, token);
    case Collection => TotalTransfer(rows, e, User, Hot, amount, token);
    case Hot2Cold => TotalTransfer(rows, e, Hot, Cold, amount, token);
    case Cold2Hot => TotalTransfer(rows, e, Cold, Hot, amount, token);
  }

  // Conservation: a successful list changes the sum of all balances of a token by its deposits minus its
  // withdrawals; moves between own wallets contribute nothing.
  lemma {:induction false} Conservation(rows: seq<Row>, es: seq<Entry>, token: Address)
    requires ApplyAll(rows, es).Some?
    ensures Total(ApplyAll(rows, es).value, token) == Total(rows, token) + NetInflow(es, token)
    decreases |es|
  {
    hide Post;
    if es != [] {
      Conservation(rows, es[..|es| - 1], token);
      TotalPost(ApplyAll(rows, es[..|es| - 1]).value, Last(es), Last(es).amount, token);
    }
  }

  // Why locks must be zero: saving doubles the lock balance, so an update and its rollback return a row
  // to itself if and only if the row held no lock.
  lemma LockDoubles(row: Row, delta: int)
    requires U256Range(row.balance) && U256Range(row.balance + delta) && 0 <= row.lock && U256Range(4 * row.lock)
    ensures var cell := Cell(row.address, row.token);
      var there := Adjust([row], row.kind, cell, delta);
      && there.Some?
      && var back := Adjust(there.value, row.kind, cell, -delta);
      && back.Some?
      && (back.value == [row] <==> row.lock == 0)
  {
  }
}
