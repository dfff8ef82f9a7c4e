/** Telling the businesses: worker/notifier.go, and the life of a deposit's status. */
module Notifier {
  import opened Prelude
  import opened Node
  import opened Records
  import opened Database
  import Classify
  import Retry

  type Business = Classify.Business

  // ---- One round for one business ----

  // What one round meets: which of the three queries succeed, whether the business answers success, and
  // the database during the update.
  datatype Answers = Answers(deposits: bool, withdraws: bool, internals: bool, success: bool,
                             cancelled: nat -> bool, up: nat -> bool)

  function Asked<T>(rows: seq<Record<T>>, up: bool): seq<Record<T>> {
    if up then ToNotify(rows) else []
  }

  // Rows that were never signed are left out of the update.
  function Filed<T>(rows: seq<Record<T>>): seq<Record<T>> {
    if rows == [] then [] else
      Filed(rows[..|rows| - 1]) + if Last(rows).status.CreateUnsigned? then [] else [Last(rows)]
  }

  // The update after a request that was answered with success.
  function Acknowledge(l: Ledger, d: seq<Deposit>, w: seq<Request>, i: seq<Request>): Ledger {
    l.(deposits := SetStatus(l.deposits, HashesOf(Filed(d)), Status.Notified),
       withdraws := SetStatus(l.withdraws, HashesOf(w), Status.Notified),
       internals := SetStatus(l.internals, HashesOf(i), Status.Notified))
  }

  function Notify(l: Ledger, a: Answers): Ledger {
    var d, w, i := Asked(l.deposits, a.deposits), Asked(l.withdraws, a.withdraws), Asked(l.internals, a.internals);
    if (d == [] && w == [] && i == []) || !a.success then l
    else
      var r := Retry.RunTransaction(a.cancelled, a.up, Retry.Done(Acknowledge(l, d, w, i)));
      if r.Succeeded? then r.value else l
  }

  class Notifier {
    const database: Database

    constructor (database: Database)
      ensures this.database == database
    {
      this.database := database;
    }

    method AfterNotify(b: Business, notifySuccess: bool, deposits: seq<Deposit>, withdraws: seq<Request>,
                       internals: seq<Request>, a: Answers) returns (ok: bool)
      requires b in database.ledgers
      modifies database`ledgers
      ensures var l := old(database.ledgers)[b];
        var r := Retry.RunTransaction(a.cancelled, a.up, Retry.Done(Acknowledge(l, deposits, withdraws, internals)));
        && ok == (notifySuccess && r.Succeeded?)
        && database.ledgers == if ok then old(database.ledgers)[b := r.value] else old(database.ledgers)
    {
      if !notifySuccess {
        return false;
      }
      var filed: seq<Deposit> := [];
      for k := 0 to |deposits|
        invariant filed == Filed(deposits[..k])
      {
        assert deposits[..k + 1][..k] == deposits[..k];
        if deposits[k].status != CreateUnsigned {
          filed := filed + [deposits[k]];
        }
      }
      assert deposits[..|deposits|] == deposits;
      var l := database.ledgers[b];
      var depositsTable := new DepositsTable(l.deposits);
      depositsTable.UpdateDepositsStatusByTxHash(Status.Notified, filed);
      var withdrawsTable := new WithdrawsTable(l.withdraws);
      withdrawsTable.UpdateWithdrawStatusByTxHash(Status.Notified, withdraws);
      var internalsTable := new InternalsTable(l.internals);
      internalsTable.UpdateInternalStatusByTxHash(Status.Notified, internals);
      var updated := Ledger(l.balances, depositsTable.rows, l.flows, withdrawsTable.rows, internalsTable.rows);
      var r := Retry.Do(Retry.ATTEMPTS, a.cancelled, Retry.Transaction(a.up, Retry.Done(updated)));
      ok := r.Succeeded?;
      if ok {
        database.ledgers := database.ledgers[b := r.value];
      }
    }

    // The loop body of Start for one business.
    method NotifyBusiness(b: Business, a: Answers)
      requires b in database.ledgers
      modifies database`ledgers
      ensures database.ledgers == old(database.ledgers)[b := Notify(old(database.ledgers)[b], a)]
    {
      hide Acknowledge, Retry.RunTransaction;
      var l := database.ledgers[b];
      var deposits, withdraws, internals := Asked(l.deposits, a.deposits), Asked(l.withdraws, a.withdraws),
          Asked(l.internals, a.internals);
      assert database.ledgers[b := l] == database.ledgers;
      if |deposits| == 0 && |withdraws| == 0 && |internals| == 0 {
        return;
      }
      var ok := AfterNotify(b, a.success, deposits, withdraws, internals, a);
    }
  }

  // ---- What a round does to the three tables ----

  // A confirmed row has the hash.
  predicate Confirms<T>(rows: seq<Record<T>>, h: Hash) {
    exists j | 0 <= j < |rows| :: rows[j].hash == h && rows[j].status.WalletDone?
  }

  // A listed row that was signed has the hash.
  predicate Listed<T>(rows: seq<Record<T>>, h: Hash, unsignedToo: bool) {
    exists j | 0 <= j < |rows| :: rows[j].hash == h && (unsignedToo || !rows[j].status.CreateUnsigned?)
  }

  // A row that is told becomes notified and keeps everything else; any other stays as it was.
  ghost predicate Told<T>(row: Record<T>, after: Record<T>, told: bool) {
    && after.hash == row.hash && after.block == row.block && after.data == row.data
    && after.status == if told then Status.Notified else row.status
  }

  // A table before and after: told are the rows whose hash a listed row bears.
  ghost predicate ListedTold<T>(rows: seq<Record<T>>, after: seq<Record<T>>, listed: seq<Record<T>>,
      unsignedToo: bool) {
    && |after| == |rows|
    && forall i | 0 <= i < |rows| :: Told(rows[i], after[i], Listed(listed, rows[i].hash, unsignedToo))
  }

  // A table before and after: told are the rows whose hash a confirmed row bears, if the query succeeded.
  ghost predicate ConfirmedTold<T>(rows: seq<Record<T>>, after: seq<Record<T>>, up: bool) {
    && |after| == |rows|
    && forall i | 0 <= i < |rows| :: Told(rows[i], after[i], up && Confirms(rows, rows[i].hash))
  }

  lemma {:induction false} HashesListed<T>(rows: seq<Record<T>>, h: Hash)
    ensures h in HashesOf(rows) <==> Listed(rows, h, true)
  {
    if h in HashesOf(rows) {
      var k :| 0 <= k < |HashesOf(rows)| && HashesOf(rows)[k] == h;
      assert rows[k].hash == h;
    }
    if Listed(rows, h, true) {
      var k :| 0 <= k < |rows| && rows[k].hash == h;
      assert HashesOf(rows)[k] == h;
    }
  }

  lemma {:induction false} FiledHashes<T>(rows: seq<Record<T>>, h: Hash)
    ensures h in HashesOf(Filed(rows)) <==> Listed(rows, h, false)
  {
    if rows != [] {
      var init, last := rows[..|rows| - 1], Last(rows);
      FiledHashes(init, h);
      if last.status.CreateUnsigned? {
        assert Filed(rows) == Filed(init);
      } else {
        assert HashesOf(Filed(rows)) == HashesOf(Filed(init)) + [last.hash];
      }
      assert rows == init + [last];
      ListedOneMore(init, last, h, false);
      hide Filed, HashesOf, Listed;
    }
  }

  lemma ListedOneMore<T>(init: seq<Record<T>>, last: Record<T>, h: Hash, unsignedToo: bool)
    ensures Listed(init + [last], h, unsignedToo) <==>
      Listed(init, h, unsignedToo) || (last.hash == h && (unsignedToo || !last.status.CreateUnsigned?))
  {
    var all := init + [last];
    assert all[|init|] == last;
    if Listed(init, h, unsignedToo) {
      var j :| 0 <= j < |init| && init[j].hash == h && (unsignedToo || !init[j].status.CreateUnsigned?);
      assert all[j] == init[j];
    }
  }

  // An update marks, in each table, exactly the rows whose hashes its own list bears; of the deposits listed,
  // those never signed do not count.
  lemma AcknowledgeExactly(l: Ledger, d: seq<Deposit>, w: seq<Request>, i: seq<Request>)
    ensures var after := Acknowledge(l, d, w, i);
      && ListedTold(l.deposits, after.deposits, d, false)
      && ListedTold(l.withdraws, after.withdraws, w, true)
      && ListedTold(l.internals, after.internals, i, true)
      && after.balances == l.balances && after.flows == l.flows
  {
    forall h ensures h in HashesOf(Filed(d)) <==> Listed(d, h, false) {
      FiledHashes(d, h);
    }
    forall h ensures h in HashesOf(w) <==> Listed(w, h, true) {
      HashesListed(w, h);
    }
    forall h ensures h in HashesOf(i) <==> Listed(i, h, true) {
      HashesListed(i, h);
    }
    hide Filed, HashesOf, Listed;
  }

  lemma AskedExactly<T>(rows: seq<Record<T>>, up: bool, h: Hash)
    ensures Listed(Asked(rows, up), h, true) <==> up && Confirms(rows, h)
    ensures Listed(Asked(rows, up), h, false) <==> up && Confirms(rows, h)
  {
    if up {
      var found := ToNotify(rows);
      forall r ensures r in found <==> r in rows && r.status.WalletDone? {
        ToNotifyExactly(rows, r);
      }
      hide ToNotify;
      if Confirms(rows, h) {
        var j :| 0 <= j < |rows| && rows[j].hash == h && rows[j].status.WalletDone?;
        var k :| 0 <= k < |found| && found[k] == rows[j];
      }
      if Listed(found, h, true) {
        var k :| 0 <= k < |found| && found[k].hash == h;
        assert found[k] in found;
        var j :| 0 <= j < |rows| && rows[j] == found[k];
      }
    }
  }

  // A round that is answered with success and reaches the database marks, in each of the three tables whose query
  // succeeded, exactly the rows that share their hash with a confirmed row of that table, themselves or another.
  // Nothing else changes, and without success or database nothing at all.
  lemma RoundExactly(l: Ledger, a: Answers)
    ensures var after := Notify(l, a);
      if a.success && Retry.Reachable(a.cancelled, a.up) then
        && ConfirmedTold(l.deposits, after.deposits, a.deposits)
        && ConfirmedTold(l.withdraws, after.withdraws, a.withdraws)
        && ConfirmedTold(l.internals, after.internals, a.internals)
        && after.balances == l.balances && after.flows == l.flows
      else after == l
  {
    var d, w, i := Asked(l.deposits, a.deposits), Asked(l.withdraws, a.withdraws), Asked(l.internals, a.internals);
    var update := Acknowledge(l, d, w, i);
    Retry.TransactionRunsOnce(a.cancelled, a.up, Retry.Done(update));
    AcknowledgeExactly(l, d, w, i);
    ListedAreConfirmed(l.deposits, update.deposits, a.deposits, false);
    ListedAreConfirmed(l.withdraws, update.withdraws, a.withdraws, true);
    ListedAreConfirmed(l.internals, update.internals, a.internals, true);
    hide Acknowledge, Retry.RunTransaction, Retry.Reachable, ListedTold, ConfirmedTold, Asked;
  }

  // The confirmed rows that were asked for; when there are none, nothing is told.
  lemma ListedAreConfirmed<T>(rows: seq<Record<T>>, after: seq<Record<T>>, up: bool, unsignedToo: bool)
    requires ListedTold(rows, after, Asked(rows, up), unsignedToo)
    ensures ConfirmedTold(rows, after, up)
    ensures Asked(rows, up) == [] ==> ConfirmedTold(rows, rows, up)
  {
    forall h ensures Listed(Asked(rows, up), h, unsignedToo) <==> up && Confirms(rows, h) {
      AskedExactly(rows, up, h);
    }
    assert Asked(rows, up) == [] ==> forall h :: !Listed(Asked(rows, up), h, unsignedToo);
    hide Asked, Confirms, Listed;
  }

  // ---- The protocol: inserts, confirmation passes, requests and answers in any order ----

  // A business's deposits, and the hashes of the request under way.
  datatype Progress = Progress(rows: seq<Deposit>, request: seq<Hash>)

  datatype Event =
    | Inserted(row: Deposit)
    | ConfirmedAt(head: nat)
    | Queried(up: bool)
    | Answered(success: bool, stored: bool)

  function Step(confirms: nat, s: Progress, e: Event): Progress {
    match e
    case Inserted(row) => s.(rows := s.rows + [row])
    case ConfirmedAt(head) => s.(rows := ConfirmAll(s.rows, head, confirms))
    case Queried(up) => s.(request := HashesOf(Asked(s.rows, up)))
    case Answered(success, stored) =>
      Progress(if success && stored then SetStatus(s.rows, s.request, Status.Notified) else s.rows, [])
  }

  function Run(confirms: nat, s: Progress, events: seq<Event>): Progress
    decreases |events|
  {
    if events == [] then s else Run(confirms, Step(confirms, s, events[0]), events[1..])
  }

  // A deposit is filed as success, under a hash no other deposit has.
  ghost predicate FreshInsert(s: Progress, e: Event) {
    e.Inserted? ==> e.row.status.Success? && forall i | 0 <= i < |s.rows| :: s.rows[i].hash != e.row.hash
  }

  ghost predicate FreshInserts(confirms: nat, s: Progress, events: seq<Event>)
    decreases |events|
  {
    events == [] ||
      (FreshInsert(s, events[0]) && FreshInserts(confirms, Step(confirms, s, events[0]), events[1..]))
  }

  ghost predicate Names(rows: seq<Deposit>, h: Hash, i: int) {
    0 <= i < |rows| && rows[i].hash == h
  }

  // Distinct hashes, the three statuses of a deposit that is not rolled back, and a request under way names
  // confirmed deposits only.
  ghost predicate InProgress(s: Progress) {
    && (forall i, j | 0 <= i < j < |s.rows| :: s.rows[i].hash != s.rows[j].hash)
    && (forall i | 0 <= i < |s.rows| :: s.rows[i].status in {Success, WalletDone, Status.Notified})
    && (forall i | 0 <= i < |s.rows| && s.rows[i].hash in s.request :: s.rows[i].status.WalletDone?)
    && (forall h | h in s.request :: exists i :: Names(s.rows, h, i))
  }

  const LIFE: seq<Status> := [Success, WalletDone, Status.Notified]

  function Rank(status: Status): (r: nat)
    ensures r <= 2
  {
    match status
    case Success => 0
    case WalletDone => 1
    case _ => 2
  }

  lemma {:induction false} AskedHashes(rows: seq<Deposit>, h: Hash)
    ensures h in HashesOf(ToNotify(rows)) <==> exists i :: Names(rows, h, i) && rows[i].status.WalletDone?
  {
    var found := ToNotify(rows);
    if h in HashesOf(found) {
      var k :| 0 <= k < |HashesOf(found)| && HashesOf(found)[k] == h;
      ToNotifyExactly(rows, found[k]);
      var i :| 0 <= i < |rows| && rows[i] == found[k];
      assert Names(rows, h, i);
    }
    if exists i :: Names(rows, h, i) && rows[i].status.WalletDone? {
      var i :| Names(rows, h, i) && rows[i].status.WalletDone?;
      ToNotifyExactly(rows, rows[i]);
      var k :| 0 <= k < |found| && found[k] == rows[i];
      assert HashesOf(found)[k] == h;
    }
  }

  // What one event does to a row: it keeps its place and hash; its status stays or advances by one; and it
  // becomes notified exactly when a stored success answers a request that carries its hash.
  ghost predicate Advances(s: Progress, e: Event, after: Progress, i: nat)
    requires i < |s.rows|
  {
    && i < |after.rows| && after.rows[i].hash == s.rows[i].hash
    && Rank(s.rows[i].status) <= Rank(after.rows[i].status) <= Rank(s.rows[i].status) + 1
    && (after.rows[i].status.Notified? <==>
          s.rows[i].status.Notified? || (e == Answered(true, true) && s.rows[i].hash in s.request))
  }

  lemma RowAdvances(confirms: nat, s: Progress, e: Event, i: nat)
    requires InProgress(s) && i < |s.rows|
    ensures Advances(s, e, Step(confirms, s, e), i)
  {
  }

  lemma QueryInProgress(s: Progress, up: bool)
    requires InProgress(s)
    ensures InProgress(s.(request := HashesOf(Asked(s.rows, up))))
  {
    var request := HashesOf(Asked(s.rows, up));
    forall h | h in request ensures exists i :: Names(s.rows, h, i) {
      AskedHashes(s.rows, h);
    }
    forall i | 0 <= i < |s.rows| && s.rows[i].hash in request ensures s.rows[i].status.WalletDone? {
      AskedHashes(s.rows, s.rows[i].hash);
      var j :| Names(s.rows, s.rows[i].hash, j) && s.rows[j].status.WalletDone?;
    }
  }

  lemma InsertInProgress(s: Progress, row: Deposit)
    requires InProgress(s) && FreshInsert(s, Inserted(row))
    ensures InProgress(s.(rows := s.rows + [row]))
  {
    var after := s.rows + [row];
    forall h | h in s.request ensures h != row.hash && exists i :: Names(after, h, i) {
      var i :| Names(s.rows, h, i);
      assert Names(after, h, i);
    }
  }

  // Rows that keep their hashes and are confirmed as long as a request carries them.
  lemma UpdateInProgress(s: Progress, after: Progress)
    requires InProgress(s) && |after.rows| == |s.rows| && after.request in {s.request, []}
    requires forall i | 0 <= i < |s.rows| :: after.rows[i].hash == s.rows[i].hash
    requires forall i | 0 <= i < |s.rows| :: after.rows[i].status in {Success, WalletDone, Status.Notified}
    requires forall i | 0 <= i < |s.rows| && s.rows[i].hash in after.request :: after.rows[i].status.WalletDone?
    ensures InProgress(after)
  {
    forall h | h in after.request ensures exists i :: Names(after.rows, h, i) {
      var i :| Names(s.rows, h, i);
      assert Names(after.rows, h, i);
    }
  }

  lemma StepInProgress(confirms: nat, s: Progress, e: Event)
    requires InProgress(s) && FreshInsert(s, e)
    ensures InProgress(Step(confirms, s, e))
  {
    match e
    case Inserted(row) => InsertInProgress(s, row);
    case ConfirmedAt(head) => UpdateInProgress(s, Step(confirms, s, e));
    case Queried(up) => QueryInProgress(s, up);
    case Answered(_, _) => UpdateInProgress(s, Step(confirms, s, e));
  }

  // A row appears as success.
  lemma FiledAsSuccess(confirms: nat, s: Progress, e: Event, i: nat)
    requires FreshInsert(s, e) && |s.rows| <= i < |Step(confirms, s, e).rows|
    ensures Step(confirms, s, e).rows[i].status.Success?
  {
  }

  lemma {:induction false} RunInProgress(confirms: nat, s: Progress, events: seq<Event>)
    requires InProgress(s) && FreshInserts(confirms, s, events)
    ensures InProgress(Run(confirms, s, events))
    ensures forall i | 0 <= i < |s.rows| :: Names(Run(confirms, s, events).rows, s.rows[i].hash, i)
    decreases |events|
  {
    hide InProgress, Step;
    if events != [] {
      var next := Step(confirms, s, events[0]);
      StepInProgress(confirms, s, events[0]);
      RunInProgress(confirms, next, events[1..]);
      forall i | 0 <= i < |s.rows| ensures Names(Run(confirms, s, events).rows, s.rows[i].hash, i) {
        RowAdvances(confirms, s, events[0], i);
      }
    }
  }

  // ---- The life of a deposit ----

  // The statuses row i goes through, without repetitions; nothing before it is filed.
  function History(confirms: nat, s: Progress, events: seq<Event>, i: nat): seq<Status>
    decreases |events|
  {
    var rest := if events == [] then [] else History(confirms, Step(confirms, s, events[0]), events[1..], i);
    if i >= |s.rows| || (rest != [] && rest[0] == s.rows[i].status) then rest else [s.rows[i].status] + rest
  }

  function FirstRank(s: Progress, i: nat): nat {
    if i < |s.rows| then Rank(s.rows[i].status) else 0
  }

  // A stretch of a life begins with its first status and goes on with the next.
  lemma Stretch(first: nat, next: nat, last: nat)
    requires first <= next <= first + 1 && next <= last <= 2
    ensures LIFE[next..last + 1][0] == LIFE[next]
    ensures next == first + 1 ==> LIFE[first] != LIFE[next]
    ensures next == first + 1 ==> [LIFE[first]] + LIFE[next..last + 1] == LIFE[first..last + 1]
  {
  }

  // Whatever the order of inserts, passes, requests and answers, a deposit goes through success,
  // wallet_done, notified without skipping a status or going back: its history is the stretch of that
  // life from its first status to its last.
  lemma {:induction false} HistoryIsLife(confirms: nat, s: Progress, events: seq<Event>, i: nat)
    requires InProgress(s) && FreshInserts(confirms, s, events)
    requires i < |Run(confirms, s, events).rows|
    ensures var first, last := FirstRank(s, i), Rank(Run(confirms, s, events).rows[i].status);
      first <= last && History(confirms, s, events, i) == LIFE[first..last + 1]
    decreases |events|
  {
    assert i < |s.rows| ==> s.rows[i].status == LIFE[Rank(s.rows[i].status)];
    hide InProgress, Step, FreshInsert;
    if events != [] {
      var next := Step(confirms, s, events[0]);
      StepInProgress(confirms, s, events[0]);
      HistoryIsLife(confirms, next, events[1..], i);
      if i < |s.rows| {
        RowAdvances(confirms, s, events[0], i);
        Stretch(FirstRank(s, i), FirstRank(next, i), Rank(Run(confirms, s, events).rows[i].status));
      } else if i < |next.rows| {
        FiledAsSuccess(confirms, s, events[0], i);
      }
    }
  }

  // The hashes whose request was answered with success and stored.
  function Acknowledged(confirms: nat, s: Progress, events: seq<Event>): set<Hash>
    decreases |events|
  {
    if events == [] then {} else
      (if events[0] == Answered(true, true) then set h | h in s.request else {}) +
      Acknowledged(confirms, Step(confirms, s, events[0]), events[1..])
  }

  // A deposit ends notified if and only if it began so or some acknowledged request carried its hash.
  lemma {:induction false} NotifiedExactly(confirms: nat, s: Progress, events: seq<Event>, i: nat)
    requires InProgress(s) && FreshInserts(confirms, s, events)
    requires i < |Run(confirms, s, events).rows|
    ensures var row := Run(confirms, s, events).rows[i];
      row.status.Notified? <==>
        (i < |s.rows| && s.rows[i].status.Notified?) || row.hash in Acknowledged(confirms, s, events)
    decreases |events|
  {
    if events != [] {
      var next, end := Step(confirms, s, events[0]), Run(confirms, s, events);
      StepInProgress(confirms, s, events[0]);
      NotifiedExactly(confirms, next, events[1..], i);
      RunInProgress(confirms, s, events);
      if i < |s.rows| {
        assert Names(end.rows, s.rows[i].hash, i);
        RowAdvances(confirms, s, events[0], i);
      } else {
        forall j | 0 <= j < |s.rows| ensures s.rows[j].hash != end.rows[i].hash {
          assert Names(end.rows, s.rows[j].hash, j);
        }
        if i < |next.rows| {
          FiledAsSuccess(confirms, s, events[0], i);
        }
      }
    }
  }

  // Until it is acknowledged a confirmed deposit stays wallet_done, and the next successful query offers it
  // again.
  lemma StaysOffered(confirms: nat, s: Progress, events: seq<Event>, i: nat)
    requires InProgress(s) && FreshInserts(confirms, s, events)
    requires i < |s.rows| && s.rows[i].status.WalletDone?
    requires s.rows[i].hash !in Acknowledged(confirms, s, events)
    ensures i < |Run(confirms, s, events).rows| && Run(confirms, s, events).rows[i].status.WalletDone?
    ensures s.rows[i].hash in Step(confirms, Run(confirms, s, events), Queried(true)).request
  {
    var end := Run(confirms, s, events);
    RunInProgress(confirms, s, events);
    assert Names(end.rows, s.rows[i].hash, i);
    NotifiedExactly(confirms, s, events, i);
    HistoryIsLife(confirms, s, events, i);
    AskedHashes(end.rows, s.rows[i].hash);
  }

  lemma RunTwo(confirms: nat, s: Progress, e: Event, f: Event)
    ensures Run(confirms, s, [e, f]) == Step(confirms, Step(confirms, s, e), f)
  {
    assert [e, f][1..] == [f];
    assert Run(confirms, Step(confirms, s, e), [f]) == Step(confirms, Step(confirms, s, e), f);
  }

  // A worker's round on the deposits is a query followed by its answer.
  lemma RoundIsQueryThenAnswer(confirms: nat, l: Ledger, a: Answers)
    ensures Notify(l, a).deposits ==
      Run(confirms, Progress(l.deposits, []),
          [Queried(a.deposits), Answered(a.success, Retry.Reachable(a.cancelled, a.up))]).rows
  {
    var d, w, i := Asked(l.deposits, a.deposits), Asked(l.withdraws, a.withdraws), Asked(l.internals, a.internals);
    var query, answer := Queried(a.deposits), Answered(a.success, Retry.Reachable(a.cancelled, a.up));
    var s := Progress(l.deposits, []);
    RunTwo(confirms, s, query, answer);
    AskedAreFiled(l.deposits, a.deposits);
    Retry.TransactionRunsOnce(a.cancelled, a.up, Retry.Done(Acknowledge(l, d, w, i)));
    if d == [] {
      assert SetStatus(l.deposits, HashesOf(d), Status.Notified) == l.deposits;
    }
  }

  lemma AskedAreFiled(rows: seq<Deposit>, up: bool)
    ensures Filed(Asked(rows, up)) == Asked(rows, up)
  {
    if up {
      forall r | r in ToNotify(rows) ensures !r.status.CreateUnsigned? {
        ToNotifyExactly(rows, r);
      }
      FiledAll(ToNotify(rows));
    }
  }

  lemma {:induction false} FiledAll(rows: seq<Deposit>)
    requires forall r | r in rows :: !r.status.CreateUnsigned?
    ensures Filed(rows) == rows
  {
    if rows != [] {
      var init := rows[..|rows| - 1];
      forall r | r in init ensures !r.status.CreateUnsigned? {
        assert r in rows;
      }
      FiledAll(init);
      assert Last(rows) in rows && rows == init + [Last(rows)];
    }
  }

  // What a shared hash does, for any rows: after a round that is answered and stored a row is notified if and
  // only if it was so before or a confirmed row has its hash, itself or another. So an unconfirmed row, or a
  // rolled-back one whose transaction was mined again, is notified along with a confirmed row.
  lemma SkipsExactly(confirms: nat, rows: seq<Deposit>, i: nat)
    requires i < |rows|
    ensures var after := Run(confirms, Progress(rows, []), [Queried(true), Answered(true, true)]).rows;
      |after| == |rows| && (after[i].status.Notified? <==>
        rows[i].status.Notified? || exists j :: Names(rows, rows[i].hash, j) && rows[j].status.WalletDone?)
  {
    var s := Progress(rows, []);
    var query, answer := Queried(true), Answered(true, true);
    RunTwo(confirms, s, query, answer);
    AskedHashes(rows, rows[i].hash);
  }
}
