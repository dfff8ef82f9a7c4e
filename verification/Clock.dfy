/** A clock that moves only when told to: common/clock/deterministic.go. */
module Clock {
  import opened Prelude

  // A Go channel of capacity one.
  datatype Channel = Channel(buffer: seq<int>, closed: bool)

  const EMPTY := Channel([], false)

  // What waits for a time. A timer made by AfterFunc has no channel.
  datatype Action =
    | Task(due: int, ch: Channel)
    | Timer(due: int, stopped: bool, run: bool, to: Option<Channel>)
    | Ticker(nextDue: int, period: int, halted: bool, out: Channel)

  // What the users of the clock see: an action fired (a value sent or a function called) at a time, or
  // the Stop of a timer answered true.
  datatype Note = Fired(id: nat, at: int) | StoppedInTime(id: nat)

  // Every action ever registered, under its number; pending holds the numbers still waited for.
  datatype State = State(now: int, actions: seq<Action>, pending: seq<nat>, log: seq<Note>)

  datatype Event =
    | After(d: int)
    | AfterFunc(d: int)
    | NewTimer(d: int)
    | NewTicker(d: int)
    | StopTimer(id: nat)
    | StopTicker(id: nat)
    | ResetTicker(id: nat, d: int)
    | Receive(id: nat)
    | Advance(d: int)

  predicate IsDue(a: Action, now: int) {
    (if a.Ticker? then a.nextDue else a.due) <= now
  }

  predicate OneShot(a: Action) {
    !a.Ticker?
  }

  // A ticker publishes only into an empty channel; a stopped timer does nothing.
  predicate Publishes(a: Action) {
    match a
    case Task(_, _) => true
    case Timer(_, stopped, _, _) => !stopped
    case Ticker(_, _, halted, out) => !halted && out.buffer == []
  }

  function Fire(a: Action, now: int): Action {
    if !Publishes(a) then a else
      match a
      case Task(_, ch) => a.(ch := Channel(ch.buffer + [now], true))
      case Timer(_, _, _, to) =>
        a.(run := true, to := if to.Some? then Some(to.value.(buffer := to.value.buffer + [now])) else None)
      case Ticker(_, period, _, out) => a.(out := out.(buffer := [now]), nextDue := now + period)
  }

  predicate FiresAgain(a: Action) {
    a.Ticker? && !a.halted
  }

  predicate Within(pending: seq<nat>, bound: nat) {
    forall i | i in pending :: i < bound
  }

  predicate Rises(pending: seq<nat>, j: nat, k: nat) {
    j < k < |pending| ==> pending[j] < pending[k]
  }

  // In order of registration, so without repetitions.
  ghost predicate Ascending(pending: seq<nat>, bound: nat) {
    Within(pending, bound) && forall j: nat, k: nat :: Rises(pending, j, k)
  }

  // ---- Advancing ----

  function Swept(actions: seq<Action>, pending: seq<nat>, now: int): seq<Action> {
    seq(|actions|, i requires 0 <= i < |actions| =>
      if i in pending && IsDue(actions[i], now) then Fire(actions[i], now) else actions[i])
  }

  predicate Stays(actions: seq<Action>, i: nat, now: int) {
    i < |actions| && (!IsDue(actions[i], now) || FiresAgain(actions[i]))
  }

  predicate Sends(actions: seq<Action>, i: nat, now: int) {
    i < |actions| && IsDue(actions[i], now) && Publishes(actions[i])
  }

  function Kept(actions: seq<Action>, pending: seq<nat>, now: int): seq<nat> {
    if pending == [] then [] else
      Kept(actions, pending[..|pending| - 1], now) + if Stays(actions, Last(pending), now) then [Last(pending)] else []
  }

  function Published(actions: seq<Action>, pending: seq<nat>, now: int): seq<Note> {
    if pending == [] then [] else
      Published(actions, pending[..|pending| - 1], now) + if Sends(actions, Last(pending),
          now) then [Fired(Last(pending), now)] else []
  }

  function Advanced(s: State, d: int): State {
    State(s.now + d, Swept(s.actions, s.pending, s.now + d), Kept(s.actions, s.pending, s.now + d),
          s.log + Published(s.actions, s.pending, s.now + d))
  }

  // ---- The other operations ----

  function Added(s: State, a: Action, waits: bool, notes: seq<Note>): State {
    s.(actions := s.actions + [a], pending := s.pending + if waits then [|s.actions|] else [], log := s.log + notes)
  }

  predicate InTime(a: Action) {
    a.Timer? && !a.stopped && !a.run
  }

  function Step(s: State, e: Event): State {
    match e
    case After(d) =>
      if d == 0 then Added(s, Task(s.now, Channel([s.now], true)), false, [Fired(|s.actions|, s.now)])
      else Added(s, Task(s.now + d, EMPTY), true, [])
    case AfterFunc(d) =>
      if d == 0 then Added(s, Timer(s.now, false, true, None), false, [Fired(|s.actions|, s.now)])
      else Added(s, Timer(s.now + d, false, false, None), true, [])
    case NewTimer(d) => Added(s, Timer(s.now + d, false, false, Some(EMPTY)), true, [])
    case NewTicker(d) => if d <= 0 then s else Added(s, Ticker(s.now + d, d, false, EMPTY), true, [])
    case StopTimer(i) =>
      if i < |s.actions| && s.actions[i].Timer? then
        s.(actions := s.actions[i := s.actions[i].(stopped := true)],
           log := s.log + if InTime(s.actions[i]) then [StoppedInTime(i)] else [])
      else s
    case StopTicker(i) =>
      if i < |s.actions| && s.actions[i].Ticker? then s.(actions := s.actions[i := s.actions[i].(halted := true)])
          else s
    case ResetTicker(i, d) =>
      if d > 0 && i < |s.actions| && s.actions[i].Ticker?
      then s.(actions := s.actions[i := s.actions[i].(period := d, nextDue := s.now + d)])
      else s
    case Receive(i) => if i < |s.actions| then s.(actions := s.actions[i := Drained(s.actions[i])]) else s
    case Advance(d) => Advanced(s, d)
  }

  function Drained(a: Action): Action {
    match a
    case Task(_, ch) => a.(ch := ch.(buffer := []))
    case Timer(_, _, _, to) => a.(to := if to.Some? then Some(to.value.(buffer := [])) else None)
    case Ticker(_, _, _, out) => a.(out := out.(buffer := []))
  }

  // ---- What every reachable state keeps ----

  function NotesOf(log: seq<Note>, i: nat): seq<Note> {
    if log == [] then [] else NotesOf(log[..|log| - 1], i) + if Last(log).id == i then [Last(log)] else []
  }

  function BufferOf(a: Action): seq<int> {
    match a
    case Task(_, ch) => ch.buffer
    case Timer(_, _, _, to) => if to.Some? then to.value.buffer else []
    case Ticker(_, _, _, out) => out.buffer
  }

  // A one-shot that waits has an open, empty channel and has not run; one that does not wait is over.
  ghost predicate Sound(a: Action, waits: bool) {
    && |BufferOf(a)| <= 1
    && match a
      case Task(_, ch) => if waits then ch == EMPTY else ch.closed
      case Timer(_, stopped, run, to) =>
        && (to.Some? ==> !to.value.closed)
        && (if waits then !run && BufferOf(a) == [] else run || stopped)
      case Ticker(_, period, halted, out) => period > 0 && !out.closed && (waits || halted)
  }

  // A one-shot has been heard of exactly once when it is over, and not at all before.
  predicate Armed(a: Action, waits: bool) {
    waits && OneShot(a) && !(a.Timer? && a.stopped)
  }

  // A value that waits in a channel is the time of the last firing.
  predicate Backed(a: Action, notes: seq<Note>) {
    BufferOf(a) != [] ==> notes != [] && Last(notes).Fired? && Last(notes).at == BufferOf(a)[0]
  }

  ghost predicate SoundAt(s: State, i: nat) {
    i < |s.actions| ==>
      && Sound(s.actions[i], i in s.pending) && Backed(s.actions[i], NotesOf(s.log, i))
      && (OneShot(s.actions[i]) ==> |NotesOf(s.log, i)| == if Armed(s.actions[i], i in s.pending) then 0 else 1)
  }

  ghost predicate Valid(s: State) {
    && Ascending(s.pending, |s.actions|)
    && (forall k | 0 <= k < |s.log| :: s.log[k].id < |s.actions|)
    && (forall i: nat :: SoundAt(s, i))
  }

  // Each pending action is met once, as it was before the sweep.
  lemma SweepStep(actions: seq<Action>, pending: seq<nat>, k: nat, now: int)
    requires Ascending(pending, |actions|) && k < |pending|
    ensures var a, before := pending[k], Swept(actions, pending[..k], now);
      && a < |actions| == |before| && before[a] == actions[a]
      && Swept(actions, pending[..k + 1], now) ==
         (if IsDue(actions[a], now) then before[a := Fire(actions[a], now)] else before)
      && Kept(actions, pending[..k + 1], now) ==
        Kept(actions, pending[..k], now) + (if Stays(actions, a, now) then [a] else [])
      && Published(actions, pending[..k + 1], now) ==
        Published(actions, pending[..k], now) + (if Sends(actions, a, now) then [Fired(a, now)] else [])
  {
    var upTo := pending[..k + 1];
    assert upTo[..k] == pending[..k] && Last(upTo) == pending[k];
    assert forall i :: i in upTo <==> i in pending[..k] || i == pending[k];
    forall j | 0 <= j < k ensures pending[j] != pending[k] {
      assert Rises(pending, j, k);
    }
    assert pending[k] in pending && pending[k] !in pending[..k];
    hide Fire, IsDue, Stays, Sends;
  }

  class DeterministicClock {
    var now: int
    var actions: seq<Action>
    var pending: seq<nat>
    ghost var log: seq<Note>

    ghost function Snapshot(): State
      reads this
    {
      State(now, actions, pending, log)
    }

    constructor (now: int)
      ensures Snapshot() == State(now, [], [], []) && Valid(Snapshot())
    {
      this.now := now;
      actions, pending, log := [], [], [];
    }

    method Enlist(a: Action) returns (id: nat)
      modifies this
      ensures id == |old(actions)| && Snapshot() == Added(old(Snapshot()), a, true, [])
    {
      id := |actions|;
      actions, pending := actions + [a], pending + [id];
    }

    method After(d: int) returns (id: nat)
      requires Valid(Snapshot())
      modifies this
      ensures id == |old(actions)| && Snapshot() == Step(old(Snapshot()), Event.After(d))
    {
      if d == 0 {
        id := |actions|;
        actions, log := actions + [Task(now, Channel([now], true))], log + [Fired(id, now)];
      } else {
        id := Enlist(Task(now + d, EMPTY));
      }
    }

    method AfterFunc(d: int) returns (id: nat)
      requires Valid(Snapshot())
      modifies this
      ensures id == |old(actions)| && Snapshot() == Step(old(Snapshot()), Event.AfterFunc(d))
    {
      if d == 0 {
        id := |actions|;
        actions := actions + [Timer(now + d, false, false, None)];
        var again := FireAction(id);
      } else {
        id := Enlist(Timer(now + d, false, false, None));
      }
    }

    method NewTimer(d: int) returns (id: nat)
      requires Valid(Snapshot())
      modifies this
      ensures id == |old(actions)| && Snapshot() == Step(old(Snapshot()), Event.NewTimer(d))
    {
      id := Enlist(Timer(now + d, false, false, Some(EMPTY)));
    }

    // None: the code panics on a period that is not positive.
    method NewTicker(d: int) returns (id: Option<nat>)
      requires Valid(Snapshot())
      modifies this
      ensures Snapshot() == Step(old(Snapshot()), Event.NewTicker(d))
      ensures id == if d <= 0 then None else Some(|old(actions)|)
    {
      if d <= 0 {
        return None;
      }
      var i := Enlist(Ticker(now + d, d, false, EMPTY));
      return Some(i);
    }

    method StopTimer(i: nat) returns (r: bool)
      requires Valid(Snapshot()) && i < |actions| && actions[i].Timer?
      modifies this
      ensures Snapshot() == Step(old(Snapshot()), Event.StopTimer(i))
      ensures r == InTime(old(actions)[i])
    {
      r := !actions[i].stopped && !actions[i].run;
      actions := actions[i := actions[i].(stopped := true)];
      log := log + if r then [StoppedInTime(i)] else [];
    }

    method StopTicker(i: nat)
      requires Valid(Snapshot()) && i < |actions| && actions[i].Ticker?
      modifies this
      ensures Snapshot() == Step(old(Snapshot()), Event.StopTicker(i))
    {
      actions := actions[i := actions[i].(halted := true)];
    }

    // A receive on an action's channel; None when nothing is there.
    method Receive(i: nat) returns (v: Option<int>)
      requires Valid(Snapshot()) && i < |actions|
      modifies this
      ensures Snapshot() == Step(old(Snapshot()), Event.Receive(i))
      ensures v == if BufferOf(old(actions)[i]) == [] then None else Some(BufferOf(old(actions)[i])[0])
      ensures v.Some? ==> NotesOf(log, i) != [] && Last(NotesOf(log, i)) == Fired(i, v.value)
    {
      assert SoundAt(Snapshot(), i);
      NotesAreOf(log, i);
      var buffer := BufferOf(actions[i]);
      v := if |buffer| == 0 then None else Some(buffer[0]);
      actions := actions[i := Drained(actions[i])];
    }

    // False: the code panics.
    method ResetTicker(i: nat, d: int) returns (ok: bool)
      requires Valid(Snapshot()) && i < |actions| && actions[i].Ticker?
      modifies this
      ensures ok == (d > 0) && Snapshot() == Step(old(Snapshot()), Event.ResetTicker(i, d))
    {
      if d <= 0 {
        return false;
      }
      var t := actions[i];
      t := t.(period := d);
      t := t.(nextDue := now + d);
      actions := actions[i := t];
      return true;
    }

    // The three fire methods. A send into a full or closed channel would block or panic; it is never tried.
    method FireAction(i: nat) returns (again: bool)
      requires i < |actions| && |BufferOf(actions[i])| <= 1
      requires OneShot(actions[i]) ==> BufferOf(actions[i]) == []
      requires actions[i].Task? ==> !actions[i].ch.closed
      modifies this`actions, this`log
      ensures actions == old(actions)[i := Fire(old(actions)[i], now)]
      ensures log == old(log) + if Publishes(old(actions)[i]) then [Fired(i, now)] else []
      ensures again == FiresAgain(old(actions)[i])
    {
      assert actions[i := actions[i]] == actions;
      match actions[i] {
        case Task(due, ch) =>
          assert !ch.closed && ch.buffer + [now] == [now];
          actions := actions[i := Task(due, Channel([now], true))];
          log := log + [Fired(i, now)];
          again := false;
        case Timer(due, stopped, run, to) =>
          if !stopped {
            assert to.Some? ==> to.value.buffer + [now] == [now];
            var sent := if to.Some? then Some(to.value.(buffer := [now])) else None;
            actions := actions[i := Timer(due, stopped, true, sent)];
            log := log + [Fired(i, now)];
          }
          again := false;
        case Ticker(nextDue, period, halted, out) =>
          if halted {
            return false;
          }
          if |out.buffer| < 1 {
            actions := actions[i := Ticker(now + period, period, halted, out.(buffer := [now]))];
            log := log + [Fired(i, now)];
          }
          again := true;
      }
    }

    // The loop of AdvanceTime.
    method Sweep() returns (remaining: seq<nat>)
      requires Ascending(pending, |actions|)
      requires forall i | i in pending :: Sound(actions[i], true)
      modifies this`actions, this`log
      ensures actions == Swept(old(actions), pending, now)
      ensures remaining == Kept(old(actions), pending, now)
      ensures log == old(log) + Published(old(actions), pending, now)
    {
      remaining := [];
      assert pending[..0] == [] && Swept(actions, [], now) == actions;
      assert pending[..|pending|] == pending;
      hide Fire, Publishes, IsDue, FiresAgain, Swept;
      for k := 0 to |pending|
        invariant actions == Swept(old(actions), pending[..k], now)
        invariant remaining == Kept(old(actions), pending[..k], now)
        invariant log == old(log) + Published(old(actions), pending[..k], now)
      {
        var a := pending[k];
        SweepStep(old(actions), pending, k, now);
        assert a in pending && Sound(old(actions)[a], true);
        hide Kept, Published, Ascending, NotesOf, Armed;
        if !IsDue(actions[a], now) {
          remaining := remaining + [a];
        } else {
          var again := FireAction(a);
          if again {
            remaining := remaining + [a];
          }
        }
      }
    }

    method AdvanceTime(d: int)
      requires Valid(Snapshot())
      modifies this
      ensures Snapshot() == Step(old(Snapshot()), Advance(d))
    {
      forall i | i in pending ensures Sound(actions[i], true) {
        assert SoundAt(Snapshot(), i);
      }
      assert Ascending(pending, |actions|);
      now := now + d;
      hide Valid, Ascending, Swept, Kept, Published, Sound;
      pending := Sweep();
    }
  }

  // ---- Runs, one action at a time ----

  function Run(s: State, events: seq<Event>): State
    decreases |events|
  {
    if events == [] then s else Run(Step(s, events[0]), events[1..])
  }

  // An action, and whether the clock still waits for it.
  datatype Local = Local(action: Action, waits: bool)

  // What an event does to the action numbered i, whatever else is registered.
  function LocalStep(l: Local, now: int, e: Event, i: nat): (Local, seq<Note>) {
    var a := l.action;
    match e
    case StopTimer(j) =>
      if j == i && a.Timer? then (l.(action := a.(stopped := true)), if InTime(a) then [StoppedInTime(i)] else [])
          else (l, [])
    case StopTicker(j) => if j == i && a.Ticker? then (l.(action := a.(halted := true)), []) else (l, [])
    case ResetTicker(j, d) =>
      if j == i && d > 0 && a.Ticker? then (l.(action := a.(period := d, nextDue := now + d)), []) else (l, [])
    case Receive(j) => if j == i then (l.(action := Drained(a)), []) else (l, [])
    case Advance(d) =>
      if l.waits && IsDue(a, now + d)
      then (Local(Fire(a, now + d), FiresAgain(a)), if Publishes(a) then [Fired(i, now + d)] else [])
      else (l, [])
    case _ => (l, [])
  }

  function TimeAfter(now: int, e: Event): int {
    if e.Advance? then now + e.d else now
  }

  // What is heard of the action during a run.
  function Heard(l: Local, now: int, events: seq<Event>, i: nat): seq<Note>
    decreases |events|
  {
    if events == [] then [] else
      var next := LocalStep(l, now, events[0], i);
      next.1 + Heard(next.0, TimeAfter(now, events[0]), events[1..], i)
  }

  function LocalOf(s: State, i: nat): Local
    requires i < |s.actions|
  {
    Local(s.actions[i], i in s.pending)
  }

  lemma {:induction false} NotesConcat(log: seq<Note>, more: seq<Note>, i: nat)
    ensures NotesOf(log + more, i) == NotesOf(log, i) + NotesOf(more, i)
    decreases |more|
  {
    if more == [] {
      assert log + more == log;
    } else {
      var all := log + more;
      assert all[..|all| - 1] == log + more[..|more| - 1] && Last(all) == Last(more);
      NotesConcat(log, more[..|more| - 1], i);
    }
  }

  lemma NotesOfAtMostOne(notes: seq<Note>, i: nat)
    requires |notes| <= 1
    ensures NotesOf(notes, i) == if notes != [] && notes[0].id == i then notes else []
  {
  }

  lemma {:induction false} NotesAbsent(log: seq<Note>, i: nat)
    requires forall k | 0 <= k < |log| :: log[k].id != i
    ensures NotesOf(log, i) == []
  {
    if log != [] {
      NotesAbsent(log[..|log| - 1], i);
    }
  }

  lemma {:induction false} NotesAreOf(log: seq<Note>, i: nat)
    ensures forall n | n in NotesOf(log, i) :: n.id == i
  {
    if log != [] {
      NotesAreOf(log[..|log| - 1], i);
    }
  }

  lemma InitAscends(init: seq<nat>, last: nat, bound: nat)
    requires Ascending(init + [last], bound)
    ensures Ascending(init, bound) && Within(init, last) && last < bound
  {
    var pending := init + [last];
    assert last in pending;
    forall i | i in init ensures i in pending && i < last {
      var j :| 0 <= j < |init| && init[j] == i;
      assert Rises(pending, j, |init|) && pending[j] == i;
    }
    forall j: nat, k: nat ensures Rises(init, j, k) {
      assert Rises(pending, j, k);
    }
  }

  lemma {:induction false} KeptAt(actions: seq<Action>, pending: seq<nat>, now: int)
    requires Ascending(pending, |actions|)
    ensures Ascending(Kept(actions, pending, now), |actions|)
    ensures forall i :: i in Kept(actions, pending, now) <==> i in pending && Stays(actions, i, now)
  {
    hide Stays;
    if pending != [] {
      var init, last := pending[..|pending| - 1], Last(pending);
      assert pending == init + [last];
      InitAscends(init, last, |actions|);
      KeptAt(actions, init, now);
      var kept, all := Kept(actions, init, now), Kept(actions, pending, now);
      forall j: nat, k: nat ensures Rises(all, j, k) {
        assert Rises(kept, j, k);
        if j < k < |all| && k == |kept| {
          assert kept[j] in init;
        }
      }
    }
  }

  lemma {:induction false} PublishedAt(actions: seq<Action>, pending: seq<nat>, now: int, i: nat)
    requires Ascending(pending, |actions|)
    ensures NotesOf(Published(actions, pending, now), i) == if i in pending
        && Sends(actions, i, now) then [Fired(i, now)] else []
  {
    hide Sends;
    if pending != [] {
      var init, last := pending[..|pending| - 1], Last(pending);
      assert pending == init + [last];
      InitAscends(init, last, |actions|);
      assert i in init ==> i < last;
      hide Ascending, Within, NotesOf;
      PublishedAt(actions, init, now, i);
      var note := if Sends(actions, last, now) then [Fired(last, now)] else [];
      NotesConcat(Published(actions, init, now), note, i);
      NotesOfAtMostOne(note, i);
    }
  }

  lemma {:induction false} PublishedBounded(actions: seq<Action>, pending: seq<nat>, now: int)
    ensures forall k | 0 <= k < |Published(actions, pending, now)| :: Published(actions, pending, now)[k].id < |actions|
  {
    if pending != [] {
      PublishedBounded(actions, pending[..|pending| - 1], now);
    }
  }

  lemma AdvanceAt(s: State, d: int, i: nat)
    requires Ascending(s.pending, |s.actions|) && i < |s.actions|
    ensures var after, local := Advanced(s, d), LocalStep(LocalOf(s, i), s.now, Advance(d), i);
      && after.now == s.now + d && i < |after.actions|
      && LocalOf(after, i) == local.0 && NotesOf(after.log, i) == NotesOf(s.log, i) + local.1
  {
    hide Ascending, Fire, IsDue, Publishes, FiresAgain, Kept, Published, NotesOf;
    var now := s.now + d;
    assert i in Kept(s.actions, s.pending, now) <==> i in s.pending && Stays(s.actions, i, now) by {
      KeptAt(s.actions, s.pending, now);
    }
    PublishedAt(s.actions, s.pending, now, i);
    NotesConcat(s.log, Published(s.actions, s.pending, now), i);
  }

  // Registering another action.
  lemma AddedAt(s: State, a: Action, waits: bool, notes: seq<Note>, i: nat)
    requires i < |s.actions| && |notes| <= 1 && (notes != [] ==> notes[0].id == |s.actions|)
    ensures var after := Added(s, a, waits, notes);
      LocalOf(after, i) == LocalOf(s, i) && NotesOf(after.log, i) == NotesOf(s.log, i)
  {
    NotesConcat(s.log, notes, i);
    NotesOfAtMostOne(notes, i);
  }

  // Actions do not interfere: what an event does to one depends on that one and the time alone.
  lemma StepAt(s: State, e: Event, i: nat)
    requires Ascending(s.pending, |s.actions|) && i < |s.actions|
    ensures var after, local := Step(s, e), LocalStep(LocalOf(s, i), s.now, e, i);
      && after.now == TimeAfter(s.now, e) && i < |after.actions|
      && LocalOf(after, i) == local.0 && NotesOf(after.log, i) == NotesOf(s.log, i) + local.1
  {
    hide Ascending, Drained, Advanced, Fire, IsDue, FiresAgain, NotesOf;
    match e
    case Advance(d) => AdvanceAt(s, d, i);
    case StopTimer(j) =>
      if j < |s.actions| && s.actions[j].Timer? {
        var note := if InTime(s.actions[j]) then [StoppedInTime(j)] else [];
        NotesConcat(s.log, note, i);
        NotesOfAtMostOne(note, i);
      }
    case After(d) =>
      if d == 0 {
        AddedAt(s, Task(s.now, Channel([s.now], true)), false, [Fired(|s.actions|, s.now)], i);
      } else {
        AddedAt(s, Task(s.now + d, EMPTY), true, [], i);
      }
    case AfterFunc(d) =>
      if d == 0 {
        AddedAt(s, Timer(s.now, false, true, None), false, [Fired(|s.actions|, s.now)], i);
      } else {
        AddedAt(s, Timer(s.now + d, false, false, None), true, [], i);
      }
    case NewTimer(d) => AddedAt(s, Timer(s.now + d, false, false, Some(EMPTY)), true, [], i);
    case NewTicker(d) =>
      if d > 0 {
        AddedAt(s, Ticker(s.now + d, d, false, EMPTY), true, [], i);
      }
    case _ =>
  }

  // ---- Every reachable state is valid ----

  ghost predicate LocallySound(l: Local, notes: seq<Note>) {
    && Sound(l.action, l.waits) && Backed(l.action, notes)
    && (OneShot(l.action) ==> |notes| == if Armed(l.action, l.waits) then 0 else 1)
  }

  lemma LocalStepSound(l: Local, now: int, e: Event, i: nat, notes: seq<Note>)
    requires LocallySound(l, notes)
    ensures LocallySound(LocalStep(l, now, e, i).0, notes + LocalStep(l, now, e, i).1)
  {
  }

  lemma AddedAscends(pending: seq<nat>, bound: nat)
    requires Ascending(pending, bound)
    ensures Ascending(pending, bound + 1) && Ascending(pending + [bound], bound + 1)
  {
    var after := pending + [bound];
    forall j: nat, k: nat ensures Rises(after, j, k) {
      assert Rises(pending, j, k);
      if j < k < |after| && k == |pending| {
        assert pending[j] in pending;
      }
    }
  }

  lemma AddedIsValid(s: State, a: Action, waits: bool, notes: seq<Note>)
    requires Valid(s) && LocallySound(Local(a, waits), notes)
    requires |notes| <= 1 && (notes != [] ==> notes[0].id == |s.actions|)
    ensures Valid(Added(s, a, waits, notes))
  {
    var after, count := Added(s, a, waits, notes), |s.actions|;
    AddedAscends(s.pending, count);
    assert s.pending + [] == s.pending;
    forall i: nat ensures SoundAt(after, i) {
      if i < count {
        AddedAt(s, a, waits, notes, i);
        assert SoundAt(s, i);
      } else if i == count {
        NotesConcat(s.log, notes, i);
        NotesAbsent(s.log, i);
        NotesOfAtMostOne(notes, i);
      }
      hide *;
    }
  }

  lemma AdvancedIsBounded(s: State, d: int)
    requires Valid(s)
    ensures var after := Advanced(s, d);
      Ascending(after.pending, |s.actions|) && forall k | 0 <= k < |after.log| :: after.log[k].id < |s.actions|
  {
    KeptAt(s.actions, s.pending, s.now + d);
    PublishedBounded(s.actions, s.pending, s.now + d);
    assert |Advanced(s, d).actions| == |s.actions|;
    hide Ascending, SoundAt, NotesOf, Kept, Published;
  }

  // Operations on registered actions.
  lemma UpdateIsValid(s: State, e: Event)
    requires Valid(s) && !(e.After? || e.AfterFunc? || e.NewTimer? || e.NewTicker?)
    ensures Valid(Step(s, e))
  {
    var after := Step(s, e);
    forall i: nat | i < |s.actions| ensures SoundAt(after, i) {
      assert SoundAt(s, i);
      StepAt(s, e, i);
      LocalStepSound(LocalOf(s, i), s.now, e, i, NotesOf(s.log, i));
      hide *;
    }
    if e.Advance? {
      AdvancedIsBounded(s, e.d);
    }
    hide Ascending, SoundAt, Kept, Published, Fire, Drained;
  }

  // The constructor's state is valid and every operation keeps validity: pending actions are in order of
  // registration, no channel ever holds more than one value or is sent to when full or closed, unstopped
  // tickers wait, and a one-shot that is over was heard of exactly once, one that is not, never.
  lemma StepIsValid(s: State, e: Event)
    requires Valid(s)
    ensures Valid(Step(s, e))
  {
    hide Valid;
    match e
    case After(d) =>
      if d == 0 {
        AddedIsValid(s, Task(s.now, Channel([s.now], true)), false, [Fired(|s.actions|, s.now)]);
      } else {
        AddedIsValid(s, Task(s.now + d, EMPTY), true, []);
      }
    case AfterFunc(d) =>
      if d == 0 {
        AddedIsValid(s, Timer(s.now, false, true, None), false, [Fired(|s.actions|, s.now)]);
      } else {
        AddedIsValid(s, Timer(s.now + d, false, false, None), true, []);
      }
    case NewTimer(d) => AddedIsValid(s, Timer(s.now + d, false, false, Some(EMPTY)), true, []);
    case NewTicker(d) =>
      if d > 0 {
        AddedIsValid(s, Ticker(s.now + d, d, false, EMPTY), true, []);
      }
    case _ => UpdateIsValid(s, e);
  }

  lemma {:induction false} RunIsValid(s: State, events: seq<Event>)
    requires Valid(s)
    ensures Valid(Run(s, events))
    decreases |events|
  {
    hide Valid, Step;
    if events != [] {
      StepIsValid(s, events[0]);
      RunIsValid(Step(s, events[0]), events[1..]);
    }
  }

  // ---- What a run lets one hear of an action ----

  function LocalRun(l: Local, now: int, events: seq<Event>, i: nat): Local
    decreases |events|
  {
    if events == [] then l else LocalRun(LocalStep(l, now, events[0], i).0, TimeAfter(now, events[0]), events[1..], i)
  }

  lemma {:induction false} RunEndsAt(s: State, events: seq<Event>, i: nat)
    requires Valid(s) && i < |s.actions|
    ensures var end := Run(s, events);
      i < |end.actions| && LocalOf(end, i) == LocalRun(LocalOf(s, i), s.now, events, i)
    decreases |events|
  {
    if events != [] {
      assert Ascending(s.pending, |s.actions|);
      hide Valid, Ascending, Step, LocalStep, LocalOf, NotesOf, Heard;
      StepAt(s, events[0], i);
      StepIsValid(s, events[0]);
      RunEndsAt(Step(s, events[0]), events[1..], i);
    }
  }

  lemma {:induction false} RunIsHeard(s: State, events: seq<Event>, i: nat)
    requires Valid(s) && i < |s.actions|
    ensures NotesOf(Run(s, events).log, i) == NotesOf(s.log, i) + Heard(LocalOf(s, i), s.now, events, i)
    decreases |events|
  {
    if events != [] {
      assert Ascending(s.pending, |s.actions|);
      hide Valid, Ascending, Step, LocalStep, LocalOf, NotesOf, LocalRun;
      StepAt(s, events[0], i);
      StepIsValid(s, events[0]);
      RunIsHeard(Step(s, events[0]), events[1..], i);
    }
  }

  // The fate of a one-shot: stopped in time if a Stop comes first, else fired at the first advance that
  // reaches its due time, else nothing yet.
  function Fate(now: int, due: int, timer: bool, events: seq<Event>, i: nat): (notes: seq<Note>)
    ensures |notes| <= 1
    decreases |events|
  {
    if events == [] then [] else
      match events[0]
      case StopTimer(j) => if j == i && timer then [StoppedInTime(i)] else Fate(now, due, timer, events[1..], i)
      case Advance(d) => if due <= now + d then [Fired(i, now + d)] else Fate(now + d, due, timer, events[1..], i)
      case _ => Fate(now, due, timer, events[1..], i)
  }

  lemma {:induction false} HeardIsFate(l: Local, now: int, events: seq<Event>, i: nat)
    requires Sound(l.action, l.waits) && OneShot(l.action)
    ensures Heard(l, now, events, i) ==
      if Armed(l.action, l.waits) then Fate(now, l.action.due, l.action.Timer?, events, i) else []
    decreases |events|
  {
    if events != [] {
      var e, next := events[0], LocalStep(l, now, events[0], i).0;
      var note := if BufferOf(l.action) == [] then StoppedInTime(i) else Fired(i, BufferOf(l.action)[0]);
      LocalStepSound(l, now, e, i, if Armed(l.action, l.waits) then [] else [note]);
      OneShotStep(l, now, e, i);
      hide LocalStep, Sound, Armed, BufferOf;
      HeardIsFate(next, TimeAfter(now, e), events[1..], i);
    }
  }

  // One event: an armed one-shot is stopped in time, fires, or stays armed; any other is not heard of.
  lemma OneShotStep(l: Local, now: int, e: Event, i: nat)
    requires Sound(l.action, l.waits) && OneShot(l.action)
    ensures var next := LocalStep(l, now, e, i);
      && OneShot(next.0.action) && next.0.action.due == l.action.due && next.0.action.Timer? == l.action.Timer?
      && var armed, after := Armed(l.action, l.waits), Armed(next.0.action, next.0.waits);
         if armed && l.action.Timer? && e == Event.StopTimer(i) then next.1 == [StoppedInTime(i)] && !after
         else if armed && e.Advance? && l.action.due <= now + e.d then next.1 == [Fired(i, now + e.d)] && !after
         else next.1 == [] && after == armed
  {
  }

  // Whatever else is registered, stopped, received or advanced, in either direction: a one-shot that waits
  // meets exactly its fate, and one that is over is never heard of again.
  lemma OneShotFate(s: State, events: seq<Event>, i: nat)
    requires Valid(s) && i < |s.actions| && OneShot(s.actions[i])
    ensures NotesOf(Run(s, events).log, i) ==
      if Armed(s.actions[i], i in s.pending) then Fate(s.now, s.actions[i].due, s.actions[i].Timer?, events, i)
      else NotesOf(s.log, i)
    ensures |NotesOf(Run(s, events).log, i)| <= 1
  {
    assert SoundAt(s, i);
    RunIsHeard(s, events, i);
    HeardIsFate(LocalOf(s, i), s.now, events, i);
  }

  // A one-shot registered with a positive delay waits, due that much later.
  lemma Registered(s: State, e: Event)
    requires Valid(s) && (e.After? || e.AfterFunc? || e.NewTimer?) && e.d > 0
    ensures var after, i := Step(s, e), |s.actions|;
      && |after.actions| == i + 1 && after.now == s.now
      && OneShot(after.actions[i]) && Armed(after.actions[i], i in after.pending) && after.actions[i].due == s.now + e.d
  {
  }

  // After an advance no due one-shot is left waiting.
  lemma NothingDueStays(s: State, d: int, i: nat)
    requires Valid(s) && i in Step(s, Advance(d)).pending
    ensures i < |s.actions| && (OneShot(s.actions[i]) ==> s.actions[i].due > s.now + d)
  {
    KeptAt(s.actions, s.pending, s.now + d);
  }

  // What each registration begins with: a task or AfterFunc without a delay is over at once, the task's value in
  // its closed channel; anything else waits for its time, and a timer also without a delay.
  lemma RegisteredAs(s: State, e: Event)
    requires Valid(s) && (e.After? || e.AfterFunc? || e.NewTimer? || (e.NewTicker? && e.d > 0))
    ensures var after, i := Step(s, e), |s.actions|;
      && |after.actions| == i + 1 && after.now == s.now && after.actions[..i] == s.actions
      && (i in after.pending <==> e.d != 0 || e.NewTimer?)
      && NotesOf(after.log, i) == (if i in after.pending then [] else [Fired(i, s.now)])
      && match e
         case After(d) => after.actions[i] == Task(s.now + d, if d == 0 then Channel([s.now], true) else EMPTY)
         case AfterFunc(d) => after.actions[i] == Timer(s.now + d, false, d == 0, None)
         case NewTimer(d) => after.actions[i] == Timer(s.now + d, false, false, Some(EMPTY))
         case NewTicker(d) => after.actions[i] == Ticker(s.now + d, d, false, EMPTY)
         case _ => true
  {
    hide Valid, NotesOf, Added;
    match e
    case After(d) =>
      if d == 0 {
        AddedAs(s, Task(s.now, Channel([s.now], true)), false, [Fired(|s.actions|, s.now)]);
      } else {
        AddedAs(s, Task(s.now + d, EMPTY), true, []);
      }
    case AfterFunc(d) =>
      if d == 0 {
        AddedAs(s, Timer(s.now, false, true, None), false, [Fired(|s.actions|, s.now)]);
      } else {
        AddedAs(s, Timer(s.now + d, false, false, None), true, []);
      }
    case NewTimer(d) => AddedAs(s, Timer(s.now + d, false, false, Some(EMPTY)), true, []);
    case NewTicker(d) => AddedAs(s, Ticker(s.now + d, d, false, EMPTY), true, []);
    case _ =>
  }

  lemma AddedAs(s: State, a: Action, waits: bool, notes: seq<Note>)
    requires Valid(s) && |notes| <= 1 && (notes != [] ==> notes[0].id == |s.actions|)
    ensures var after, i := Added(s, a, waits, notes), |s.actions|;
      && after.actions == s.actions + [a] && after.now == s.now
      && (i in after.pending <==> waits) && NotesOf(after.log, i) == notes
  {
    var i := |s.actions|;
    assert i !in s.pending;
    NotesAbsent(s.log, i);
    NotesConcat(s.log, notes, i);
    NotesOfAtMostOne(notes, i);
    hide Valid, NotesOf;
  }

  // Firings at one time, in order of registration.
  ghost predicate FiredInOrder(notes: seq<Note>, now: int, bound: nat) {
    && (forall k | 0 <= k < |notes| :: notes[k].Fired? && notes[k].at == now && notes[k].id < bound)
    && (forall j, k | 0 <= j < k < |notes| :: notes[j].id < notes[k].id)
  }

  // What one advance makes heard: each at the new time, in order of registration.
  lemma FiresInOrder(s: State, d: int) returns (notes: seq<Note>)
    requires Valid(s)
    ensures Step(s, Advance(d)).log == s.log + notes && FiredInOrder(notes, s.now + d, |s.actions|)
  {
    notes := Published(s.actions, s.pending, s.now + d);
    PublishedInOrder(s.actions, s.pending, s.now + d, |s.actions|);
  }

  lemma {:induction false} PublishedInOrder(actions: seq<Action>, pending: seq<nat>, now: int, bound: nat)
    requires Ascending(pending, bound)
    ensures FiredInOrder(Published(actions, pending, now), now, bound)
  {
    hide Sends;
    if pending != [] {
      var init, last := pending[..|pending| - 1], Last(pending);
      assert pending == init + [last];
      InitAscends(init, last, bound);
      InitBelow(init, last, bound);
      PublishedInOrder(actions, init, now, last);
      hide Ascending;
    }
  }

  lemma InitBelow(init: seq<nat>, last: nat, bound: nat)
    requires Ascending(init, bound) && Within(init, last)
    ensures Ascending(init, last)
  {
  }

  // ---- What a channel hands out ----

  predicate HasChannel(a: Action) {
    a.Timer? ==> a.to.Some?
  }

  function FiringTimes(notes: seq<Note>): seq<int> {
    if notes == [] then [] else
      FiringTimes(notes[..|notes| - 1]) + if Last(notes).Fired? then [Last(notes).at] else []
  }

  function ReceivedBy(s: State, e: Event, i: nat): seq<int> {
    if e == Event.Receive(i) && i < |s.actions| then BufferOf(s.actions[i]) else []
  }

  // The values received from an action during a run.
  function Received(s: State, events: seq<Event>, i: nat): seq<int>
    decreases |events|
  {
    if events == [] then [] else
      ReceivedBy(s, events[0], i) + Received(Step(s, events[0]), events[1..], i)
  }

  lemma LocalStepDelivers(l: Local, now: int, e: Event, i: nat)
    requires Sound(l.action, l.waits) && HasChannel(l.action)
    ensures var next := LocalStep(l, now, e, i);
      && HasChannel(next.0.action) && |next.1| <= 1
      && BufferOf(l.action) + FiringTimes(next.1) ==
        (if e == Event.Receive(i) then BufferOf(l.action) else []) + BufferOf(next.0.action)
  {
  }

  // Between two states, of one action: what was heard, and that the value that waited and the times it fired at
  // are the values received and the value that waits.
  ghost predicate HandedOut(s: State, received: seq<int>, heard: seq<Note>, end: State, i: nat)
    requires i < |s.actions|
  {
    && i < |end.actions| && NotesOf(end.log, i) == NotesOf(s.log, i) + heard
    && BufferOf(s.actions[i]) + FiringTimes(heard) == received + BufferOf(end.actions[i])
  }

  lemma HandedOutOnwards(s: State, received: seq<int>, heard: seq<Note>, mid: State,
                         receivedLater: seq<int>, heardLater: seq<Note>, end: State, i: nat)
    requires i < |s.actions| && HandedOut(s, received, heard, mid, i)
    requires HandedOut(mid, receivedLater, heardLater, end, i)
    ensures HandedOut(s, received + receivedLater, heard + heardLater, end, i)
  {
    FiringTimesJoin(heard, heardLater);
    var before, between, after := BufferOf(s.actions[i]), BufferOf(mid.actions[i]), BufferOf(end.actions[i]);
    var fired, firedLater := FiringTimes(heard), FiringTimes(heardLater);
    hide NotesOf, BufferOf, FiringTimes;
    assert before + (fired + firedLater) == (before + fired) + firedLater;
    assert (received + between) + firedLater == received + (between + firedLater);
  }

  // Every channel hands out the times at which its action fired, each once and in order, over any run.
  lemma {:induction false} HandsOutFiringTimes(s: State, events: seq<Event>, i: nat) returns (heard: seq<Note>)
    requires Valid(s) && i < |s.actions| && HasChannel(s.actions[i])
    ensures HandedOut(s, Received(s, events, i), heard, Run(s, events), i)
    decreases |events|
  {
    heard := [];
    if events != [] {
      var e, next := events[0], Step(s, events[0]);
      var first := DeliversOne(s, e, i);
      StepIsValid(s, e);
      hide Valid, Step, HandedOut, ReceivedBy;
      var rest := HandsOutFiringTimes(next, events[1..], i);
      HandedOutOnwards(s, ReceivedBy(s, e, i), first, next, Received(next, events[1..], i), rest, Run(s, events), i);
      heard := first + rest;
    }
  }

  lemma DeliversOne(s: State, e: Event, i: nat) returns (heard: seq<Note>)
    requires Valid(s) && i < |s.actions| && HasChannel(s.actions[i])
    ensures var next := Step(s, e);
      HandedOut(s, ReceivedBy(s, e, i), heard, next, i) && HasChannel(next.actions[i])
  {
    assert SoundAt(s, i) && Ascending(s.pending, |s.actions|);
    StepAt(s, e, i);
    LocalStepDelivers(LocalOf(s, i), s.now, e, i);
    heard := LocalStep(LocalOf(s, i), s.now, e, i).1;
    hide Valid, Ascending, Step, LocalStep, NotesOf, BufferOf, FiringTimes, Sound, SoundAt, HasChannel;
  }

  lemma {:induction false} FiringTimesJoin(notes: seq<Note>, more: seq<Note>)
    ensures FiringTimes(notes + more) == FiringTimes(notes) + FiringTimes(more)
    decreases |more|
  {
    if more == [] {
      assert notes + more == notes;
    } else {
      var all := notes + more;
      assert all[..|all| - 1] == notes + more[..|more| - 1] && Last(all) == Last(more);
      FiringTimesJoin(notes, more[..|more| - 1]);
    }
  }

  // ---- Tickers ----

  // The fate of an unstopped ticker: it ticks at each advance that reaches its due time and finds its channel
  // empty, and is due one period after that; a reset sets both, a stop ends it.
  function Ticks(now: int, due: int, period: int, full: bool, events: seq<Event>, i: nat): seq<Note>
    decreases |events|
  {
    if events == [] then [] else
      match events[0]
      case StopTicker(j) => if j == i then [] else Ticks(now, due, period, full, events[1..], i)
      case ResetTicker(j, d) =>
        if j == i && d > 0 then Ticks(now, now + d, d, full, events[1..], i)
        else Ticks(now, due, period, full, events[1..], i)
      case Receive(j) => Ticks(now, due, period, full && j != i, events[1..], i)
      case Advance(d) =>
        if due <= now + d && !full
        then [Fired(i, now + d)] + Ticks(now + d, now + d + period, period, true, events[1..], i)
        else Ticks(now + d, due, period, full, events[1..], i)
      case _ => Ticks(now, due, period, full, events[1..], i)
  }

  lemma {:induction false} HeardIsTicks(l: Local, now: int, events: seq<Event>, i: nat)
    requires l.action.Ticker? && (l.waits || l.action.halted)
    ensures var a := l.action;
      Heard(l, now, events, i) ==
        if a.halted then [] else Ticks(now, a.nextDue, a.period, a.out.buffer != [], events, i)
    decreases |events|
  {
    if events != [] {
      HeardIsTicks(LocalStep(l, now, events[0], i).0, TimeAfter(now, events[0]), events[1..], i);
    }
  }

  // Whatever else is registered, stopped, received or advanced, in either direction: a ticker ticks exactly as
  // its fate says, and a stopped one never again.
  lemma TickerFate(s: State, events: seq<Event>, i: nat)
    requires Valid(s) && i < |s.actions| && s.actions[i].Ticker?
    ensures var a := s.actions[i];
      NotesOf(Run(s, events).log, i) == NotesOf(s.log, i) +
        if a.halted then [] else Ticks(s.now, a.nextDue, a.period, a.out.buffer != [], events, i)
  {
    assert SoundAt(s, i);
    RunIsHeard(s, events, i);
    HeardIsTicks(LocalOf(s, i), s.now, events, i);
  }

  function TimeAfterAll(now: int, events: seq<Event>): int
    decreases |events|
  {
    if events == [] then now else TimeAfterAll(TimeAfter(now, events[0]), events[1..])
  }

  // The clock stays below a time through all of the events.
  predicate StaysBelow(now: int, events: seq<Event>, bound: int)
    decreases |events|
  {
    now < bound && (events == [] || StaysBelow(TimeAfter(now, events[0]), events[1..], bound))
  }

  predicate LeavesAlone(events: seq<Event>, i: nat) {
    forall e | e in events :: !(e.StopTicker? && e.id == i) && !(e.ResetTicker? && e.id == i)
  }

  lemma {:induction false} QuietUntilDue(now: int, due: int, period: int, full: bool, events: seq<Event>,
                                         rest: seq<Event>, i: nat)
    requires StaysBelow(now, events, due) && LeavesAlone(events, i)
    ensures Ticks(now, due, period, full, events + rest, i) ==
      Ticks(TimeAfterAll(now, events), due, period, full && Event.Receive(i) !in events, rest, i)
    decreases |events|
  {
    if events == [] {
      assert events + rest == rest;
    } else {
      var e, more := events[0], events[1..];
      assert e in events && (events + rest)[1..] == more + rest && events == [e] + more;
      QuietUntilDue(TimeAfter(now, e), due, period, full && e != Event.Receive(i), more, rest, i);
      assert Event.Receive(i) in events <==> e == Event.Receive(i) || Event.Receive(i) in more;
    }
  }

  lemma TicksTwice(now: int, due: int, period: int, d: int, events: seq<Event>, again: int, i: nat, t: int, next: int)
    requires due <= t == now + d && LeavesAlone(events, i) && Event.Receive(i) in events
    requires StaysBelow(t, events, t + period) && t + period <= next == TimeAfterAll(t, events) + again
    ensures Ticks(now, due, period, false, [Advance(d)] + events + [Advance(again)], i) == [Fired(i, t), Fired(i, next)]
  {
    var all, last := [Advance(d)] + events + [Advance(again)], [Advance(again)];
    assert all[0] == Advance(d) && all[1..] == events + last;
    QuietUntilDue(t, t + period, period, true, events, last, i);
    assert Ticks(TimeAfterAll(t, events), t + period, period, false, last, i) == [Fired(i, next)] by {
      assert last[1..] == [];
    }
    hide StaysBelow, TimeAfterAll, LeavesAlone;
  }

  // A ticker that ticked at time t and whose tick was received ticks again at the first advance that reaches
  // t + period, and not before.
  lemma TicksAgain(s: State, d: int, events: seq<Event>, again: int, i: nat, t: int, next: int)
    requires Valid(s) && i < |s.actions| && s.actions[i].Ticker? && !s.actions[i].halted
    requires s.actions[i].out.buffer == [] && s.actions[i].nextDue <= t == s.now + d
    requires LeavesAlone(events, i) && Event.Receive(i) in events
    requires StaysBelow(t, events, t + s.actions[i].period)
    requires t + s.actions[i].period <= next == TimeAfterAll(t, events) + again
    ensures NotesOf(Run(s, [Advance(d)] + events + [Advance(again)]).log, i) ==
      NotesOf(s.log, i) + [Fired(i, t), Fired(i, next)]
  {
    var a, all := s.actions[i], [Advance(d)] + events + [Advance(again)];
    hide *;
    TickerFate(s, all, i);
    TicksTwice(s.now, a.nextDue, a.period, d, events, again, i, t, next);
  }

  // Ticks at least a period apart, the first no earlier than `from`.
  ghost predicate Spaced(notes: seq<Note>, from: int, period: int) {
    notes == [] || (notes[0].Fired? && notes[0].at >= from && Spaced(notes[1..], notes[0].at + period, period))
  }

  lemma {:induction false} HeardIsSpaced(l: Local, now: int, events: seq<Event>, i: nat)
    requires l.action.Ticker?
    requires forall e | e in events :: !(e.ResetTicker? && e.id == i)
    ensures Spaced(Heard(l, now, events, i), l.action.nextDue, l.action.period)
    decreases |events|
  {
    if events != [] {
      var e := events[0];
      assert e in events;
      var next := LocalStep(l, now, e, i);
      HeardIsSpaced(next.0, TimeAfter(now, e), events[1..], i);
      var rest := Heard(next.0, TimeAfter(now, e), events[1..], i);
      assert next.1 == [] || |next.1| == 1;
      assert Heard(l, now, events, i) == next.1 + rest;
      assert if next.1 == [] then next.1 + rest == rest else (next.1 + rest)[1..] == rest;
    }
  }

  // What a ticker publishes while it is not reset: no tick before it is due, and ticks at least a period
  // apart, however the time is advanced and whenever the ticks are received.
  lemma TicksAreSpaced(s: State, events: seq<Event>, i: nat) returns (ticks: seq<Note>)
    requires Valid(s) && i < |s.actions| && s.actions[i].Ticker?
    requires forall e | e in events :: !(e.ResetTicker? && e.id == i)
    ensures NotesOf(Run(s, events).log, i) == NotesOf(s.log, i) + ticks
    ensures Spaced(ticks, s.actions[i].nextDue, s.actions[i].period)
  {
    RunIsHeard(s, events, i);
    HeardIsSpaced(LocalOf(s, i), s.now, events, i);
    ticks := Heard(LocalOf(s, i), s.now, events, i);
  }

  lemma {:induction false} LocalRunKeepsTicker(l: Local, now: int, events: seq<Event>, i: nat)
    requires l.action.Ticker? && !l.action.halted && l.waits
    requires forall e | e in events :: !(e.StopTicker? && e.id == i)
    ensures var end := LocalRun(l, now, events, i); end.action.Ticker? && !end.action.halted && end.waits
    decreases |events|
  {
    if events != [] {
      assert events[0] in events;
      LocalRunKeepsTicker(LocalStep(l, now, events[0], i).0, TimeAfter(now, events[0]), events[1..], i);
    }
  }

  // A ticker that is not stopped never leaves the pending list, its channel never holds more than one
  // tick, and an advance that finds it due with its channel empty makes it tick at the new time.
  lemma TickerKeepsTicking(s: State, events: seq<Event>, i: nat, d: int)
    requires Valid(s) && i < |s.actions| && s.actions[i].Ticker? && !s.actions[i].halted
    requires forall e | e in events :: !(e.StopTicker? && e.id == i)
    ensures var end := Run(s, events);
      && i < |end.actions| && end.actions[i].Ticker? && i in end.pending && |end.actions[i].out.buffer| <= 1
      && NotesOf(Step(end, Advance(d)).log, i) == NotesOf(end.log, i) +
           if end.actions[i].nextDue <= end.now + d && end.actions[i].out.buffer == [] then [Fired(i, end.now + d)]
               else []
  {
    hide NotesOf, Heard, Ascending, Drained, Fire;
    var end := Run(s, events);
    assert SoundAt(s, i);
    RunEndsAt(s, events, i);
    LocalRunKeepsTicker(LocalOf(s, i), s.now, events, i);
    RunIsValid(s, events);
    assert SoundAt(end, i);
    StepAt(end, Advance(d), i);
    hide Run, Step, NotesOf, LocalRun, Heard, Ascending;
  }
}
