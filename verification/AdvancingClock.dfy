/** A clock that follows the system clock and can be advanced by hand: common/clock/advancing.go. */
module AdvancingClock {
  import opened Prelude
  import Clock

  datatype Following = Following(clock: Clock.State, lastTick: int)

  // A tick of the system ticker, delivered late, twice or out of order as it may be; or any use of the
  // embedded clock, such as AdvanceTime.
  datatype Event = Tick(at: int) | Used(e: Clock.Event)

  function Step(f: Following, event: Event): Following {
    match event
    case Tick(at) => if at <= f.lastTick then f else Following(Clock.Step(f.clock, Clock.Advance(at - f.lastTick)), at)
    case Used(e) => f.(clock := Clock.Step(f.clock, e))
  }

  class AdvancingClock {
    const clock: Clock.DeterministicClock
    var lastTick: int

    ghost function Snapshot(): Following
      reads this, clock
    {
      Following(clock.Snapshot(), lastTick)
    }

    constructor (systemNow: int)
      ensures fresh(clock) && Snapshot() == Following(Clock.State(systemNow, [], [], []), systemNow)
    {
      clock := new Clock.DeterministicClock(systemNow);
      lastTick := systemNow;
    }

    method OnTick(now: int)
      requires Clock.Valid(clock.Snapshot())
      modifies this, clock
      ensures Snapshot() == Step(old(Snapshot()), Tick(now))
    {
      if now <= lastTick {
        return;
      }
      var advanceBy := now - lastTick;
      clock.AdvanceTime(advanceBy);
      lastTick := now;
    }
  }

  function Run(f: Following, events: seq<Event>): Following
    decreases |events|
  {
    if events == [] then f else Run(Step(f, events[0]), events[1..])
  }

  // The time moved by hand.
  function MovedByHand(events: seq<Event>): int {
    if events == [] then 0
    else (if events[0].Used? && events[0].e.Advance? then events[0].e.d else 0) + MovedByHand(events[1..])
  }

  function LatestTick(first: int, events: seq<Event>): int
    decreases |events|
  {
    if events == [] then first
    else LatestTick(if events[0].Tick? && events[0].at > first then events[0].at else first, events[1..])
  }

  // No drift: whatever ticks arrive, the clock has moved by exactly what the latest of them is ahead of the
  // first reference, plus what it was moved by hand.
  lemma {:induction false} NoDrift(f: Following, events: seq<Event>)
    ensures var end := Run(f, events);
      && end.lastTick == LatestTick(f.lastTick, events)
      && end.clock.now == f.clock.now + (end.lastTick - f.lastTick) + MovedByHand(events)
    decreases |events|
  {
    if events != [] {
      NoDrift(Step(f, events[0]), events[1..]);
    }
  }

  lemma {:induction false} LatestIsHighest(first: int, events: seq<Event>)
    ensures first <= LatestTick(first, events)
    ensures forall e | e in events && e.Tick? :: e.at <= LatestTick(first, events)
    ensures LatestTick(first, events) == first || Tick(LatestTick(first, events)) in events
    decreases |events|
  {
    if events != [] {
      var next := if events[0].Tick? && events[0].at > first then events[0].at else first;
      LatestIsHighest(next, events[1..]);
      assert events == [events[0]] + events[1..];
    }
  }

  // The uses of the embedded clock that a run amounts to.
  function Uses(lastTick: int, events: seq<Event>): seq<Clock.Event>
    decreases |events|
  {
    if events == [] then [] else
      match events[0]
      case Tick(at) =>
        if at <= lastTick then Uses(lastTick, events[1..]) else [Clock.Advance(at - lastTick)] + Uses(at, events[1..])
      case Used(e) => [e] + Uses(lastTick, events[1..])
  }

  // Every run is a run of the deterministic clock, whose ticks only move it forward: what is proved of
  // timers, tasks and tickers there holds here.
  lemma {:induction false} RunsTheClock(f: Following, events: seq<Event>)
    ensures Run(f, events).clock == Clock.Run(f.clock, Uses(f.lastTick, events))
    decreases |events|
  {
    hide Clock.Step;
    if events != [] {
      RunsTheClock(Step(f, events[0]), events[1..]);
      assert forall e: Clock.Event, rest: seq<Clock.Event> :: ([e] + rest)[1..] == rest;
    }
  }
}
