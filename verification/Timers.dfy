/**
 Delayed dispatch: times in seconds and nanoseconds, and the list of timers kept in order of time. A new timer
 that ties with a queued one is made a nanosecond later and put right behind it.
 */
module Timers {
  const NSEC_PER_SEC := 1_000_000_000

  datatype Timespec = Timespec(sec: int, nsec: int) {
    function Total(): int { sec * NSEC_PER_SEC + nsec }

    predicate Normal() { 0 <= nsec < NSEC_PER_SEC }

    /** What the insertion does to a tie. The result need not be normal. */
    function Bumped(): Timespec { Timespec(sec, nsec + 1) }
  }

  /** Carries whole seconds over, one at a time, in whichever direction they go. */
  method Normalize(ts: Timespec) returns (r: Timespec)
    ensures r.Normal() && r.Total() == ts.Total()
  {
    var sec, nsec := ts.sec, ts.nsec;
    while nsec >= NSEC_PER_SEC
      invariant Timespec(sec, nsec).Total() == ts.Total()
      invariant ts.nsec < 0 ==> nsec == ts.nsec
      invariant ts.nsec >= 0 ==> nsec >= 0
    {
      sec := sec + 1;
      nsec := nsec - NSEC_PER_SEC;
    }
    while nsec <= -NSEC_PER_SEC
      invariant Timespec(sec, nsec).Total() == ts.Total() && nsec < NSEC_PER_SEC
    {
      sec := sec - 1;
      nsec := nsec + NSEC_PER_SEC;
    }
    if nsec < 0 {
      sec := sec - 1;
      nsec := NSEC_PER_SEC + nsec;
    }
    r := Timespec(sec, nsec);
  }

  datatype Comparison = LessThan | EqualTo | GreaterThan

  function Compare(a: Timespec, b: Timespec): Comparison {
    if a.sec < b.sec then LessThan
    else if a.sec > b.sec then GreaterThan
    else if a.nsec < b.nsec then LessThan
    else if a.nsec > b.nsec then GreaterThan
    else EqualTo
  }

  predicate Before(a: Timespec, b: Timespec) { Compare(a, b).LessThan? }

  /** Among normal times the comparison is that of the nanoseconds they stand for. */
  lemma CompareIsByTotal(a: Timespec, b: Timespec)
    requires a.Normal() && b.Normal()
    ensures Before(a, b) <==> a.Total() < b.Total()
    ensures Compare(a, b).EqualTo? <==> a.Total() == b.Total()
    ensures a.Total() == b.Total() ==> a == b
  {
    if a.sec < b.sec {
      assert (b.sec - a.sec) * NSEC_PER_SEC >= NSEC_PER_SEC;
    } else if b.sec < a.sec {
      assert (a.sec - b.sec) * NSEC_PER_SEC >= NSEC_PER_SEC;
    }
  }

  /** dispatch stands for the queue and the function to call. */
  datatype Timer = Timer(time: Timespec, dispatch: int)

  // ---- Insertion ----

  function Insert(timers: seq<Timer>, t: Timer): (r: seq<Timer>)
    ensures |r| == |timers| + 1
  {
    if timers == [] then [t]
    else match Compare(t.time, timers[0].time)
      case LessThan => [t] + timers
      case EqualTo => [timers[0], t.(time := t.time.Bumped())] + timers[1..]
      case GreaterThan => [timers[0]] + Insert(timers[1..], t)
  }

  ghost predicate StrictlyOrdered(timers: seq<Timer>) {
    forall i, j :: 0 <= i < j < |timers| ==> Before(timers[i].time, timers[j].time)
  }

  ghost predicate Ordered(timers: seq<Timer>) {
    forall i, j :: 0 <= i < j < |timers| ==> !Before(timers[j].time, timers[i].time)
  }

  predicate Queued(timers: seq<Timer>, time: Timespec) {
    exists t <- timers :: t.time == time
  }

  /** The new timer ties, and its bumped time ties again. */
  predicate BumpCollides(timers: seq<Timer>, time: Timespec) {
    Queued(timers, time) && Queued(timers, time.Bumped())
  }

  ghost predicate AllAfter(time: Timespec, timers: seq<Timer>) {
    forall t <- timers :: Before(time, t.time)
  }

  lemma StrictTail(timers: seq<Timer>)
    requires timers != []
    ensures StrictlyOrdered(timers) <==>
      (StrictlyOrdered(timers[1..]) && AllAfter(timers[0].time, timers[1..]))
  {
    var tail := timers[1..];
    if StrictlyOrdered(tail) && AllAfter(timers[0].time, tail) {
      forall i, j | 0 <= i < j < |timers| ensures Before(timers[i].time, timers[j].time) {
        assert timers[j] == tail[j - 1] && timers[j] in tail;
        if i > 0 {
          assert timers[i] == tail[i - 1];
        }
      }
    }
    if StrictlyOrdered(timers) {
      forall t | t in tail ensures Before(timers[0].time, t.time) {
        var j :| 0 <= j < |tail| && tail[j] == t;
        assert timers[j + 1] == t;
      }
    }
  }

  /** An element of the new list is an old one or the new timer, bumped if its time was taken. */
  lemma {:induction false} InsertMembers(timers: seq<Timer>, t: Timer)
    requires StrictlyOrdered(timers)
    ensures multiset(Insert(timers, t)) ==
      multiset(timers) + multiset{if Queued(timers, t.time) then t.(time := t.time.Bumped()) else t}
  {
    if timers != [] {
      StrictTail(timers);
      var x, tail := timers[0], timers[1..];
      assert timers == [x] + tail;
      match Compare(t.time, x.time)
      case LessThan =>
        assert !Queued(timers, t.time);
      case EqualTo =>
        assert x.time == t.time && Queued(timers, t.time);
      case GreaterThan =>
        InsertMembers(tail, t);
        QueuedCons(x, tail, t.time);
    }
  }

  lemma QueuedCons(x: Timer, tail: seq<Timer>, time: Timespec)
    ensures Queued([x] + tail, time) <==> x.time == time || Queued(tail, time)
  {
    if Queued(tail, time) {
      var t :| t in tail && t.time == time;
      assert t in [x] + tail;
    }
    if x.time == time {
      assert x in [x] + tail;
    }
  }

  lemma InsertedIsOldOrNew(timers: seq<Timer>, t: Timer, y: Timer)
    requires StrictlyOrdered(timers) && y in Insert(timers, t)
    ensures y in timers || y == t || (Queued(timers, t.time) && y == t.(time := t.time.Bumped()))
  {
    InsertMembers(timers, t);
    assert y in multiset(Insert(timers, t));
  }

  lemma StrictCons(x: Timer, tail: seq<Timer>)
    ensures StrictlyOrdered([x] + tail) <==> (StrictlyOrdered(tail) && AllAfter(x.time, tail))
  {
    assert ([x] + tail)[1..] == tail;
    StrictTail([x] + tail);
  }

  lemma AfterTheBump(time: Timespec, tail: seq<Timer>)
    requires AllAfter(time, tail)
    ensures AllAfter(time.Bumped(), tail) <==> !Queued(tail, time.Bumped())
  {
    forall y | y in tail ensures Before(time.Bumped(), y.time) || y.time == time.Bumped() {
      assert Before(time, y.time);
    }
  }

  lemma TieKeepsStrictOrder(x: Timer, tail: seq<Timer>, t: Timer)
    requires StrictlyOrdered([x] + tail) && x.time == t.time
    ensures StrictlyOrdered([x] + ([t.(time := t.time.Bumped())] + tail)) <==> !Queued(tail, t.time.Bumped())
  {
    var b := t.(time := t.time.Bumped());
    StrictCons(x, tail);
    StrictCons(b, tail);
    StrictCons(x, [b] + tail);
    AfterTheBump(x.time, tail);
    assert AllAfter(x.time, [b] + tail);
  }

  lemma InFrontOfAll(time: Timespec, timers: seq<Timer>)
    requires StrictlyOrdered(timers) && timers != [] && Before(time, timers[0].time)
    ensures AllAfter(time, timers) && !Queued(timers, time)
  {
    StrictTail(timers);
    assert timers == [timers[0]] + timers[1..];
    forall y | y in timers ensures Before(time, y.time) {
      assert y == timers[0] || y in timers[1..];
    }
  }

  lemma PassedHeadStaysFirst(x: Timer, tail: seq<Timer>, t: Timer)
    requires StrictlyOrdered(tail) && AllAfter(x.time, tail) && Before(x.time, t.time)
    ensures AllAfter(x.time, Insert(tail, t))
  {
    forall y | y in Insert(tail, t) ensures Before(x.time, y.time) {
      InsertedIsOldOrNew(tail, t, y);
    }
  }

  /** The list stays strictly in order exactly when the bumped time of a tie does not tie again. */
  lemma {:induction false} InsertKeepsStrictOrder(timers: seq<Timer>, t: Timer)
    requires StrictlyOrdered(timers)
    ensures StrictlyOrdered(Insert(timers, t)) <==> !BumpCollides(timers, t.time)
  {
    if timers == [] {
    } else {
      hide StrictlyOrdered, AllAfter, Queued;
      var x, tail := timers[0], timers[1..];
      assert timers == [x] + tail;
      StrictTail(timers);
      match Compare(t.time, x.time)
      case LessThan =>
        InFrontOfAll(t.time, timers);
        StrictCons(t, timers);
      case EqualTo =>
        QueuedCons(x, tail, t.time);
        assert Insert(timers, t) == [x] + ([t.(time := t.time.Bumped())] + tail);
        TieKeepsStrictOrder(x, tail, t);
        QueuedCons(x, tail, t.time.Bumped());
      case GreaterThan =>
        InsertKeepsStrictOrder(tail, t);
        QueuedCons(x, tail, t.time);
        QueuedCons(x, tail, t.time.Bumped());
        StrictCons(x, Insert(tail, t));
        PassedHeadStaysFirst(x, tail, t);
    }
  }

  // ---- Whole runs ----

  datatype Step = Add(timer: Timer) | Alarm

  datatype State = State(timers: seq<Timer>, fired: seq<Timer>)

  const NONE := State([], [])

  function Next(s: State, a: Step): State {
    match a
    case Add(t) => s.(timers := Insert(s.timers, t))
    case Alarm => if s.timers == [] then s else State(s.timers[1..], s.fired + [s.timers[0]])
  }

  function Run(steps: seq<Step>): State {
    if steps == [] then NONE else Next(Run(steps[..|steps| - 1]), steps[|steps| - 1])
  }

  /** No insertion of the run meets a tie whose bumped time ties again. */
  predicate Clean(steps: seq<Step>) {
    steps == [] ||
    (var before, a := steps[..|steps| - 1], steps[|steps| - 1];
     && Clean(before)
     && (a.Add? ==> a.timer.time.Normal() && !BumpCollides(Run(before).timers, a.timer.time)))
  }

  ghost predicate Stored(timers: seq<Timer>) {
    forall t <- timers :: 0 <= t.time.nsec <= NSEC_PER_SEC
  }

  lemma {:induction false} CleanRunIsOrdered(steps: seq<Step>)
    requires Clean(steps)
    ensures StrictlyOrdered(Run(steps).timers) && Stored(Run(steps).timers)
  {
    if steps != [] {
      var before, a := steps[..|steps| - 1], steps[|steps| - 1];
      CleanRunIsOrdered(before);
      var timers := Run(before).timers;
      match a
      case Add(t) =>
        InsertKeepsStrictOrder(timers, t);
        forall y | y in Insert(timers, t) ensures 0 <= y.time.nsec <= NSEC_PER_SEC {
          InsertedIsOldOrNew(timers, t, y);
        }
      case Alarm =>
        if timers != [] {
          StrictTail(timers);
          assert forall t <- timers[1..] :: t in timers;
        }
    }
  }

  /** In a clean run the timer an alarm takes off the list is due no later than any other. */
  lemma AlarmTakesTheEarliest(steps: seq<Step>, t: Timer)
    requires Clean(steps) && t in Run(steps).timers
    ensures var first := Run(steps).timers[0];
      && Run(steps + [Alarm]) == State(Run(steps).timers[1..], Run(steps).fired + [first])
      && (t == first || Before(first.time, t.time))
      && first.time.Total() <= t.time.Total()
  {
    CleanRunIsOrdered(steps);
    var timers := Run(steps).timers;
    assert (steps + [Alarm])[..|steps|] == steps;
    var i :| 0 <= i < |timers| && timers[i] == t;
    assert timers[0] in timers;
    if i > 0 && timers[0].time.sec < t.time.sec {
      assert (t.time.sec - timers[0].time.sec) * NSEC_PER_SEC >= NSEC_PER_SEC;
    }
  }

  function Dispatches(timers: seq<Timer>): (r: multiset<int>) {
    if timers == [] then multiset{} else multiset{timers[0].dispatch} + Dispatches(timers[1..])
  }

  function Added(steps: seq<Step>): multiset<int> {
    if steps == [] then multiset{}
    else
      var a := steps[|steps| - 1];
      Added(steps[..|steps| - 1]) + if a.Add? then multiset{a.timer.dispatch} else multiset{}
  }

  lemma {:induction false} InsertAddsItsDispatch(timers: seq<Timer>, t: Timer)
    ensures Dispatches(Insert(timers, t)) == Dispatches(timers) + multiset{t.dispatch}
  {
    if timers != [] {
      var r := Insert(timers, t);
      match Compare(t.time, timers[0].time)
      case LessThan =>
        assert r[1..] == timers;
      case EqualTo =>
        assert r[1..] == [t.(time := t.time.Bumped())] + timers[1..];
        assert r[1..][1..] == timers[1..];
      case GreaterThan =>
        InsertAddsItsDispatch(timers[1..], t);
        assert r[1..] == Insert(timers[1..], t);
    }
  }

  lemma {:induction false} DispatchesSnoc(timers: seq<Timer>, t: Timer)
    ensures Dispatches(timers + [t]) == Dispatches(timers) + multiset{t.dispatch}
  {
    if timers == [] {
      assert timers + [t] == [t];
    } else {
      DispatchesSnoc(timers[1..], t);
      assert (timers + [t])[1..] == timers[1..] + [t];
    }
  }

  /** Over any run, clean or not, each dispatch added is either queued or fired, once. */
  lemma {:induction false} NoDispatchIsLost(steps: seq<Step>)
    ensures Added(steps) == Dispatches(Run(steps).timers) + Dispatches(Run(steps).fired)
  {
    if steps != [] {
      var before, a := steps[..|steps| - 1], steps[|steps| - 1];
      NoDispatchIsLost(before);
      var s := Run(before);
      match a
      case Add(t) => InsertAddsItsDispatch(s.timers, t);
      case Alarm =>
        if s.timers != [] {
          DispatchesSnoc(s.fired, s.timers[0]);
        }
    }
  }

  /** Three timers for one moment and one for the next nanosecond: the list ends up out of order. */
  lemma FourTimersBreakTheOrder(now: Timespec)
    ensures var next := now.Bumped();
      var r := Run([Add(Timer(now, 0)), Add(Timer(now, 1)), Add(Timer(now, 2)), Add(Timer(next, 3))]).timers;
      && r == [Timer(now, 0), Timer(next, 2), Timer(next.Bumped(), 3), Timer(next, 1)]
      && !Ordered(r)
  {
    var next := now.Bumped();
    var steps := [Add(Timer(now, 0)), Add(Timer(now, 1)), Add(Timer(now, 2)), Add(Timer(next, 3))];
    assert steps[..1][..0] == [] && steps[..2][..1] == steps[..1] && steps[..3][..2] == steps[..2] && steps[..4] == steps;
    var one := [Timer(now, 0)];
    assert Run(steps[..1]).timers == one;
    var two := [Timer(now, 0), Timer(next, 1)];
    assert Insert(one, Timer(now, 1)) == two;
    assert Run(steps[..2]).timers == two;
    var three := [Timer(now, 0), Timer(next, 2), Timer(next, 1)];
    assert Insert(two, Timer(now, 2)) == three;
    assert Run(steps[..3]).timers == three;
    var four := [Timer(now, 0), Timer(next, 2), Timer(next.Bumped(), 3), Timer(next, 1)];
    assert three[1..] == [Timer(next, 2), Timer(next, 1)];
    assert Insert(three[1..], Timer(next, 3)) == [Timer(next, 2), Timer(next.Bumped(), 3), Timer(next, 1)];
    assert Insert(three, Timer(next, 3)) == four;
    assert Run(steps).timers == four;
    assert Before(four[3].time, four[2].time);
  }

  /** One turn of the insertion loop. */
  lemma InsertTurn(timers: seq<Timer>, i: nat, t: Timer)
    requires i < |timers|
    ensures timers[..i] + Insert(timers[i..], t) ==
      match Compare(t.time, timers[i].time)
      case LessThan => timers[..i] + [t] + timers[i..]
      case EqualTo => timers[..i + 1] + [t.(time := t.time.Bumped())] + timers[i + 1..]
      case GreaterThan => timers[..i + 1] + Insert(timers[i + 1..], t)
  {
    hide Compare;
    assert timers[i..][1..] == timers[i + 1..] && timers[..i] + [timers[i]] == timers[..i + 1];
  }

  lemma InsertEnds(timers: seq<Timer>, t: Timer)
    ensures timers[..|timers|] + Insert(timers[|timers|..], t) == timers + [t]
    ensures timers[..0] + Insert(timers[0..], t) == Insert(timers, t)
  {
    assert timers[0..] == timers;
  }

  // ---- The list itself ----

  class TimerList {
    var timers: seq<Timer>

    constructor ()
      ensures timers == []
    {
      timers := [];
    }

    method After(now: Timespec, delay: Timespec, dispatch: int)
      modifies this
      ensures exists t: Timespec :: (
          && t.Normal() && t.Total() == now.Total() + delay.Total()
          && timers == Insert(old(timers), Timer(t, dispatch)))
    {
      var time := Normalize(Timespec(now.sec + delay.sec, now.nsec + delay.nsec));
      var timer := Timer(time, dispatch);
      var i, added := 0, false;
      hide Insert, Compare;
      InsertEnds(timers, timer);
      while i < |timers|
        invariant 0 <= i <= |timers| && !added && timers == old(timers)
        invariant Insert(timers, timer) == timers[..i] + Insert(timers[i..], timer)
      {
        InsertTurn(timers, i, timer);
        match Compare(timer.time, timers[i].time) {
          case LessThan =>
            timers := timers[..i] + [timer] + timers[i..];
            added := true;
            break;
          case EqualTo =>
            timers := timers[..i + 1] + [timer.(time := timer.time.Bumped())] + timers[i + 1..];
            added := true;
            break;
          case GreaterThan =>
        }
        i := i + 1;
      }
      if !added {
        timers := timers + [timer];
      }
      assert timers == Insert(old(timers), Timer(time, dispatch));
    }

    /** The alarm handler: with no timer to fire it aborts, which shows here as a false result. */
    method OnAlarm() returns (ok: bool, fired: int)
      modifies this
      ensures ok == (old(timers) != [])
      ensures ok ==> fired == old(timers)[0].dispatch
      ensures timers == if ok then old(timers)[1..] else old(timers)
    {
      ok, fired := false, 0;
      if |timers| > 0 {
        ok, fired := true, timers[0].dispatch;
        timers := timers[1..];
      }
    }
  }
}
