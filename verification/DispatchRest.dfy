/**
 Where a dispatch queue comes to rest. A proc may dispatch to the very queue that runs it; a synchronous dispatch,
 and a join is one, then waits for a record that only the queue's own threads can run.
 */
module DispatchRest {
  import opened Bytes
  import opened DispatchQueue

  // ---- Procs that wait for their own queue ----

  /** A call still going on belongs to a proc that is running, and was made after that proc was enqueued. */
  ghost predicate CallsAreLater(s: State) {
    forall r :: 0 <= r < |s.dispatches| ==> CallIsLater(s, r)
  }

  predicate CallIsLater(s: State, r: nat)
    requires r < |s.dispatches|
  {
    var d := s.dispatches[r];
    d.from.Some? && !d.caller.Returned? ==>
      d.from.value < |s.workers| && s.workers[d.from.value].Running? && s.workers[d.from.value].record < r
  }

  lemma StepKeepsCalls(s: State, a: Step)
    requires CallsAreLater(s) && Orderly(s) && Enabled(s, a)
    ensures CallsAreLater(Act(s, a))
  {
    var s' := Act(s, a);
    if a.Enqueue? && a.from.Some? {
      WorkerIsOK(s, a.from.value);
    }
    hide Orderly;
    forall r | 0 <= r < |s'.dispatches| ensures CallIsLater(s', r) {
      if r < |s.dispatches| {
        assert CallIsLater(s, r);
        assert s.dispatches[r] in s.dispatches;
      }
    }
  }

  lemma WorkerIsOK(s: State, t: nat)
    requires Orderly(s) && t < |s.workers|
    ensures WorkerOK(s, t)
  {
  }

  lemma {:induction false} RunKeepsCalls(n: nat, steps: seq<Step>)
    ensures CallsAreLater(Run(Created(n), steps))
    decreases |steps|
  {
    if steps != [] {
      RunKeepsCalls(n, steps[..|steps| - 1]);
      RunKeepsOrder(n, steps[..|steps| - 1]);
      var s, a := Run(Created(n), steps[..|steps| - 1]), steps[|steps| - 1];
      if Enabled(s, a) {
        hide Orderly, CallsAreLater, Act;
        StepKeepsCalls(s, a);
      }
    }
  }

  // ---- Rest ----

  ghost predicate NobodyLeft(s: State) {
    !s.exit ==> forall w <- s.workers :: !w.Leaving? && !w.Gone?
  }

  lemma StepKeepsNobodyLeft(s: State, a: Step)
    requires NobodyLeft(s) && Enabled(s, a)
    ensures NobodyLeft(Act(s, a))
  {
    var s' := Act(s, a);
    forall w | w in s'.workers && !s'.exit ensures !w.Leaving? && !w.Gone? {
      var t :| 0 <= t < |s'.workers| && s'.workers[t] == w;
      assert t < |s.workers| ==> s.workers[t] in s.workers;
    }
  }

  lemma {:induction false} RunKeepsNobodyLeft(n: nat, steps: seq<Step>)
    ensures NobodyLeft(Run(Created(n), steps))
    decreases |steps|
  {
    hide NobodyLeft, Enabled, Act;
    if steps == [] {
      CreatedHasNobodyLeft(n);
    } else {
      RunKeepsNobodyLeft(n, steps[..|steps| - 1]);
      var s, a := Run(Created(n), steps[..|steps| - 1]), steps[|steps| - 1];
      if Enabled(s, a) {
        StepKeepsNobodyLeft(s, a);
      }
    }
  }

  lemma CreatedHasNobodyLeft(n: nat)
    ensures NobodyLeft(Created(n))
  {
  }

  /** What is not the start of something new: what the threads and the callers still have to do. */
  predicate IsOngoing(a: Step) { !a.Enqueue? && !a.AddWorker? && !a.ExitBegin? }

  ghost predicate AtRest(s: State) { forall a: Step :: IsOngoing(a) ==> !Enabled(s, a) }

  lemma NothingToDo(s: State, a: Step)
    requires AtRest(s) && IsOngoing(a)
    ensures !Enabled(s, a)
  {
  }

  /** A worker at rest waits for work, or is in a proc with a call that is not coming back. */
  lemma RestingWorker(s: State, t: nat)
    requires AtRest(s) && NobodyLeft(s) && Orderly(s) && !s.exit && !Locked(s) && t < |s.workers|
    ensures s.workers[t].Waiting? || (s.workers[t].Running? && !NotCalling(s.dispatches, t))
    ensures s.workers[t].Waiting? ==> s.sem == 0
  {
    hide AtRest, Orderly, NotCalling;
    assert WorkerOK(s, t) by {
      WorkerIsOK(s, t);
    }
    assert s.workers[t] in s.workers;
    NothingToDo(s, Wake(t));
    NothingToDo(s, Check(t));
    NothingToDo(s, Pop(t));
    NothingToDo(s, Begin(t));
    NothingToDo(s, End(t));
    NothingToDo(s, Finalise(t));
    NothingToDo(s, Release(t));
  }

  lemma RestingStackIsEmpty(s: State, t: nat)
    requires AtRest(s) && NobodyLeft(s) && Orderly(s) && StackCovered(s) && !s.exit
    requires t < |s.workers| && s.workers[t].Waiting?
    ensures s.stack == []
  {
    hide AtRest, Orderly, NobodyLeft;
    forall u | 0 <= u < |s.workers| ensures s.workers[u].Waiting? || s.workers[u].Running? {
      RestingWorker(s, u);
    }
    RestingWorker(s, t);
    CountNone(s.workers, Woken);
    CountNone(s.workers, Passed);
    forall d | d in s.dispatches ensures !d.caller.Appended? {
      var r :| 0 <= r < |s.dispatches| && s.dispatches[r] == d;
      NothingToDo(s, Signal(r));
    }
    NoneUnsignalled(s.dispatches);
  }

  /** A call of a proc that is not coming back waits for a later record, whose proc waits in turn for a later one. */
  lemma CallWaitsForALaterOne(s: State, r: nat) returns (later: nat)
    requires AtRest(s) && NobodyLeft(s) && Orderly(s) && CallsAreLater(s) && !s.exit && !Locked(s) && s.stack == []
    requires r < |s.dispatches| && s.dispatches[r].from.Some? && !s.dispatches[r].caller.Returned?
    ensures r < later < |s.dispatches| && s.dispatches[later].from.Some? && !s.dispatches[later].caller.Returned?
  {
    assert DispatchOK(s, r);
    NothingToDo(s, Signal(r));
    NothingToDo(s, Return(r));
    hide AtRest;
    var t := s.dispatches[r].progress.thread;
    RestingWorker(s, t);
    later :| 0 <= later < |s.dispatches| && s.dispatches[later].from == Some(t) && !s.dispatches[later].caller.Returned?;
    assert CallIsLater(s, later);
  }

  lemma {:induction false} NoCallWaits(s: State, r: nat)
    requires AtRest(s) && NobodyLeft(s) && Orderly(s) && CallsAreLater(s) && !s.exit && !Locked(s) && s.stack == []
    requires r < |s.dispatches|
    ensures s.dispatches[r].from.Some? ==> s.dispatches[r].caller.Returned?
    decreases |s.dispatches| - r
  {
    if s.dispatches[r].from.Some? && !s.dispatches[r].caller.Returned? {
      var later := CallWaitsForALaterOne(s, r);
      NoCallWaits(s, later);
      assert false;
    }
  }

  predicate Done(d: Dispatch) {
    && d.progress.Released? && d.caller.Returned?
    && d.starts == 1 && d.finals == (if d.isSource then 0 else 1) && d.frees == 1
  }

  lemma RestingRecordIsDone(s: State, r: nat)
    requires AtRest(s) && Orderly(s) && s.stack == [] && (forall w <- s.workers :: w.Waiting?)
    requires r < |s.dispatches|
    ensures Done(s.dispatches[r])
  {
    forall t | 0 <= t < |s.workers| ensures !Holds(s.workers[t]) {
      assert s.workers[t] in s.workers;
    }
    assert DispatchOK(s, r);
    hide AtRest, Orderly;
    NothingToDo(s, Signal(r));
    NothingToDo(s, Return(r));
  }

  lemma AllWaitOnceOneDoes(s: State, t: nat)
    requires AtRest(s) && NobodyLeft(s) && Orderly(s) && StackCovered(s) && CallsAreLater(s) && !s.exit
    requires t < |s.workers| && s.workers[t].Waiting?
    ensures s.stack == [] && forall w <- s.workers :: w.Waiting?
  {
    RestingStackIsEmpty(s, t);
    hide AtRest, Orderly, NobodyLeft, CallsAreLater;
    forall u | 0 <= u < |s.workers| ensures s.workers[u].Waiting? {
      RestingWorker(s, u);
      if !NotCalling(s.dispatches, u) {
        var d :| d in s.dispatches && d.from == Some(u) && !d.caller.Returned?;
        var r :| 0 <= r < |s.dispatches| && s.dispatches[r] == d;
        NoCallWaits(s, r);
        assert false;
      }
    }
  }

  ghost predicate AllDone(s: State) { forall d <- s.dispatches :: Done(d) }

  /** Every thread is in a proc that has made a synchronous dispatch to this very queue and waits for it. */
  ghost predicate AllWaitForOwnQueue(s: State) {
    forall t :: 0 <= t < |s.workers| ==> WaitsForOwnQueue(s, t)
  }

  ghost predicate WaitsForOwnQueue(s: State, t: nat)
    requires t < |s.workers|
  {
    s.workers[t].Running? && exists d <- s.dispatches :: d.from == Some(t) && d.sync && d.caller.Blocked?
  }

  lemma RunningWaits(s: State, t: nat)
    requires AtRest(s) && NobodyLeft(s) && Orderly(s) && !s.exit && !Locked(s) && t < |s.workers|
    requires !s.workers[t].Waiting?
    ensures WaitsForOwnQueue(s, t)
  {
    RestingWorker(s, t);
    var d :| d in s.dispatches && d.from == Some(t) && !d.caller.Returned?;
    var r :| 0 <= r < |s.dispatches| && s.dispatches[r] == d;
    assert DispatchOK(s, r);
    NothingToDo(s, Signal(r));
  }

  /**
   No deadlock but one. A queue with threads, and nobody shutting it down, comes to rest with everything ever
   enqueued run, finalised and freed, and every synchronous caller back, unless every one of its threads is in a
   proc that waits for the queue itself.
   */
  lemma RestMeansDone(n: nat, steps: seq<Step>)
    requires var s := Run(Created(n), steps); AtRest(s) && !s.exit && s.workers != []
    ensures var s := Run(Created(n), steps); AllDone(s) <==> !AllWaitForOwnQueue(s)
  {
    var s := Run(Created(n), steps);
    RunKeepsCover(n, steps);
    RunKeepsOrder(n, steps);
    RunKeepsNobodyLeft(n, steps);
    RunKeepsCalls(n, steps);
    hide Run, AtRest, Orderly, NobodyLeft, CallsAreLater, Done;
    if AllWaitForOwnQueue(s) {
      assert WaitsForOwnQueue(s, 0);
      BusyRecordIsNotDone(s, 0);
    } else {
      var t :| 0 <= t < |s.workers| && !WaitsForOwnQueue(s, t);
      if !s.workers[t].Waiting? {
        RunningWaits(s, t);
        assert false;
      }
      AllWaitOnceOneDoes(s, t);
      forall d | d in s.dispatches ensures Done(d) {
        var r :| 0 <= r < |s.dispatches| && s.dispatches[r] == d;
        RestingRecordIsDone(s, r);
      }
    }
  }

  lemma BusyRecordIsNotDone(s: State, t: nat)
    requires Orderly(s) && t < |s.workers| && s.workers[t].Running?
    ensures s.workers[t].record < |s.dispatches| && !Done(s.dispatches[s.workers[t].record])
  {
    WorkerIsOK(s, t);
  }

  /** On a queue with one thread: a synchronous dispatch by one of its own procs is never popped. */
  ghost predicate OwnCallsStay(s: State) {
    forall r :: 0 <= r < |s.dispatches| && s.dispatches[r].sync && s.dispatches[r].from.Some? ==>
      !s.dispatches[r].caller.Returned? && s.dispatches[r].progress.Queued?
  }

  lemma StepKeepsOwnCalls(s: State, a: Step)
    requires OwnCallsStay(s) && CallsAreLater(s) && Orderly(s) && |s.workers| == 1
    requires Enabled(s, a) && UserQueueStep(a)
    ensures OwnCallsStay(Act(s, a))
  {
    var s' := Act(s, a);
    hide OwnCallsStay;
    forall r | 0 <= r < |s'.dispatches| && s'.dispatches[r].sync && s'.dispatches[r].from.Some?
      ensures !s'.dispatches[r].caller.Returned? && s'.dispatches[r].progress.Queued?
    {
      if r < |s.dispatches| {
        OwnCallStays(s, r);
        assert CallIsLater(s, r);
      }
    }
    assert OwnCallsStay(s') by {
      OwnCallsStayIf(s');
    }
  }

  lemma OwnCallStays(s: State, r: nat)
    requires OwnCallsStay(s) && r < |s.dispatches| && s.dispatches[r].sync && s.dispatches[r].from.Some?
    ensures !s.dispatches[r].caller.Returned? && s.dispatches[r].progress.Queued?
  {
  }

  lemma OwnCallsStayIf(s: State)
    requires forall r :: 0 <= r < |s.dispatches| && s.dispatches[r].sync && s.dispatches[r].from.Some? ==>
      !s.dispatches[r].caller.Returned? && s.dispatches[r].progress.Queued?
    ensures OwnCallsStay(s)
  {
  }

  lemma {:induction false} RunKeepsOwnCalls(steps: seq<Step>)
    requires forall a <- steps :: UserQueueStep(a)
    ensures OwnCallsStay(Run(Created(1), steps))
    decreases |steps|
  {
    if steps != [] {
      var before, a := steps[..|steps| - 1], steps[|steps| - 1];
      assert a in steps;
      RunKeepsOwnCalls(before);
      RunKeepsSerial(before);
      RunKeepsOrder(1, before);
      RunKeepsCalls(1, before);
      var s := Run(Created(1), before);
      if Enabled(s, a) {
        hide Orderly, Act, CallsAreLater, OwnCallsStay;
        StepKeepsOwnCalls(s, a);
      }
    }
  }

  lemma OwnSyncIsNeverDone(s: State)
    requires OwnCallsStay(s) && exists d <- s.dispatches :: d.sync && d.from.Some?
    ensures !AllDone(s)
  {
    var d :| d in s.dispatches && d.sync && d.from.Some?;
    var r :| 0 <= r < |s.dispatches| && s.dispatches[r] == d;
    OwnCallStays(s, r);
  }

  lemma WithoutOwnSyncNobodyWaits(s: State)
    requires s.workers != [] && forall d <- s.dispatches :: d.sync ==> d.from.None?
    ensures !AllWaitForOwnQueue(s)
  {
    assert !WaitsForOwnQueue(s, 0);
  }

  lemma UserQueueHasOneWorker(s: State)
    requires Serial(s)
    ensures s.workers != []
  {
  }

  /**
   A user queue that nobody is shutting down comes to rest with everything done if and only if no proc on it has
   made a synchronous dispatch to it, which a join is too.
   */
  lemma UserQueueRestsIffNoOwnSync(steps: seq<Step>)
    requires forall a <- steps :: UserQueueStep(a)
    requires var s := Run(Created(1), steps); AtRest(s) && !s.exit
    ensures var s := Run(Created(1), steps);
            AllDone(s) <==> forall d <- s.dispatches :: d.sync ==> d.from.None?
  {
    hide Run, AtRest, CallsAreLater, OwnCallsStay, AllDone, AllWaitForOwnQueue, Serial;
    var s := Run(Created(1), steps);
    RunKeepsOwnCalls(steps);
    RunKeepsSerial(steps);
    UserQueueHasOneWorker(s);
    RestMeansDone(1, steps);
    if exists d <- s.dispatches :: d.sync && d.from.Some? {
      OwnSyncIsNeverDone(s);
    } else {
      WithoutOwnSyncNobodyWaits(s);
    }
  }
}
