/**
 A dispatch queue: any number of callers append to a stack and signal a counting semaphore; any number of
 worker threads wait on it, pop and run. A step is what one thread does between two points where others may
 run. The queue's lock makes append and pop single steps, and queue exit holds it throughout.
 */
module DispatchQueue {
  import opened Bytes

  /** Where a dispatch's caller is. An asynchronous caller is Returned as soon as it has signalled. */
  datatype Caller = Appended | Blocked | Returned

  datatype Progress = Queued | Held(thread: nat) | Released

  /**
   One dispatch record; its index is its identity. from is the worker whose proc made the dispatch, if one of this
   queue's did. starts, finals and frees count what has been done to the record.
   */
  datatype Dispatch = Dispatch(
    sync: bool, isSource: bool, from: Option<nat>, caller: Caller, progress: Progress, starts: nat, finals: nat, frees: nat)

  datatype Worker =
    | Waiting
    | Woken
    | Passed                 // past the exit check
    | Popped(record: nat)
    | Running(record: nat)
    | Ran(record: nat)
    | Finalised(record: nat)
    | Leaving
    | Gone

  datatype Exiter = NotExiting | Signalling(left: nat) | Reaping(left: nat) | Exited

  /** crashed: a worker popped an empty stack. started: the records whose procs have begun, in order. */
  datatype State = State(
    dispatches: seq<Dispatch>, stack: seq<nat>, sem: nat, exitSem: nat, exit: bool, exiter: Exiter,
    workers: seq<Worker>, started: seq<nat>, crashed: bool)

  datatype Step =
    | Enqueue(sync: bool, isSource: bool, from: Option<nat>)
    | Signal(record: nat)
    | Return(record: nat)
    | AddWorker
    | Wake(thread: nat)
    | Check(thread: nat)
    | Pop(thread: nat)
    | Begin(thread: nat)
    | End(thread: nat)
    | Finalise(thread: nat)
    | Release(thread: nat)
    | Leave(thread: nat)
    | ExitBegin
    | ExitSignal
    | ExitReap
    | ExitEnd

  predicate Locked(s: State) { s.exiter.Signalling? || s.exiter.Reaping? }

  /** No call that worker t's proc has made is still going on. */
  predicate NotCalling(ds: seq<Dispatch>, t: nat) {
    forall d <- ds :: d.from == Some(t) ==> d.caller.Returned?
  }

  predicate Enabled(s: State, a: Step) {
    match a
    case Enqueue(_, _, from) =>
      !Locked(s) && (from.Some? ==> from.value < |s.workers| && s.workers[from.value].Running? && NotCalling(s.dispatches, from.value))
    case Signal(r) => r < |s.dispatches| && s.dispatches[r].caller.Appended?
    case Return(r) => r < |s.dispatches| && s.dispatches[r].caller.Blocked? && s.dispatches[r].progress.Released?
    case AddWorker => !Locked(s)
    case Wake(t) => t < |s.workers| && s.workers[t].Waiting? && s.sem > 0
    case Check(t) => t < |s.workers| && s.workers[t].Woken?
    case Pop(t) => t < |s.workers| && s.workers[t].Passed? && !Locked(s)
    case Begin(t) => t < |s.workers| && s.workers[t].Popped? && s.workers[t].record < |s.dispatches|
    case End(t) => t < |s.workers| && s.workers[t].Running? && NotCalling(s.dispatches, t)
    case Finalise(t) => t < |s.workers| && s.workers[t].Ran? && s.workers[t].record < |s.dispatches|
    case Release(t) => t < |s.workers| && s.workers[t].Finalised? && s.workers[t].record < |s.dispatches|
    case Leave(t) => t < |s.workers| && s.workers[t].Leaving?
    case ExitBegin => !s.exit
    case ExitSignal => s.exiter.Signalling? && s.exiter.left > 0
    case ExitReap => s.exiter.Reaping? && s.exitSem > 0 && s.exiter.left > 0
    case ExitEnd => s.exiter == Signalling(0)
  }

  function SetWorker(s: State, t: nat, w: Worker): State
    requires t < |s.workers|
  {
    s.(workers := s.workers[t := w])
  }

  function SetDispatch(s: State, r: nat, d: Dispatch): State
    requires r < |s.dispatches|
  {
    s.(dispatches := s.dispatches[r := d])
  }

  /** The head of the stack goes to thread t; on an empty stack the removal aborts. */
  function PopFor(s: State, t: nat): State
    requires t < |s.workers|
  {
    if s.stack == [] then s.(crashed := true)
    else
      var r := s.stack[0];
      var taken := SetWorker(s.(stack := s.stack[1..]), t, Popped(r));
      if r < |s.dispatches| then SetDispatch(taken, r, s.dispatches[r].(progress := Held(t))) else taken
  }

  function Act(s: State, a: Step): State
    requires Enabled(s, a)
  {
    match a
    case Enqueue(sync, isSource, from) =>
      s.(dispatches := s.dispatches + [Dispatch(sync, isSource, from, Appended, Queued, 0, 0, 0)],
         stack := s.stack + [|s.dispatches|])
    case Signal(r) =>
      var d := s.dispatches[r];
      SetDispatch(s.(sem := s.sem + 1), r, d.(caller := if d.sync then Blocked else Returned))
    case Return(r) => // the waiter frees the record it waited for
      var d := s.dispatches[r];
      SetDispatch(s, r, d.(caller := Returned, frees := d.frees + 1))
    case AddWorker => s.(workers := s.workers + [Waiting])
    case Wake(t) => SetWorker(s.(sem := s.sem - 1), t, Woken)
    case Check(t) => SetWorker(s, t, if s.exit then Leaving else Passed)
    case Pop(t) => PopFor(s, t)
    case Begin(t) =>
      var r := s.workers[t].record;
      var d := s.dispatches[r];
      SetDispatch(SetWorker(s.(started := s.started + [r]), t, Running(r)), r, d.(starts := d.starts + 1))
    case End(t) => SetWorker(s, t, Ran(s.workers[t].record))
    case Finalise(t) => // a source outlives its wrapper
      var r := s.workers[t].record;
      var d := s.dispatches[r];
      SetDispatch(SetWorker(s, t, Finalised(r)), r, if d.isSource then d else d.(finals := d.finals + 1))
    case Release(t) => // wake the waiter, or free an asynchronous record here
      var r := s.workers[t].record;
      var d := s.dispatches[r];
      var d' := d.(progress := Released);
      SetDispatch(SetWorker(s, t, Waiting), r, if d.sync then d' else d'.(frees := d.frees + 1))
    case Leave(t) => SetWorker(s.(exitSem := s.exitSem + 1), t, Gone)
    case ExitBegin => s.(exit := true, exiter := Signalling(|s.workers|))
    case ExitSignal => s.(sem := s.sem + 1, exiter := Reaping(s.exiter.left))
    case ExitReap => s.(exitSem := s.exitSem - 1, exiter := Signalling(s.exiter.left - 1))
    case ExitEnd => s.(exiter := Exited)
  }

  function Next(s: State, a: Step): State {
    if Enabled(s, a) then Act(s, a) else s
  }

  function Run(s: State, steps: seq<Step>): State
    decreases |steps|
  {
    if steps == [] then s else Next(Run(s, steps[..|steps| - 1]), steps[|steps| - 1])
  }

  /** A new queue with n workers; a user queue has one. */
  function Created(n: nat): State {
    State([], [], 0, 0, false, NotExiting, seq(n, i => Waiting), [], false)
  }

  // ---- Counting ----

  function CountWorkers(ws: seq<Worker>, w: Worker): nat {
    if ws == [] then 0 else CountWorkers(ws[1..], w) + if ws[0] == w then 1 else 0
  }

  lemma {:induction false} CountUpdate(ws: seq<Worker>, t: nat, next: Worker, w: Worker)
    requires t < |ws|
    ensures CountWorkers(ws[t := next], w) + (if ws[t] == w then 1 else 0)
         == CountWorkers(ws, w) + if next == w then 1 else 0
  {
    if t > 0 {
      CountUpdate(ws[1..], t - 1, next, w);
      assert ws[t := next][1..] == ws[1..][t - 1 := next];
    } else {
      assert ws[t := next][1..] == ws[1..];
    }
  }

  lemma {:induction false} CountAppend(ws: seq<Worker>, next: Worker, w: Worker)
    ensures CountWorkers(ws + [next], w) == CountWorkers(ws, w) + if next == w then 1 else 0
  {
    if ws == [] {
      assert ws + [next] == [next];
    } else {
      CountAppend(ws[1..], next, w);
      assert (ws + [next])[1..] == ws[1..] + [next];
    }
  }

  lemma {:induction false} CountPositive(ws: seq<Worker>, t: nat)
    requires t < |ws|
    ensures CountWorkers(ws, ws[t]) > 0
  {
    if t > 0 {
      CountPositive(ws[1..], t - 1);
    }
  }

  lemma {:induction false} CountNone(ws: seq<Worker>, w: Worker)
    requires forall x <- ws :: x != w
    ensures CountWorkers(ws, w) == 0
  {
    if ws != [] {
      assert ws[0] in ws && forall x <- ws[1..] :: x in ws;
      CountNone(ws[1..], w);
    }
  }

  /** Callers that have appended and not yet signalled. */
  function Unsignalled(ds: seq<Dispatch>): nat {
    if ds == [] then 0 else Unsignalled(ds[1..]) + if ds[0].caller.Appended? then 1 else 0
  }

  lemma {:induction false} UnsignalledUpdate(ds: seq<Dispatch>, r: nat, d: Dispatch)
    requires r < |ds|
    ensures Unsignalled(ds[r := d]) + (if ds[r].caller.Appended? then 1 else 0)
         == Unsignalled(ds) + if d.caller.Appended? then 1 else 0
  {
    if r > 0 {
      UnsignalledUpdate(ds[1..], r - 1, d);
      assert ds[r := d][1..] == ds[1..][r - 1 := d];
    } else {
      assert ds[r := d][1..] == ds[1..];
    }
  }

  lemma {:induction false} UnsignalledAppend(ds: seq<Dispatch>, d: Dispatch)
    ensures Unsignalled(ds + [d]) == Unsignalled(ds) + if d.caller.Appended? then 1 else 0
  {
    if ds == [] {
      assert ds + [d] == [d];
    } else {
      UnsignalledAppend(ds[1..], d);
      assert (ds + [d])[1..] == ds[1..] + [d];
    }
  }

  // ---- Queue safety ----

  /** Every record on the stack is owed to a token, a woken worker or a caller about to signal. */
  predicate StackCovered(s: State) {
    && (s.exit <==> !s.exiter.NotExiting?)
    && if s.exit then |s.stack| >= CountWorkers(s.workers, Passed)
       else |s.stack| == s.sem + CountWorkers(s.workers, Woken) + CountWorkers(s.workers, Passed) + Unsignalled(s.dispatches)
  }

  /** Moving one worker shifts the two counts that matter by its old and new place. */
  lemma MoveWorker(ws: seq<Worker>, t: nat, next: Worker)
    requires t < |ws|
    ensures CountWorkers(ws[t := next], Woken) + (if ws[t].Woken? then 1 else 0)
         == CountWorkers(ws, Woken) + if next.Woken? then 1 else 0
    ensures CountWorkers(ws[t := next], Passed) + (if ws[t].Passed? then 1 else 0)
         == CountWorkers(ws, Passed) + if next.Passed? then 1 else 0
  {
    CountUpdate(ws, t, next, Woken);
    CountUpdate(ws, t, next, Passed);
  }

  lemma WorkerStepKeepsCover(s: State, a: Step)
    requires StackCovered(s) && Enabled(s, a)
    requires a.Wake? || a.Check? || a.Begin? || a.End? || a.Finalise? || a.Release? || a.Leave?
    ensures StackCovered(Act(s, a)) && Act(s, a).crashed == s.crashed
  {
    hide CountWorkers, Unsignalled;
    var s' := Act(s, a);
    MoveWorker(s.workers, a.thread, s'.workers[a.thread]);
    if a.Begin? || a.Finalise? || a.Release? {
      var r := s.workers[a.thread].record;
      UnsignalledUpdate(s.dispatches, r, s'.dispatches[r]);
    }
  }

  lemma PopKeepsCover(s: State, t: nat)
    requires StackCovered(s) && !s.crashed && Enabled(s, Pop(t))
    ensures StackCovered(PopFor(s, t)) && !PopFor(s, t).crashed
  {
    hide CountWorkers, Unsignalled;
    CountPositive(s.workers, t);
    var r := s.stack[0];
    MoveWorker(s.workers, t, Popped(r));
    if r < |s.dispatches| {
      UnsignalledUpdate(s.dispatches, r, s.dispatches[r].(progress := Held(t)));
    }
  }

  lemma StepKeepsCover(s: State, a: Step)
    requires StackCovered(s) && !s.crashed && Enabled(s, a)
    ensures StackCovered(Act(s, a)) && !Act(s, a).crashed
  {
    hide CountWorkers, Unsignalled;
    match a
    case Enqueue(sync, isSource, from) =>
      UnsignalledAppend(s.dispatches, Dispatch(sync, isSource, from, Appended, Queued, 0, 0, 0));
    case Signal(r) =>
      UnsignalledUpdate(s.dispatches, r, Act(s, a).dispatches[r]);
    case Return(r) =>
      UnsignalledUpdate(s.dispatches, r, Act(s, a).dispatches[r]);
    case AddWorker =>
      CountAppend(s.workers, Waiting, Woken);
      CountAppend(s.workers, Waiting, Passed);
    case Pop(t) =>
      PopKeepsCover(s, t);
    case ExitBegin =>
    case ExitSignal =>
    case ExitReap =>
    case ExitEnd =>
    case _ =>
      WorkerStepKeepsCover(s, a);
  }

  lemma {:induction false} RunKeepsCover(n: nat, steps: seq<Step>)
    ensures var s := Run(Created(n), steps); StackCovered(s) && !s.crashed
    decreases |steps|
  {
    if steps == [] {
      CountNone(Created(n).workers, Woken);
      CountNone(Created(n).workers, Passed);
    } else {
      RunKeepsCover(n, steps[..|steps| - 1]);
      var s, a := Run(Created(n), steps[..|steps| - 1]), steps[|steps| - 1];
      if Enabled(s, a) {
        StepKeepsCover(s, a);
      }
    }
  }

  /** For any number of workers and callers and any schedule, no worker ever pops an empty stack. */
  lemma NeverPopsEmpty(n: nat, steps: seq<Step>, t: nat)
    requires var s := Run(Created(n), steps); t < |s.workers| && s.workers[t].Passed?
    ensures Run(Created(n), steps).stack != []
  {
    RunKeepsCover(n, steps);
    CountPositive(Run(Created(n), steps).workers, t);
  }

  /** No wakeup is lost: before exit, work on the stack always has a token or a woken worker coming for it. */
  lemma NoLostWakeup(n: nat, steps: seq<Step>)
    requires var s := Run(Created(n), steps);
             !s.exit && s.stack != [] && forall d <- s.dispatches :: !d.caller.Appended?
    ensures var s := Run(Created(n), steps); s.sem > 0 || Woken in s.workers || Passed in s.workers
  {
    RunKeepsCover(n, steps);
    var s := Run(Created(n), steps);
    NoneUnsignalled(s.dispatches);
    if Woken !in s.workers && Passed !in s.workers {
      CountNone(s.workers, Woken);
      CountNone(s.workers, Passed);
    }
  }

  lemma {:induction false} NoneUnsignalled(ds: seq<Dispatch>)
    requires forall d <- ds :: !d.caller.Appended?
    ensures Unsignalled(ds) == 0
  {
    if ds != [] {
      assert ds[0] in ds && forall d <- ds[1..] :: d in ds;
      NoneUnsignalled(ds[1..]);
    }
  }

  // ---- Order, exactly once, and the barrier ----

  predicate Holds(w: Worker) { w.Popped? || w.Running? || w.Ran? || w.Finalised? }

  /** How many records have left the stack. */
  function PoppedCount(s: State): int { |s.dispatches| - |s.stack| }

  /** What has been done to a record, given the worker holding it. */
  predicate DispatchOK(s: State, r: nat)
    requires r < |s.dispatches|
  {
    var d := s.dispatches[r];
    && (d.progress.Queued? <==> r >= PoppedCount(s))
    && (d.progress.Held? ==>
        var t := d.progress.thread;
        t < |s.workers| && Holds(s.workers[t]) && s.workers[t].record == r)
    && d.starts == (match d.progress
                    case Queued => 0
                    case Held(t) => if s.workers[t].Popped? then 0 else 1
                    case Released => 1)
    && d.finals == (if d.isSource then 0 else match d.progress
                    case Queued => 0
                    case Held(t) => if s.workers[t].Finalised? then 1 else 0
                    case Released => 1)
    && (d.sync ==> d.frees == if d.caller.Returned? then 1 else 0)
    && (!d.sync ==> d.frees == (if d.progress.Released? then 1 else 0) && !d.caller.Blocked?)
    && (d.sync && d.caller.Returned? ==> d.progress.Released?)
  }

  predicate WorkerOK(s: State, t: nat)
    requires t < |s.workers|
  {
    var w := s.workers[t];
    Holds(w) ==> w.record < |s.dispatches| && s.dispatches[w.record].progress == Held(t)
  }

  /** The stack is the records not yet popped, oldest first; every other record is held once or done with. */
  ghost predicate Orderly(s: State) {
    && |s.stack| <= |s.dispatches|
    && (forall i :: 0 <= i < |s.stack| ==> s.stack[i] == PoppedCount(s) + i)
    && (forall r :: 0 <= r < |s.dispatches| ==> DispatchOK(s, r))
    && (forall t :: 0 <= t < |s.workers| ==> WorkerOK(s, t))
  }

  lemma CallerStepKeepsOrder(s: State, a: Step)
    requires Orderly(s) && Enabled(s, a) && (a.Enqueue? || a.Signal? || a.Return?)
    ensures Orderly(Act(s, a))
  {
    var s' := Act(s, a);
    assert PoppedCount(s') == PoppedCount(s);
    forall r | 0 <= r < |s'.dispatches| ensures DispatchOK(s', r) {
      if r < |s.dispatches| {
        assert DispatchOK(s, r);
      }
    }
    forall t | 0 <= t < |s'.workers| ensures WorkerOK(s', t) {
      assert WorkerOK(s, t);
    }
  }

  /** Steps of a worker that holds nothing, and of whoever is shutting the queue down. */
  lemma FreeStepKeepsOrder(s: State, a: Step)
    requires Orderly(s) && Enabled(s, a)
    requires a.AddWorker? || a.Wake? || a.Check? || a.Leave? || a.ExitBegin? || a.ExitSignal? || a.ExitReap? || a.ExitEnd?
    ensures Orderly(Act(s, a))
  {
    var s' := Act(s, a);
    assert s'.dispatches == s.dispatches && s'.stack == s.stack;
    forall r | 0 <= r < |s'.dispatches| ensures DispatchOK(s', r) {
      assert DispatchOK(s, r);
    }
    forall t | 0 <= t < |s'.workers| ensures WorkerOK(s', t) {
      if t < |s.workers| {
        assert WorkerOK(s, t);
      }
    }
  }

  lemma PopKeepsOrder(s: State, t: nat)
    requires Orderly(s) && Enabled(s, Pop(t))
    ensures Orderly(PopFor(s, t))
  {
    var s' := PopFor(s, t);
    if s.stack != [] {
      var r := s.stack[0];
      assert r == PoppedCount(s) && PoppedCount(s') == r + 1;
      assert DispatchOK(s, r);
      forall q | 0 <= q < |s'.dispatches| ensures DispatchOK(s', q) {
        assert DispatchOK(s, q);
      }
      forall u | 0 <= u < |s'.workers| ensures WorkerOK(s', u) {
        assert WorkerOK(s, u);
      }
    } else {
      forall q | 0 <= q < |s'.dispatches| ensures DispatchOK(s', q) {
        assert DispatchOK(s, q);
      }
      forall u | 0 <= u < |s'.workers| ensures WorkerOK(s', u) {
        assert WorkerOK(s, u);
      }
    }
  }

  lemma HolderStepKeepsOrder(s: State, a: Step)
    requires Orderly(s) && Enabled(s, a) && (a.Begin? || a.End? || a.Finalise? || a.Release?)
    ensures Orderly(Act(s, a))
  {
    var s' := Act(s, a);
    var r := s.workers[a.thread].record;
    assert WorkerOK(s, a.thread) && DispatchOK(s, r);
    assert s'.stack == s.stack && |s'.dispatches| == |s.dispatches|;
    hide NotCalling;
    forall q | 0 <= q < |s'.dispatches| ensures DispatchOK(s', q) {
      assert DispatchOK(s, q);
    }
    forall u | 0 <= u < |s'.workers| ensures WorkerOK(s', u) {
      assert WorkerOK(s, u);
    }
  }

  lemma StepKeepsOrder(s: State, a: Step)
    requires Orderly(s) && Enabled(s, a)
    ensures Orderly(Act(s, a))
  {
    hide Orderly, PopFor;
    match a
    case Enqueue(_, _, _) => CallerStepKeepsOrder(s, a);
    case Signal(_) => CallerStepKeepsOrder(s, a);
    case Return(_) => CallerStepKeepsOrder(s, a);
    case Pop(t) => PopKeepsOrder(s, t);
    case Begin(_) => HolderStepKeepsOrder(s, a);
    case End(_) => HolderStepKeepsOrder(s, a);
    case Finalise(_) => HolderStepKeepsOrder(s, a);
    case Release(_) => HolderStepKeepsOrder(s, a);
    case _ => FreeStepKeepsOrder(s, a);
  }

  lemma {:induction false} RunKeepsOrder(n: nat, steps: seq<Step>)
    ensures Orderly(Run(Created(n), steps))
    decreases |steps|
  {
    if steps != [] {
      RunKeepsOrder(n, steps[..|steps| - 1]);
      var s, a := Run(Created(n), steps[..|steps| - 1]), steps[|steps| - 1];
      if Enabled(s, a) {
        hide Orderly, Act;
        StepKeepsOrder(s, a);
      }
    }
  }

  /**
   On any queue, with any number of workers: a record is run at most once and finalised at most once, and it is
   freed at most once: an asynchronous one by the worker as it lets go, a synchronous one by its caller, who
   gets past its wait only after the record has run and been finalised and no worker refers to it any more.
   */
  lemma ExactlyOnce(n: nat, steps: seq<Step>, r: nat)
    requires r < |Run(Created(n), steps).dispatches|
    ensures var s := Run(Created(n), steps);
            var d := s.dispatches[r];
            && d.starts <= 1 && d.finals <= 1 && d.frees <= 1
            && (d.frees == 1 <==> if d.sync then d.caller.Returned? else d.progress.Released?)
            && (d.frees == 1 ==>
                && d.starts == 1 && d.finals == (if d.isSource then 0 else 1)
                && forall w <- s.workers :: Holds(w) ==> w.record != r)
  {
    RunKeepsOrder(n, steps);
    var s := Run(Created(n), steps);
    assert DispatchOK(s, r);
    forall w <- s.workers | Holds(w) && s.dispatches[r].progress.Released? ensures w.record != r {
      var t :| 0 <= t < |s.workers| && s.workers[t] == w;
      assert WorkerOK(s, t);
    }
  }

  // ---- A user queue has one worker ----

  predicate UserQueueStep(a: Step) { !a.AddWorker? }

  function UpTo(k: nat): (r: seq<nat>)
    ensures |r| == k && forall i :: 0 <= i < k ==> r[i] == i
  {
    if k == 0 then [] else UpTo(k - 1) + [k - 1]
  }

  ghost predicate Serial(s: State) {
    && |s.workers| == 1
    && (Holds(s.workers[0]) ==> s.workers[0].record == PoppedCount(s) - 1)
    && (s.workers[0].Popped? ==> PoppedCount(s) > 0)
    && PoppedCount(s) >= 0
    && s.started == UpTo(if s.workers[0].Popped? then PoppedCount(s) - 1 else PoppedCount(s))
  }

  lemma StepKeepsSerial(s: State, a: Step)
    requires Orderly(s) && Serial(s) && Enabled(s, a) && UserQueueStep(a)
    ensures Serial(Act(s, a))
  {
    hide DispatchOK;
    if a.Begin? {
      assert s.started + [s.workers[0].record] == UpTo(PoppedCount(s));
    }
  }

  lemma {:induction false} RunKeepsSerial(steps: seq<Step>)
    requires forall a <- steps :: UserQueueStep(a)
    ensures Serial(Run(Created(1), steps))
    decreases |steps|
  {
    if steps != [] {
      var before, a := steps[..|steps| - 1], steps[|steps| - 1];
      assert a in steps;
      RunKeepsSerial(before);
      RunKeepsOrder(1, before);
      var s := Run(Created(1), before);
      if Enabled(s, a) {
        hide Orderly, Serial, Act;
        StepKeepsSerial(s, a);
      }
    }
  }

  /** On a user queue the procs that have begun are the first ones enqueued, in the order they were enqueued. */
  lemma ExecutedIsPrefixOfEnqueued(steps: seq<Step>)
    requires forall a <- steps :: UserQueueStep(a)
    ensures var s := Run(Created(1), steps);
            |s.started| <= |s.dispatches| && forall i :: 0 <= i < |s.started| ==> s.started[i] == i
  {
    RunKeepsSerial(steps);
  }

  lemma HeldIsLatest(s: State, r: nat)
    requires Orderly(s) && Serial(s) && r < |s.dispatches| && !s.dispatches[r].progress.Queued?
    ensures r < PoppedCount(s) && (s.dispatches[r].progress.Held? ==> r == PoppedCount(s) - 1)
  {
    assert DispatchOK(s, r);
  }

  lemma ReleasedMeansDone(s: State, r: nat)
    requires Orderly(s) && r < |s.dispatches|
    ensures var d := s.dispatches[r];
            && (d.progress.Released? ==> d.starts == 1 && d.finals == if d.isSource then 0 else 1)
            && (d.sync && d.caller.Returned? ==> d.progress.Released?)
            && (r < PoppedCount(s) ==> !d.progress.Queued?)
  {
    assert DispatchOK(s, r);
  }

  /**
   The barrier. When a synchronous dispatch on a user queue (a join is one with an empty proc) has returned,
   it and everything enqueued before it has run exactly once, been finalised, and left the worker.
   */
  lemma SyncIsABarrier(steps: seq<Step>, r: nat, q: nat)
    requires forall a <- steps :: UserQueueStep(a)
    requires var s := Run(Created(1), steps);
             q <= r < |s.dispatches| && s.dispatches[r].sync && s.dispatches[r].caller.Returned?
    ensures var d := Run(Created(1), steps).dispatches[q];
            d.progress.Released? && d.starts == 1 && d.finals == if d.isSource then 0 else 1
  {
    hide Run, Orderly, Serial;
    RunKeepsSerial(steps);
    RunKeepsOrder(1, steps);
    var s := Run(Created(1), steps);
    ReleasedMeansDone(s, r);
    HeldIsLatest(s, r);
    ReleasedMeansDone(s, q);
    HeldIsLatest(s, q);
  }

  /** At most one record of a user queue is in a worker's hands. */
  lemma OneAtATime(steps: seq<Step>, r: nat, q: nat)
    requires forall a <- steps :: UserQueueStep(a)
    requires var s := Run(Created(1), steps);
             r < |s.dispatches| && q < |s.dispatches| && s.dispatches[r].progress.Held? && s.dispatches[q].progress.Held?
    ensures r == q
  {
    hide Run, Orderly, Serial;
    RunKeepsSerial(steps);
    RunKeepsOrder(1, steps);
    HeldIsLatest(Run(Created(1), steps), r);
    HeldIsLatest(Run(Created(1), steps), q);
  }

  // ---- The end of a queue ----

  /** How many threads a queue had when its exit began. */
  function ThreadsAtExit(n: nat, steps: seq<Step>): nat
    decreases |steps|
  {
    if steps == [] then 0
    else
      var last := |steps| - 1;
      var s := Run(Created(n), steps[..last]);
      if steps[last].ExitBegin? && Enabled(s, ExitBegin) then |s.workers| else ThreadsAtExit(n, steps[..last])
  }

  /** The threads that have gone are those already waited for and those that have said so. */
  ghost predicate Reaped(s: State, threads: nat) {
    match s.exiter
    case NotExiting => !s.exit && s.exitSem == 0 && forall w <- s.workers :: !w.Leaving? && !w.Gone?
    case Signalling(left) =>
      s.exit && |s.workers| == threads >= left && CountWorkers(s.workers, Gone) == threads - left + s.exitSem
    case Reaping(left) =>
      s.exit && |s.workers| == threads >= left && CountWorkers(s.workers, Gone) == threads - left + s.exitSem
    case Exited => s.exit && threads <= |s.workers| && forall t | 0 <= t < threads :: s.workers[t].Gone?
  }

  lemma {:induction false} CountAll(ws: seq<Worker>, w: Worker)
    ensures CountWorkers(ws, w) <= |ws|
    ensures CountWorkers(ws, w) == |ws| ==> forall x <- ws :: x == w
  {
    if ws != [] {
      CountAll(ws[1..], w);
      assert forall x <- ws :: x == ws[0] || x in ws[1..];
    }
  }

  /** A step of a worker moves that worker only. */
  lemma WorkerStepMoves(s: State, a: Step)
    requires Enabled(s, a)
    requires a.Wake? || a.Check? || a.Pop? || a.Begin? || a.End? || a.Finalise? || a.Release? || a.Leave?
    ensures var t, s' := a.thread, Act(s, a);
            && t < |s.workers| == |s'.workers| && s'.workers == s.workers[t := s'.workers[t]] && !s.workers[t].Gone?
            && (s'.workers[t].Gone? <==> a.Leave?) && (s'.workers[t].Leaving? ==> s.exit || s.workers[t].Leaving?)
            && s'.exit == s.exit && s'.exiter == s.exiter && s'.exitSem == s.exitSem + (if a.Leave? then 1 else 0)
            && (a.Leave? ==> s.workers[t].Leaving?)
  {
    hide NotCalling;
  }

  lemma WorkerStepReaps(s: State, a: Step, threads: nat)
    requires Enabled(s, a) && Reaped(s, threads)
    requires a.Wake? || a.Check? || a.Pop? || a.Begin? || a.End? || a.Finalise? || a.Release? || a.Leave?
    ensures Reaped(Act(s, a), threads)
  {
    WorkerStepMoves(s, a);
    CountUpdate(s.workers, a.thread, Act(s, a).workers[a.thread], Gone);
    hide Act, Enabled, CountWorkers;
    if s.exiter.NotExiting? {
      assert s.workers[a.thread] in s.workers;
    }
  }

  lemma StepReaps(s: State, a: Step, threads: nat)
    requires Enabled(s, a) && Reaped(s, threads) && (a.AddWorker? && s.exiter.Exited? ==> threads <= |s.workers|)
    ensures Reaped(Act(s, a), if a.ExitBegin? then |s.workers| else threads)
  {
    match a
    case Enqueue(_, _, _) =>
    case Signal(_) =>
    case Return(_) =>
    case AddWorker =>
    case ExitBegin => CountNone(s.workers, Gone);
    case ExitSignal =>
    case ExitReap =>
    case ExitEnd =>
      CountAll(s.workers, Gone);
      assert forall t | 0 <= t < |s.workers| :: s.workers[t] in s.workers;
    case _ => WorkerStepReaps(s, a, threads);
    hide CountWorkers, NotCalling;
  }

  lemma {:induction false} RunReaps(n: nat, steps: seq<Step>)
    ensures Reaped(Run(Created(n), steps), ThreadsAtExit(n, steps))
    decreases |steps|
  {
    hide Act, Enabled, Reaped;
    if steps == [] {
      CreatedReaped(n);
    } else {
      var last := |steps| - 1;
      RunReaps(n, steps[..last]);
      var s := Run(Created(n), steps[..last]);
      if Enabled(s, steps[last]) {
        RoomToAdd(s, ThreadsAtExit(n, steps[..last]));
        StepReaps(s, steps[last], ThreadsAtExit(n, steps[..last]));
      }
    }
  }

  lemma RoomToAdd(s: State, threads: nat)
    requires Reaped(s, threads)
    ensures s.exiter.Exited? ==> threads <= |s.workers|
  {
  }

  lemma CreatedReaped(n: nat)
    ensures Reaped(Created(n), 0)
  {
  }

  /**
   A queue's exit ends only once every thread it had has left its loop; until then as many are left to wait for as
   have not been waited for.
   */
  lemma ExitWaitsForThreads(n: nat, steps: seq<Step>, t: nat)
    requires Run(Created(n), steps).exiter.Exited? && t < ThreadsAtExit(n, steps)
    ensures t < |Run(Created(n), steps).workers| && Run(Created(n), steps).workers[t].Gone?
  {
    RunReaps(n, steps);
  }

  /** While an exit waits for a thread, its signal is there to be taken, or a thread that took one is on its way out. */
  ghost predicate ExitIsHeard(s: State) {
    && (s.exiter.Reaping? ==>
          s.exit && (s.exitSem > 0 || s.sem > 0 || Woken in s.workers || Leaving in s.workers))
  }

  lemma UpdatedHas(ws: seq<Worker>, t: nat, next: Worker, w: Worker)
    requires t < |ws| && w in ws && ws[t] != w
    ensures w in ws[t := next]
  {
    var u :| 0 <= u < |ws| && ws[u] == w;
    assert ws[t := next][u] == w;
  }

  lemma StepIsHeard(s: State, a: Step)
    requires Enabled(s, a) && ExitIsHeard(s) && (s.exiter.Signalling? ==> s.exit)
    ensures ExitIsHeard(Act(s, a))
  {
    hide NotCalling;
    var s' := Act(s, a);
    if s.exiter.Reaping? && s'.exiter.Reaping? && s'.workers != s.workers && |s'.workers| == |s.workers| {
      WorkerStepMoves(s, a);
      var t := a.thread;
      assert s'.workers[t] in s'.workers;
      if Woken in s.workers && s.workers[t] != Woken {
        UpdatedHas(s.workers, t, s'.workers[t], Woken);
      }
      if Leaving in s.workers && s.workers[t] != Leaving {
        UpdatedHas(s.workers, t, s'.workers[t], Leaving);
      }
    }
  }

  /** In no run does an exit wait for a thread that nothing will wake. */
  lemma {:induction false} ExitSignalIsNotLost(n: nat, steps: seq<Step>)
    ensures ExitIsHeard(Run(Created(n), steps))
    decreases |steps|
  {
    hide Act, Enabled;
    if steps != [] {
      var last := |steps| - 1;
      ExitSignalIsNotLost(n, steps[..last]);
      RunReaps(n, steps[..last]);
      var s := Run(Created(n), steps[..last]);
      if Enabled(s, steps[last]) {
        StepIsHeard(s, steps[last]);
      }
    }
  }
}
