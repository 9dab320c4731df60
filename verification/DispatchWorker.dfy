/** The queue object, a caller's entry point and the worker's service loop, over the steps of DispatchQueue. */
module DispatchWorker {
  import opened Bytes
  import opened DispatchQueue

  /** What the service loop does for one record. */
  function ServiceSteps(t: nat): seq<Step> {
    [Wake(t), Check(t), Pop(t), Begin(t), End(t), Finalise(t), Release(t)]
  }

  lemma RunSnoc(s: State, steps: seq<Step>, a: Step)
    ensures Run(s, steps + [a]) == Next(Run(s, steps), a)
  {
    assert (steps + [a])[..|steps|] == steps;
  }

  lemma {:induction false} RunAppend(s: State, first: seq<Step>, more: seq<Step>)
    ensures Run(s, first + more) == Run(Run(s, first), more)
    decreases |more|
  {
    hide Next;
    if more == [] {
      assert first + more == first;
    } else {
      var last := |more| - 1;
      RunAppend(s, first, more[..last]);
      assert first + more == (first + more[..last]) + [more[last]];
      RunSnoc(s, first + more[..last], more[last]);
    }
  }

  /** Seven steps of one worker in a row. */
  function Serviced(s: State, t: nat): State {
    Next(Next(Next(Next(Next(Next(Next(s, Wake(t)), Check(t)), Pop(t)), Begin(t)), End(t)), Finalise(t)), Release(t))
  }

  lemma ServicedIsRun(s: State, t: nat)
    ensures Run(s, ServiceSteps(t)) == Serviced(s, t)
  {
    hide Next;
    var all := ServiceSteps(t);
    assert all[..6] + [Release(t)] == all;
    RunSnoc(s, all[..6], Release(t));
    assert all[..5] + [Finalise(t)] == all[..6];
    RunSnoc(s, all[..5], Finalise(t));
    assert all[..4] + [End(t)] == all[..5];
    RunSnoc(s, all[..4], End(t));
    assert all[..3] + [Begin(t)] == all[..4];
    RunSnoc(s, all[..3], Begin(t));
    assert all[..2] + [Pop(t)] == all[..3];
    RunSnoc(s, all[..2], Pop(t));
    assert all[..1] + [Check(t)] == all[..2];
    RunSnoc(s, all[..1], Check(t));
    assert [] + [Wake(t)] == all[..1];
    RunSnoc(s, [], Wake(t));
  }

  predicate CanServe(s: State, t: nat) {
    && t < |s.workers| && s.workers[t].Waiting? && s.sem > 0 && !s.exit && !Locked(s)
    && s.stack != [] && s.stack[0] < |s.dispatches| && NotCalling(s.dispatches, t)
  }

  function Served(d: Dispatch): Dispatch {
    d.(progress := DispatchQueue.Released, starts := d.starts + 1,
       finals := if d.isSource then d.finals else d.finals + 1,
       frees := if d.sync then d.frees else d.frees + 1)
  }

  lemma ServedFields(d: Dispatch, starts: nat, finals: nat, frees: nat)
    requires starts == d.starts + 1
    requires finals == (if d.isSource then d.finals else d.finals + 1)
    requires frees == (if d.sync then d.frees else d.frees + 1)
    ensures d.(progress := DispatchQueue.Released, starts := starts, finals := finals, frees := frees) == Served(d)
  {
  }

  lemma RunNothing(s: State)
    ensures Run(s, []) == s
  {
  }

  lemma TakenState(s: State, t: nat)
    requires CanServe(s, t)
    ensures Next(Next(Next(s, Wake(t)), Check(t)), Pop(t)) ==
            var r := s.stack[0];
            s.(sem := s.sem - 1, stack := s.stack[1..], workers := s.workers[t := Popped(r)],
               dispatches := s.dispatches[r := s.dispatches[r].(progress := Held(t))])
  {
    var s2 := s.(sem := s.sem - 1, workers := s.workers[t := Passed]);
    assert Next(Next(s, Wake(t)), Check(t)) == s2;
  }

  lemma RanState(s: State, t: nat)
    requires t < |s.workers| && s.workers[t].Popped? && s.workers[t].record < |s.dispatches|
    requires NotCalling(s.dispatches, t)
    ensures Next(Next(s, Begin(t)), End(t)) ==
            var r := s.workers[t].record;
            var d := s.dispatches[r];
            s.(started := s.started + [r], workers := s.workers[t := Ran(r)],
               dispatches := s.dispatches[r := d.(starts := d.starts + 1)])
  {
    var r := s.workers[t].record;
    StillNotCalling(s.dispatches, t, r, s.dispatches[r].(starts := s.dispatches[r].starts + 1));
  }

  lemma StillNotCalling(ds: seq<Dispatch>, t: nat, r: nat, d: Dispatch)
    requires NotCalling(ds, t) && r < |ds| && d.from == ds[r].from && d.caller == ds[r].caller
    ensures NotCalling(ds[r := d], t)
  {
    forall e | e in ds[r := d] && e.from == Some(t) ensures e.caller.Returned? {
      var i :| 0 <= i < |ds| && ds[r := d][i] == e;
      assert ds[i] in ds && ds[r] in ds;
    }
  }

  lemma LetGoState(s: State, t: nat)
    requires t < |s.workers| && s.workers[t].Ran? && s.workers[t].record < |s.dispatches|
    ensures Next(Next(s, Finalise(t)), Release(t)) ==
            var r := s.workers[t].record;
            var d := s.dispatches[r];
            s.(workers := s.workers[t := Waiting],
               dispatches := s.dispatches[r := Served(d).(starts := d.starts)])
  {
  }

  /** What the seven steps leave behind when the thread has work and nobody is shutting down. */
  lemma ServicedState(s: State, t: nat)
    requires CanServe(s, t)
    ensures Serviced(s, t) == s.(
              sem := s.sem - 1, stack := s.stack[1..], started := s.started + [s.stack[0]],
              dispatches := s.dispatches[s.stack[0] := Served(s.dispatches[s.stack[0]])])
  {
    hide Next;
    var r := s.stack[0];
    TakenState(s, t);
    var taken := Next(Next(Next(s, Wake(t)), Check(t)), Pop(t));
    StillNotCalling(s.dispatches, t, r, s.dispatches[r].(progress := Held(t)));
    RanState(taken, t);
    var ran := Next(Next(taken, Begin(t)), End(t));
    LetGoState(ran, t);
    assert s.workers[t := Waiting] == s.workers;
    assert ran.dispatches[r] == s.dispatches[r].(progress := Held(t), starts := s.dispatches[r].starts + 1);
  }

  class Queue {
    var dispatches: seq<Dispatch>
    var queueStack: seq<nat>
    var queueSem: nat
    var queueExitSem: nat
    var exit: bool
    var exiter: Exiter
    var queueThreads: seq<Worker>
    var started: seq<nat>

    function Snapshot(): State
      reads this
    {
      State(dispatches, queueStack, queueSem, queueExitSem, exit, exiter, queueThreads, started, false)
    }

    constructor (nThreads: nat)
      ensures Snapshot() == Created(nThreads)
    {
      dispatches, queueStack, queueSem, queueExitSem := [], [], 0, 0;
      exit, exiter := false, NotExiting;
      queueThreads := seq(nThreads, i => Waiting);
      started := [];
    }

    /** Append under the lock, then signal. A synchronous caller goes on to wait for its record. */
    method Dispatch(sync: bool, isSource: bool, from: Option<nat>) returns (record: nat)
      requires Enabled(Snapshot(), Enqueue(sync, isSource, from))
      modifies this
      ensures record == |old(dispatches)|
      ensures Snapshot() == Run(old(Snapshot()), [Enqueue(sync, isSource, from), Signal(record)])
    {
      record := |dispatches|;
      dispatches := dispatches + [DispatchQueue.Dispatch(sync, isSource, from, Appended, Queued, 0, 0, 0)];
      queueStack := queueStack + [record];
      queueSem := queueSem + 1;
      dispatches := dispatches[record := dispatches[record].(caller := if sync then Blocked else Returned)];
      RunSnoc(old(Snapshot()), [], Enqueue(sync, isSource, from));
      RunSnoc(old(Snapshot()), [Enqueue(sync, isSource, from)], Signal(record));
      assert [] + [Enqueue(sync, isSource, from)] == [Enqueue(sync, isSource, from)];
      assert [Enqueue(sync, isSource, from)] + [Signal(record)] == [Enqueue(sync, isSource, from), Signal(record)];
    }
  
    /** The body of the service loop, for a thread whose wait will not block on a queue that is not exiting. */
    method ServiceOne(t: nat)
      requires CanServe(Snapshot(), t)
      modifies this
      ensures Snapshot() == Serviced(old(Snapshot()), t)
    {
      hide Serviced, Served;
      ServicedState(Snapshot(), t);
      queueSem := queueSem - 1;
      var r := queueStack[0];
      queueStack := queueStack[1..];
      var starts := dispatches[r].starts + 1;
      started := started + [r];
      var finals, frees := dispatches[r].finals, dispatches[r].frees;
      if !dispatches[r].isSource {
        finals := finals + 1;
      }
      if !dispatches[r].sync {
        frees := frees + 1;
      }
      ServedFields(dispatches[r], starts, finals, frees);
      dispatches := dispatches[r := dispatches[r].(
        progress := DispatchQueue.Released, starts := starts, finals := finals, frees := frees)];
    }

    /** The lone thread of a user queue works until its wait would block: all that was stacked runs, in order. */
    method ServiceLoop() returns (ghost steps: seq<Step>)
      requires |queueThreads| == 1 && queueThreads[0].Waiting? && !exit && exiter.NotExiting?
      requires queueSem == |queueStack| && forall r <- queueStack :: r < |dispatches|
      requires NotCalling(dispatches, 0)
      modifies this
      ensures Snapshot() == Run(old(Snapshot()), steps) && forall a <- steps :: UserQueueStep(a)
      ensures queueStack == [] && started == old(started) + old(queueStack)
    {
      hide Serviced, Run;
      steps := [];
      RunNothing(Snapshot());
      ghost var all := queueStack;
      while queueSem > 0
        invariant |queueThreads| == 1 && queueThreads[0].Waiting? && !exit && exiter.NotExiting?
        invariant queueSem == |queueStack| <= |all| && queueStack == all[|all| - |queueStack|..]
        invariant (forall r <- all :: r < |dispatches|) && NotCalling(dispatches, 0)
        invariant started == old(started) + all[..|all| - |queueStack|]
        invariant Snapshot() == Run(old(Snapshot()), steps) && forall a <- steps :: UserQueueStep(a)
        decreases queueSem
      {
        assert queueStack[0] in all;
        RunAppend(old(Snapshot()), steps, ServiceSteps(0));
        ServicedIsRun(Snapshot(), 0);
        ServicedState(Snapshot(), 0);
        StillNotCalling(dispatches, 0, queueStack[0], Served(dispatches[queueStack[0]]));
        ServiceOne(0);
        steps := steps + ServiceSteps(0);
        assert all[..|all| - |queueStack|] == all[..|all| - |queueStack| - 1] + [all[|all| - |queueStack| - 1]];
      }
    }
  }
}
