/**
 Dispatch sources. The select loop, holding the sources lock, hands a ready source to its queue as a wrapper
 and takes the source's servicing semaphore for it; the wrapper gives the semaphore back when the handler is
 done. Destroying a source of a user queue waits for that semaphore.
 */
module DispatchSources {
  datatype Destruction = Alive | Removed | Waited | Freed

  /** sem is the servicing semaphore. A wrapper is queued, then runs the handler, then is about to signal. */
  datatype Source = Source(
    userQueue: bool, listed: bool, sem: nat, testing: bool,
    queued: nat, handling: nat, signalling: nat, destruction: Destruction)

  /** selecting: the select loop holds the lock. The queues behind the sources have any number of threads. */
  datatype State = State(selecting: bool, sources: seq<Source>)

  datatype Step =
    | Create(userQueue: bool)
    | SelectLock
    | TestTake(i: nat)     // the loop peeks at the semaphore: takes it ...
    | TestPost(i: nat)     // ... and puts it back
    | Hand(i: nat)         // takes it for good and enqueues a wrapper
    | SelectUnlock
    | Reset                // select keeps failing: the loop forgets every source
    | Start(i: nat)        // some worker pops the wrapper and calls the handler
    | Return(i: nat)       // the handler returns
    | Signal(i: nat)       // the wrapper's last touch of the source
    | Remove(i: nat)       // destroy: off the list
    | AwaitServicing(i: nat)
    | Free(i: nat)

  predicate OnOneSource(a: Step) { !a.Create? && !a.SelectLock? && !a.SelectUnlock? && !a.Reset? }

  predicate CanActOn(x: Source, a: Step, selecting: bool)
    requires OnOneSource(a)
  {
    match a
    case TestTake(_) => selecting && x.listed && x.sem > 0 && !x.testing
    case TestPost(_) => x.testing
    case Hand(_) => selecting && x.listed && x.sem > 0
    case Start(_) => x.queued > 0
    case Return(_) => x.handling > 0
    case Signal(_) => x.signalling > 0
    case Remove(_) => !selecting && x.destruction.Alive?
    case AwaitServicing(_) => x.destruction.Removed? && (x.userQueue ==> x.sem > 0)
    case Free(_) => x.destruction.Waited?
  }

  predicate Enabled(s: State, a: Step) {
    match a
    case Create(_) => !s.selecting
    case SelectLock => !s.selecting
    case Reset => !s.selecting
    case SelectUnlock => s.selecting && forall x <- s.sources :: !x.testing
    case _ => a.i < |s.sources| && CanActOn(s.sources[a.i], a, s.selecting)
  }

  /** A source begins on the list with its semaphore free. */
  function NewSource(userQueue: bool): (x: Source)
    ensures forall selecting :: SourceOK(x, selecting)
  {
    Source(userQueue, true, 1, false, 0, 0, 0, Alive)
  }

  function Handed(x: Source): Source
    requires x.sem > 0
  {
    x.(sem := x.sem - 1, queued := x.queued + 1)
  }

  function ActOn(x: Source, a: Step, selecting: bool): Source
    requires OnOneSource(a) && CanActOn(x, a, selecting)
  {
    match a
    case TestTake(_) => x.(sem := x.sem - 1, testing := true)
    case TestPost(_) => x.(sem := x.sem + 1, testing := false)
    case Hand(_) => Handed(x)
    case Start(_) => x.(queued := x.queued - 1, handling := x.handling + 1)
    case Return(_) => x.(handling := x.handling - 1, signalling := x.signalling + 1)
    case Signal(_) => x.(signalling := x.signalling - 1, sem := x.sem + 1)
    case Remove(_) => x.(listed := false, destruction := Removed)
    case AwaitServicing(_) => x.(sem := if x.userQueue then x.sem - 1 else x.sem, destruction := Waited)
    case Free(_) => x.(destruction := Freed)
  }

  function Forgotten(xs: seq<Source>): (ys: seq<Source>)
    ensures |ys| == |xs| && forall i :: 0 <= i < |xs| ==> ys[i] == xs[i].(listed := false)
  {
    if xs == [] then [] else [xs[0].(listed := false)] + Forgotten(xs[1..])
  }

  function Act(s: State, a: Step): State
    requires Enabled(s, a)
  {
    match a
    case Create(userQueue) => s.(sources := s.sources + [NewSource(userQueue)])
    case SelectLock => s.(selecting := true)
    case SelectUnlock => s.(selecting := false)
    case Reset => s.(sources := Forgotten(s.sources))
    case _ => s.(sources := s.sources[a.i := ActOn(s.sources[a.i], a, s.selecting)])
  }

  function Next(s: State, a: Step): State {
    if Enabled(s, a) then Act(s, a) else s
  }

  function Run(s: State, steps: seq<Step>): State
    decreases |steps|
  {
    if steps == [] then s else Next(Run(s, steps[..|steps| - 1]), steps[|steps| - 1])
  }

  const NONE := State(false, [])

  // ---- The token ----

  function Wrappers(x: Source): nat { x.queued + x.handling + x.signalling }

  function HeldByDestroyer(x: Source): nat {
    if x.userQueue && (x.destruction.Waited? || x.destruction.Freed?) then 1 else 0
  }

  /** One token per source: in the semaphore, in the loop's hand, with a wrapper, or kept by its destroyer. */
  predicate SourceOK(x: Source, selecting: bool) {
    && x.sem + (if x.testing then 1 else 0) + Wrappers(x) + HeldByDestroyer(x) == 1
    && (x.listed ==> x.destruction.Alive?)
    && (x.testing ==> selecting && x.listed)
  }

  ghost predicate Inv(s: State) {
    forall i :: 0 <= i < |s.sources| ==> SourceOK(s.sources[i], s.selecting)
  }

  lemma ActKeepsToken(x: Source, a: Step, selecting: bool)
    requires SourceOK(x, selecting) && OnOneSource(a) && CanActOn(x, a, selecting)
    ensures SourceOK(ActOn(x, a, selecting), selecting)
  {
  }

  lemma OneSourceStepKeepsToken(s: State, i: nat, x': Source)
    requires Inv(s) && i < |s.sources| && SourceOK(x', s.selecting)
    ensures Inv(s.(sources := s.sources[i := x']))
  {
    hide SourceOK;
  }

  lemma CreateKeepsToken(s: State, userQueue: bool)
    requires Inv(s)
    ensures Inv(s.(sources := s.sources + [NewSource(userQueue)]))
  {
    hide SourceOK, NewSource;
    var sources := s.sources + [NewSource(userQueue)];
    forall i | 0 <= i < |sources| ensures SourceOK(sources[i], s.selecting) {
      if i < |s.sources| {
        assert SourceOK(s.sources[i], s.selecting);
      }
    }
  }

  /** The loop lets go of its lock only with no test under way, and takes it without touching a source. */
  lemma LockKeepsToken(s: State, selecting: bool)
    requires Inv(s) && (!selecting ==> forall i :: 0 <= i < |s.sources| ==> !s.sources[i].testing)
    ensures Inv(s.(selecting := selecting))
  {
    forall i | 0 <= i < |s.sources| ensures SourceOK(s.sources[i], selecting) {
      assert SourceOK(s.sources[i], s.selecting);
    }
  }

  lemma ResetKeepsToken(s: State)
    requires Inv(s) && !s.selecting
    ensures Inv(s.(sources := Forgotten(s.sources)))
  {
    hide Forgotten;
    forall i | 0 <= i < |s.sources| ensures SourceOK(Forgotten(s.sources)[i], s.selecting) {
      assert SourceOK(s.sources[i], s.selecting);
    }
  }

  lemma StepKeepsToken(s: State, a: Step)
    requires Inv(s)
    ensures Inv(Next(s, a))
  {
    hide ActOn, CanActOn, Inv, SourceOK, Forgotten;
    if !Enabled(s, a) {
    } else if OnOneSource(a) {
      TokenOf(s, a.i);
      ActKeepsToken(s.sources[a.i], a, s.selecting);
      OneSourceStepKeepsToken(s, a.i, ActOn(s.sources[a.i], a, s.selecting));
    } else {
      match a
      case Create(userQueue) => CreateKeepsToken(s, userQueue);
      case SelectLock => LockKeepsToken(s, true);
      case SelectUnlock =>
        assert forall i :: 0 <= i < |s.sources| ==> s.sources[i] in s.sources;
        LockKeepsToken(s, false);
      case Reset => ResetKeepsToken(s);
    }
  }

  lemma TokenOf(s: State, i: nat)
    requires Inv(s) && i < |s.sources|
    ensures SourceOK(s.sources[i], s.selecting)
  {
  }

  lemma {:induction false} RunKeepsToken(s: State, steps: seq<Step>)
    requires Inv(s)
    ensures Inv(Run(s, steps))
    decreases |steps|
  {
    if steps != [] {
      RunKeepsToken(s, steps[..|steps| - 1]);
      StepKeepsToken(Run(s, steps[..|steps| - 1]), steps[|steps| - 1]);
    }
  }

  /** A handler never overlaps itself, on a queue of any number of threads. */
  lemma HandlerIsExclusive(steps: seq<Step>, i: nat)
    requires i < |Run(NONE, steps).sources|
    ensures var x := Run(NONE, steps).sources[i];
            && Wrappers(x) <= 1
            && x.sem + (if x.testing then 1 else 0) + Wrappers(x) + HeldByDestroyer(x) == 1
  {
    RunKeepsToken(NONE, steps);
    assert SourceOK(Run(NONE, steps).sources[i], Run(NONE, steps).selecting);
  }

  /** Destroy has passed its wait. */
  predicate PastWait(x: Source) { x.destruction.Waited? || x.destruction.Freed? }

  /** Nothing that is going on refers to the source. */
  predicate Untouched(x: Source) { Wrappers(x) == 0 && !x.testing && !x.listed }

  ghost predicate Quiet(s: State, i: nat) {
    i < |s.sources| && s.sources[i].userQueue && PastWait(s.sources[i]) && Untouched(s.sources[i])
  }

  lemma StepKeepsQuiet(s: State, i: nat, a: Step)
    requires Quiet(s, i)
    ensures Quiet(Next(s, a), i)
  {
  }

  lemma {:induction false} PastWaitIsStable(s: State, steps: seq<Step>, i: nat)
    requires Inv(s) && i < |s.sources| && s.sources[i].userQueue && PastWait(s.sources[i])
    ensures Quiet(Run(s, steps), i)
    decreases |steps|
  {
    if steps == [] {
      assert SourceOK(s.sources[i], s.selecting);
    } else {
      hide Quiet, Next;
      PastWaitIsStable(s, steps[..|steps| - 1], i);
      StepKeepsQuiet(Run(s, steps[..|steps| - 1]), i, steps[|steps| - 1]);
    }
  }

  /** The steps that read or write a source's fields, apart from its destroyer's own. */
  predicate Touches(a: Step, i: nat) {
    match a
    case TestTake(j) => j == i
    case TestPost(j) => j == i
    case Hand(j) => j == i
    case Start(j) => j == i
    case Return(j) => j == i
    case Signal(j) => j == i
    case _ => false
  }

  /**
   Once the destroyer of a user-queue source is past its wait, no handler of it is queued or running, none
   ever will be, and no step of anyone else can reach the source, so freeing it is safe.
   */
  lemma DestroyedSourceStaysQuiet(steps: seq<Step>, later: seq<Step>, i: nat, a: Step)
    requires i < |Run(NONE, steps).sources|
    requires var x := Run(NONE, steps).sources[i]; x.userQueue && PastWait(x)
    requires Touches(a, i)
    ensures var s := Run(Run(NONE, steps), later);
            i < |s.sources| && Untouched(s.sources[i]) && !Enabled(s, a)
  {
    RunKeepsToken(NONE, steps);
    PastWaitIsStable(Run(NONE, steps), later, i);
  }

  /**
   In any run, a source past its destroyer's wait is free of everyone exactly when its queue is a user queue, which
   is what the wait is for, or no wrapper of it happens to be queued or running.
   */
  lemma FreedSourceIsUntouchedIff(steps: seq<Step>, i: nat)
    requires i < |Run(NONE, steps).sources| && PastWait(Run(NONE, steps).sources[i])
    ensures var x := Run(NONE, steps).sources[i]; Untouched(x) <==> x.userQueue || Wrappers(x) == 0
  {
    RunKeepsToken(NONE, steps);
    assert SourceOK(Run(NONE, steps).sources[i], Run(NONE, steps).selecting);
  }

  /** A run grows by one step. */
  lemma Extend(steps: seq<Step>, s: State, a: Step, s': State) returns (longer: seq<Step>)
    requires Run(NONE, steps) == s && Next(s, a) == s'
    ensures longer == steps + [a] && Run(NONE, longer) == s'
  {
    longer := steps + [a];
    assert longer[..|steps|] == steps;
  }

  /** The same, for a step on the only source there is. */
  lemma ExtendOnOnly(steps: seq<Step>, x: Source, selecting: bool, a: Step) returns (longer: seq<Step>, x': Source)
    requires Run(NONE, steps) == State(selecting, [x])
    requires OnOneSource(a) && a.i == 0 && CanActOn(x, a, selecting)
    ensures x' == ActOn(x, a, selecting) && Run(NONE, longer) == State(selecting, [x'])
  {
    x' := ActOn(x, a, selecting);
    longer := Extend(steps, State(selecting, [x]), a, State(selecting, [x']));
  }

  lemma HandOnly(steps: seq<Step>, x: Source) returns (longer: seq<Step>, x': Source)
    requires Run(NONE, steps) == State(true, [x]) && x.listed && x.sem > 0 && !x.testing
    ensures x' == Handed(x) && Run(NONE, longer) == State(false, [x'])
  {
    longer, x' := ExtendOnOnly(steps, x, true, Hand(0));
    longer := Extend(longer, State(true, [x']), SelectUnlock, State(false, [x']));
  }

  /** Off a user queue there is no wait, and a source can be freed under a running handler. */
  lemma SharedQueueSourceCanBeFreedUnderItsHandler() returns (steps: seq<Step>)
    ensures var s := Run(NONE, steps);
            s.sources == [Source(false, false, 0, false, 0, 1, 0, Freed)]
  {
    var x := Source(false, true, 1, false, 0, 0, 0, Alive);
    steps := [];
    assert Run(NONE, steps) == NONE;
    hide Run, ActOn, Forgotten;
    steps := Extend(steps, NONE, Create(false), State(false, [x]));
    steps := Extend(steps, State(false, [x]), SelectLock, State(true, [x]));
    steps, x := HandOnly(steps, x);
    hide Next;
    steps, x := ExtendOnOnly(steps, x, false, Start(0));
    steps, x := ExtendOnOnly(steps, x, false, Remove(0));
    steps, x := ExtendOnOnly(steps, x, false, AwaitServicing(0));
    steps, x := ExtendOnOnly(steps, x, false, Free(0));
  }

  // ---- The loop ----

  class SourceTable {
    var sources: seq<Source>

    /** The select loop's pass after select returned: every listed ready source that is not busy is handed over. */
    method ServiceReady(ready: set<nat>)
      modifies this
      ensures |sources| == |old(sources)|
      ensures forall i :: 0 <= i < |sources| ==>
        var x := old(sources)[i];
        sources[i] == if x.listed && i in ready && x.sem > 0 then Handed(x) else x
    {
      var i := 0;
      while i < |sources|
        invariant 0 <= i <= |sources| == |old(sources)|
        invariant forall j :: i <= j < |sources| ==> sources[j] == old(sources)[j]
        invariant forall j :: 0 <= j < i ==>
          var x := old(sources)[j];
          sources[j] == if x.listed && j in ready && x.sem > 0 then Handed(x) else x
      {
        if sources[i].listed && i in ready {
          var serviceable := sources[i].sem > 0;
          if serviceable {
            sources := sources[i := Handed(sources[i])];
          }
        }
        i := i + 1;
      }
    }
  }
}
