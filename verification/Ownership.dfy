/**
 Retain counts. An object is held by handles and by the slots of containers: the retained keys and values of a
 dictionary, and the dictionary an array keeps. Releasing the last hold frees the object, which releases what its
 slots hold, and so on down.
 */
module Ownership {
  datatype Status = Live | Freeing | Freed

  /** slots lists the objects that this one holds a retain on. An object is known by its place in allocation. */
  datatype Obj = Obj(status: Status, retainCount: int, slots: seq<nat>)

  // ---- Who holds what ----

  function Holds(x: Obj): multiset<nat> {
    if x.status.Live? then multiset(x.slots) else multiset{}
  }

  function Held(objs: seq<Obj>): multiset<nat> {
    if objs == [] then multiset{} else Held(objs[..|objs| - 1]) + Holds(objs[|objs| - 1])
  }

  predicate IsLive(objs: seq<Obj>, x: nat) { x < |objs| && objs[x].status.Live? }

  /**
   refs are the holds from outside the slots. Every live object is counted once for each of these and for each
   slot of a live object, it is held at least once, and nothing else is held at all.
   */
  ghost predicate Accounted(objs: seq<Obj>, refs: multiset<nat>) {
    forall x: nat :: Exact(objs, refs, Held(objs), x)
  }

  predicate Exact(objs: seq<Obj>, refs: multiset<nat>, held: multiset<nat>, x: nat) {
    && refs[x] + held[x] == (if IsLive(objs, x) then objs[x].retainCount else 0)
    && (IsLive(objs, x) ==> objs[x].retainCount >= 1)
  }

  lemma AddToBoth(a: multiset<nat>, b: multiset<nat>, c: multiset<nat>, d: multiset<nat>, more: multiset<nat>)
    requires a + b == c + d
    ensures (a + more) + b == (c + more) + d
  {
    assert (a + more) + b == (a + b) + more;
    assert (c + more) + d == (c + d) + more;
  }

  lemma {:induction false} HeldUpdate(objs: seq<Obj>, i: nat, x: Obj)
    requires i < |objs|
    ensures Held(objs[i := x]) + Holds(objs[i]) == Held(objs) + Holds(x)
    decreases |objs|
  {
    hide Holds;
    var last := |objs| - 1;
    var before, after := objs[..last], objs[i := x];
    if i == last {
      assert after[..last] == before;
      assert (Held(before) + Holds(x)) + Holds(objs[last]) == (Held(before) + Holds(objs[last])) + Holds(x);
    } else {
      HeldUpdate(before, i, x);
      assert after[..last] == before[i := x];
      AddToBoth(Held(after[..last]), Holds(objs[i]), Held(before), Holds(x), Holds(objs[last]));
    }
  }

  lemma {:induction false} HeldBySomeone(objs: seq<Obj>, x: nat)
    ensures x in Held(objs) <==> exists h: nat :: IsLive(objs, h) && x in objs[h].slots
  {
    if objs != [] {
      var last := |objs| - 1;
      HeldBySomeone(objs[..last], x);
      assert x in Holds(objs[last]) <==> IsLive(objs, last) && x in objs[last].slots;
      if h: nat :| IsLive(objs, h) && x in objs[h].slots && h != last {
        assert IsLive(objs[..last], h) && objs[..last][h] == objs[h];
      }
      if h: nat :| IsLive(objs[..last], h) && x in objs[..last][h].slots {
        assert IsLive(objs, h);
      }
    }
  }

  /** Only live objects turn into freed ones, and nothing else about any object but its count changes. */
  ghost predicate OnlyFrees(before: seq<Obj>, after: seq<Obj>) {
    && |after| == |before|
    && (forall x :: 0 <= x < |before| ==> after[x].slots == before[x].slots)
    && (forall x :: 0 <= x < |before| ==>
         after[x].status == before[x].status || (before[x].status.Live? && after[x].status.Freed?))
  }

  /** The log of frees has every freed object once, and no other. */
  ghost predicate LogOK(objs: seq<Obj>, freed: seq<nat>) {
    forall x: nat :: multiset(freed)[x] == if x < |objs| && objs[x].status.Freed? then 1 else 0
  }

  /** No freeing is under way. */
  ghost predicate Settled(objs: seq<Obj>) {
    forall x :: 0 <= x < |objs| ==> !objs[x].status.Freeing?
  }

  // ---- Reachability ----

  ghost predicate Path(objs: seq<Obj>, refs: multiset<nat>, path: seq<nat>) {
    && path != [] && path[0] in refs
    && (forall i :: 0 <= i < |path| ==> path[i] < |objs|)
    && (forall i :: 0 < i < |path| ==> path[i] in objs[path[i - 1]].slots)
  }

  ghost predicate Reachable(objs: seq<Obj>, refs: multiset<nat>, x: nat) {
    exists path :: Path(objs, refs, path) && path[|path| - 1] == x
  }

  /** Nothing that can be reached is ever freed. */
  lemma {:induction false} PathsAreLive(objs: seq<Obj>, refs: multiset<nat>, path: seq<nat>)
    requires Accounted(objs, refs) && Path(objs, refs, path)
    ensures IsLive(objs, path[|path| - 1])
    decreases |path|
  {
    var last := |path| - 1;
    var x := path[last];
    assert Exact(objs, refs, Held(objs), x);
    if last > 0 {
      PathsAreLive(objs, refs, path[..last]);
      assert IsLive(objs, path[last - 1]) && x in objs[path[last - 1]].slots;
      HeldBySomeone(objs, x);
    }
  }

  lemma RefIsReachable(objs: seq<Obj>, refs: multiset<nat>, x: nat)
    requires x in refs && x < |objs|
    ensures Reachable(objs, refs, x)
  {
    assert Path(objs, refs, [x]);
  }

  lemma SlotIsReachable(objs: seq<Obj>, refs: multiset<nat>, h: nat, x: nat)
    requires Reachable(objs, refs, h) && h < |objs| && x in objs[h].slots && x < |objs|
    ensures Reachable(objs, refs, x)
  {
    var path :| Path(objs, refs, path) && path[|path| - 1] == h;
    assert Path(objs, refs, path + [x]);
  }

  /** A live object that cannot be reached is in a slot of another such object. */
  lemma GarbageIsHeldByGarbage(objs: seq<Obj>, refs: multiset<nat>, x: nat) returns (h: nat)
    requires Accounted(objs, refs) && IsLive(objs, x) && !Reachable(objs, refs, x)
    ensures IsLive(objs, h) && !Reachable(objs, refs, h) && x in objs[h].slots
  {
    assert Exact(objs, refs, Held(objs), x);
    if x in refs {
      RefIsReachable(objs, refs, x);
      assert false;
    }
    HeldBySomeone(objs, x);
    h :| IsLive(objs, h) && x in objs[h].slots;
    if Reachable(objs, refs, h) {
      SlotIsReachable(objs, refs, h, x);
      assert false;
    }
  }

  /** The holds have no cycle: some rank goes down along every slot of a live object. */
  ghost predicate Ranked(objs: seq<Obj>, rank: nat -> nat) {
    forall h: nat, x: nat :: IsLive(objs, h) && x in objs[h].slots ==> rank(x) < rank(h)
  }

  function Highest(rank: nat -> nat, n: nat): (top: nat)
    ensures forall x: nat :: x < n ==> rank(x) <= top
  {
    if n == 0 then 0
    else
      var rest := Highest(rank, n - 1);
      if rest < rank(n - 1) then rank(n - 1) else rest
  }

  lemma {:induction false} NoGarbage(objs: seq<Obj>, refs: multiset<nat>, rank: nat -> nat, x: nat)
    requires Accounted(objs, refs) && Ranked(objs, rank) && IsLive(objs, x)
    ensures Reachable(objs, refs, x)
    decreases Highest(rank, |objs|) - rank(x)
  {
    if !Reachable(objs, refs, x) {
      var h := GarbageIsHeldByGarbage(objs, refs, x);
      NoGarbage(objs, refs, rank, h);
    }
  }

  /** Without cycles, what is live is just what can be reached from outside. */
  lemma LiveIsReachable(objs: seq<Obj>, refs: multiset<nat>, rank: nat -> nat, x: nat)
    requires Accounted(objs, refs) && Ranked(objs, rank)
    ensures IsLive(objs, x) <==> Reachable(objs, refs, x)
  {
    if IsLive(objs, x) {
      NoGarbage(objs, refs, rank, x);
    }
    if Reachable(objs, refs, x) {
      var path :| Path(objs, refs, path) && path[|path| - 1] == x;
      PathsAreLive(objs, refs, path);
    }
  }

  /** A cycle keeps itself: two objects in each other's slots stay live with no handle left. */
  lemma CycleLeaks()
    ensures var objs := [Obj(Live, 1, [1]), Obj(Live, 1, [0])];
      Accounted(objs, multiset{}) && IsLive(objs, 0) && !Reachable(objs, multiset{}, 0)
  {
    var objs := [Obj(Live, 1, [1]), Obj(Live, 1, [0])];
    assert objs[..1][..0] == [] && objs[..1] == [objs[0]];
    assert Held(objs[..1]) == multiset{1};
    assert Held(objs) == multiset{1, 0};
  }

  // ---- What single changes do to the accounts ----

  function Counted(objs: seq<Obj>, o: nat, change: int): seq<Obj>
    requires o < |objs|
  {
    objs[o := objs[o].(retainCount := objs[o].retainCount + change)]
  }

  function Begun(objs: seq<Obj>, o: nat): seq<Obj>
    requires o < |objs|
  {
    objs[o := Obj(Freeing, 0, objs[o].slots)]
  }

  function Finished(objs: seq<Obj>, o: nat): seq<Obj>
    requires o < |objs|
  {
    objs[o := objs[o].(status := Freed)]
  }

  lemma SameHeld(objs: seq<Obj>, o: nat, x: Obj)
    requires o < |objs| && Holds(x) == Holds(objs[o])
    ensures Held(objs[o := x]) == Held(objs)
  {
    HeldUpdate(objs, o, x);
    var a, b, more := Held(objs[o := x]), Held(objs), Holds(x);
    forall y: nat ensures a[y] == b[y] {
      assert (a + more)[y] == (b + more)[y];
    }
  }

  lemma CountedKeeps(objs: seq<Obj>, o: nat, change: int)
    requires o < |objs|
    ensures Held(Counted(objs, o, change)) == Held(objs) && OnlyFrees(objs, Counted(objs, o, change))
  {
    SameHeld(objs, o, Counted(objs, o, change)[o]);
  }

  lemma CountedKeepsLog(objs: seq<Obj>, freed: seq<nat>, o: nat, change: int)
    requires LogOK(objs, freed) && o < |objs|
    ensures LogOK(Counted(objs, o, change), freed)
    ensures Settled(objs) ==> Settled(Counted(objs, o, change))
  {
  }

  /** One hold more or less, of an object that is held all the same. */
  lemma CountedAccounted(objs: seq<Obj>, refs: multiset<nat>, o: nat, change: int, refs': multiset<nat>)
    requires Accounted(objs, refs) && IsLive(objs, o) && objs[o].retainCount + change >= 1
    requires forall x: nat :: refs'[x] == refs[x] + if x == o then change else 0
    ensures Accounted(Counted(objs, o, change), refs')
  {
    CountedKeeps(objs, o, change);
    hide Held, OnlyFrees;
    forall x: nat ensures Exact(Counted(objs, o, change), refs', Held(objs), x) {
      assert Exact(objs, refs, Held(objs), x);
      assert IsLive(Counted(objs, o, change), x) == IsLive(objs, x);
    }
  }

  lemma RetainAccounted(objs: seq<Obj>, refs: multiset<nat>, o: nat)
    requires Accounted(objs, refs) && IsLive(objs, o)
    ensures Accounted(Counted(objs, o, 1), refs + multiset{o})
  {
    hide Accounted, Held, Counted;
    var refs' := refs + multiset{o};
    forall x: nat ensures refs'[x] == refs[x] + if x == o then 1 else 0 {
    }
    AtLeastOne(objs, refs, o);
    CountedAccounted(objs, refs, o, 1, refs');
  }

  /** A release that leaves the object held. */
  lemma ReleaseAccounted(objs: seq<Obj>, refs: multiset<nat>, o: nat)
    requires Accounted(objs, refs) && o in refs && IsLive(objs, o) && objs[o].retainCount > 1
    ensures Accounted(Counted(objs, o, -1), refs - multiset{o})
  {
    hide Accounted, Held, Counted;
    var refs' := refs - multiset{o};
    forall x: nat ensures refs'[x] == refs[x] + if x == o then -1 else 0 {
    }
    CountedAccounted(objs, refs, o, -1, refs');
  }

  lemma AtLeastOne(objs: seq<Obj>, refs: multiset<nat>, o: nat)
    requires Accounted(objs, refs) && IsLive(objs, o)
    ensures objs[o].retainCount >= 1
  {
    assert Exact(objs, refs, Held(objs), o);
  }

  lemma AllocAccounted(objs: seq<Obj>, refs: multiset<nat>)
    requires Accounted(objs, refs)
    ensures Accounted(objs + [Obj(Live, 1, [])], refs + multiset{|objs|})
  {
    var after := objs + [Obj(Live, 1, [])];
    assert after[..|objs|] == objs;
    assert Held(after) == Held(objs);
    forall x: nat ensures Exact(after, refs + multiset{|objs|}, Held(after), x) {
      assert Exact(objs, refs, Held(objs), x);
    }
  }

  lemma RefIsLive(objs: seq<Obj>, refs: multiset<nat>, o: nat)
    requires Accounted(objs, refs) && o in refs
    ensures IsLive(objs, o) && objs[o].retainCount >= 1
  {
    assert Exact(objs, refs, Held(objs), o);
  }

  /** The last release: what was in the slots is now owed by the freeing. */
  lemma LastReleaseAccounted(objs: seq<Obj>, refs: multiset<nat>, o: nat)
    requires Accounted(objs, refs) && o in refs && IsLive(objs, o) && objs[o].retainCount == 1
    ensures var owed := refs - multiset{o} + multiset(objs[o].slots);
      && Accounted(Begun(objs, o), owed)
      && |Held(Begun(objs, o))| <= |Held(objs)|
      && |owed| + |Held(Begun(objs, o))| == |refs| + |Held(objs)| - 1
  {
    var after := Begun(objs, o);
    var slots := multiset(objs[o].slots);
    HeldUpdate(objs, o, after[o]);
    var held, held' := Held(objs), Held(after);
    assert held' + slots == held;
    hide Held;
    assert refs == (refs - multiset{o}) + multiset{o};
    forall x: nat ensures Exact(after, refs - multiset{o} + slots, held', x) {
      assert IsLive(after, x) == (IsLive(objs, x) && x != o);
      assert Exact(objs, refs, held, x);
      assert (held' + slots)[x] == held[x];
    }
  }

  /** The end of a freeing changes no account. */
  lemma FinishedAccounted(objs: seq<Obj>, refs: multiset<nat>, o: nat)
    requires Accounted(objs, refs) && o < |objs| && objs[o].status.Freeing?
    ensures Accounted(Finished(objs, o), refs) && Held(Finished(objs, o)) == Held(objs)
  {
    SameHeld(objs, o, Finished(objs, o)[o]);
    hide Held;
    forall x: nat ensures Exact(Finished(objs, o), refs, Held(objs), x) {
      assert IsLive(Finished(objs, o), x) == IsLive(objs, x);
      assert Exact(objs, refs, Held(objs), x);
    }
  }

  lemma NothingFreed(objs: seq<Obj>, refs: multiset<nat>)
    ensures OnlyFrees(objs, objs) && Spares(objs, refs, objs)
  {
  }

  lemma OnlyFreesTransitive(a: seq<Obj>, b: seq<Obj>, c: seq<Obj>)
    requires OnlyFrees(a, b) && OnlyFrees(b, c)
    ensures OnlyFrees(a, c)
  {
  }

  /** The holds of an object that is not in a slot any more, or not yet, count from outside. */
  function Stored(objs: seq<Obj>, h: nat, x: nat): seq<Obj>
    requires h < |objs|
  {
    objs[h := objs[h].(slots := objs[h].slots + [x])]
  }

  function Unstored(objs: seq<Obj>, h: nat, i: nat): seq<Obj>
    requires h < |objs| && i < |objs[h].slots|
  {
    objs[h := objs[h].(slots := objs[h].slots[..i] + objs[h].slots[i + 1..])]
  }

  lemma MovedAccounted(objs: seq<Obj>, refs: multiset<nat>, h: nat, slots: seq<nat>, refs': multiset<nat>)
    requires Accounted(objs, refs) && IsLive(objs, h)
    requires refs' + multiset(slots) == refs + multiset(objs[h].slots)
    ensures Accounted(objs[h := objs[h].(slots := slots)], refs')
  {
    var after := objs[h := objs[h].(slots := slots)];
    HeldUpdate(objs, h, after[h]);
    var held, held' := Held(objs), Held(after);
    var was, now := multiset(objs[h].slots), multiset(slots);
    assert held' + was == held + now;
    hide Held;
    forall x: nat ensures Exact(after, refs', held', x) {
      assert Exact(objs, refs, held, x);
      assert (held' + was)[x] == (held + now)[x] && (refs' + now)[x] == (refs + was)[x];
    }
  }

  lemma StoredAccounted(objs: seq<Obj>, refs: multiset<nat>, h: nat, x: nat)
    requires Accounted(objs, refs) && IsLive(objs, h) && x in refs
    ensures Accounted(Stored(objs, h, x), refs - multiset{x})
  {
    MovedAccounted(objs, refs, h, objs[h].slots + [x], refs - multiset{x});
  }

  lemma UnstoredAccounted(objs: seq<Obj>, refs: multiset<nat>, h: nat, i: nat)
    requires Accounted(objs, refs) && IsLive(objs, h) && i < |objs[h].slots|
    ensures Accounted(Unstored(objs, h, i), refs + multiset{objs[h].slots[i]})
  {
    var slots := objs[h].slots;
    assert slots == slots[..i] + [slots[i]] + slots[i + 1..];
    MovedAccounted(objs, refs, h, slots[..i] + slots[i + 1..], refs + multiset{slots[i]});
  }

  lemma UnstoredKeepsLog(objs: seq<Obj>, freed: seq<nat>, h: nat, i: nat)
    requires LogOK(objs, freed) && h < |objs| && i < |objs[h].slots|
    ensures LogOK(Unstored(objs, h, i), freed)
  {
  }

  lemma BegunKeepsLog(objs: seq<Obj>, freed: seq<nat>, o: nat)
    requires LogOK(objs, freed) && IsLive(objs, o)
    ensures LogOK(Begun(objs, o), freed)
  {
  }

  lemma WholeFreeing(objs: seq<Obj>, mid: seq<Obj>, freed: seq<nat>, o: nat)
    requires IsLive(objs, o) && OnlyFrees(Begun(objs, o), mid) && LogOK(mid, freed)
    ensures o < |mid| && mid[o].status.Freeing?
    ensures OnlyFrees(objs, Finished(mid, o)) && LogOK(Finished(mid, o), freed + [o])
  {
  }

  lemma StillOwed(slots: seq<nat>, i: nat, refs: multiset<nat>)
    requires i < |slots| && multiset(slots) <= refs
    ensures var owed := refs - multiset(slots[..i]);
      && slots[i] in owed && |owed| <= |refs| && owed - multiset{slots[i]} == refs - multiset(slots[..i + 1])
      && refs - multiset(slots) <= owed - multiset{slots[i]}
  {
    assert slots[..i + 1] == slots[..i] + [slots[i]];
    assert slots == slots[..i + 1] + slots[i + 1..];
    assert multiset(slots[..i]) <= refs;
  }

  // ---- What one release spares ----

  /** Each object of the group is held from outside or by another one of it. */
  ghost predicate Supports(objs: seq<Obj>, refs: multiset<nat>, group: set<nat>) {
    && (forall x <- group :: x < |objs|)
    && (forall x <- group :: x in refs || exists h <- group :: x in objs[h].slots)
  }

  ghost predicate AllLive(objs: seq<Obj>, group: set<nat>) {
    forall x <- group :: IsLive(objs, x)
  }

  /** No live group that supports itself on these holds loses an object. */
  ghost predicate Spares(before: seq<Obj>, refs: multiset<nat>, after: seq<Obj>) {
    forall group: set<nat> :: Supports(before, refs, group) && AllLive(before, group) ==> AllLive(after, group)
  }

  lemma CountedSpares(objs: seq<Obj>, refs: multiset<nat>, o: nat, change: int)
    requires o < |objs|
    ensures Spares(objs, refs, Counted(objs, o, change)) && Spares(objs, refs, objs)
  {
    hide Supports;
  }

  lemma SameSupport(before: seq<Obj>, refs: multiset<nat>, after: seq<Obj>, refs': multiset<nat>, group: set<nat>)
    requires OnlyFrees(before, after) && refs <= refs' && Supports(before, refs, group)
    ensures Supports(after, refs', group)
  {
    forall x | x in group && x !in refs' ensures exists h <- group :: x in after[h].slots {
      assert x !in refs;
      var h :| h in group && x in before[h].slots;
      assert x in after[h].slots;
    }
  }

  lemma SparesTransitive(a: seq<Obj>, refs: multiset<nat>, b: seq<Obj>, refs': multiset<nat>, c: seq<Obj>)
    requires OnlyFrees(a, b) && refs <= refs' && Spares(a, refs, b) && Spares(b, refs', c)
    ensures Spares(a, refs, c)
  {
    hide Supports, AllLive, OnlyFrees;
    forall group: set<nat> | Supports(a, refs, group) && AllLive(a, group) ensures AllLive(c, group) {
      SameSupport(a, refs, b, refs', group);
    }
  }

  /** An object whose one hold is going is in no group that supports itself on the rest. */
  lemma LastHoldSupportsNothing(objs: seq<Obj>, refs: multiset<nat>, o: nat, group: set<nat>)
    requires Accounted(objs, refs) && o in refs && IsLive(objs, o) && objs[o].retainCount == 1
    requires Supports(objs, refs - multiset{o}, group) && AllLive(objs, group)
    ensures o !in group
  {
    assert Exact(objs, refs, Held(objs), o);
    HeldBySomeone(objs, o);
  }

  lemma WholeFreeingSpares(objs: seq<Obj>, refs: multiset<nat>, o: nat, mid: seq<Obj>)
    requires Accounted(objs, refs) && o in refs && IsLive(objs, o) && objs[o].retainCount == 1
    requires OnlyFrees(Begun(objs, o), mid) && Spares(Begun(objs, o), refs - multiset{o}, mid)
    ensures Spares(objs, refs - multiset{o}, Finished(mid, o))
  {
    var refs' := refs - multiset{o};
    forall group: set<nat> | Supports(objs, refs', group) && AllLive(objs, group) ensures AllLive(Finished(mid, o), group) {
      LastHoldSupportsNothing(objs, refs, o, group);
      hide Accounted;
      assert Supports(Begun(objs, o), refs', group);
      assert AllLive(Begun(objs, o), group);
    }
  }

  lemma LiveSupportsItself(objs: seq<Obj>, refs: multiset<nat>, x: nat)
    requires Accounted(objs, refs) && IsLive(objs, x)
    ensures x in refs || exists h: nat :: IsLive(objs, h) && x in objs[h].slots
  {
    assert Exact(objs, refs, Held(objs), x);
    HeldBySomeone(objs, x);
  }

  /**
   What one release leaves live, cycles or not: the objects of the live groups that support themselves without it.
   before and after are related as Heap.Release relates them.
   */
  lemma ReleaseLeavesWhatSupportsItself(before: seq<Obj>, refs: multiset<nat>, after: seq<Obj>, x: nat)
    requires OnlyFrees(before, after) && Accounted(after, refs) && Spares(before, refs, after)
    ensures IsLive(after, x) <==>
      exists group: set<nat> :: x in group && Supports(before, refs, group) && AllLive(before, group)
  {
    if IsLive(after, x) {
      var group := set y: nat | y < |after| && IsLive(after, y);
      forall y | y in group && y !in refs ensures exists h <- group :: y in before[h].slots {
        LiveSupportsItself(after, refs, y);
        var h: nat :| IsLive(after, h) && y in after[h].slots;
        assert h in group && y in before[h].slots;
      }
      assert Supports(before, refs, group) && AllLive(before, group);
    }
  }

  // ---- What one release frees ----

  /**
   In a heap without cycles, one release frees exactly the objects that can no longer be reached. before and after
   are related as Heap.Release relates them.
   */
  lemma ReleaseFreesTheUnreachable(
      before: seq<Obj>, refs: multiset<nat>, o: nat, after: seq<Obj>, rank: nat -> nat, x: nat)
    requires Ranked(before, rank) && OnlyFrees(before, after)
    requires Accounted(after, refs - multiset{o})
    requires IsLive(before, x)
    ensures after[x].status.Freed? <==> !Reachable(before, refs - multiset{o}, x)
  {
    var refs' := refs - multiset{o};
    forall h: nat, y: nat | IsLive(after, h) && y in after[h].slots ensures rank(y) < rank(h) {
      assert IsLive(before, h) && y in before[h].slots;
    }
    LiveIsReachable(after, refs', rank, x);
    forall path ensures Path(before, refs', path) <==> Path(after, refs', path) {
      SamePaths(before, after, refs', path);
    }
  }

  lemma SamePaths(before: seq<Obj>, after: seq<Obj>, refs: multiset<nat>, path: seq<nat>)
    requires OnlyFrees(before, after)
    ensures Path(before, refs, path) <==> Path(after, refs, path)
  {
  }

  // ---- The counted heap ----

  class Heap {
    var objs: seq<Obj>
    /** The handles the program holds, and every free there has been, in order. */
    ghost var handles: multiset<nat>
    ghost var freed: seq<nat>

    ghost predicate Valid()
      reads this
    {
      Accounted(objs, handles) && LogOK(objs, freed) && Settled(objs)
    }

    constructor ()
      ensures Valid() && objs == [] && handles == multiset{} && freed == []
    {
      objs, handles, freed := [], multiset{}, [];
    }

    method Alloc() returns (o: nat)
      requires Valid()
      modifies this
      ensures Valid() && o == |old(objs)| && objs == old(objs) + [Obj(Live, 1, [])]
      ensures handles == old(handles) + multiset{o} && freed == old(freed)
    {
      AllocAccounted(objs, handles);
      hide Accounted;
      o := |objs|;
      objs := objs + [Obj(Live, 1, [])];
      handles := handles + multiset{o};
    }

    method Retain(o: nat)
      requires Valid() && IsLive(objs, o)
      modifies this
      ensures Valid() && objs == Counted(old(objs), o, 1)
      ensures handles == old(handles) + multiset{o} && freed == old(freed)
    {
      RetainAccounted(objs, handles, o);
      CountedKeepsLog(objs, freed, o, 1);
      hide Accounted, LogOK, Held, Settled;
      objs := objs[o := objs[o].(retainCount := objs[o].retainCount + 1)];
      handles := handles + multiset{o};
    }

    /** One release, of one of the holds in refs, with all that it sets off. */
    method Drop(o: nat, ghost refs: multiset<nat>) returns (dealloc: bool)
      requires Accounted(objs, refs) && o in refs && LogOK(objs, freed)
      modifies this`objs, this`freed
      ensures Accounted(objs, refs - multiset{o}) && LogOK(objs, freed)
      ensures OnlyFrees(old(objs), objs) && |Held(objs)| <= |old(Held(objs))|
      ensures Spares(old(objs), refs - multiset{o}, objs)
      ensures old(IsLive(objs, o)) && dealloc == !IsLive(objs, o)
      decreases |refs| + |Held(objs)|, 2
    {
      hide Accounted, LogOK, Held, OnlyFrees, Spares;
      RefIsLive(objs, refs, o);
      assert objs[o].retainCount >= 1;
      dealloc := objs[o].retainCount == 1;
      if dealloc {
        Free(o, refs);
      } else {
        ReleaseAccounted(objs, refs, o);
        CountedKeeps(objs, o, -1);
        CountedSpares(objs, refs - multiset{o}, o, -1);
        CountedKeepsLog(objs, freed, o, -1);
        objs := objs[o := objs[o].(retainCount := objs[o].retainCount - 1)];
        assert objs == Counted(old(objs), o, -1);
      }
    }

    /** Frees an object: its slots are released, and then it is gone. */
    method Free(o: nat, ghost refs: multiset<nat>)
      requires Accounted(objs, refs) && o in refs && LogOK(objs, freed)
      requires IsLive(objs, o) && objs[o].retainCount == 1
      modifies this`objs, this`freed
      ensures Accounted(objs, refs - multiset{o}) && LogOK(objs, freed)
      ensures OnlyFrees(old(objs), objs) && |Held(objs)| <= |old(Held(objs))|
      ensures Spares(old(objs), refs - multiset{o}, objs)
      ensures !IsLive(objs, o)
      decreases |refs| + |Held(objs)|, 1
    {
      hide Accounted, LogOK, Held, OnlyFrees, Spares;
      ghost var was := objs;
      LastReleaseAccounted(objs, refs, o);
      BegunKeepsLog(objs, freed, o);
      var slots := objs[o].slots;
      objs := objs[o := Obj(Freeing, 0, slots)];
      DropAll(slots, refs - multiset{o} + multiset(slots));
      assert refs - multiset{o} + multiset(slots) - multiset(slots) == refs - multiset{o};
      WholeFreeing(was, objs, freed, o);
      WholeFreeingSpares(was, refs, o, objs);
      FinishedAccounted(objs, refs - multiset{o}, o);
      objs := objs[o := objs[o].(status := Freed)];
      freed := freed + [o];
    }

    /** Releases what a container held, one slot after the other. */
    method DropAll(slots: seq<nat>, ghost refs: multiset<nat>)
      requires Accounted(objs, refs) && multiset(slots) <= refs && LogOK(objs, freed)
      modifies this`objs, this`freed
      ensures Accounted(objs, refs - multiset(slots)) && LogOK(objs, freed)
      ensures OnlyFrees(old(objs), objs) && |Held(objs)| <= |old(Held(objs))|
      ensures Spares(old(objs), refs - multiset(slots), objs)
      decreases |refs| + |Held(objs)|, 3
    {
      hide Accounted, LogOK, Held, OnlyFrees, Spares;
      ghost var was, owed := objs, refs;
      NothingFreed(objs, refs - multiset(slots));
      var i := 0;
      while i < |slots|
        invariant i <= |slots| && owed == refs - multiset(slots[..i])
        invariant Accounted(objs, owed) && LogOK(objs, freed)
        invariant OnlyFrees(was, objs) && Spares(was, refs - multiset(slots), objs)
        invariant |Held(objs)| <= |Held(was)|
      {
        ghost var before := objs;
        StillOwed(slots, i, refs);
        var _ := Drop(slots[i], owed);
        OnlyFreesTransitive(was, before, objs);
        SparesTransitive(was, refs - multiset(slots), before, owed - multiset{slots[i]}, objs);
        owed := owed - multiset{slots[i]};
        i := i + 1;
      }
      assert slots[..i] == slots;
    }

    method Release(o: nat) returns (dealloc: bool)
      requires Valid() && o in handles
      modifies this
      ensures Valid() && handles == old(handles) - multiset{o}
      ensures OnlyFrees(old(objs), objs) && Spares(old(objs), handles, objs)
      ensures old(IsLive(objs, o)) && dealloc == !IsLive(objs, o)
    {
      hide Accounted, LogOK, Held, Spares;
      dealloc := Drop(o, handles);
      handles := handles - multiset{o};
    }
  
    /** A container that retains what it is given. */
    method Store(h: nat, x: nat)
      requires Valid() && IsLive(objs, h) && IsLive(objs, x)
      modifies this
      ensures Valid() && objs == Stored(Counted(old(objs), x, 1), h, x)
      ensures handles == old(handles) && freed == old(freed)
    {
      Retain(x);
      Adopt(h, x);
    }

    /** A container that takes over the handle its creator had, as an array does with its dictionary. */
    method Adopt(h: nat, x: nat)
      requires Valid() && IsLive(objs, h) && x in handles
      modifies this
      ensures Valid() && objs == Stored(old(objs), h, x)
      ensures handles == old(handles) - multiset{x} && freed == old(freed)
    {
      StoredAccounted(objs, handles, h, x);
      hide Accounted;
      objs := objs[h := objs[h].(slots := objs[h].slots + [x])];
      handles := handles - multiset{x};
    }

    /** Takes an item out and releases it. The object that is handed back may be gone by then. */
    method Remove(h: nat, i: nat) returns (x: nat, dealloc: bool)
      requires Valid() && IsLive(objs, h) && i < |objs[h].slots|
      modifies this
      ensures Valid() && x == old(objs)[h].slots[i]
      ensures handles == old(handles)
      ensures OnlyFrees(Unstored(old(objs), h, i), objs) && dealloc == !IsLive(objs, x)
      ensures Spares(Unstored(old(objs), h, i), handles, objs)
    {
      UnstoredAccounted(objs, handles, h, i);
      hide Accounted, LogOK, Spares;
      x := objs[h].slots[i];
      ghost var unstored := Unstored(objs, h, i);
      UnstoredKeepsLog(objs, freed, h, i);
      objs := objs[h := objs[h].(slots := objs[h].slots[..i] + objs[h].slots[i + 1..])];
      handles := handles + multiset{x};
      dealloc := Release(x);
    }
  }
}
