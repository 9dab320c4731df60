/**
 The array: a dictionary whose keys are the indices 0 to count-1. Inserting and removing renumber the keys above.
 The order of the dictionary's list tells nothing about the order of the array.
 */
module ArrayLists {
  import opened Dictionaries

  const NULL_INDEX := -1

  // ---- Which sequence a list of items stands for ----

  /** The keys are 0 to |c|-1, each once and in any order, and the item with key k holds c[k]. */
  ghost predicate Represents(items: seq<Item>, c: seq<Ref>) {
    && |items| == |c|
    && DistinctKeys(items)
    && (forall x <- items :: 0 <= x.key < |c| && x.value == c[x.key])
    && (forall k :: 0 <= k < |c| ==> Has(items, k))
  }

  lemma RepresentsOne(items: seq<Item>, c: seq<Ref>, d: seq<Ref>)
    requires Represents(items, c) && Represents(items, d)
    ensures c == d
  {
    forall k | 0 <= k < |c| ensures c[k] == d[k] {
      assert Has(items, k);
      assert items[Position(items, k)] in items;
    }
  }

  function Inserted(c: seq<Ref>, idx: nat, v: Ref): seq<Ref>
    requires idx <= |c|
  {
    c[..idx] + [v] + c[idx..]
  }

  function Removed(c: seq<Ref>, idx: nat): seq<Ref>
    requires idx < |c|
  {
    c[..idx] + c[idx + 1..]
  }

  /** As Represents, with the item of one index missing. */
  ghost predicate AllBut(items: seq<Item>, c: seq<Ref>, idx: nat) {
    && idx < |c| == |items| + 1
    && DistinctKeys(items)
    && (forall x <- items :: 0 <= x.key < |c| && x.key != idx && x.value == c[x.key])
    && (forall k :: 0 <= k < |c| && k != idx ==> Has(items, k))
  }

  lemma TakeOutRepresents(items: seq<Item>, c: seq<Ref>, idx: nat)
    requires Represents(items, c) && idx < |c|
    ensures Has(items, idx) && AllBut(Without(items, Position(items, idx)), c, idx)
  {
    assert Has(items, idx);
    var p := Position(items, idx);
    var out := Without(items, p);
    hide Position;
    forall i | 0 <= i < |out| ensures out[i] == items[if i < p then i else i + 1] && out[i] in items && out[i].key != idx {
    }
    assert DistinctKeys(out);
    forall k | 0 <= k < |c| && k != idx ensures Has(out, k) {
      assert Has(items, k);
      LookupWithout(items, p, k);
    }
  }

  lemma RemoveRepresents(out: seq<Item>, c: seq<Ref>, idx: nat)
    requires AllBut(out, c, idx)
    ensures Represents(Shifted(out, idx, false), Removed(c, idx))
  {
    var r, d := Shifted(out, idx, false), Removed(c, idx);
    hide Position;
    forall i | 0 <= i < |r| ensures 0 <= r[i].key < |d| && r[i].value == d[r[i].key] {
      assert out[i] in out && r[i] == Shift(out[i], idx, false);
    }
    forall i, j | 0 <= i < j < |r| ensures r[i].key != r[j].key {
      assert out[i] in out && out[j] in out;
    }
    forall k | 0 <= k < |d| ensures Has(r, k) {
      var was := if k < idx then k else k + 1;
      assert Has(out, was);
      HasByIndex(r, Position(out, was));
    }
  }

  lemma ReplaceRepresents(out: seq<Item>, c: seq<Ref>, idx: nat, v: Ref)
    requires AllBut(out, c, idx)
    ensures !Has(out, idx) && Represents([Item(idx, v)] + out, c[idx := v])
  {
    var r := [Item(idx, v)] + out;
    forall k | 0 <= k < |c| ensures Has(r, k) {
      if k == idx {
        HasByIndex(r, 0);
      } else {
        assert Has(out, k);
        HasByIndex(r, Position(out, k) + 1);
      }
    }
  }

  /** Renumbering opens a gap at idx, which the new item fills. */
  lemma InsertRepresents(items: seq<Item>, c: seq<Ref>, idx: nat, v: Ref)
    requires Represents(items, c) && idx <= |c|
    ensures !Has(Shifted(items, idx, true), idx)
    ensures Represents([Item(idx, v)] + Shifted(items, idx, true), Inserted(c, idx, v))
  {
    var up, d := Shifted(items, idx, true), Inserted(c, idx, v);
    OpenGap(items, c, idx, v);
    ReplaceRepresents(up, d, idx, v);
    assert d[idx := v] == d;
  }

  lemma OpenGap(items: seq<Item>, c: seq<Ref>, idx: nat, v: Ref)
    requires Represents(items, c) && idx <= |c|
    ensures AllBut(Shifted(items, idx, true), Inserted(c, idx, v), idx)
  {
    var up, d := Shifted(items, idx, true), Inserted(c, idx, v);
    hide Position;
    forall i | 0 <= i < |up|
      ensures 0 <= up[i].key < |d| && up[i].key != idx && up[i].value == d[up[i].key]
    {
      assert items[i] in items && up[i] == Shift(items[i], idx, true);
    }
    forall i, j | 0 <= i < j < |up| ensures up[i].key != up[j].key {
      assert items[i].key != items[j].key;
    }
    forall k | 0 <= k < |d| && k != idx ensures Has(up, k) {
      var was := if k < idx then k else k - 1;
      assert Has(items, was);
      HasByIndex(up, Position(items, was));
    }
  }

  lemma HasIffIndex(items: seq<Item>, c: seq<Ref>, idx: int)
    requires Represents(items, c)
    ensures Has(items, idx) <==> 0 <= idx < |c|
    ensures Has(items, idx) ==> items[Position(items, idx)].value == c[idx]
  {
    if Has(items, idx) {
      assert items[Position(items, idx)] in items;
    }
  }

  /** Insertion's own check lets a negative index through, and exactly then the keys stop being 0 to count-1. */
  lemma InsertKeepsIndicesIffNotNegative(items: seq<Item>, c: seq<Ref>, idx: int, v: Ref)
    requires Represents(items, c) && idx <= |c|
    ensures !Has(Shifted(items, idx, true), idx)
    ensures (exists d :: Represents([Item(idx, v)] + Shifted(items, idx, true), d)) <==> 0 <= idx
  {
    var r := [Item(idx, v)] + Shifted(items, idx, true);
    if 0 <= idx {
      InsertRepresents(items, c, idx, v);
    } else {
      assert forall x <- items :: x.key != idx - 1;
      assert r[0] in r;
    }
  }

  function Values(items: seq<Item>): (vs: multiset<Ref>) {
    if items == [] then multiset{} else multiset{items[0].value} + Values(items[1..])
  }

  lemma {:induction false} ValuesWithout(items: seq<Item>, p: nat)
    requires p < |items|
    ensures Values(items) == Values(Without(items, p)) + multiset{items[p].value}
  {
    var out := Without(items, p);
    if p == 0 {
      assert out == items[1..];
    } else {
      ValuesWithout(items[1..], p - 1);
      assert out[1..] == Without(items[1..], p - 1);
    }
  }

  lemma OneMoreReleased(
    released: seq<Ref>, value: Ref, left: multiset<Ref>, before: multiset<Ref>, all: multiset<Ref>)
    requires multiset(released) + before == all && left + multiset{value} == before
    ensures multiset(released + [value]) + left == all
  {
    assert multiset(released + [value]) == multiset(released) + multiset{value};
  }

  lemma NoItems(items: seq<Item>)
    requires items == []
    ensures Values(items) == multiset{} && Represents(items, [])
  {
  }

  lemma NothingRepresented(items: seq<Item>)
    requires Represents(items, [])
    ensures Values(items) == multiset{}
  {
    assert items == [];
  }

  lemma LastTakenOut(items: seq<Item>, c: seq<Ref>) returns (p: nat)
    requires Represents(items, c) && c != []
    ensures p < |items| && items[p].value == c[|c| - 1] && Represents(Without(items, p), c[..|c| - 1])
  {
    var last := |c| - 1;
    TakeOutRepresents(items, c, last);
    p := Position(items, last);
    var out := Without(items, p);
    RemoveRepresents(out, c, last);
    assert forall i :: 0 <= i < |out| ==> out[i] in out;
    assert Shifted(out, last, false) == out;
    assert Removed(c, last) == c[..last];
    assert items[p] in items;
  }

  /** The list holds the very objects of the sequence, each as often. */
  lemma {:induction false} SameValues(items: seq<Item>, c: seq<Ref>)
    requires Represents(items, c)
    ensures Values(items) == multiset(c)
    decreases |c|
  {
    if c == [] {
      NothingRepresented(items);
    } else {
      var last := |c| - 1;
      var p := LastTakenOut(items, c);
      hide Represents, Position, Without, Values;
      SameValues(Without(items, p), c[..last]);
      ValuesWithout(items, p);
      assert c == c[..last] + [c[last]];
    }
  }

  // ---- The array object ----

  class Array {
    const dict: Dictionary
    var count: int
    /** The sequence the array stands for. */
    ghost var contents: seq<Ref>

    ghost predicate Valid()
      reads this, dict, dict.repr
    {
      dict.Valid() && count == |contents| && Represents(dict.Items(), contents)
    }

    constructor ()
      ensures Valid() && contents == [] && fresh(dict) && fresh(dict.repr)
    {
      dict := new Dictionary();
      count, contents := 0, [];
    }

    method Add(value: Ref)
      requires Valid()
      modifies this, dict
      ensures Valid() && contents == old(contents) + [value]
      ensures fresh(dict.repr - old(dict.repr))
    {
      ghost var items := dict.Items();
      InsertRepresents(items, contents, |contents|, value);
      assert Shifted(items, |contents|, true) == items;
      assert Inserted(contents, |contents|, value) == contents + [value];
      var ok := dict.Add(count, value);
      count := count + 1;
      contents := contents + [value];
    }

    /** What insertion does to the dictionary, whatever the index. */
    method ShiftAndAdd(idx: int, value: Ref)
      requires Valid() && idx <= count
      modifies this`count, dict, dict.repr
      ensures dict.Valid() && fresh(dict.repr - old(dict.repr))
      ensures dict.Items() == [Item(idx, value)] + Shifted(old(dict.Items()), idx, true) && count == old(count) + 1
    {
      InsertKeepsIndicesIffNotNegative(dict.Items(), contents, idx, value);
      hide Represents, Position, Shifted, Dictionary.Linked;
      dict.ShiftKeys(idx, true);
      var _ := dict.Add(idx, value);
      count := count + 1;
    }

    /** Any index up to the count passes the check; a negative one leaves keys that are no array's. */
    method Insert(idx: int, value: Ref) returns (ok: bool)
      requires Valid()
      modifies this, dict, dict.repr
      ensures ok == (idx <= old(count)) && dict.Valid()
      ensures !ok ==> Valid() && contents == old(contents)
      ensures ok && 0 <= idx ==> Valid() && contents == Inserted(old(contents), idx, value)
      ensures ok && idx < 0 ==> forall d :: !Represents(dict.Items(), d)
      ensures fresh(dict.repr - old(dict.repr))
    {
      if idx > count {
        return false;
      }
      InsertKeepsIndicesIffNotNegative(dict.Items(), contents, idx, value);
      if 0 <= idx {
        InsertRepresents(dict.Items(), contents, idx, value);
      }
      hide Represents, Shifted, Dictionary.Linked, Dictionary.Valid;
      ShiftAndAdd(idx, value);
      if 0 <= idx {
        contents := Inserted(contents, idx, value);
      }
      return true;
    }

    /** An index outside the array aborts in the dictionary. */
    method Replace(idx: int, value: Ref) returns (ok: bool)
      requires Valid()
      modifies this, dict, dict.repr
      ensures ok == (0 <= idx < old(count))
      ensures Valid() && contents == if ok then old(contents)[idx := value] else old(contents)
      ensures fresh(dict.repr - old(dict.repr))
    {
      hide Represents, Position, Shifted, Without, Dictionary.Linked;
      HasIffIndex(dict.Items(), contents, idx);
      if 0 <= idx < count {
        TakeOutRepresents(dict.Items(), contents, idx);
        ReplaceRepresents(Without(dict.Items(), Position(dict.Items(), idx)), contents, idx, value);
        contents := contents[idx := value];
      }
      var removed, _ := dict.Remove(idx);
      ok := removed;
      if ok {
        ok := dict.Add(idx, value);
      }
    }

    /** Some index of the value, not necessarily the least, or NULL_INDEX if it has none. */
    method Find(value: Ref) returns (idx: int)
      requires Valid()
      ensures idx == NULL_INDEX <==> value !in contents
      ensures idx != NULL_INDEX ==> 0 <= idx < |contents| && contents[idx] == value
    {
      idx := NULL_INDEX;
      var iter := dict.head;
      ghost var p := 0;
      while iter != null
        invariant p <= |dict.nodes| && idx == NULL_INDEX
        invariant iter == (if p < |dict.nodes| then dict.nodes[p] else null)
        invariant forall i :: 0 <= i < p ==> dict.nodes[i].value != value
        decreases |dict.nodes| - p
      {
        if iter.value == value {
          idx := iter.key;
          assert dict.Items()[p] in dict.Items();
          return;
        }
        iter := iter.next;
        p := p + 1;
      }
      if value in contents {
        ghost var k :| 0 <= k < |contents| && contents[k] == value;
        assert Has(dict.Items(), k);
        assert dict.Items()[Position(dict.Items(), k)] in dict.Items();
      }
    }

    method Contains(value: Ref) returns (r: bool)
      requires Valid()
      ensures r == (value in contents)
    {
      var idx := Find(value);
      r := idx != NULL_INDEX;
    }

    method Get(idx: int) returns (r: Ref)
      requires Valid()
      ensures r == if 0 <= idx < |contents| then contents[idx] else NULL
    {
      HasIffIndex(dict.Items(), contents, idx);
      r := dict.GetItem(idx);
    }

    /** An index outside the array aborts in the dictionary. */
    method Remove(idx: int) returns (ok: bool)
      requires Valid()
      modifies this, dict, dict.repr
      ensures ok == (0 <= idx < old(count))
      ensures Valid() && contents == if ok then Removed(old(contents), idx) else old(contents)
      ensures dict.repr == old(dict.repr)
    {
      hide Represents, Position, Shifted, Without, Dictionary.Linked;
      HasIffIndex(dict.Items(), contents, idx);
      if 0 <= idx < count {
        TakeOutRepresents(dict.Items(), contents, idx);
        RemoveRepresents(Without(dict.Items(), Position(dict.Items(), idx)), contents, idx);
        contents := Removed(contents, idx);
      }
      var removed, _ := dict.Remove(idx);
      ok := removed;
      if ok {
        dict.ShiftKeys(idx, false);
        count := count - 1;
      }
    }

    /** Takes one occurrence out, whichever the list comes to first; a value that is not there aborts. */
    method RemoveObject(value: Ref) returns (ok: bool)
      requires Valid()
      modifies this, dict, dict.repr
      ensures ok == (value in old(contents))
      ensures Valid() && (!ok ==> contents == old(contents))
      ensures ok ==> exists idx :: (
          && 0 <= idx < |old(contents)| && old(contents)[idx] == value
          && contents == Removed(old(contents), idx))
    {
      var idx := Find(value);
      if idx == NULL_INDEX {
        return false;
      }
      ok := Remove(idx);
    }

    /** One round of emptying, for the item the draw picks. The keys need not be an array's any more. */
    method RemoveDrawn(draw: nat) returns (value: Ref)
      requires dict.Valid() && DistinctKeys(dict.Items()) && draw < dict.count
      modifies this`count, dict, dict.repr
      ensures dict.Valid() && DistinctKeys(dict.Items()) && dict.repr == old(dict.repr)
      ensures dict.count == old(dict.count) - 1 && count == old(count) - 1
      ensures Values(dict.Items()) + multiset{value} == old(Values(dict.Items()))
    {
      hide Position, Values, Dictionary.Linked;
      var key := dict.GetKey(draw);
      value := dict.GetItem(key);
      HasByIndex(dict.Items(), draw);
      ValuesWithout(dict.Items(), Position(dict.Items(), key));
      RemoveIsMapRemoval(dict.Items(), key);
      var _, _ := dict.Remove(key);
      count := count - 1;
    }

    /** Empties the array in an order of chance, and hands back each object as often as it was there. */
    method RemoveAll() returns (released: seq<Ref>)
      requires Valid()
      modifies this, dict, dict.repr
      ensures Valid() && contents == [] && multiset(released) == multiset(old(contents))
    {
      released := [];
      SameValues(dict.Items(), contents);
      assert DistinctKeys(dict.Items()) && count == dict.count;
      hide Values, Represents, DistinctKeys, Dictionary.Linked;
      while count != 0
        invariant dict.Valid() && count == dict.count && DistinctKeys(dict.Items())
        invariant multiset(released) + Values(dict.Items()) == multiset(old(contents))
        invariant dict.repr == old(dict.repr)
        decreases count
      {
        var draw: nat :| draw < count;
        ghost var before := Values(dict.Items());
        var value := RemoveDrawn(draw);
        OneMoreReleased(released, value, Values(dict.Items()), before, multiset(old(contents)));
        released := released + [value];
      }
      contents := [];
      NoItems(dict.Items());
    }
  }
}
