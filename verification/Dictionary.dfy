/**
 The dictionary: a singly linked list of items with the newest in front. A key is looked for from the head, and
 at most one item holds it.
 */
module Dictionaries {
  /** A pointer-sized value. Looking up a missing key answers NULL. */
  type Ref = int

  const NULL: Ref := 0

  datatype Item = Item(key: int, value: Ref)

  // ---- The list as a value ----

  /** Where the first item with this key is, or the length of the list. */
  function Position(items: seq<Item>, key: int): (p: nat)
    ensures p <= |items| && (p < |items| ==> items[p].key == key)
    ensures forall i :: 0 <= i < p ==> items[i].key != key
  {
    if items == [] then 0
    else if items[0].key == key then 0
    else 1 + Position(items[1..], key)
  }

  predicate Has(items: seq<Item>, key: int) { Position(items, key) < |items| }

  function Without(items: seq<Item>, p: nat): seq<Item>
    requires p < |items|
  {
    items[..p] + items[p + 1..]
  }

  function Shift(x: Item, base: int, inc: bool): Item {
    if x.key >= base then x.(key := x.key + if inc then 1 else -1) else x
  }

  function Shifted(items: seq<Item>, base: int, inc: bool): (r: seq<Item>)
    ensures |r| == |items| && forall i :: 0 <= i < |items| ==> r[i] == Shift(items[i], base, inc)
  {
    seq(|items|, i requires 0 <= i < |items| => Shift(items[i], base, inc))
  }

  ghost predicate DistinctKeys(items: seq<Item>) {
    forall i, j :: 0 <= i < j < |items| ==> items[i].key != items[j].key
  }

  /** What the list stands for. */
  function AsMap(items: seq<Item>): (m: map<int, Ref>)
    ensures forall k :: k in m <==> Has(items, k)
    ensures forall k :: Has(items, k) ==> m[k] == items[Position(items, k)].value
  {
    if items == [] then map[] else AsMap(items[1..])[items[0].key := items[0].value]
  }

  /** Adding an absent key and removing a present one are the map operations, and keep the keys distinct. */
  lemma AddIsMapUpdate(items: seq<Item>, x: Item)
    requires DistinctKeys(items) && !Has(items, x.key)
    ensures DistinctKeys([x] + items) && AsMap([x] + items) == AsMap(items)[x.key := x.value]
  {
    assert ([x] + items)[1..] == items;
  }

  lemma HasByIndex(items: seq<Item>, i: nat)
    requires i < |items|
    ensures Has(items, items[i].key)
  {
  }

  lemma PositionIsUnique(items: seq<Item>, p: nat)
    requires DistinctKeys(items) && p < |items|
    ensures Position(items, items[p].key) == p
  {
    var q := Position(items, items[p].key);
    assert q <= p;
  }

  lemma LookupWithout(items: seq<Item>, p: nat, k: int)
    requires DistinctKeys(items) && p < |items|
    ensures Has(Without(items, p), k) <==> Has(items, k) && k != items[p].key
    ensures Has(Without(items, p), k) ==>
      Without(items, p)[Position(Without(items, p), k)].value == items[Position(items, k)].value
  {
    var after := Without(items, p);
    var q, q' := Position(items, k), Position(after, k);
    if q < |items| && q != p {
      HasByIndex(after, if q < p then q else q - 1);
    }
    if q' < |after| {
      var was := if q' < p then q' else q' + 1;
      assert after[q'] == items[was];
      PositionIsUnique(items, was);
    }
  }

  lemma RemoveIsMapRemoval(items: seq<Item>, key: int)
    requires DistinctKeys(items) && Has(items, key)
    ensures var after := Without(items, Position(items, key));
      DistinctKeys(after) && AsMap(after) == AsMap(items) - {key}
  {
    hide Position, AsMap;
    var p := Position(items, key);
    var after := Without(items, p);
    forall i, j | 0 <= i < j < |after| ensures after[i].key != after[j].key {
      assert after[i] == items[if i < p then i else i + 1] && after[j] == items[if j < p then j else j + 1];
    }
    hide Without, DistinctKeys;
    forall k
      ensures k in AsMap(after) <==> k in AsMap(items) - {key}
      ensures k in AsMap(after) ==> AsMap(after)[k] == AsMap(items)[k]
    {
      LookupWithout(items, p, k);
    }
  }

  // ---- The list in the heap ----

  class Node {
    var key: int
    var value: Ref
    var next: Node?

    constructor (key: int, value: Ref, next: Node?)
      ensures this.key == key && this.value == value && this.next == next
    {
      this.key, this.value, this.next := key, value, next;
    }
  }

  class Dictionary {
    var head: Node?
    var count: nat
    /** The items' nodes from the head on, and a set of nodes they are among. */
    ghost var nodes: seq<Node>
    ghost var repr: set<Node>

    ghost predicate Linked()
      reads this`head, this`nodes, this`repr, repr`next
    {
      && (forall i :: 0 <= i < |nodes| ==> nodes[i] in repr)
      && head == (if nodes == [] then null else nodes[0])
      && (forall i {:trigger nodes[i].next} :: 0 <= i < |nodes| ==>
           nodes[i].next == if i + 1 < |nodes| then nodes[i + 1] else null)
      && (forall i, j :: 0 <= i < j < |nodes| ==> nodes[i] != nodes[j])
    }

    ghost predicate Valid()
      reads this`head, this`count, this`nodes, this`repr, repr`next
    {
      Linked() && count == |nodes|
    }

    ghost function Items(): (r: seq<Item>)
      reads this, repr
      requires Valid()
      ensures |r| == |nodes|
      ensures forall i :: 0 <= i < |r| ==> r[i] == Item(nodes[i].key, nodes[i].value)
    {
      seq(|nodes|, i requires 0 <= i < |nodes| reads this, repr requires nodes[i] in repr => Item(nodes[i].key, nodes[i].value))
    }

    constructor ()
      ensures Valid() && Items() == [] && fresh(repr)
    {
      head, count, nodes, repr := null, 0, [], {};
    }

    /** The first item with the key, and the one in front of it. */
    method Find(key: int) returns (item: Node?, previous: Node?, ghost p: nat)
      requires Valid()
      ensures p == Position(Items(), key)
      ensures item == (if p < |nodes| then nodes[p] else null)
      ensures previous == (if p > 0 then nodes[p - 1] else null)
    {
      item, previous, p := head, null, 0;
      while item != null
        invariant p <= |nodes|
        invariant item == (if p < |nodes| then nodes[p] else null)
        invariant previous == (if p > 0 then nodes[p - 1] else null)
        invariant forall i :: 0 <= i < p ==> nodes[i].key != key
        decreases |nodes| - p
      {
        if item.key == key {
          break;
        }
        previous := item;
        item := item.next;
        p := p + 1;
      }
      ghost var q := Position(Items(), key);
      assert q >= p;
    }

    method Prepend(key: int, value: Ref)
      requires Valid()
      modifies this
      ensures Valid() && fresh(repr - old(repr))
      ensures Items() == [Item(key, value)] + old(Items())
    {
      var node := new Node(key, value, head);
      head := node;
      count := count + 1;
      nodes, repr := [node] + nodes, repr + {node};
    }

    /** A key that is already there aborts, and so does removing one that is not: a false result. */
    method Add(key: int, value: Ref) returns (ok: bool)
      requires Valid()
      modifies this
      ensures Valid() && fresh(repr - old(repr))
      ensures ok == !Has(old(Items()), key)
      ensures Items() == if ok then [Item(key, value)] + old(Items()) else old(Items())
    {
      var found, _, _ := Find(key);
      if found != null {
        return false;
      }
      Prepend(key, value);
      return true;
    }

    /** Takes the p-th item out of the chain. */
    method Unlink(item: Node, previous: Node?, ghost p: nat)
      requires Valid() && p < |nodes| && item == nodes[p]
      requires previous == (if p > 0 then nodes[p - 1] else null)
      modifies this, repr
      ensures Valid() && repr == old(repr) && nodes == old(nodes)[..p] + old(nodes)[p + 1..]
      ensures forall n <- old(nodes) :: n.key == old(n.key) && n.value == old(n.value)
    {
      if previous != null {
        previous.next := item.next;
      } else {
        head := item.next;
      }
      count := count - 1;
      nodes := nodes[..p] + nodes[p + 1..];
      assert forall i :: 0 <= i < |nodes| ==> nodes[i] == old(nodes)[if i < p then i else i + 1];
    }

    method Remove(key: int) returns (ok: bool, value: Ref)
      requires Valid()
      modifies this, repr
      ensures Valid() && repr == old(repr)
      ensures ok == Has(old(Items()), key)
      ensures value == if ok then old(Items())[Position(old(Items()), key)].value else NULL
      ensures Items() == if ok then Without(old(Items()), Position(old(Items()), key)) else old(Items())
    {
      var item, previous, p := Find(key);
      if count == 0 || head == null || item == null {
        return false, NULL;
      }
      hide Position, Valid;
      ghost var items := Items();
      assert item == nodes[p];
      Unlink(item, previous, p);
      assert Items() == Without(items, p);
      return true, item.value;
    }

    method Contains(key: int) returns (r: bool)
      requires Valid()
      ensures r == Has(Items(), key)
    {
      if head == null {
        return false;
      }
      var item, _, _ := Find(key);
      r := item != null;
    }

    method GetItem(key: int) returns (r: Ref)
      requires Valid()
      ensures r == if Has(Items(), key) then Items()[Position(Items(), key)].value else NULL
    {
      var item, _, _ := Find(key);
      r := if item != null then item.value else NULL;
    }

    /** The key of the item that a draw below the count picks, in list order. */
    method GetKey(draw: nat) returns (key: int)
      requires Valid() && draw < count
      ensures key == Items()[draw].key
    {
      var iter, countdown := head, draw;
      while countdown != 0
        invariant 0 <= countdown <= draw && iter == nodes[draw - countdown]
      {
        countdown := countdown - 1;
        iter := iter.next;
      }
      key := iter.key;
    }

    /** Renumbers every key from base on, in place; on the way two items may hold the same key. */
    method ShiftKeys(base: int, inc: bool)
      requires Valid()
      modifies repr
      ensures Valid() && Items() == Shifted(old(Items()), base, inc)
    {
      var iter := head;
      ghost var p := 0;
      while iter != null
        invariant p <= |nodes| && Linked()
        invariant iter == (if p < |nodes| then nodes[p] else null)
        invariant forall i :: 0 <= i < |nodes| ==> nodes[i].value == old(nodes[i].value)
        invariant forall i :: p <= i < |nodes| ==> nodes[i].key == old(nodes[i].key)
        invariant forall i :: 0 <= i < p ==> nodes[i].key == Shift(old(Items())[i], base, inc).key
        decreases |nodes| - p
      {
        if iter.key >= base {
          iter.key := iter.key + if inc then 1 else -1;
        }
        iter := iter.next;
        p := p + 1;
      }
    }
  }
}
