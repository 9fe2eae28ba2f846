/** The least-recently-used cache: a map into the nodes of a doubly linked list
    (jubatus/core/common/lru.hpp). */
module Lru {
  import opened Options
  import opened LruMachine
  import opened LruSpec

  class Node {
    const key: Key
    const value: Value
    var prev: Node?
    var next: Node?

    constructor (key: Key, value: Value, prev: Node?)
      ensures this.key == key && this.value == value && this.prev == prev && next == null
    {
      this.key, this.value, this.prev := key, value, prev;
      next := null;
    }
  }

  // ----- lists of nodes

  /** The i-th node, null beyond either end. */
  ghost function At(order: seq<Node>, i: int): Node? {
    if 0 <= i < |order| then order[i] else null
  }

  ghost predicate Distinct(order: seq<Node>) {
    forall i, j :: 0 <= i < j < |order| ==> order[i] != order[j]
  }

  ghost predicate Linked(order: seq<Node>, i: nat)
    requires i < |order|
    reads order
  {
    order[i].prev == At(order, i - 1) && order[i].next == At(order, i + 1)
  }

  /** Links and tail describe one acyclic list with the nodes of order. */
  ghost predicate Whole(order: seq<Node>, tail: Node?)
    reads order
  {
    && Distinct(order)
    && (forall i :: 0 <= i < |order| ==> Linked(order, i))
    && tail == At(order, |order| - 1)
  }

  lemma CutAt(order: seq<Node>, i: nat, j: int)
    requires i < |order|
    ensures At(Cut(order, i), j) == At(order, if j < i then j else j + 1)
  {
  }

  lemma CutDistinct(order: seq<Node>, i: nat)
    requires i < |order| && Distinct(order)
    ensures Distinct(Cut(order, i)) && order[i] !in Cut(order, i)
  {
  }

  ghost function Items(order: seq<Node>): Entries {
    seq(|order|, i requires 0 <= i < |order| => Item(order[i].key, order[i].value))
  }

  ghost predicate Keyed(order: seq<Node>, table: map<Key, Node>, i: nat)
    requires i < |order|
  {
    order[i].key in table && table[order[i].key] == order[i]
  }

  ghost predicate Listed(order: seq<Node>, table: map<Key, Node>, k: Key)
    requires k in table
  {
    table[k] in order && table[k].key == k
  }

  /** The map finds exactly the nodes of the list, each under its key. */
  ghost predicate Mapped(order: seq<Node>, table: map<Key, Node>) {
    && |table| == |order|
    && (forall i :: 0 <= i < |order| ==> Keyed(order, table, i))
    && (forall k {:trigger Listed(order, table, k)} :: k in table ==> Listed(order, table, k))
  }

  lemma CutMembers(order: seq<Node>, i: nat, n: Node)
    requires i < |order| && Distinct(order)
    ensures n in Cut(order, i) <==> n in order && n != order[i]
  {
    CutDistinct(order, i);
    if n in order && n != order[i] {
      var j :| 0 <= j < |order| && order[j] == n;
      assert Cut(order, i)[if j < i then j else j - 1] == n;
    }
  }

  lemma MappedCut(order: seq<Node>, table: map<Key, Node>, i: nat)
    requires Mapped(order, table) && Distinct(order) && i < |order|
    ensures Mapped(Cut(order, i), table - {order[i].key})
  {
    var rest, left := Cut(order, i), table - {order[i].key};
    assert Keyed(order, table, i);
    forall j | 0 <= j < |rest| ensures Keyed(rest, left, j) {
      var l := if j < i then j else j + 1;
      assert rest[j] == order[l] && order[l] != order[i] && Keyed(order, table, l);
    }
    forall k | k in left ensures Listed(rest, left, k) {
      assert Listed(order, table, k);
      CutMembers(order, i, table[k]);
    }
    assert table.Keys == left.Keys + {order[i].key};
  }

  lemma MappedMove(order: seq<Node>, table: map<Key, Node>, i: nat)
    requires Mapped(order, table) && Distinct(order) && i < |order|
    ensures Mapped(Cut(order, i) + [order[i]], table)
  {
    var moved := Cut(order, i) + [order[i]];
    forall j | 0 <= j < |moved| ensures Keyed(moved, table, j) {
      var l := if j == |order| - 1 then i else if j < i then j else j + 1;
      assert moved[j] == order[l] && Keyed(order, table, l);
    }
    forall k | k in table ensures Listed(moved, table, k) {
      assert Listed(order, table, k);
      CutMembers(order, i, table[k]);
    }
  }

  lemma MappedAppend(order: seq<Node>, table: map<Key, Node>, node: Node)
    requires Mapped(order, table) && node.key !in table
    ensures Mapped(order + [node], table[node.key := node])
  {
    var longer, more := order + [node], table[node.key := node];
    forall j | 0 <= j < |longer| ensures Keyed(longer, more, j) {
      assert j < |order| ==> longer[j] == order[j] && Keyed(order, table, j);
    }
    forall k | k in more ensures Listed(longer, more, k) {
      assert k != node.key ==> Listed(order, table, k);
    }
  }

  lemma ItemsCut(order: seq<Node>, i: nat)
    requires i < |order|
    ensures Items(Cut(order, i)) == Cut(Items(order), i) && Items(order)[i] == Item(order[i].key, order[i].value)
  {
  }

  lemma ItemsAppend(rest: seq<Node>, node: Node)
    ensures Items(rest + [node]) == Items(rest) + [Item(node.key, node.value)]
  {
  }

  /** A mapped node is found in the entries where it is in the list. */
  lemma NodeFound(order: seq<Node>, table: map<Key, Node>, i: nat)
    requires Mapped(order, table) && Distinct(order) && i < |order|
    ensures Position(Items(order), order[i].key) == i && Lookup(Items(order), order[i].key) == Some(order[i].value)
  {
    var s := Items(order);
    forall j | 0 <= j < i ensures s[j].key != s[i].key {
      assert order[j] != order[i] && Keyed(order, table, i) && Keyed(order, table, j);
    }
    IndexAt(s, i);
  }

  lemma NotMapped(order: seq<Node>, table: map<Key, Node>, k: Key)
    requires Mapped(order, table) && k !in table
    ensures Lookup(Items(order), k) == None
  {
    forall i | 0 <= i < |order| ensures Items(order)[i].key != k {
      assert Keyed(order, table, i);
    }
    NotAmong(Items(order), k);
    NotFound(Items(order), k);
  }

  /** The next link at position j is as in the list, or skips position i. */
  ghost predicate Next(was: seq<Node>, i: int, skip: bool, j: nat)
    requires j < |was|
    reads was
  {
    was[j].next == if skip && j == i - 1 then At(was, i + 1) else At(was, j + 1)
  }

  ghost predicate Prev(was: seq<Node>, i: int, skip: bool, j: nat)
    requires j < |was|
    reads was
  {
    was[j].prev == if skip && j == i + 1 then At(was, i - 1) else At(was, j - 1)
  }

  ghost predicate Forward(was: seq<Node>, i: int, skip: bool)
    reads was
  {
    forall j :: 0 <= j < |was| ==> Next(was, i, skip, j)
  }

  ghost predicate Backward(was: seq<Node>, i: int, skip: bool)
    reads was
  {
    forall j :: 0 <= j < |was| ==> Prev(was, i, skip, j)
  }

  lemma LinkedBothWays(order: seq<Node>, i: nat, tail: Node?)
    requires Whole(order, tail)
    ensures Distinct(order) && Forward(order, i, false) && Backward(order, i, false)
  {
    forall j | 0 <= j < |order| ensures Next(order, i, false, j) && Prev(order, i, false, j) {
      assert Linked(order, j);
    }
  }

  lemma Bypassed(was: seq<Node>, i: nat)
    requires i < |was| && Forward(was, i, true) && Backward(was, i, true)
    ensures forall j :: 0 <= j < |Cut(was, i)| ==> Linked(Cut(was, i), j)
  {
    var rest := Cut(was, i);
    forall j | 0 <= j < |rest| ensures Linked(rest, j) {
      CutAt(was, i, j - 1);
      CutAt(was, i, j + 1);
      var k := if j < i then j else j + 1;
      assert rest[j] == was[k] && Next(was, i, true, k) && Prev(was, i, true, k);
    }
  }

  /** Once both neighbours skip the i-th node, the others form a list. */
  lemma WholeWithout(was: seq<Node>, i: nat, tail: Node?)
    requires i < |was| && Distinct(was) && Forward(was, i, true) && Backward(was, i, true)
    requires tail == if i == |was| - 1 then At(was, |was| - 2) else was[|was| - 1]
    ensures Whole(Cut(was, i), tail)
  {
    Bypassed(was, i);
    CutDistinct(was, i);
    CutAt(was, i, |was| - 2);
  }

  /** Where the head points. */
  ghost predicate HeadAt(order: seq<Node>, head: Node?, place: Head) {
    match place
    case Place(h) => h <= |order| && head == At(order, h)
    case Deleted => head != null && head !in order
  }

  /** Taking out the i-th node moves the head on only from the first node. */
  lemma HeadPassed(order: seq<Node>, was: Node?, head: Node?, place: Head, i: nat)
    requires i < |order| && Distinct(order) && HeadAt(order, was, place)
    requires head == if i == 0 && was == order[0] then At(order, 1) else was
    ensures HeadAt(Cut(order, i), head, if place.Deleted? then Deleted else HeadWithout(place.at, i))
  {
    CutDistinct(order, i);
    if place.Place? {
      CutAt(order, i, place.at - 1);
      CutAt(order, i, place.at);
    }
  }

  /** Putting it last again leaves no head where there was none. */
  lemma HeadTouched(order: seq<Node>, was: Node?, head: Node?, place: Head, i: nat)
    requires i < |order| && Distinct(order) && HeadAt(order, was, place)
    requires head == if i == 0 && was == order[0] then At(order, 1) else was
    ensures HeadAt(Cut(order, i) + [order[i]], head,
                   if place.Deleted? then Deleted else Place(HeadAfterTouch(place.at, i, |order|)))
  {
    HeadPassed(order, was, head, place, i);
    CutDistinct(order, i);
  }

  lemma HeadAppended(order: seq<Node>, head: Node?, place: Head, node: Node)
    requires HeadAt(order, head, place) && node !in order && head != node
    ensures HeadAt(order + [node], if head == null then node else head, place)
  {
  }

  class Lru {
    const maxSize: int
    var table: map<Key, Node>
    var head: Node?
    var tail: Node?
    ghost var order: seq<Node>
    ghost var place: Head

    /** What holds in every state: the links, the tail and the map describe one list; the head may be lost. */
    ghost predicate Linking()
      reads this, order
    {
      Whole(order, tail) && Mapped(order, table) && HeadAt(order, head, place)
    }

    /** The head is the first node. */
    ghost predicate Valid()
      reads this, order
    {
      Linking() && place == Place(0)
    }

    ghost function View(): Links
      reads this
    {
      Links(Items(order), place)
    }

    constructor (size: int)
      ensures Valid() && maxSize == size && View() == EMPTY && order == []
    {
      maxSize := size;
      table, head, tail, order, place := map[], null, null, [], Place(0);
    }

    method Has(key: Key) returns (found: bool)
      ensures found == (key in table)
    {
      found := key in table;
    }

    /** The first half of remove_link. */
    method SkipForward(node: Node, ghost i: nat)
      requires Distinct(order) && i < |order| && order[i] == node
      requires Forward(order, i, false) && Backward(order, i, false)
      modifies this`head, order
      ensures Forward(order, i, true) && Backward(order, i, false)
      ensures head == if i == 0 && old(head) == node then At(order, 1) else old(head)
      ensures tail == old(tail) && table == old(table) && order == old(order) && place == old(place)
    {
      assert Next(order, i, false, i) && Prev(order, i, false, i);
      if node.prev != null {
        node.prev.next := node.next;
      } else if head == node {
        head := node.next;
      }
      forall j | 0 <= j < |order| ensures Next(order, i, true, j) && Prev(order, i, false, j) {
        assert old(Next(order, i, false, j) && Prev(order, i, false, j));
      }
    }

    /** The second half of remove_link. */
    method SkipBackward(node: Node, ghost i: nat)
      requires Distinct(order) && i < |order| && order[i] == node && tail == order[|order| - 1]
      requires Forward(order, i, true) && Backward(order, i, false)
      modifies this`tail, order
      ensures Forward(order, i, true) && Backward(order, i, true)
      ensures tail == if i == |order| - 1 then At(order, |order| - 2) else old(tail)
      ensures head == old(head) && table == old(table) && order == old(order) && place == old(place)
    {
      assert Next(order, i, true, i) && Prev(order, i, false, i);
      if node.next != null {
        node.next.prev := node.prev;
      } else if tail == node {
        tail := node.prev;
      }
      forall j | 0 <= j < |order| ensures Next(order, i, true, j) && Prev(order, i, true, j) {
        assert old(Next(order, i, true, j) && Prev(order, i, false, j));
      }
    }

    /** remove_link */
    method RemoveLink(node: Node, ghost i: nat)
      requires Whole(order, tail) && i < |order| && order[i] == node
      modifies this`head, this`tail, this`order, order
      ensures Whole(order, tail) && order == Cut(old(order), i)
      ensures head == if i == 0 && old(head) == node then At(old(order), 1) else old(head)
      ensures table == old(table) && place == old(place)
    {
      LinkedBothWays(order, i, tail);
      SkipForward(node, i);
      SkipBackward(node, i);
      WholeWithout(order, i, tail);
      order := Cut(order, i);
    }

    /** The rest of the private touch: the node becomes the last one, and head is not set. */
    method LinkLast(node: Node)
      requires Whole(order, tail) && node !in order
      modifies this`tail, this`order, order, node
      ensures Whole(order, tail) && order == old(order) + [node]
      ensures head == old(head) && table == old(table) && place == old(place)
    {
      ghost var rest := order;
      assert rest != [] ==> tail in rest && Linked(rest, |rest| - 1);
      if tail != null {
        tail.next := node;
      }
      node.prev := tail;
      node.next := null;
      tail := node;
      order := order + [node];
      forall j | 0 <= j < |order| ensures Linked(order, j) {
        assert j < |rest| ==> old(Linked(rest, j));
      }
    }

    /** The private touch, on a node of the list. */
    method TouchNode(node: Node, ghost i: nat)
      requires Linking() && i < |order| && order[i] == node
      modifies this`head, this`tail, this`order, this`place, order
      ensures Linking() && order == Cut(old(order), i) + [node] && table == old(table)
      ensures old(place).Deleted? ==> place == Deleted
      ensures old(place).Place? ==> place == Place(HeadAfterTouch(old(place).at, i, |old(order)|))
    {
      ghost var n, next := |order|, if i == 0 && head == node then At(order, 1) else head;
      CutDistinct(order, i);
      MappedMove(order, table, i);
      HeadTouched(order, head, next, place, i);
      RemoveLink(node, i);
      LinkLast(node);
      place := if place.Deleted? then Deleted else Place(HeadAfterTouch(place.at, i, n));
    }

    /** The position of a mapped key. */
    ghost method Find(key: Key) returns (i: nat)
      requires Mapped(order, table) && key in table
      ensures i < |order| && order[i] == table[key] && order[i].key == key
    {
      assert Listed(order, table, key);
      i :| 0 <= i < |order| && order[i] == table[key];
    }

    /** The public touch. */
    method Touch(key: Key)
      requires Linking()
      modifies this`head, this`tail, this`order, this`place, order
      ensures Linking() && View() == TouchLinks(old(View()), key)
      ensures table == old(table) && forall i :: 0 <= i < |order| ==> order[i] in old(order)
    {
      if key in table {
        ghost var i := Find(key);
        NodeFound(order, table, i);
        TouchFound(table[key], i);
      } else {
        NotMapped(order, table, key);
      }
    }

    method TouchFound(node: Node, ghost i: nat)
      requires Linking() && i < |order| && order[i] == node && Position(Items(order), node.key) == i
      requires Lookup(Items(order), node.key).Some?
      modifies this`head, this`tail, this`order, this`place, order
      ensures Linking() && View() == TouchLinks(old(View()), node.key)
      ensures table == old(table) && forall i :: 0 <= i < |order| ==> order[i] in old(order)
    {
      ghost var was := order;
      ItemsCut(order, i);
      ItemsAppend(Cut(order, i), node);
      TouchNode(node, i);
    }

    /** None where the source throws. */
    method Get(key: Key) returns (value: Option<Value>)
      requires Linking()
      modifies this`head, this`tail, this`order, this`place, order
      ensures Linking() && View() == TouchLinks(old(View()), key) && value == Lookup(old(Items(order)), key)
      ensures table == old(table) && forall i :: 0 <= i < |order| ==> order[i] in old(order)
    {
      if key !in table {
        NotMapped(order, table, key);
        return None;
      }
      ghost var i := Find(key);
      NodeFound(order, table, i);
      TouchFound(table[key], i);
      value := Some(table[key].value);
    }

    method RemoveFound(node: Node, ghost i: nat)
      requires Linking() && i < |order| && order[i] == node
      modifies this`table, this`head, this`tail, this`order, this`place, order
      ensures Linking() && order == Cut(old(order), i) && table == old(table) - {node.key} && node.key in old(table)
      ensures View() == RemoveAt(old(View()), i)
    {
      ghost var next := if i == 0 && head == node then At(order, 1) else head;
      assert Keyed(order, table, i);
      MappedCut(order, table, i);
      ItemsCut(order, i);
      HeadPassed(order, head, next, place, i);
      table := table - {node.key};
      RemoveLink(node, i);
      place := if place.Deleted? then Deleted else HeadWithout(place.at, i);
    }

    method Remove(key: Key)
      requires Linking()
      modifies this`table, this`head, this`tail, this`order, this`place, order
      ensures Linking() && View() == RemoveLinks(old(View()), key)
      ensures table.Keys == old(table).Keys - {key} && forall i :: 0 <= i < |order| ==> order[i] in old(order)
    {
      if key in table {
        ghost var i := Find(key);
        NodeFound(order, table, i);
        RemoveFound(table[key], i);
      } else {
        NotMapped(order, table, key);
      }
    }

    method Clear()
      modifies this`table, this`head, this`tail, this`order, this`place
      ensures Valid() && View() == EMPTY && order == []
    {
      table := map[];
      head, tail, order, place := null, null, [], Place(0);
    }

    /** Does the head still point to a node of the map? Stands for reading a node that was not deleted. */
    method HeadIsAlive() returns (alive: bool)
      requires Linking() && head != null
      ensures alive <==> place.Place?
      ensures alive ==> place.at < |order| && order[place.at] == head && head.key in table
    {
      alive := head.key in table && table[head.key] == head;
      if place.Place? {
        assert Keyed(order, table, place.at);
      } else if head.key in table {
        assert Listed(order, table, head.key);
      }
    }

    /** The loop of set; false when it reads a deleted node. */
    method MakeSpace(ghost key: Key) returns (ok: bool)
      requires Linking() && key !in table
      modifies this`table, this`head, this`tail, this`order, this`place, order
      ensures ok <==> Evict(old(View()), maxSize).Links?
      ensures ok ==> Linking() && View() == Evict(old(View()), maxSize) && key !in table
      ensures ok ==> forall i :: 0 <= i < |order| ==> order[i] in old(order)
    {
      while |table| >= maxSize && head != null
        invariant Linking() && Evict(View(), maxSize) == Evict(old(View()), maxSize) && key !in table
        invariant forall i :: 0 <= i < |order| ==> order[i] in old(order)
        decreases |table|
      {
        var alive := HeadIsAlive();
        if !alive {
          return false;
        }
        NodeFound(order, table, place.at);
        Remove(head.key);
      }
      ok := true;
    }

    /** The end of set: the new node goes last, and becomes the head when there is none. */
    method LinkNew(node: Node)
      requires Whole(order, tail) && node !in order && node.prev == tail && node.next == null
      modifies this`head, this`tail, this`order, order
      ensures Whole(order, tail) && order == old(order) + [node]
      ensures head == if old(head) == null then node else old(head)
      ensures table == old(table) && place == old(place)
    {
      ghost var rest := order;
      assert rest != [] ==> tail in rest && Linked(rest, |rest| - 1);
      if head == null {
        head := node;
      }
      if tail != null {
        tail.next := node;
      }
      tail := node;
      order := order + [node];
      forall j | 0 <= j < |order| ensures Linked(order, j) {
        assert j < |rest| ==> old(Linked(rest, j));
      }
    }

    method AddNode(key: Key, value: Value)
      requires Linking() && key !in table
      modifies this`table, this`head, this`tail, this`order, order
      ensures Linking() && View() == Links(old(Items(order)) + [Item(key, value)], old(place)) && key in table
      ensures table[key].value == value && forall i :: 0 <= i < |order| ==> order[i] in old(order) || fresh(order[i])
    {
      var node := new Node(key, value, tail);
      HeadAppended(order, head, place, node);
      MappedAppend(order, table, node);
      ItemsAppend(order, node);
      table := table[key := node];
      LinkNew(node);
    }

    /** set; false when it reads a deleted node. */
    method Set(key: Key, value: Value) returns (ok: bool)
      requires Linking()
      modifies this`table, this`head, this`tail, this`order, this`place, order
      ensures ok <==> SetLinks(old(View()), maxSize, key, value).Links?
      ensures ok ==> Linking() && View() == SetLinks(old(View()), maxSize, key, value) && key in table
      ensures ok ==> forall i :: 0 <= i < |order| ==> order[i] in old(order) || fresh(order[i])
    {
      var known := Has(key);
      if known {
        ghost var i := Find(key);
        NodeFound(order, table, i);
        return true;
      }
      NotMapped(order, table, key);
      ok := MakeSpace(key);
      if ok {
        AddNode(key, value);
      }
    }

    /** operator[], with the default value for a new key; false when set reads a deleted node. */
    method Index(key: Key) returns (ok: bool, value: Value)
      requires Linking()
      modifies this`table, this`head, this`tail, this`order, this`place, order
      ensures old(Lookup(Items(order), key)).Some? ==>
        ok && Linking() && View() == TouchLinks(old(View()), key) && Some(value) == Lookup(old(Items(order)), key)
      ensures old(Lookup(Items(order), key)).None? ==>
        (ok <==> SetLinks(old(View()), maxSize, key, 0).Links?)
        && (ok ==> Linking() && View() == SetLinks(old(View()), maxSize, key, 0) && value == 0)
    {
      if key in table {
        ghost var i := Find(key);
        NodeFound(order, table, i);
        TouchFound(table[key], i);
        return true, table[key].value;
      }
      NotMapped(order, table, key);
      ok := MakeSpace(key);
      value := 0;
      if ok {
        AddNode(key, 0);
        value := table[key].value;
      }
    }

    /** One operation of a run; false when it reads a deleted node. */
    method Do(op: Op) returns (ok: bool)
      requires Linking()
      modifies this`table, this`head, this`tail, this`order, this`place, order
      ensures ok <==> StepLinks(old(View()), maxSize, op).Links?
      ensures ok ==> Linking() && View() == StepLinks(old(View()), maxSize, op)
      ensures ok ==> forall i :: 0 <= i < |order| ==> order[i] in old(order) || fresh(order[i])
    {
      ok := true;
      match op {
        case Set(k, v) => ok := Set(k, v);
        case Get(k) => Touch(k);
        case Remove(k) => Remove(k);
        case Clear => Clear();
      }
    }
  }

  /** Runs a sequence of operations on a new cache. */
  method Drive(size: int, ops: seq<Op>) returns (c: Lru, ok: bool)
    ensures c.maxSize == size && (ok <==> RunLinks(EMPTY, size, ops).Links?)
    ensures ok ==> c.Linking() && c.View() == RunLinks(EMPTY, size, ops)
    ensures HitsTwo([], size, ops) ==> ok && c.Valid() && Items(c.order) == Run([], size, ops)
    ensures AlwaysWhole(EMPTY, size, ops) <==> HitsTwo([], size, ops)
  {
    c := new Lru(size);
    ok := true;
    for i := 0 to |ops|
      invariant fresh(c) && c.maxSize == size && forall j :: 0 <= j < |c.order| ==> fresh(c.order[j])
      invariant ok ==> c.Linking() && RunLinks(c.View(), size, ops[i..]) == RunLinks(EMPTY, size, ops)
      invariant !ok ==> RunLinks(EMPTY, size, ops) == Broken
    {
      assert ops[i..][0] == ops[i] && ops[i..][1..] == ops[i + 1..];
      if ok {
        ok := c.Do(ops[i]);
        if !ok {
          BrokenStays(size, ops[i + 1..]);
          break;
        }
      }
    }
    WholeIff([], size, ops);
    if HitsTwo([], size, ops) {
      RunsAgree([], size, ops);
    }
  }
}
