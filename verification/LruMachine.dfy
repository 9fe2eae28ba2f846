/** What the links of the least-recently-used cache do in every state, also after the head was lost
    (jubatus/core/common/lru.hpp). The address of a deleted node is taken not to be used again. */
module LruMachine {
  import opened Options
  import opened LruSpec

  /** Where head_ points: to the node at a position, past the last one when it is null, or to a deleted node. */
  datatype Head = Place(at: nat) | Deleted

  /** The nodes in the order of their links; broken once a deleted node was read. */
  datatype Links = Links(items: Entries, head: Head) | Broken

  const EMPTY := Links([], Place(0))

  function Cut<T>(s: seq<T>, i: nat): seq<T>
    requires i < |s|
  {
    s[..i] + s[i + 1..]
  }

  /** The position of a key, the length without one. */
  function Position(s: Entries, k: Key): (i: nat)
    ensures i <= |s| && (i < |s| <==> Lookup(s, k).Some?) && (i < |s| ==> s[i] == Item(k, Lookup(s, k).value))
  {
    if s == [] || s[0].key == k then 0 else 1 + Position(s[1..], k)
  }

  /** Where a head at h is once the node at i was taken out; only the first node passes the head on. */
  function HeadWithout(h: nat, i: nat): Head {
    if i < h then Place(h - 1) else if i == h && 0 < i then Deleted else Place(h)
  }

  /** Where it is once the node at i of n was put last: touch never sets the head, so none stays none. */
  function HeadAfterTouch(h: nat, i: nat, n: nat): nat
    requires i < n
  {
    if i == h && 0 < i then n - 1
    else
      var at := if i < h then h - 1 else h;
      if at == n - 1 then n else at
  }

  function TouchLinks(s: Links, k: Key): Links {
    if s.Broken? || Lookup(s.items, k).None? then s
    else
      var i := Position(s.items, k);
      Links(Cut(s.items, i) + [s.items[i]],
            if s.head.Deleted? then Deleted else Place(HeadAfterTouch(s.head.at, i, |s.items|)))
  }

  function RemoveAt(s: Links, i: nat): Links
    requires s.Links? && i < |s.items|
  {
    Links(Cut(s.items, i), if s.head.Deleted? then Deleted else HeadWithout(s.head.at, i))
  }

  function RemoveLinks(s: Links, k: Key): Links {
    if s.Broken? || Lookup(s.items, k).None? then s else RemoveAt(s, Position(s.items, k))
  }

  /** The eviction loop: ends without a head, and reads the key of whatever the head points to. */
  function Evict(s: Links, max: int): Links
    decreases if s.Broken? then 0 else |s.items|
  {
    if s.Broken? || |s.items| < max || s.head == Place(|s.items|) then s
    else if s.head.Deleted? then Broken
    else if s.head.at < |s.items| then Evict(RemoveAt(s, s.head.at), max)
    else s
  }

  /** A new last node becomes the head where there is none: position |items| is then its own. */
  function SetLinks(s: Links, max: int, k: Key, v: Value): Links {
    if s.Broken? || Lookup(s.items, k).Some? then s
    else
      var left := Evict(s, max);
      if left.Broken? then Broken else left.(items := left.items + [Item(k, v)])
  }

  function StepLinks(s: Links, max: int, op: Op): Links {
    if s.Broken? then Broken
    else
      match op
      case Set(k, v) => SetLinks(s, max, k, v)
      case Get(k) => TouchLinks(s, k)
      case Remove(k) => RemoveLinks(s, k)
      case Clear => EMPTY
  }

  function RunLinks(s: Links, max: int, ops: seq<Op>): Links
    decreases ops
  {
    if ops == [] then s else RunLinks(StepLinks(s, max, ops[0]), max, ops[1..])
  }

  lemma {:induction false} BrokenStays(max: int, ops: seq<Op>)
    ensures RunLinks(Broken, max, ops) == Broken
    decreases ops
  {
    if ops != [] {
      BrokenStays(max, ops[1..]);
    }
  }

  // ----- when the links are the list that LruSpec speaks of

  predicate IsWhole(s: Links) {
    s.Links? && s.head == Place(0)
  }

  /** A touch of the only entry. */
  predicate LoneHit(s: Entries, op: Op) {
    op.Get? && Lookup(s, op.key).Some? && |s| == 1
  }

  /** Every hit of the run finds at least two entries. */
  predicate HitsTwo(s: Entries, max: int, ops: seq<Op>)
    decreases ops
  {
    ops == [] || (!LoneHit(s, ops[0]) && HitsTwo(Step(s, max, ops[0]), max, ops[1..]))
  }

  /** The links describe a whole list after every operation of the run. */
  predicate AlwaysWhole(s: Links, max: int, ops: seq<Op>)
    decreases ops
  {
    IsWhole(s) && (ops == [] || AlwaysWhole(StepLinks(s, max, ops[0]), max, ops[1..]))
  }

  lemma {:induction false} IndexAt(s: Entries, i: nat)
    requires i < |s| && forall j :: 0 <= j < i ==> s[j].key != s[i].key
    ensures Position(s, s[i].key) == i && Lookup(s, s[i].key) == Some(s[i].value)
  {
    if i > 0 {
      IndexAt(s[1..], i - 1);
    }
  }

  lemma CutBehind(s: Entries, i: nat)
    requires i + 1 < |s|
    ensures Cut(s, i + 1) == [s[0]] + Cut(s[1..], i)
  {
  }

  lemma {:induction false} CutIsDrop(s: Entries, k: Key)
    requires Lookup(s, k).Some?
    ensures Drop(s, k) == Cut(s, Position(s, k))
  {
    if s[0].key != k {
      CutIsDrop(s[1..], k);
      CutBehind(s, Position(s[1..], k));
    }
  }

  lemma {:induction false} DropMissing(s: Entries, k: Key)
    requires Lookup(s, k).None?
    ensures Drop(s, k) == s
  {
    if s != [] {
      DropMissing(s[1..], k);
    }
  }

  lemma {:induction false} EvictWhole(s: Entries, max: int)
    ensures Evict(Links(s, Place(0)), max) == Links(Evicted(s, max), Place(0))
    decreases |s|
  {
    if |s| >= max && s != [] {
      EvictWhole(s[1..], max);
      assert Cut(s, 0) == s[1..];
    }
  }

  /** One operation on a whole list: the step of LruSpec, except that touching the only entry loses the head. */
  lemma StepWhole(s: Entries, max: int, op: Op)
    ensures StepLinks(Links(s, Place(0)), max, op)
         == Links(Step(s, max, op), Place(if LoneHit(s, op) then 1 else 0))
  {
    match op
    case Set(k, v) => EvictWhole(s, max);
    case Get(k) =>
      if Lookup(s, k).Some? {
        CutIsDrop(s, k);
      }
    case Remove(k) =>
      if Lookup(s, k).Some? {
        CutIsDrop(s, k);
      } else {
        DropMissing(s, k);
      }
    case Clear =>
  }

  /** The list stays whole over a run if and only if every hit finds at least two entries. */
  lemma {:induction false} WholeIff(s: Entries, max: int, ops: seq<Op>)
    ensures AlwaysWhole(Links(s, Place(0)), max, ops) <==> HitsTwo(s, max, ops)
    decreases ops
  {
    if ops != [] {
      StepWhole(s, max, ops[0]);
      if !LoneHit(s, ops[0]) {
        WholeIff(Step(s, max, ops[0]), max, ops[1..]);
      }
    }
  }

  /** Over such runs the links are the list of LruSpec. */
  lemma {:induction false} RunsAgree(s: Entries, max: int, ops: seq<Op>)
    requires HitsTwo(s, max, ops)
    ensures RunLinks(Links(s, Place(0)), max, ops) == Links(Run(s, max, ops), Place(0))
    decreases ops
  {
    if ops != [] {
      StepWhole(s, max, ops[0]);
      RunsAgree(Step(s, max, ops[0]), max, ops[1..]);
    }
  }

  /** From the empty cache, over every run whose hits find at least two entries: the entries are those of a
      cache that pushes out the oldest use, in the order of their last use, and never too many. */
  lemma RunsAreOrderedByUse(max: int, ops: seq<Op>)
    requires HitsTwo([], max, ops)
    ensures var s, c := RunLinks(EMPTY, max, ops), RefRun(Cache(0, map[]), max, ops);
            && IsWhole(s) && Ordered(s.items, c.entries) && (1 <= max ==> |s.items| <= max)
            && forall k :: Lookup(s.items, k) == if k in c.entries then Some(c.entries[k].value) else None
  {
    RunsAgree([], max, ops);
    RunRefines([], Cache(0, map[]), max, ops);
    if 1 <= max {
      RunFits([], max, ops);
    }
    var c := RefRun(Cache(0, map[]), max, ops);
    forall k { SameAnswers(Run([], max, ops), c.entries, k); }
  }

  /** After such a run, setting a new key in a full cache pushes out the entry whose last use is longest ago,
      and no other. */
  lemma FullSetEvictsOldest(max: int, ops: seq<Op>, k: Key, v: Value)
    requires HitsTwo([], max, ops) && 1 <= max
    requires var s := RunLinks(EMPTY, max, ops); s.Links? ==> |s.items| == max && Lookup(s.items, k).None?
    ensures var s := RunLinks(EMPTY, max, ops);
            && s.Links? && s.items != []
            && IsOldest(RefRun(Cache(0, map[]), max, ops).entries, s.items[0].key)
            && StepLinks(s, max, Set(k, v)) == Links(s.items[1..] + [Item(k, v)], Place(0))
  {
    RunsAgree([], max, ops);
    RunRefines([], Cache(0, map[]), max, ops);
    var items, c := Run([], max, ops), RefRun(Cache(0, map[]), max, ops);
    OldestIsFirst(items, c.entries);
    StepWhole(items, max, Set(k, v));
    SetEvictsOne(items, max, k, v);
  }

  // ----- how far a lost head goes

  lemma {:induction false} EvictFits(s: Links, max: int)
    requires s.Links? && (s.head.Place? ==> s.head.at <= |s.items|)
    ensures var t := Evict(s, max);
            t.Broken? || ((t.head.Place? ==> t.head.at <= |t.items|) && |t.items| <= |s.items|
                          && (|t.items| < max || t.head == Place(|t.items|)))
    decreases |s.items|
  {
    if |s.items| >= max && s.head.Place? && s.head.at < |s.items| {
      EvictFits(RemoveAt(s, s.head.at), max);
    }
  }

  /** A null head comes with at most one node; the size exceeds the capacity at most by one, and only to two. */
  predicate Bounded(s: Links, max: int) {
    s.Links? ==>
      && (s.head.Place? ==> s.head.at <= |s.items|)
      && (s.head == Place(|s.items|) ==> |s.items| <= 1)
      && |s.items| <= if max < 2 then 2 else max
  }

  lemma StepBounded(s: Links, max: int, op: Op)
    requires Bounded(s, max)
    ensures Bounded(StepLinks(s, max, op), max)
  {
    if s.Links? && op.Set? {
      EvictFits(s, max);
      EvictKeepsNull(s, max);
    }
  }

  lemma {:induction false} EvictKeepsNull(s: Links, max: int)
    requires Bounded(s, max) && s.Links?
    ensures Evict(s, max).Links? && Evict(s, max).head == Place(|Evict(s, max).items|) ==> |Evict(s, max).items| <= 1
    decreases |s.items|
  {
    if |s.items| >= max && s.head.Place? && s.head.at < |s.items| {
      EvictKeepsNull(RemoveAt(s, s.head.at), max);
    }
  }

  /** In every run, whatever is hit, there are at most as many entries as allowed, or two at capacity 1. */
  lemma {:induction false} RunBounded(s: Links, max: int, ops: seq<Op>)
    requires Bounded(s, max)
    ensures Bounded(RunLinks(s, max, ops), max)
    decreases ops
  {
    if ops != [] {
      StepBounded(s, max, ops[0]);
      RunBounded(StepLinks(s, max, ops[0]), max, ops[1..]);
    }
  }

  /** Setting a new key in a full cache whose head is not its first node deletes the node at the head and leaves
      the head pointing there, or reads it at once when that was not enough; with such a head it is read. */
  lemma EvictingLostHead(s: Links, max: int, k: Key, v: Value)
    requires s.Links? && Lookup(s.items, k).None? && |s.items| >= max
    requires s.head.Deleted? || 0 < s.head.at < |s.items|
    ensures var t := SetLinks(s, max, k, v);
            if s.head.Deleted? || |s.items| > max then t.Broken?
            else t == Links(Cut(s.items, s.head.at) + [Item(k, v)], Deleted)
  {
    if s.head.Place? {
      var left := RemoveAt(s, s.head.at);
      assert Evict(s, max) == Evict(left, max) && left.head == Deleted;
      assert Evict(left, max) == if |left.items| < max then left else Broken;
    }
  }

  lemma {:induction false} RunMore(s: Links, max: int, ops: seq<Op>, op: Op)
    ensures RunLinks(s, max, ops + [op]) == StepLinks(RunLinks(s, max, ops), max, op)
    decreases ops
  {
    if ops == [] {
      assert RunLinks(StepLinks(s, max, op), max, []) == StepLinks(s, max, op);
      assert ([] + [op])[1..] == [];
    } else {
      assert (ops + [op])[1..] == ops[1..] + [op];
      RunMore(StepLinks(s, max, ops[0]), max, ops[1..], op);
    }
  }

  lemma LostHeadStart(max: int, a: Key, b: Key, v: Value)
    requires a != b && 1 <= max
    ensures RunLinks(EMPTY, max, [Set(a, v), Get(a), Set(b, v)]) == Links([Item(a, v), Item(b, v)], Place(1))
  {
    var one, lone := Links([Item(a, v)], Place(0)), Links([Item(a, v)], Place(1));
    var first: seq<Op>, second := [Set(a, v)], [Set(a, v), Get(a)];
    RunMore(EMPTY, max, [], Set(a, v));
    assert [] + [Set(a, v)] == first && RunLinks(EMPTY, max, first) == one;
    RunMore(EMPTY, max, first, Get(a));
    assert first + [Get(a)] == second && RunLinks(EMPTY, max, second) == lone;
    RunMore(EMPTY, max, second, Set(b, v));
    assert second + [Set(b, v)] == [Set(a, v), Get(a), Set(b, v)];
    assert Lookup(lone.items, b) == None && Evict(lone, max) == lone;
    assert lone.items + [Item(b, v)] == [Item(a, v), Item(b, v)];
  }

  /** Touch the only entry, then set new keys. At capacity 1 there are two entries after the first set, and the
      second reads a deleted node; at capacity 2 the second set deletes the node at the head and the third reads it. */
  lemma LostHeadRuns(a: Key, b: Key, c: Key, d: Key, v: Value)
    requires a != b && a != c && b != c && d != a && d != c
    ensures var ops := [Set(a, v), Get(a), Set(b, v)];
            && RunLinks(EMPTY, 1, ops) == Links([Item(a, v), Item(b, v)], Place(1))
            && RunLinks(EMPTY, 1, ops + [Set(c, v)]) == Broken
            && RunLinks(EMPTY, 2, ops + [Set(c, v)]) == Links([Item(a, v), Item(c, v)], Deleted)
            && RunLinks(EMPTY, 2, ops + [Set(c, v)] + [Set(d, v)]) == Broken
  {
    var ops := [Set(a, v), Get(a), Set(b, v)];
    var two, lost := Links([Item(a, v), Item(b, v)], Place(1)), Links([Item(a, v), Item(c, v)], Deleted);
    LostHeadStart(1, a, b, v);
    LostHeadStart(2, a, b, v);
    RunMore(EMPTY, 1, ops, Set(c, v));
    RunMore(EMPTY, 2, ops, Set(c, v));
    RunMore(EMPTY, 2, ops + [Set(c, v)], Set(d, v));
    LookupTwo(Item(a, v), Item(b, v), c);
    EvictingLostHead(two, 1, c, v);
    EvictingLostHead(two, 2, c, v);
    assert Cut(two.items, 1) == [Item(a, v)];
    LookupTwo(Item(a, v), Item(c, v), d);
    EvictingLostHead(lost, 2, d, v);
  }

  lemma LookupTwo(x: Item, y: Item, k: Key)
    requires x.key != k && y.key != k
    ensures Lookup([x, y], k) == None
  {
    assert [x, y][1..] == [y];
    assert Lookup([y], k) == None;
  }
}
