/** What the least-recently-used cache promises: its entries in order of last use, and the same cache told
    by the time of each entry's last use (jubatus/core/common/lru.hpp). */
module LruSpec {
  import opened Options

  type Key = nat
  type Value = int

  datatype Item = Item(key: Key, value: Value)

  /** Least recently used first. */
  type Entries = seq<Item>

  function Lookup(s: Entries, k: Key): Option<Value> {
    if s == [] then None else if s[0].key == k then Some(s[0].value) else Lookup(s[1..], k)
  }

  function Drop(s: Entries, k: Key): Entries {
    if s == [] then [] else if s[0].key == k then s[1..] else [s[0]] + Drop(s[1..], k)
  }

  function Touched(s: Entries, k: Key): Entries {
    if Lookup(s, k).None? then s else Drop(s, k) + [Item(k, Lookup(s, k).value)]
  }

  function Evicted(s: Entries, max: int): Entries {
    if |s| >= max && s != [] then Evicted(s[1..], max) else s
  }

  function Put(s: Entries, max: int, k: Key, v: Value): Entries {
    if Lookup(s, k).Some? then s else Evicted(s, max) + [Item(k, v)]
  }

  datatype Op = Set(key: Key, value: Value) | Get(key: Key) | Remove(key: Key) | Clear

  /** Get stands for get and touch: both move a hit entry to the end. */
  function Step(s: Entries, max: int, op: Op): Entries {
    match op
    case Set(k, v) => Put(s, max, k, v)
    case Get(k) => Touched(s, k)
    case Remove(k) => Drop(s, k)
    case Clear => []
  }

  // ----- the reference: a map with the time of each last use

  datatype Used = Used(value: Value, at: nat)

  datatype Cache = Cache(now: nat, entries: map<Key, Used>)

  ghost predicate IsOldest(m: map<Key, Used>, k: Key) {
    k in m && forall j :: j in m ==> m[k].at <= m[j].at
  }

  lemma {:induction false} SomeOldest(m: map<Key, Used>)
    requires m != map[]
    ensures exists k :: IsOldest(m, k)
    decreases |m|
  {
    var k :| k in m;
    var rest := m - {k};
    assert forall j :: j in m && j != k ==> j in rest && rest[j] == m[j];
    if rest == map[] {
      assert IsOldest(m, k);
    } else {
      SomeOldest(rest);
      var o :| IsOldest(rest, o);
      if m[k].at <= m[o].at {
        assert IsOldest(m, k);
      } else {
        assert IsOldest(m, o);
      }
    }
  }

  ghost function Oldest(m: map<Key, Used>): (k: Key)
    requires m != map[]
    ensures IsOldest(m, k)
  {
    SomeOldest(m);
    var k :| IsOldest(m, k);
    k
  }

  ghost function MakeRoom(m: map<Key, Used>, max: int): map<Key, Used>
    decreases |m|
  {
    if |m| >= max && m != map[] then MakeRoom(m - {Oldest(m)}, max) else m
  }

  /** A new key pushes out the keys whose last use is longest ago; a known key is left alone. */
  ghost function RefStep(c: Cache, max: int, op: Op): Cache {
    Cache(c.now + 1,
          match op
          case Set(k, v) => if k in c.entries then c.entries else MakeRoom(c.entries, max)[k := Used(v, c.now)]
          case Get(k) => if k in c.entries then c.entries[k := c.entries[k].(at := c.now)] else c.entries
          case Remove(k) => c.entries - {k}
          case Clear => map[])
  }

  function Keys(s: Entries): set<Key> {
    if s == [] then {} else {s[0].key} + Keys(s[1..])
  }

  /** The list holds the map's entries, in strictly increasing order of last use. */
  ghost predicate Ordered(s: Entries, m: map<Key, Used>) {
    |s| == |m| && Keys(s) == m.Keys && Values(s, m) && Rising(s, m)
  }

  ghost predicate Past(c: Cache) {
    forall k :: k in c.entries ==> c.entries[k].at < c.now
  }

  lemma {:induction false} KeyAt(s: Entries, i: nat)
    requires i < |s|
    ensures s[i].key in Keys(s)
  {
    if i > 0 {
      KeyAt(s[1..], i - 1);
    }
  }

  lemma {:induction false} Found(s: Entries, k: Key) returns (i: nat)
    requires k in Keys(s)
    ensures i < |s| && s[i].key == k && Lookup(s, k) == Some(s[i].value) && Drop(s, k) == s[..i] + s[i + 1..]
  {
    if s[0].key == k {
      i := 0;
    } else {
      i := Found(s[1..], k);
      i := i + 1;
    }
  }

  lemma {:induction false} NotFound(s: Entries, k: Key)
    requires k !in Keys(s)
    ensures Lookup(s, k) == None && Drop(s, k) == s
  {
    if s != [] {
      NotFound(s[1..], k);
    }
  }

  lemma {:induction false} KeysOfJoin(a: Entries, b: Entries)
    ensures Keys(a + b) == Keys(a) + Keys(b)
  {
    if a == [] {
      assert a + b == b;
    } else {
      KeysOfJoin(a[1..], b);
      assert (a + b)[1..] == a[1..] + b;
    }
  }

  ghost predicate Values(s: Entries, m: map<Key, Used>) {
    forall i :: 0 <= i < |s| ==> s[i].key in m && m[s[i].key].value == s[i].value
  }

  ghost predicate Rising(s: Entries, m: map<Key, Used>)
    requires Values(s, m)
  {
    forall i, j :: 0 <= i < j < |s| ==> m[s[i].key].at < m[s[j].key].at
  }

  lemma {:induction false} NotAmong(s: Entries, k: Key)
    requires forall i :: 0 <= i < |s| ==> s[i].key != k
    ensures k !in Keys(s)
  {
    if s != [] {
      NotAmong(s[1..], k);
    }
  }

  lemma {:induction false} JoinKeys(a: Entries, x: Item, b: Entries)
    ensures Keys(a + [x] + b) == Keys(a + b) + {x.key}
  {
    if a == [] {
      assert [] + [x] + b == [x] + b && ([x] + b)[1..] == b && [] + b == b;
    } else {
      assert (a + [x] + b)[1..] == a[1..] + [x] + b && (a + b)[1..] == a[1..] + b;
      JoinKeys(a[1..], x, b);
    }
  }

  lemma CutKeys(s: Entries, m: map<Key, Used>, i: nat)
    requires i < |s| && Values(s, m) && Rising(s, m)
    ensures Keys(s[..i] + s[i + 1..]) == Keys(s) - {s[i].key}
  {
    OthersDiffer(s, m, i);
    NotAmong(s[..i] + s[i + 1..], s[i].key);
    JoinKeys(s[..i], s[i], s[i + 1..]);
    assert s == s[..i] + [s[i]] + s[i + 1..];
  }

  lemma OthersDiffer(s: Entries, m: map<Key, Used>, i: nat)
    requires i < |s| && Values(s, m) && Rising(s, m)
    ensures var t := s[..i] + s[i + 1..]; forall j :: 0 <= j < |t| ==> t[j].key != s[i].key
  {
    var t := s[..i] + s[i + 1..];
    forall j | 0 <= j < |t| ensures t[j].key != s[i].key {
      var l := if j < i then j else j + 1;
      assert t[j] == s[l] && m[s[l].key].at != m[s[i].key].at;
    }
  }

  lemma CutRising(s: Entries, m: map<Key, Used>, i: nat)
    requires i < |s| && Values(s, m) && Rising(s, m)
    ensures Values(s[..i] + s[i + 1..], m - {s[i].key}) && Rising(s[..i] + s[i + 1..], m - {s[i].key})
  {
    var t := s[..i] + s[i + 1..];
    forall j | 0 <= j < |t| ensures t[j] == (if j < i then s[j] else s[j + 1]) && t[j].key in m - {s[i].key} {
      var l := if j < i then j else j + 1;
      assert t[j] == s[l] && l != i;
      assert m[s[l].key].at != m[s[i].key].at;
    }
  }

  lemma OrderedCut(s: Entries, m: map<Key, Used>, i: nat)
    requires Ordered(s, m) && i < |s|
    ensures Ordered(s[..i] + s[i + 1..], m - {s[i].key})
  {
    CutKeys(s, m, i);
    CutRising(s, m, i);
  }

  lemma AppendRising(s: Entries, m: map<Key, Used>, k: Key, v: Value, now: nat)
    requires Values(s, m) && Rising(s, m) && k !in m && Past(Cache(now, m))
    ensures Values(s + [Item(k, v)], m[k := Used(v, now)]) && Rising(s + [Item(k, v)], m[k := Used(v, now)])
  {
    var t, n := s + [Item(k, v)], m[k := Used(v, now)];
    forall i | 0 <= i < |s| ensures t[i] == s[i] && n[t[i].key] == m[s[i].key] && m[s[i].key].at < now {
    }
  }

  lemma OrderedAppend(s: Entries, m: map<Key, Used>, k: Key, v: Value, now: nat)
    requires Ordered(s, m) && k !in m && Past(Cache(now, m))
    ensures Ordered(s + [Item(k, v)], m[k := Used(v, now)])
  {
    AppendRising(s, m, k, v, now);
    KeysOfJoin(s, [Item(k, v)]);
    assert Keys([Item(k, v)]) == {k};
    assert m[k := Used(v, now)].Keys == m.Keys + {k};
    assert |m[k := Used(v, now)]| == |m| + 1;
  }

  lemma OldestIsFirst(s: Entries, m: map<Key, Used>)
    requires Ordered(s, m) && s != []
    ensures m != map[] && Oldest(m) == s[0].key
  {
    var o := Oldest(m);
    var i := Found(s, o);
    KeyAt(s, 0);
  }

  lemma {:induction false} EvictedOrdered(s: Entries, m: map<Key, Used>, max: int)
    requires Ordered(s, m)
    ensures Ordered(Evicted(s, max), MakeRoom(m, max))
    ensures forall k :: k in MakeRoom(m, max) ==> k in m && MakeRoom(m, max)[k] == m[k]
    decreases |s|
  {
    if |s| >= max && s != [] {
      OldestIsFirst(s, m);
      OrderedCut(s, m, 0);
      assert s[..0] + s[1..] == s[1..];
      EvictedOrdered(s[1..], m - {s[0].key}, max);
    }
  }

  lemma TouchRefines(s: Entries, c: Cache, k: Key)
    requires Ordered(s, c.entries) && Past(c) && k in c.entries
    ensures Ordered(Touched(s, k), c.entries[k := c.entries[k].(at := c.now)])
  {
    var i := Found(s, k);
    OrderedCut(s, c.entries, i);
    OrderedAppend(Drop(s, k), c.entries - {k}, k, s[i].value, c.now);
    assert (c.entries - {k})[k := Used(s[i].value, c.now)] == c.entries[k := c.entries[k].(at := c.now)];
  }

  lemma PutRefines(s: Entries, c: Cache, max: int, k: Key, v: Value)
    requires Ordered(s, c.entries) && Past(c) && k !in c.entries
    ensures Ordered(Put(s, max, k, v), MakeRoom(c.entries, max)[k := Used(v, c.now)])
    ensures forall j :: j in MakeRoom(c.entries, max) ==> j in c.entries && MakeRoom(c.entries, max)[j] == c.entries[j]
  {
    NotFound(s, k);
    EvictedOrdered(s, c.entries, max);
    OrderedAppend(Evicted(s, max), MakeRoom(c.entries, max), k, v, c.now);
  }

  lemma StepRefines(s: Entries, c: Cache, max: int, op: Op)
    requires Ordered(s, c.entries) && Past(c)
    ensures Ordered(Step(s, max, op), RefStep(c, max, op).entries) && Past(RefStep(c, max, op))
  {
    match op
    case Set(k, v) =>
      if k in c.entries {
        var i := Found(s, k);
      } else {
        PutRefines(s, c, max, k, v);
      }
    case Get(k) =>
      if k in c.entries {
        TouchRefines(s, c, k);
      } else {
        NotFound(s, k);
      }
    case Remove(k) =>
      if k in c.entries {
        var i := Found(s, k);
        OrderedCut(s, c.entries, i);
      } else {
        NotFound(s, k);
        assert c.entries - {k} == c.entries;
      }
    case Clear =>
  }

  function Run(s: Entries, max: int, ops: seq<Op>): Entries
    decreases ops
  {
    if ops == [] then s else Run(Step(s, max, ops[0]), max, ops[1..])
  }

  ghost function RefRun(c: Cache, max: int, ops: seq<Op>): Cache
    decreases ops
  {
    if ops == [] then c else RefRun(RefStep(c, max, ops[0]), max, ops[1..])
  }

  /** Over every run the list is the reference cache sorted by last use. */
  lemma {:induction false} RunRefines(s: Entries, c: Cache, max: int, ops: seq<Op>)
    requires Ordered(s, c.entries) && Past(c)
    ensures Ordered(Run(s, max, ops), RefRun(c, max, ops).entries)
    decreases ops
  {
    if ops != [] {
      StepRefines(s, c, max, ops[0]);
      RunRefines(Step(s, max, ops[0]), RefStep(c, max, ops[0]), max, ops[1..]);
    }
  }

  /** The list answers as the reference cache does. */
  lemma SameAnswers(s: Entries, m: map<Key, Used>, k: Key)
    requires Ordered(s, m)
    ensures Lookup(s, k) == if k in m then Some(m[k].value) else None
  {
    if k in m {
      var i := Found(s, k);
    } else {
      NotFound(s, k);
    }
  }

  // ----- size and eviction

  lemma {:induction false} EvictedIsSuffix(s: Entries, max: int)
    ensures |s| < max ==> Evicted(s, max) == s
    ensures 1 <= max <= |s| ==> Evicted(s, max) == s[|s| - (max - 1)..]
    ensures max <= 0 ==> Evicted(s, max) == []
    decreases |s|
  {
    if |s| >= max && s != [] {
      EvictedIsSuffix(s[1..], max);
    }
  }

  lemma {:induction false} DropSize(s: Entries, k: Key)
    ensures |Drop(s, k)| == if Lookup(s, k).None? then |s| else |s| - 1
  {
    if s != [] {
      DropSize(s[1..], k);
    }
  }

  /** The size never exceeds the capacity. */
  lemma {:induction false} RunFits(s: Entries, max: int, ops: seq<Op>)
    requires 1 <= max && |s| <= max
    ensures |Run(s, max, ops)| <= max
    decreases ops
  {
    if ops != [] {
      match ops[0] {
        case Set(k, v) => EvictedIsSuffix(s, max);
        case Get(k) => DropSize(s, k);
        case Remove(k) => DropSize(s, k);
        case Clear =>
      }
      RunFits(Step(s, max, ops[0]), max, ops[1..]);
    }
  }

  /** In a full cache, setting a new key pushes out the least recently used entry and no other. */
  lemma SetEvictsOne(s: Entries, max: int, k: Key, v: Value)
    requires 1 <= max == |s| && Lookup(s, k).None?
    ensures Put(s, max, k, v) == s[1..] + [Item(k, v)]
  {
    EvictedIsSuffix(s, max);
  }
}
