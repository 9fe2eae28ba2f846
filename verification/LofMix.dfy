/** The MIX of the outlier detector's tables, with tombstones for removed rows, on servers without an
    unlearner (jubatus/core/anomaly/lof_storage.cpp, jubatus/core/common/portable_mixer.hpp). */
module LofMix {
  import opened Options

  /** Row identifiers; only their equality matters. */
  type Row = nat

  datatype Entry = Entry(kdist: real, lrd: real)

  type Table = map<Row, Entry>

  const BLANK := Entry(0.0, 0.0)  // what operator[] creates

  predicate Removed(e: Entry) {
    e.kdist < 0.0
  }

  function Mark(e: Entry): Entry {
    e.(kdist := -1.0)
  }

  function At(t: Table, row: Row): Entry {
    if row in t then t[row] else BLANK
  }

  function Found(t: Table, row: Row): Option<Entry> {
    if row in t then Some(t[row]) else None
  }

  predicate Tombstoned(t: Table, row: Row) {
    row in t && Removed(t[row])
  }

  predicate Live(t: Table, row: Row) {
    row in t && !Removed(t[row])
  }

  // ----- operations

  function MixTables(l: Table, r: Table): Table {
    map k | k in l.Keys + r.Keys :: if Tombstoned(l, k) then Mark(At(r, k)) else if k in r then r[k] else l[k]
  }

  datatype Server = Server(master: Table, diff: Table)

  function RemoveRow(s: Server, row: Row): Server {
    s.(diff := s.diff[row := Mark(At(s.diff, row))])
  }

  function SetKdist(s: Server, row: Row, kdist: real): Server {
    s.(diff := s.diff[row := At(s.diff, row).(kdist := kdist)])
  }

  function SetLrd(s: Server, row: Row, lrd: real): Server {
    s.(diff := s.diff[row := At(s.diff, row).(lrd := lrd)])
  }

  function NewMaster(master: Table, mixed: Table): Table {
    map k | k in master.Keys + mixed.Keys && !Tombstoned(mixed, k) :: if k in mixed then mixed[k] else master[k]
  }

  /** The removals that the mixed diff does not know of stay for the next round. */
  function NewDiff(diff: Table, mixed: Table): Table {
    map k | k in diff && Tombstoned(diff, k) && !Tombstoned(mixed, k) :: Mark(BLANK)
  }

  function PutDiff(s: Server, mixed: Table): Server {
    Server(NewMaster(s.master, mixed), NewDiff(s.diff, mixed))
  }

  datatype Answer = Value(value: real) | Missing | RecentlyRemoved

  function GetKdist(s: Server, row: Row): Answer {
    if row in s.diff then if Removed(s.diff[row]) then RecentlyRemoved else Value(s.diff[row].kdist)
    else if row in s.master then Value(s.master[row].kdist)
    else Missing
  }

  function GetLrd(s: Server, row: Row): Answer {
    if row in s.diff then if Removed(s.diff[row]) then RecentlyRemoved else Value(s.diff[row].lrd)
    else if row in s.master then Value(s.master[row].lrd)
    else Missing
  }

  /** Both reads of a row are unchanged. */
  ghost predicate SameAnswers(s: Server, t: Server, row: Row) {
    GetKdist(s, row) == GetKdist(t, row) && GetLrd(s, row) == GetLrd(t, row)
  }

  // ----- the fold

  function Fold(diffs: seq<Table>): Table
    requires diffs != []
  {
    if |diffs| == 1 then diffs[0] else MixTables(diffs[|diffs| - 1], Fold(diffs[..|diffs| - 1]))
  }

  /** `now` has each row as the mixed diff has it, and every row that the mixed diff does not mention as
      `before` has it. */
  ghost predicate TookOver(before: Table, mixed: Table, now: Table) {
    forall row :: Found(now, row) == if row !in mixed then Found(before, row)
                                     else if Removed(mixed[row]) then None else Some(mixed[row])
  }

  ghost predicate SomeTombstoned(diffs: seq<Table>, row: Row) {
    exists i :: 0 <= i < |diffs| && Tombstoned(diffs[i], row)
  }

  ghost predicate SomeHas(diffs: seq<Table>, row: Row) {
    exists i :: 0 <= i < |diffs| && row in diffs[i]
  }

  lemma MixedRow(l: Table, r: Table, row: Row)
    ensures row in MixTables(l, r) <==> row in l || row in r
    ensures Tombstoned(MixTables(l, r), row) <==> Tombstoned(l, row) || Tombstoned(r, row)
    ensures !Tombstoned(l, row) && row in r ==> At(MixTables(l, r), row) == r[row]
    ensures Live(l, row) && row !in r ==> At(MixTables(l, r), row) == l[row]
  {
  }

  lemma {:induction false} SomeLast(diffs: seq<Table>, row: Row)
    requires diffs != []
    ensures var n := |diffs| - 1;
            && (SomeTombstoned(diffs, row) <==> SomeTombstoned(diffs[..n], row) || Tombstoned(diffs[n], row))
            && (SomeHas(diffs, row) <==> SomeHas(diffs[..n], row) || row in diffs[n])
  {
    var n := |diffs| - 1;
    assert forall i :: 0 <= i < n ==> diffs[..n][i] == diffs[i];
    if SomeTombstoned(diffs[..n], row) {
      var i :| 0 <= i < n && Tombstoned(diffs[..n][i], row);
      assert Tombstoned(diffs[i], row);
    }
    if SomeHas(diffs[..n], row) {
      var i :| 0 <= i < n && row in diffs[..n][i];
      assert row in diffs[i];
    }
  }

  /** The folded diff has the rows of all diffs, and removes a row exactly when some diff does. */
  lemma {:induction false} FoldTombstones(diffs: seq<Table>, row: Row)
    requires diffs != []
    ensures row in Fold(diffs) <==> SomeHas(diffs, row)
    ensures Tombstoned(Fold(diffs), row) <==> SomeTombstoned(diffs, row)
  {
    var n := |diffs| - 1;
    SomeLast(diffs, row);
    if n > 0 {
      FoldTombstones(diffs[..n], row);
      MixedRow(diffs[n], Fold(diffs[..n]), row);
    }
  }

  /** A row that nobody removes gets its entry from the first diff that has it. */
  lemma {:induction false} FoldTakesFirst(diffs: seq<Table>, row: Row, i: nat)
    requires i < |diffs| && row in diffs[i] && !SomeTombstoned(diffs, row)
    requires forall j :: 0 <= j < i ==> row !in diffs[j]
    ensures row in Fold(diffs) && Fold(diffs)[row] == diffs[i][row]
  {
    var n := |diffs| - 1;
    SomeLast(diffs, row);
    FoldTombstones(diffs, row);
    if n > 0 {
      var before := Fold(diffs[..n]);
      FoldTombstones(diffs[..n], row);
      MixedRow(diffs[n], before, row);
      if i < n {
        FoldTakesFirst(diffs[..n], row, i);
      }
    }
  }

  /** The fold order decides only which entry a row gets: neither the removed rows nor the rows that any
      master table ends up with depend on it. */
  lemma FoldOrder(a: seq<Table>, b: seq<Table>, master: Table, row: Row)
    requires a != [] && b != [] && forall t :: t in a <==> t in b
    ensures Tombstoned(Fold(a), row) <==> Tombstoned(Fold(b), row)
    ensures row in NewMaster(master, Fold(a)) <==> row in NewMaster(master, Fold(b))
  {
    FoldTombstones(a, row);
    FoldTombstones(b, row);
    SomeToo(a, b, row);
    SomeToo(b, a, row);
  }

  lemma SomeToo(a: seq<Table>, b: seq<Table>, row: Row)
    requires forall t :: t in a ==> t in b
    ensures (SomeTombstoned(a, row) ==> SomeTombstoned(b, row)) && (SomeHas(a, row) ==> SomeHas(b, row))
  {
    if SomeTombstoned(a, row) {
      var i :| 0 <= i < |a| && Tombstoned(a[i], row);
      assert a[i] in b;
      var j :| 0 <= j < |b| && b[j] == a[i];
    }
    if SomeHas(a, row) {
      var i :| 0 <= i < |a| && row in a[i];
      assert a[i] in b;
      var j :| 0 <= j < |b| && b[j] == a[i];
    }
  }

  // ----- runs: local changes and the two halves of a round

  datatype Local = Remove(server: nat, row: Row) | Kdist(server: nat, row: Row, kdist: real)
      | Lrd(server: nat, row: Row, lrd: real)

  datatype Action = Do(change: Local) | Collect | Deliver

  /** The servers, and the mixed diff between the halves of a round. */
  datatype Cluster = Cluster(servers: seq<Server>, mixed: Option<Table>)

  function Diffs(servers: seq<Server>): seq<Table> {
    seq(|servers|, i requires 0 <= i < |servers| => servers[i].diff)
  }

  function PutAll(servers: seq<Server>, mixed: Table): seq<Server> {
    seq(|servers|, i requires 0 <= i < |servers| => PutDiff(servers[i], mixed))
  }

  function Changed(s: Server, a: Local): Server {
    match a
    case Remove(_, row) => RemoveRow(s, row)
    case Kdist(_, row, kdist) => SetKdist(s, row, kdist)
    case Lrd(_, row, lrd) => SetLrd(s, row, lrd)
  }

  function DoLocal(servers: seq<Server>, a: Local): seq<Server> {
    if a.server < |servers| then servers[a.server := Changed(servers[a.server], a)] else servers
  }

  function Step(c: Cluster, a: Action): Cluster {
    match a
    case Do(change) => c.(servers := DoLocal(c.servers, change))
    case Collect => if c.servers == [] then c else c.(mixed := Some(Fold(Diffs(c.servers))))
    case Deliver => if c.mixed.Some? then Cluster(PutAll(c.servers, c.mixed.value), None) else c
  }

  function Run(c: Cluster, actions: seq<Action>): Cluster
    decreases actions
  {
    if actions == [] then c else Run(Step(c, actions[0]), actions[1..])
  }

  ghost predicate SameMasters(servers: seq<Server>) {
    forall i, j :: 0 <= i < |servers| && 0 <= j < |servers| ==> servers[i].master == servers[j].master
  }

  lemma {:induction false} RunKeepsServers(c: Cluster, actions: seq<Action>)
    ensures |Run(c, actions).servers| == |c.servers|
    decreases actions
  {
    if actions != [] {
      RunKeepsServers(Step(c, actions[0]), actions[1..]);
    }
  }

  /** Equal master tables stay equal in every run. */
  lemma {:induction false} MastersStayEqual(c: Cluster, actions: seq<Action>)
    requires SameMasters(c.servers)
    ensures SameMasters(Run(c, actions).servers) && |Run(c, actions).servers| == |c.servers|
    decreases actions
  {
    if actions != [] {
      var d := Step(c, actions[0]);
      MastersStep(c, actions[0]);
      MastersStayEqual(d, actions[1..]);
    }
  }

  lemma MastersStep(c: Cluster, a: Action)
    requires SameMasters(c.servers)
    ensures SameMasters(Step(c, a).servers) && |Step(c, a).servers| == |c.servers|
  {
    match a
    case Do(change) =>
      assert forall i :: 0 <= i < |c.servers| ==> DoLocal(c.servers, change)[i].master == c.servers[i].master;
    case Collect =>
    case Deliver =>
      if c.mixed.Some? {
        forall i | 0 <= i < |c.servers|
          ensures PutAll(c.servers, c.mixed.value)[i].master == NewMaster(c.servers[0].master, c.mixed.value)
        {
        }
      }
  }

  /** What a delivery does to a row, at every server. */
  lemma DeliverRow(s: Server, mixed: Table, row: Row)
    ensures Tombstoned(mixed, row) ==> row !in PutDiff(s, mixed).master && row !in PutDiff(s, mixed).diff
    ensures Live(mixed, row) ==> row in PutDiff(s, mixed).master && PutDiff(s, mixed).master[row] == mixed[row]
    ensures row !in mixed ==> Found(PutDiff(s, mixed).master, row) == Found(s.master, row)
    ensures Tombstoned(PutDiff(s, mixed).diff, row) <==> Tombstoned(s.diff, row) && !Tombstoned(mixed, row)
    ensures row in PutDiff(s, mixed).diff ==> Tombstoned(PutDiff(s, mixed).diff, row)
  {
  }

  // ----- what the master tables hold

  /** The mixed diffs that a run delivers, in order. */
  ghost function Delivered(c: Cluster, actions: seq<Action>): seq<Table>
    decreases actions
  {
    if actions == [] then []
    else
      (if actions[0] == Deliver && c.mixed.Some? then [c.mixed.value] else [])
      + Delivered(Step(c, actions[0]), actions[1..])
  }

  /** What the last table that has the row says of it: no entry if it is removed there; `first` if no table
      has the row. */
  ghost function LastWord(first: Option<Entry>, tables: seq<Table>, row: Row): Option<Entry> {
    if tables == [] then first
    else
      var n := |tables| - 1;
      if row !in tables[n] then LastWord(first, tables[..n], row)
      else if Removed(tables[n][row]) then None
      else Some(tables[n][row])
  }

  lemma {:induction false} LastWordPrepend(first: Option<Entry>, t: Table, tables: seq<Table>, row: Row)
    ensures LastWord(first, [t] + tables, row) == LastWord(LastWord(first, [t], row), tables, row)
  {
    var n := |tables|;
    if n == 0 {
      assert [t] + tables == [t];
    } else {
      assert ([t] + tables)[..n] == [t] + tables[..n - 1];
      LastWordPrepend(first, t, tables[..n - 1], row);
    }
  }

  lemma StepMaster(c: Cluster, a: Action, i: nat, row: Row)
    requires i < |c.servers|
    ensures var d := Step(c, a);
            && |d.servers| == |c.servers|
            && Found(d.servers[i].master, row)
            == if a == Deliver && c.mixed.Some? then LastWord(Found(c.servers[i].master, row), [c.mixed.value], row)
               else Found(c.servers[i].master, row)
  {
    if a == Deliver && c.mixed.Some? {
      DeliverRow(c.servers[i], c.mixed.value, row);
    }
  }

  /** Over every run and at every server, the master table holds for each row what the last delivered diff
      that has the row said of it, or what it held at first. */
  lemma {:induction false} MasterIsLastWord(c: Cluster, actions: seq<Action>, i: nat, row: Row)
    requires i < |c.servers|
    ensures |Run(c, actions).servers| == |c.servers|
    ensures Found(Run(c, actions).servers[i].master, row)
         == LastWord(Found(c.servers[i].master, row), Delivered(c, actions), row)
    decreases actions
  {
    if actions != [] {
      var d := Step(c, actions[0]);
      StepMaster(c, actions[0], i, row);
      MasterIsLastWord(d, actions[1..], i, row);
      var rest := Delivered(d, actions[1..]);
      if actions[0] == Deliver && c.mixed.Some? {
        LastWordPrepend(Found(c.servers[i].master, row), c.mixed.value, rest, row);
      } else {
        assert [] + rest == rest;
      }
    }
  }

  /** Right after a delivery a server answers from its master table, unless the row waits to be removed. */
  lemma AnswersAfterDelivery(s: Server, mixed: Table, row: Row)
    ensures var after := PutDiff(s, mixed);
            if Tombstoned(s.diff, row) && !Tombstoned(mixed, row) then
              GetKdist(after, row) == RecentlyRemoved == GetLrd(after, row)
            else match Found(after.master, row)
              case None => GetKdist(after, row) == Missing == GetLrd(after, row)
              case Some(e) => GetKdist(after, row) == Value(e.kdist) && GetLrd(after, row) == Value(e.lrd)
  {
    DeliverRow(s, mixed, row);
  }

  // ----- values computed between the halves of a round

  ghost predicate SameRemovals(s: Server, t: Server) {
    s.master == t.master && forall row :: Tombstoned(s.diff, row) <==> Tombstoned(t.diff, row)
  }

  lemma SameDelivery(s: Server, t: Server, mixed: Table)
    requires SameRemovals(s, t)
    ensures PutDiff(s, mixed) == PutDiff(t, mixed)
  {
    forall row ensures row in NewDiff(s.diff, mixed) <==> row in NewDiff(t.diff, mixed) {
      assert Tombstoned(s.diff, row) <==> Tombstoned(t.diff, row);
    }
  }

  /** A new value for a row that its server has not removed, or any lrd. */
  predicate OnlyValues(servers: seq<Server>, a: Action) {
    && a.Do? && !a.change.Remove?
    && (a.change.Kdist? ==> a.change.kdist >= 0.0
                            && (a.change.server < |servers| ==>
                                !Tombstoned(servers[a.change.server].diff, a.change.row)))
  }

  ghost predicate SameRemovalsAll(a: seq<Server>, b: seq<Server>) {
    |a| == |b| && forall i :: 0 <= i < |a| ==> SameRemovals(a[i], b[i])
  }

  lemma ValuesKeepRemovals(servers: seq<Server>, now: seq<Server>, a: Action)
    requires SameRemovalsAll(servers, now) && OnlyValues(servers, a)
    ensures SameRemovalsAll(servers, DoLocal(now, a.change))
  {
    var i := a.change.server;
    if i < |now| {
      assert SameRemovals(servers[i], now[i]);
      forall row ensures Tombstoned(Changed(now[i], a.change).diff, row) <==> Tombstoned(servers[i].diff, row) {
        assert Tombstoned(servers[i].diff, row) <==> Tombstoned(now[i].diff, row);
      }
    }
  }

  lemma {:induction false} RunKeepsRemovals(c: Cluster, now: Cluster, changes: seq<Action>)
    requires SameRemovalsAll(c.servers, now.servers) && c.mixed == now.mixed
    requires forall a :: a in changes ==> OnlyValues(c.servers, a)
    ensures SameRemovalsAll(c.servers, Run(now, changes).servers) && Run(now, changes).mixed == c.mixed
    decreases changes
  {
    if changes != [] {
      assert changes[0] in changes;
      ValuesKeepRemovals(c.servers, now.servers, changes[0]);
      RunKeepsRemovals(c, Step(now, changes[0]), changes[1..]);
    }
  }

  /** Values computed between the halves of a round, at any servers, leave no trace: the delivery ends in the
      same state as without them. */
  lemma LateValuesVanish(c: Cluster, changes: seq<Action>)
    requires c.mixed.Some? && forall a :: a in changes ==> OnlyValues(c.servers, a)
    ensures Step(Run(c, changes), Deliver) == Step(c, Deliver)
  {
    RunKeepsRemovals(c, c, changes);
    var d := Run(c, changes);
    forall i | 0 <= i < |c.servers|
      ensures PutDiff(d.servers[i], c.mixed.value) == PutDiff(c.servers[i], c.mixed.value)
    {
      assert SameRemovals(c.servers[i], d.servers[i]);
      SameDelivery(c.servers[i], d.servers[i], c.mixed.value);
    }
    assert PutAll(d.servers, c.mixed.value) == PutAll(c.servers, c.mixed.value);
  }

  /** Right after a delivery, in every run from equal masters, two servers answer alike about a row that
      neither has removed since the diffs were collected. */
  lemma ServersAnswerAlike(c: Cluster, actions: seq<Action>, i: nat, j: nat, row: Row)
    requires SameMasters(c.servers) && i < |c.servers| && j < |c.servers| && Run(c, actions).mixed.Some?
    ensures var after := Step(Run(c, actions), Deliver);
            && |after.servers| == |c.servers|
            && (Pending(after, i, row) || Pending(after, j, row)
                || GetKdist(after.servers[i], row) == GetKdist(after.servers[j], row))
  {
    MastersStayEqual(c, actions);
    var d := Run(c, actions);
    MastersStep(d, Deliver);
    DeliverRow(d.servers[i], d.mixed.value, row);
    DeliverRow(d.servers[j], d.mixed.value, row);
  }

  // ----- removals are not lost

  predicate Readds(a: Action, i: nat, row: Row) {
    a.Do? && a.change.Kdist? && a.change.server == i && a.change.row == row
  }

  ghost predicate Pending(c: Cluster, i: nat, row: Row) {
    i < |c.servers| && Tombstoned(c.servers[i].diff, row)
  }

  /** The delivery under way removes the row. */
  ghost predicate Carried(c: Cluster, row: Row) {
    c.mixed.Some? && Tombstoned(c.mixed.value, row)
  }

  ghost predicate GoneEverywhere(servers: seq<Server>, row: Row) {
    forall j :: 0 <= j < |servers| ==> row !in servers[j].master
  }

  lemma StaysPending(c: Cluster, a: Action, i: nat, row: Row)
    requires Pending(c, i, row) && !Readds(a, i, row) && !(a == Deliver && Carried(c, row))
    ensures Pending(Step(c, a), i, row)
  {
    if a == Deliver && c.mixed.Some? {
      DeliverRow(c.servers[i], c.mixed.value, row);
    }
  }

  lemma CarriedGoes(c: Cluster, row: Row)
    requires Carried(c, row)
    ensures GoneEverywhere(Step(c, Deliver).servers, row)
  {
    forall j | 0 <= j < |c.servers| { DeliverRow(c.servers[j], c.mixed.value, row); }
  }

  /** A removal at server i waits there, through any number of deliveries, until one of them (step k) takes
      the row from every server's master table; only a new value for the row at server i cancels it. */
  lemma {:induction false} RemovalIsNotLost(c: Cluster, actions: seq<Action>, i: nat, row: Row) returns (k: nat)
    requires Pending(c, i, row) && forall a :: a in actions ==> !Readds(a, i, row)
    ensures Pending(Run(c, actions), i, row)
         || (k < |actions| && actions[k] == Deliver && Carried(Run(c, actions[..k]), row)
             && GoneEverywhere(Run(c, actions[..k + 1]).servers, row))
    decreases actions
  {
    k := 0;
    if actions != [] {
      var d := Step(c, actions[0]);
      if actions[0] == Deliver && Carried(c, row) {
        CarriedGoes(c, row);
        assert actions[..1] == [Deliver] && Run(c, [Deliver]) == d;
      } else {
        StaysPending(c, actions[0], i, row);
        k := RemovalIsNotLost(d, actions[1..], i, row);
        if !Pending(Run(c, actions), i, row) {
          RunPrefix(c, actions, k);
          RunPrefix(c, actions, k + 1);
          k := k + 1;
        }
      }
    }
  }

  lemma RunPrefix(c: Cluster, actions: seq<Action>, k: nat)
    requires k < |actions|
    ensures Run(c, actions[..k + 1]) == Run(Step(c, actions[0]), actions[1..][..k])
  {
    assert actions[..k + 1][1..] == actions[1..][..k];
  }

  lemma {:induction false} LocalsKeepMixed(c: Cluster, changes: seq<Action>)
    requires forall a :: a in changes ==> a.Do?
    ensures Run(c, changes).mixed == c.mixed
    decreases changes
  {
    if changes != [] {
      assert changes[0] in changes;
      LocalsKeepMixed(Step(c, changes[0]), changes[1..]);
    }
  }

  /** A row that any server has removed when the diffs are collected is absent from every master table after
      the delivery, whatever the servers do in between. */
  lemma RoundRemoves(c: Cluster, changes: seq<Action>, i: nat, row: Row)
    requires Pending(c, i, row) && forall a :: a in changes ==> a.Do?
    ensures GoneEverywhere(Step(Run(Step(c, Collect), changes), Deliver).servers, row)
  {
    var diffs := Diffs(c.servers);
    assert Tombstoned(diffs[i], row);
    FoldTombstones(diffs, row);
    LocalsKeepMixed(Step(c, Collect), changes);
    CarriedGoes(Run(Step(c, Collect), changes), row);
  }

  /** A round spreads a value: when nobody has removed the row, every server answers after the delivery what
      the first server with a value for it answered when the diffs were collected. */
  lemma RoundSpreads(c: Cluster, changes: seq<Action>, i: nat, j: nat, row: Row)
    requires i < |c.servers| && j < |c.servers| && row in c.servers[i].diff
    requires forall k :: 0 <= k < |c.servers| ==> !Pending(c, k, row)
    requires forall k :: 0 <= k < i ==> row !in c.servers[k].diff
    requires forall a :: a in changes ==> a.Do?
    ensures var after := Step(Run(Step(c, Collect), changes), Deliver);
            |after.servers| == |c.servers|
            && (Pending(after, j, row) || SameAnswers(after.servers[j], c.servers[i], row))
  {
    var diffs := Diffs(c.servers);
    if SomeTombstoned(diffs, row) {
      var k :| 0 <= k < |diffs| && Tombstoned(diffs[k], row);
      assert Pending(c, k, row);
    }
    FoldTakesFirst(diffs, row, i);
    FoldTombstones(diffs, row);
    var d := Run(Step(c, Collect), changes);
    LocalsKeepMixed(Step(c, Collect), changes);
    RunKeepsServers(Step(c, Collect), changes);
    DeliverRow(d.servers[j], d.mixed.value, row);
    AnswersAfterDelivery(d.servers[j], d.mixed.value, row);
  }

  // ----- the code

  method Mix(lhs: Table, rhs: Table) returns (out: Table)
    ensures out == MixTables(lhs, rhs)
  {
    out := rhs;
    var todo := lhs.Keys;
    while todo != {}
      invariant todo <= lhs.Keys && out.Keys == rhs.Keys + (lhs.Keys - todo)
      invariant forall k :: k in out ==> out[k] == if k in lhs && k !in todo then MixTables(lhs, rhs)[k] else rhs[k]
      decreases todo
    {
      var k :| k in todo;
      if Removed(lhs[k]) {
        out := out[k := Mark(At(out, k))];
      } else if k !in out {
        out := out[k := lhs[k]];
      }
      todo := todo - {k};
    }
  }

  function Larger(x: real, y: real): real {
    if x < y then y else x
  }

  /** The reachability distances to the first n neighbours, added up. */
  ghost function Reachability(s: Server, neighbors: seq<(Row, real)>, n: nat): real
    requires n <= |neighbors|
  {
    if n == 0 then 0.0
    else
      match GetKdist(s, neighbors[n - 1].0)
      case Value(kdist) => Reachability(s, neighbors, n - 1) + Larger(neighbors[n - 1].1, kdist)
      case _ => 0.0
  }

  function Times(x: real, y: real): real {
    x * y
  }

  /** The density is 1 for a row alone; otherwise, times the reachability distances, it counts the neighbours. */
  ghost predicate IsDensity(s: Server, neighbors: seq<(Row, real)>, most: nat, lrd: real) {
    if neighbors == [] then lrd == 1.0
    else
      var n := if most < |neighbors| then most else |neighbors|;
      Times(lrd, Reachability(s, neighbors, n) + 1.0e-15) == n as real
  }

  lemma DensityIs(s: Server, neighbors: seq<(Row, real)>, most: nat, lrd: real)
    requires neighbors != []
    requires var n := if most < |neighbors| then most else |neighbors|;
             var sum := Reachability(s, neighbors, n); sum >= 0.0 && lrd == n as real / (sum + 1.0e-15)
    ensures IsDensity(s, neighbors, most, lrd)
  {
  }

  class LofStorage {
    var master: Table
    var diff: Table

    ghost function State(): Server
      reads this
    {
      Server(master, diff)
    }

    constructor ()
      ensures State() == Server(map[], map[])
      ensures forall row :: GetKdist(State(), row) == Missing == GetLrd(State(), row)
    {
      master, diff := map[], map[];
    }

    /** The row cannot be read any more, and every diff taken before the next delivery carries its removal;
        other rows are as before. */
    method Remove(row: Row)
      modifies this
      ensures State() == RemoveRow(old(State()), row) && master == old(master)
      ensures Tombstoned(diff, row) && GetKdist(State(), row) == RecentlyRemoved
      ensures GetLrd(State(), row) == RecentlyRemoved
      ensures forall other :: other != row ==> SameAnswers(State(), old(State()), other)
    {
      diff := diff[row := Mark(At(diff, row))];
    }

    /** update_kdist_with_neighbors: neighbours with their distances, nearest first. */
    method UpdateKdist(row: Row, neighbors: seq<(Row, real)>)
      modifies this
      ensures State() == if neighbors == [] then old(State())
                         else SetKdist(old(State()), row, neighbors[|neighbors| - 1].1)
      ensures master == old(master)
      ensures neighbors != [] && neighbors[|neighbors| - 1].1 >= 0.0 ==>
                GetKdist(State(), row) == Value(neighbors[|neighbors| - 1].1)
      ensures Live(old(diff), row) ==> Found(diff, row).Some? && diff[row].lrd == old(diff[row].lrd)
      ensures forall other :: other != row ==> SameAnswers(State(), old(State()), other)
    {
      if neighbors != [] {
        diff := diff[row := At(diff, row).(kdist := neighbors[|neighbors| - 1].1)];
      }
    }

    /** update_lrd_with_neighbors: the local density of a row from its neighbours, of which at most `most` count.
        False where the source throws: the distance of a neighbour cannot be read. */
    method UpdateLrd(row: Row, neighbors: seq<(Row, real)>, most: nat) returns (ok: bool)
      requires forall i :: 0 <= i < |neighbors| ==> neighbors[i].1 >= 0.0
      modifies this
      ensures var n := if most < |neighbors| then most else |neighbors|;
              ok <==> forall i :: 0 <= i < n ==> GetKdist(old(State()), neighbors[i].0).Value?
      ensures !ok ==> State() == old(State())
      ensures ok ==> row in diff && State() == SetLrd(old(State()), row, diff[row].lrd)
                     && IsDensity(old(State()), neighbors, most, diff[row].lrd)
      ensures ok && Tombstoned(old(diff), row) ==> GetLrd(State(), row) == RecentlyRemoved
      ensures ok && !Tombstoned(old(diff), row) ==> GetLrd(State(), row) == Value(diff[row].lrd)
      ensures row in old(diff) ==> GetKdist(State(), row) == GetKdist(old(State()), row)
      ensures master == old(master) && forall other :: other != row ==> SameAnswers(State(), old(State()), other)
    {
      if neighbors == [] {
        diff := diff[row := At(diff, row).(lrd := 1.0)];
        return true;
      }
      var n := if most < |neighbors| then most else |neighbors|;
      var sum := 0.0;
      for i := 0 to n
        invariant sum == Reachability(State(), neighbors, i) >= 0.0 && State() == old(State())
        invariant forall j :: 0 <= j < i ==> GetKdist(State(), neighbors[j].0).Value?
      {
        var kdist := Kdist(neighbors[i].0);
        if !kdist.Value? {
          return false;
        }
        sum := sum + Larger(neighbors[i].1, kdist.value);
      }
      DensityIs(State(), neighbors, most, n as real / (sum + 1.0e-15));
      diff := diff[row := At(diff, row).(lrd := n as real / (sum + 1.0e-15))];
      ok := true;
    }

    method Kdist(row: Row) returns (answer: Answer)
      ensures answer == GetKdist(State(), row)
    {
      if row !in diff {
        if row !in master {
          return Missing;
        }
        return Value(master[row].kdist);
      } else if Removed(diff[row]) {
        return RecentlyRemoved;
      }
      return Value(diff[row].kdist);
    }

    method Lrd(row: Row) returns (answer: Answer)
      ensures answer == GetLrd(State(), row)
    {
      if row !in diff {
        if row !in master {
          return Missing;
        }
        return Value(master[row].lrd);
      } else if Removed(diff[row]) {
        return RecentlyRemoved;
      }
      return Value(diff[row].lrd);
    }

    /** The first loop of put_diff. */
    method Overwrite(mixed: Table)
      modifies this`master
      ensures master == NewMaster(old(master), mixed)
    {
      var todo := mixed.Keys;
      while todo != {}
        invariant todo <= mixed.Keys
        invariant forall k ::
                    k in master <==> (k in old(master) && (k in todo || k !in mixed)) || (Live(mixed, k) && k !in todo)
        invariant forall k :: k in master ==> master[k] == if k in mixed && k !in todo then mixed[k] else old(master)[k]
        decreases todo
      {
        var k :| k in todo;
        if Removed(mixed[k]) {
          master := master - {k};
        } else {
          master := master[k := mixed[k]];
        }
        todo := todo - {k};
      }
    }

    /** The second loop of put_diff: rows removed since get_diff. */
    method LateRemovals(mixed: Table) returns (late: set<Row>)
      ensures forall k :: k in late <==> Tombstoned(diff, k) && !Tombstoned(mixed, k)
    {
      late := {};
      var todo := diff.Keys;
      while todo != {}
        invariant todo <= diff.Keys
        invariant forall k :: k in late <==> k !in todo && Tombstoned(diff, k) && !Tombstoned(mixed, k)
        decreases todo
      {
        var k :| k in todo;
        if Removed(diff[k]) {
          if k !in mixed || !Removed(mixed[k]) {
            late := late + {k};
          }
        }
        todo := todo - {k};
      }
    }

    /** Rows of the mixed diff are taken over or removed, and every other row of the master table stays as it
        was. */
    method Put(mixed: Table)
      modifies this
      ensures State() == PutDiff(old(State()), mixed)
      ensures TookOver(old(master), mixed, master)
      ensures forall row :: row in diff <==> Tombstoned(old(diff), row) && !Tombstoned(mixed, row)
      ensures forall row :: row in diff ==> GetKdist(State(), row) == RecentlyRemoved == GetLrd(State(), row)
    {
      Overwrite(mixed);
      var late := LateRemovals(mixed);
      diff := map[];
      var todo := late;
      while todo != {}
        invariant todo <= late && diff.Keys == late - todo && master == NewMaster(old(master), mixed)
        invariant forall k :: k in diff ==> diff[k] == Mark(BLANK)
        decreases todo
      {
        var k :| k in todo;
        diff := diff[k := Mark(At(diff, k))];
        todo := todo - {k};
      }
    }
  }

  ghost function States(storages: seq<LofStorage>): seq<Server>
    reads storages
  {
    seq(|storages|, i requires 0 <= i < |storages| reads storages => storages[i].State())
  }

  /** The mixer's first loop. */
  method CollectDiffs(storages: seq<LofStorage>) returns (mixed: Table)
    requires storages != []
    ensures mixed == Fold(Diffs(States(storages)))
  {
    ghost var diffs := Diffs(States(storages));
    mixed := storages[0].diff;
    for i := 1 to |storages|
      invariant mixed == Fold(diffs[..i])
    {
      assert diffs[..i + 1][..i] == diffs[..i];
      mixed := Mix(storages[i].diff, mixed);
    }
    assert diffs[..|storages|] == diffs;
  }

  /** The mixer's second loop. */
  method DeliverDiff(storages: seq<LofStorage>, mixed: Table)
    requires forall i, j :: 0 <= i < j < |storages| ==> storages[i] != storages[j]
    modifies storages
    ensures States(storages) == PutAll(old(States(storages)), mixed)
    ensures forall i :: 0 <= i < |storages| ==> TookOver(old(storages[i].master), mixed, storages[i].master)
  {
    ghost var before := States(storages);
    for i := 0 to |storages|
      invariant forall j :: 0 <= j < |storages| ==>
                storages[j].State() == if j < i then PutDiff(before[j], mixed) else before[j]
      invariant forall j :: 0 <= j < i ==> TookOver(before[j].master, mixed, storages[j].master)
    {
      storages[i].Put(mixed);
    }
  }
}
