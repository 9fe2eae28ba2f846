/** N bandit servers between MIX rounds: arm changes reach all servers, rewards and selections one, and a
    round runs get_diff, mix and put_diff on all of them (jubatus/core/common/portable_mixer.hpp). */
module BanditMix {
  import opened BanditStorage

  datatype Action =
    | AddArm(arm: Id)
    | DropArm(arm: Id)
    | Rewarded(server: nat, player: Id, arm: Id, reward: real)
    | Chosen(server: nat, player: Id, arm: Id)
    | MixRound

  /** The servers of a cluster; some may count selections as trials, the others count rewards. */
  function Start(flags: seq<bool>): seq<Server> {
    seq(|flags|, i requires 0 <= i < |flags| => Server(flags[i], [], map[], map[]))
  }

  // ----- one MIX round

  /** The diffs of the first n servers, folded as the mixer does: each further diff is mixed into the first. */
  function Fold(servers: seq<Server>, n: nat): Table
    requires 0 < n <= |servers|
  {
    if n == 1 then servers[0].unmixed else MixTables(servers[n - 1].unmixed, Fold(servers, n - 1))
  }

  function AfterMix(servers: seq<Server>): seq<Server> {
    if servers == [] then []
    else seq(|servers|, i requires 0 <= i < |servers| => PutDiff(servers[i], Fold(servers, |servers|)))
  }

  ghost function States(storages: seq<SummationStorage>): seq<Server>
    reads storages
  {
    seq(|storages|, i requires 0 <= i < |storages| reads storages => storages[i].State())
  }

  /** The mixer's loops over the storages it was given. */
  method RunMix(storages: seq<SummationStorage>)
    requires forall i, j :: 0 <= i < j < |storages| ==> storages[i] != storages[j]
    modifies storages
    ensures States(storages) == AfterMix(old(States(storages)))
  {
    if storages == [] {
      return;
    }
    var mixed := FoldDiffs(storages);
    DeliverDiff(storages, mixed);
  }

  /** The first loop: get_diff and mix. */
  method FoldDiffs(storages: seq<SummationStorage>) returns (mixed: Table)
    requires storages != []
    ensures mixed == Fold(States(storages), |storages|)
  {
    ghost var servers := States(storages);
    mixed := storages[0].unmixed;
    for i := 1 to |storages|
      invariant mixed == Fold(servers, i)
    {
      mixed := Mix(storages[i].unmixed, mixed);
    }
  }

  /** The second loop: put_diff. */
  method DeliverDiff(storages: seq<SummationStorage>, mixed: Table)
    requires forall i, j :: 0 <= i < j < |storages| ==> storages[i] != storages[j]
    modifies storages
    ensures forall i :: 0 <= i < |storages| ==> storages[i].State() == PutDiff(old(storages[i].State()), mixed)
  {
    ghost var before := States(storages);
    for i := 0 to |storages|
      invariant forall j :: 0 <= j < |storages| ==>
                storages[j].State() == if j < i then PutDiff(before[j], mixed) else before[j]
    {
      storages[i].Put(mixed);
    }
  }

  // ----- steps

  function AddOnAll(servers: seq<Server>, arm: Id): seq<Server> {
    seq(|servers|, i requires 0 <= i < |servers| => RegisterArm(servers[i], arm))
  }

  function DropOnAll(servers: seq<Server>, arm: Id): seq<Server> {
    seq(|servers|, i requires 0 <= i < |servers| => DeleteArm(servers[i], arm))
  }

  function RecordAt(servers: seq<Server>, i: nat, player: Id, arm: Id, gain: ArmInfo): (after: seq<Server>)
    requires i < |servers|
    ensures |after| == |servers|
  {
    servers[i := Record(servers[i], player, arm, gain)]
  }

  function Step(servers: seq<Server>, a: Action): seq<Server> {
    match a
    case AddArm(arm) => AddOnAll(servers, arm)
    case DropArm(arm) => DropOnAll(servers, arm)
    case Rewarded(i, p, arm, w) =>
      if i < |servers| then servers[i := RegisterReward(servers[i], p, arm, w)] else servers
    case Chosen(i, p, arm) => if i < |servers| then servers[i := NotifySelected(servers[i], p, arm)] else servers
    case MixRound => AfterMix(servers)
  }

  function Run(flags: seq<bool>, actions: seq<Action>): seq<Server> {
    if actions == [] then Start(flags)
    else
      var n := |actions| - 1;
      Step(Run(flags, actions[..n]), actions[n])
  }

  // ----- what a history of actions should come to

  ghost predicate Registered(actions: seq<Action>, arm: Id) {
    if actions == [] then false
    else
      var n := |actions| - 1;
      if actions[n] == AddArm(arm) then true
      else if actions[n] == DropArm(arm) then false
      else Registered(actions[..n], arm)
  }

  /** After `past`, server i takes what it is told about the arm. */
  ghost predicate Accepted(flags: seq<bool>, past: seq<Action>, i: nat, arm: Id) {
    i < |flags| && Registered(past, arm)
  }

  /** A selection is a trial at a server that assumes arms to be unrewarded, a reward at any other. */
  ghost predicate IsTrial(flags: seq<bool>, past: seq<Action>, now: Action, p: Id, arm: Id) {
    match now
    case Chosen(i, player, a) => player == p && a == arm && Accepted(flags, past, i, arm) && flags[i]
    case Rewarded(i, player, a, _) => player == p && a == arm && Accepted(flags, past, i, arm) && !flags[i]
    case _ => false
  }

  ghost function Paid(flags: seq<bool>, past: seq<Action>, now: Action, p: Id, arm: Id): real {
    match now
    case Rewarded(i, player, a, reward) =>
      if player == p && a == arm && Accepted(flags, past, i, arm) then reward else 0.0
    case _ => 0.0
  }

  ghost function Gain(flags: seq<bool>, past: seq<Action>, now: Action, p: Id, arm: Id): ArmInfo {
    ArmInfo(if IsTrial(flags, past, now, p, arm) then 1 else 0, Paid(flags, past, now, p, arm))
  }

  ghost function Raised(info: ArmInfo, gain: ArmInfo): ArmInfo {
    ArmInfo(info.trials + gain.trials, info.weight + gain.weight)
  }

  ghost function TotalAfter(now: Action, arm: Id, total: ArmInfo, gain: ArmInfo): ArmInfo {
    if now == DropArm(arm) then ZERO else Raised(total, gain)
  }

  /** The trials and rewards at all servers since the arm was last dropped. */
  ghost function Total(flags: seq<bool>, actions: seq<Action>, p: Id, arm: Id): ArmInfo {
    if actions == [] then ZERO
    else
      var past, now := actions[..|actions| - 1], actions[|actions| - 1];
      TotalAfter(now, arm, Total(flags, past, p, arm), Gain(flags, past, now, p, arm))
  }

  ghost predicate Elsewhere(a: Action, i: nat) {
    (a.Chosen? || a.Rewarded?) && a.server != i
  }

  /** A round makes everything known to server i; a trial or a reward at another server is not known yet. */
  ghost function KnownAfter(now: Action, i: nat, arm: Id, total: ArmInfo, known: ArmInfo, gain: ArmInfo): ArmInfo {
    if now == DropArm(arm) then ZERO
    else if now == MixRound then total
    else if Elsewhere(now, i) then known
    else Raised(known, gain)
  }

  /** What server i can know of them: all up to the last round, and its own after it. */
  ghost function Known(flags: seq<bool>, actions: seq<Action>, i: nat, p: Id, arm: Id): ArmInfo {
    if actions == [] then ZERO
    else
      var past, now := actions[..|actions| - 1], actions[|actions| - 1];
      KnownAfter(now, i, arm, Total(flags, past, p, arm), Known(flags, past, i, p, arm),
                 Gain(flags, past, now, p, arm))
  }

  // ----- the invariant

  ghost function Sum(infos: seq<ArmInfo>): ArmInfo {
    if infos == [] then ZERO else Plus(Sum(infos[..|infos| - 1]), infos[|infos| - 1])
  }

  ghost function Infos(servers: seq<Server>, player: Id, arm: Id): seq<ArmInfo> {
    seq(|servers|, i requires 0 <= i < |servers| => Info(servers[i].unmixed, player, arm))
  }

  /** What all servers' unmixed tables hold together. */
  ghost function Unmixed(servers: seq<Server>, player: Id, arm: Id): ArmInfo {
    Sum(Infos(servers, player, arm))
  }

  /** One server's tables know no other arms than its list, and list every arm for each unmixed player. */
  ghost predicate Tidy(s: Server) {
    && (forall p :: p in s.unmixed ==> forall a :: a in s.unmixed[p].arms <==> a in s.armIds)
    && (forall p :: p in s.mixed ==> forall a :: a in s.mixed[p].arms ==> a in s.armIds)
    && Counted(s.mixed) && Counted(s.unmixed)
  }

  ghost predicate SameTables(servers: seq<Server>) {
    forall i, j :: 0 <= i < |servers| && 0 <= j < |servers| ==>
      servers[i].mixed == servers[j].mixed && servers[i].armIds == servers[j].armIds
  }

  /** What server i has mixed and what all servers have not yet mixed make up the total. */
  ghost predicate BalancedAt(servers: seq<Server>, i: nat, p: Id, a: Id, total: ArmInfo)
    requires i < |servers|
  {
    Plus(Info(servers[i].mixed, p, a), Unmixed(servers, p, a)) == total
  }

  /** Cell (p, a) at server i, with the total at all servers and what the server knows of it. */
  ghost predicate CellAt(servers: seq<Server>, i: nat, p: Id, a: Id, total: ArmInfo, known: ArmInfo)
    requires i < |servers|
  {
    BalancedAt(servers, i, p, a, total) && GetArmInfo(servers[i], p, a) == known
  }

  ghost predicate Follows(flags: seq<bool>, actions: seq<Action>, servers: seq<Server>, i: nat, p: Id, a: Id)
    requires i < |servers|
  {
    CellAt(servers, i, p, a, Total(flags, actions, p, a), Known(flags, actions, i, p, a))
  }

  /** Server i has its flag and lists exactly the registered arms. */
  ghost predicate ListsArms(flags: seq<bool>, actions: seq<Action>, servers: seq<Server>, i: nat)
    requires i < |servers| == |flags|
  {
    servers[i].assumeUnrewarded == flags[i] && forall a :: a in servers[i].armIds <==> Registered(actions, a)
  }

  ghost predicate Inv(flags: seq<bool>, actions: seq<Action>, servers: seq<Server>) {
    && |servers| == |flags|
    && (forall i :: 0 <= i < |servers| ==> Tidy(servers[i]) && ListsArms(flags, actions, servers, i))
    && SameTables(servers)
    && forall i, p, a :: 0 <= i < |servers| ==> Follows(flags, actions, servers, i, p, a)
  }

  lemma {:induction false} SumZeros(infos: seq<ArmInfo>)
    requires forall i :: 0 <= i < |infos| ==> infos[i] == ZERO
    ensures Sum(infos) == ZERO
  {
    if infos != [] {
      SumZeros(infos[..|infos| - 1]);
    }
  }

  lemma {:induction false} SumUpdate(infos: seq<ArmInfo>, i: nat, gain: ArmInfo)
    requires i < |infos|
    ensures Sum(infos[i := Plus(infos[i], gain)]) == Plus(Sum(infos), gain)
  {
    var n := |infos| - 1;
    var x := Plus(infos[i], gain);
    if i < n {
      SumUpdate(infos[..n], i, gain);
      assert infos[i := x][..n] == infos[..n][i := x];
    } else {
      assert infos[i := x][..n] == infos[..n];
    }
  }

  lemma FoldStep(servers: seq<Server>, n: nat, player: Id, arm: Id)
    requires 1 < n <= |servers|
    ensures Info(Fold(servers, n), player, arm)
         == Plus(Info(Fold(servers, n - 1), player, arm), Info(servers[n - 1].unmixed, player, arm))
  {
    InfoOfMix(servers[n - 1].unmixed, Fold(servers, n - 1), player, arm);
  }

  lemma {:induction false} FoldSums(servers: seq<Server>, n: nat, player: Id, arm: Id, infos: seq<ArmInfo>)
    requires 0 < n <= |servers| == |infos|
    requires forall i :: 0 <= i < |infos| ==> infos[i] == Info(servers[i].unmixed, player, arm)
    ensures Info(Fold(servers, n), player, arm) == Sum(infos[..n])
  {
    SumLast(infos, n);
    if n > 1 {
      FoldStep(servers, n, player, arm);
      FoldSums(servers, n - 1, player, arm, infos);
    } else {
      PlusZero(infos[0]);
    }
  }

  lemma FoldTotal(servers: seq<Server>, player: Id, arm: Id, infos: seq<ArmInfo>)
    requires servers != [] && AreInfos(infos, servers, player, arm)
    ensures Info(Fold(servers, |servers|), player, arm) == Sum(infos)
  {
    assert infos[..|servers|] == infos;
    FoldSums(servers, |servers|, player, arm, infos);
  }

  /** Folding the diffs adds up the unmixed tables, cell by cell. */
  lemma FoldAdds(servers: seq<Server>, player: Id, arm: Id)
    requires servers != []
    ensures Info(Fold(servers, |servers|), player, arm) == Unmixed(servers, player, arm)
  {
    var infos := InfosAre(servers, player, arm);
    FoldTotal(servers, player, arm, infos);
  }

  lemma SumLast(infos: seq<ArmInfo>, n: nat)
    requires 0 < n <= |infos|
    ensures Sum(infos[..n]) == Plus(Sum(infos[..n - 1]), infos[n - 1])
  {
    assert infos[..n][..n - 1] == infos[..n - 1];
  }

  lemma {:induction false} FoldTidy(servers: seq<Server>, n: nat, ids: seq<Id>)
    requires 0 < n <= |servers|
    requires forall i :: 0 <= i < |servers| ==> Tidy(servers[i]) && servers[i].armIds == ids
    ensures Counted(Fold(servers, n))
    ensures forall p :: p in Fold(servers, n) ==> forall a :: a in Fold(servers, n)[p].arms ==> a in ids
  {
    assert Tidy(servers[n - 1]);
    if n > 1 {
      FoldTidy(servers, n - 1, ids);
      MixCounted(servers[n - 1].unmixed, Fold(servers, n - 1));
    }
  }

  /** The cells of the servers' unmixed tables, as a plain list. */
  ghost predicate AreInfos(infos: seq<ArmInfo>, servers: seq<Server>, player: Id, arm: Id) {
    |infos| == |servers| && forall i :: 0 <= i < |infos| ==> infos[i] == Info(servers[i].unmixed, player, arm)
  }

  lemma InfosAre(servers: seq<Server>, player: Id, arm: Id) returns (infos: seq<ArmInfo>)
    ensures AreInfos(infos, servers, player, arm) && Unmixed(servers, player, arm) == Sum(infos)
  {
    infos := Infos(servers, player, arm);
  }

  lemma UnmixedIs(servers: seq<Server>, player: Id, arm: Id, infos: seq<ArmInfo>)
    requires AreInfos(infos, servers, player, arm)
    ensures Unmixed(servers, player, arm) == Sum(infos)
  {
    assert infos == Infos(servers, player, arm);
  }

  // ----- every step keeps the invariant

  lemma AddArmTidy(s: Server, arm: Id)
    requires Tidy(s)
    ensures Tidy(RegisterArm(s, arm))
  {
    AddCounted(s.unmixed, arm);
  }

  lemma InfoOfAdd(t: Table, arm: Id, player: Id, other: Id)
    ensures Info(AddTo(t, arm), player, other) == Info(t, player, other)
  {
  }

  lemma AddedUnmixed(servers: seq<Server>, arm: Id, p: Id, a: Id)
    ensures Unmixed(AddOnAll(servers, arm), p, a) == Unmixed(servers, p, a)
  {
    var was := InfosAre(servers, p, a);
    forall j | 0 <= j < |servers| ensures was[j] == Info(AddOnAll(servers, arm)[j].unmixed, p, a) {
      InfoOfAdd(servers[j].unmixed, arm, p, a);
    }
    UnmixedIs(AddOnAll(servers, arm), p, a, was);
  }

  lemma AddArmBalanced(servers: seq<Server>, arm: Id, i: nat, p: Id, a: Id, total: ArmInfo)
    requires i < |servers| && BalancedAt(servers, i, p, a, total)
    ensures BalancedAt(AddOnAll(servers, arm), i, p, a, total)
  {
    AddedUnmixed(servers, arm, p, a);
  }

  lemma RegisteredServer(s: Server, arm: Id, p: Id, a: Id)
    ensures RegisterArm(s, arm).mixed == s.mixed
    ensures Info(RegisterArm(s, arm).unmixed, p, a) == Info(s.unmixed, p, a)
  {
    InfoOfAdd(s.unmixed, arm, p, a);
  }

  lemma AddCell(servers: seq<Server>, arm: Id, i: nat, p: Id, a: Id, total: ArmInfo, known: ArmInfo)
    requires i < |servers| && CellAt(servers, i, p, a, total, known)
    ensures CellAt(AddOnAll(servers, arm), i, p, a, total, known)
  {
    AddArmBalanced(servers, arm, i, p, a, total);
    RegisteredServer(servers[i], arm, p, a);
    AnswerOf(RegisterArm(servers[i], arm), p, a, Info(servers[i].mixed, p, a), Info(servers[i].unmixed, p, a));
  }

  lemma DropArmTidy(s: Server, arm: Id)
    requires Tidy(s)
    ensures Tidy(DeleteArm(s, arm))
  {
    WithoutKeeps(s.armIds, arm);
    DeleteCounted(s.unmixed, arm);
    DeleteCounted(s.mixed, arm);
  }

  lemma InfoOfDelete(t: Table, arm: Id, player: Id, other: Id)
    ensures Info(DeleteFrom(t, arm), player, other) == if other == arm then ZERO else Info(t, player, other)
  {
  }

  lemma DroppedUnmixed(servers: seq<Server>, arm: Id, p: Id, a: Id)
    ensures var after := DropOnAll(servers, arm);
            Unmixed(after, p, a) == if a == arm then ZERO else Unmixed(servers, p, a)
  {
    var after := DropOnAll(servers, arm);
    var was := InfosAre(servers, p, a);
    var infos := InfosAre(after, p, a);
    forall j | 0 <= j < |servers| ensures infos[j] == if a == arm then ZERO else was[j] {
      InfoOfDelete(servers[j].unmixed, arm, p, a);
    }
    if a == arm {
      SumZeros(infos);
    } else {
      assert infos == was;
    }
  }

  lemma DroppedMixed(servers: seq<Server>, arm: Id, i: nat, p: Id, a: Id)
    requires i < |servers|
    ensures Info(DropOnAll(servers, arm)[i].mixed, p, a)
         == if a == arm then ZERO else Info(servers[i].mixed, p, a)
  {
    InfoOfDelete(servers[i].mixed, arm, p, a);
  }

  lemma Erased(gone: bool, m: ArmInfo, u: ArmInfo, l: ArmInfo)
    requires Plus(m, u) == l
    ensures Plus(if gone then ZERO else m, if gone then ZERO else u) == if gone then ZERO else l
  {
    PlusZero(ZERO);
  }

  lemma DropArmBalanced(servers: seq<Server>, arm: Id, i: nat, p: Id, a: Id, total: ArmInfo)
    requires i < |servers| && BalancedAt(servers, i, p, a, total)
    ensures BalancedAt(DropOnAll(servers, arm), i, p, a, if a == arm then ZERO else total)
  {
    DroppedMixed(servers, arm, i, p, a);
    DroppedUnmixed(servers, arm, p, a);
    Erased(a == arm, Info(servers[i].mixed, p, a), Unmixed(servers, p, a), total);
  }

  lemma DeletedServer(s: Server, arm: Id, p: Id, a: Id)
    ensures Info(DeleteArm(s, arm).mixed, p, a) == if a == arm then ZERO else Info(s.mixed, p, a)
    ensures Info(DeleteArm(s, arm).unmixed, p, a) == if a == arm then ZERO else Info(s.unmixed, p, a)
  {
    InfoOfDelete(s.mixed, arm, p, a);
    InfoOfDelete(s.unmixed, arm, p, a);
  }

  lemma DropCell(servers: seq<Server>, arm: Id, i: nat, p: Id, a: Id, total: ArmInfo, known: ArmInfo)
    requires i < |servers| && CellAt(servers, i, p, a, total, known)
    ensures CellAt(DropOnAll(servers, arm), i, p, a, if a == arm then ZERO else total,
                   if a == arm then ZERO else known)
  {
    var m, u := Info(servers[i].mixed, p, a), Info(servers[i].unmixed, p, a);
    DropArmBalanced(servers, arm, i, p, a, total);
    DeletedServer(servers[i], arm, p, a);
    AnswerOf(DeleteArm(servers[i], arm), p, a, if a == arm then ZERO else m, if a == arm then ZERO else u);
    Erased(a == arm, m, u, known);
  }

  lemma InfoOfRecord(s: Server, player: Id, arm: Id, gain: ArmInfo, p: Id, a: Id)
    requires Tidy(s)
    ensures Info(Record(s, player, arm, gain).unmixed, p, a)
         == if p == player && a == arm && arm in s.armIds then Plus(Info(s.unmixed, p, a), gain)
            else Info(s.unmixed, p, a)
  {
  }

  lemma RecordTidy(s: Server, player: Id, arm: Id, gain: ArmInfo)
    requires Tidy(s)
    ensures Tidy(Record(s, player, arm, gain))
  {
    RecordCounted(s, player, arm, gain);
  }

  lemma GainUnmixed(servers: seq<Server>, i: nat, s: Server, gain: ArmInfo, p: Id, a: Id)
    requires i < |servers| && Info(s.unmixed, p, a) == Plus(Info(servers[i].unmixed, p, a), gain)
    ensures Unmixed(servers[i := s], p, a) == Plus(Unmixed(servers, p, a), gain)
  {
    var was := InfosAre(servers, p, a);
    SumUpdate(was, i, gain);
    UnmixedIs(servers[i := s], p, a, was[i := Plus(was[i], gain)]);
  }

  lemma SameUnmixed(servers: seq<Server>, i: nat, s: Server, p: Id, a: Id)
    requires i < |servers| && Info(s.unmixed, p, a) == Info(servers[i].unmixed, p, a)
    ensures Unmixed(servers[i := s], p, a) == Unmixed(servers, p, a)
  {
    var was := InfosAre(servers, p, a);
    UnmixedIs(servers[i := s], p, a, was);
  }

  lemma RecordedUnmixed(servers: seq<Server>, i: nat, player: Id, arm: Id, gain: ArmInfo, p: Id, a: Id)
    requires i < |servers| && Tidy(servers[i])
    ensures Unmixed(servers[i := Record(servers[i], player, arm, gain)], p, a)
         == (if p == player && a == arm && arm in servers[i].armIds then Plus(Unmixed(servers, p, a), gain)
             else Unmixed(servers, p, a))
  {
    InfoOfRecord(servers[i], player, arm, gain, p, a);
    var s := Record(servers[i], player, arm, gain);
    if p == player && a == arm && arm in servers[i].armIds {
      GainUnmixed(servers, i, s, gain, p, a);
    } else {
      SameUnmixed(servers, i, s, p, a);
    }
  }

  lemma RecordBalanced(servers: seq<Server>, i: nat, player: Id, arm: Id, gain: ArmInfo, j: nat, p: Id, a: Id,
                       total: ArmInfo)
    requires i < |servers| && j < |servers| && Tidy(servers[i]) && BalancedAt(servers, j, p, a, total)
    ensures BalancedAt(RecordAt(servers, i, player, arm, gain), j, p, a,
                       if p == player && a == arm && arm in servers[i].armIds then Plus(total, gain) else total)
  {
    RecordedUnmixed(servers, i, player, arm, gain, p, a);
    PlusAssociates(Info(servers[j].mixed, p, a), Unmixed(servers, p, a), gain);
    assert RecordAt(servers, i, player, arm, gain)[j].mixed == servers[j].mixed;
  }

  lemma RecordAnswer(s: Server, player: Id, arm: Id, gain: ArmInfo, p: Id, a: Id)
    requires Tidy(s)
    ensures GetArmInfo(Record(s, player, arm, gain), p, a)
         == if p == player && a == arm && arm in s.armIds then Plus(GetArmInfo(s, p, a), gain)
            else GetArmInfo(s, p, a)
  {
    InfoOfRecord(s, player, arm, gain, p, a);
    var t := Record(s, player, arm, gain);
    AnswerOf(t, p, a, Info(s.mixed, p, a), Info(t.unmixed, p, a));
    PlusAssociates(Info(s.mixed, p, a), Info(s.unmixed, p, a), gain);
  }

  lemma RecordCell(servers: seq<Server>, j: nat, player: Id, arm: Id, worth: ArmInfo, i: nat, p: Id, a: Id,
                   total: ArmInfo, known: ArmInfo, gain: ArmInfo)
    requires i < |servers| && j < |servers| && Tidy(servers[j]) && CellAt(servers, i, p, a, total, known)
    requires gain == if p == player && a == arm && arm in servers[j].armIds then worth else ZERO
    ensures CellAt(RecordAt(servers, j, player, arm, worth), i, p, a, Plus(total, gain),
                   if i == j then Plus(known, gain) else known)
  {
    PlusZero(total);
    PlusZero(known);
    RecordBalanced(servers, j, player, arm, worth, i, p, a, total);
    RecordAnswer(servers[j], player, arm, worth, p, a);
  }

  lemma InfoOfNothing(p: Id, a: Id)
    ensures Info(map[], p, a) == ZERO
  {
  }

  lemma UnmixedOfNothing(servers: seq<Server>, p: Id, a: Id)
    requires forall i :: 0 <= i < |servers| ==> servers[i].unmixed == map[]
    ensures Unmixed(servers, p, a) == ZERO
  {
    InfoOfNothing(p, a);
    var infos := InfosAre(servers, p, a);
    SumZeros(infos);
  }

  lemma NothingUnmixed(servers: seq<Server>, p: Id, a: Id)
    ensures Unmixed(AfterMix(servers), p, a) == ZERO
  {
    forall i | 0 <= i < |servers| ensures AfterMix(servers)[i].unmixed == map[] { }
    UnmixedOfNothing(AfterMix(servers), p, a);
  }

  lemma AllMixed(servers: seq<Server>, i: nat, p: Id, a: Id)
    requires i < |servers|
    ensures Info(AfterMix(servers)[i].mixed, p, a) == Plus(Info(servers[i].mixed, p, a), Unmixed(servers, p, a))
  {
    FoldAdds(servers, p, a);
    InfoOfMix(Fold(servers, |servers|), servers[i].mixed, p, a);
  }

  /** A round moves everything unmixed into every server's mixed table. */
  lemma MixBalanced(servers: seq<Server>, i: nat, p: Id, a: Id, total: ArmInfo)
    requires i < |servers| && BalancedAt(servers, i, p, a, total)
    ensures Info(AfterMix(servers)[i].mixed, p, a) == total && BalancedAt(AfterMix(servers), i, p, a, total)
  {
    NothingUnmixed(servers, p, a);
    AllMixed(servers, i, p, a);
    PlusZero(total);
  }

  lemma AnswerWithoutUnmixed(s: Server, p: Id, a: Id)
    requires s.unmixed == map[]
    ensures GetArmInfo(s, p, a) == Info(s.mixed, p, a)
  {
    InfoOfNothing(p, a);
    PlusZero(Info(s.mixed, p, a));
  }

  lemma ServerAfterMix(servers: seq<Server>, i: nat) returns (s: Server)
    requires i < |servers|
    ensures AfterMix(servers)[i] == s && s.unmixed == map[]
  {
    s := AfterMix(servers)[i];
  }

  lemma RoundAnswers(servers: seq<Server>, i: nat, p: Id, a: Id, total: ArmInfo)
    requires i < |servers| && BalancedAt(servers, i, p, a, total)
    ensures GetArmInfo(AfterMix(servers)[i], p, a) == total
  {
    var s := ServerAfterMix(servers, i);
    AnswerWithoutUnmixed(s, p, a);
    MixBalanced(servers, i, p, a, total);
  }

  lemma MixTidy(servers: seq<Server>, i: nat)
    requires i < |servers| && SameTables(servers) && forall j :: 0 <= j < |servers| ==> Tidy(servers[j])
    ensures Tidy(AfterMix(servers)[i])
  {
    FoldTidy(servers, |servers|, servers[i].armIds);
    MixCounted(Fold(servers, |servers|), servers[i].mixed);
  }

  lemma MixSameTables(servers: seq<Server>)
    requires SameTables(servers)
    ensures SameTables(AfterMix(servers))
  {
    forall i | 0 <= i < |servers|
      ensures AfterMix(servers)[i].mixed == MixTables(Fold(servers, |servers|), servers[0].mixed)
           && AfterMix(servers)[i].armIds == servers[0].armIds
    {
    }
  }

  // ----- every step follows the history

  lemma LastAction(flags: seq<bool>, past: seq<Action>, now: Action)
    ensures Run(flags, past + [now]) == Step(Run(flags, past), now)
    ensures forall arm :: Registered(past + [now], arm)
                      <==> now == AddArm(arm) || (now != DropArm(arm) && Registered(past, arm))
  {
    assert (past + [now])[..|past|] == past;
  }

  lemma HistoryGrows(flags: seq<bool>, past: seq<Action>, now: Action, i: nat, p: Id, arm: Id)
    ensures var total, known, gain :=
              Total(flags, past, p, arm), Known(flags, past, i, p, arm), Gain(flags, past, now, p, arm);
            && Total(flags, past + [now], p, arm) == TotalAfter(now, arm, total, gain)
            && Known(flags, past + [now], i, p, arm) == KnownAfter(now, i, arm, total, known, gain)
  {
    assert (past + [now])[..|past|] == past;
  }

  /** The cell gains so much, judged by the server that the action reaches. */
  ghost predicate GainIs(servers: seq<Server>, now: Action, p: Id, a: Id, gain: ArmInfo) {
    match now
    case Rewarded(j, player, arm, w) =>
      gain == if p == player && a == arm && j < |servers| && arm in servers[j].armIds then RewardValue(servers[j], w)
              else ZERO
    case Chosen(j, player, arm) =>
      gain == if p == player && a == arm && j < |servers| && arm in servers[j].armIds && servers[j].assumeUnrewarded
              then ArmInfo(1, 0.0) else ZERO
    case _ => gain == ZERO
  }

  lemma NoGain(now: Action, i: nat, a: Id, total: ArmInfo, known: ArmInfo)
    ensures TotalAfter(now, a, total, ZERO) == if now == DropArm(a) then ZERO else total
    ensures KnownAfter(now, i, a, total, known, ZERO)
         == if now == DropArm(a) then ZERO else if now == MixRound then total else known
  {
    assert Raised(total, ZERO) == total;
    assert Raised(known, ZERO) == known;
  }

  lemma SomeGain(now: Action, i: nat, a: Id, total: ArmInfo, known: ArmInfo, gain: ArmInfo)
    requires now.Rewarded? || now.Chosen?
    ensures TotalAfter(now, a, total, gain) == Plus(total, gain)
    ensures KnownAfter(now, i, a, total, known, gain) == if i == now.server then Plus(known, gain) else known
  {
    assert Raised(total, gain) == Plus(total, gain);
    assert Raised(known, gain) == Plus(known, gain);
  }

  lemma MixCell(servers: seq<Server>, i: nat, p: Id, a: Id, total: ArmInfo, known: ArmInfo)
    requires i < |servers| && CellAt(servers, i, p, a, total, known)
    ensures |AfterMix(servers)| == |servers| && CellAt(AfterMix(servers), i, p, a, total, total)
  {
    MixBalanced(servers, i, p, a, total);
    RoundAnswers(servers, i, p, a, total);
  }

  lemma ArmOrRound(servers: seq<Server>, now: Action, i: nat, p: Id, a: Id, total: ArmInfo, known: ArmInfo)
    requires i < |servers| && CellAt(servers, i, p, a, total, known) && !now.Rewarded? && !now.Chosen?
    ensures |Step(servers, now)| == |servers|
    ensures CellAt(Step(servers, now), i, p, a, if now == DropArm(a) then ZERO else total,
                   if now == DropArm(a) then ZERO else if now == MixRound then total else known)
  {
    match now
    case AddArm(arm) => AddCell(servers, arm, i, p, a, total, known);
    case DropArm(arm) => DropCell(servers, arm, i, p, a, total, known);
    case MixRound => MixCell(servers, i, p, a, total, known);
  }

  lemma NothingDone(servers: seq<Server>, j: nat, i: nat, p: Id, a: Id, total: ArmInfo, known: ArmInfo)
    requires i < |servers| && CellAt(servers, i, p, a, total, known)
    ensures CellAt(servers, i, p, a, Plus(total, ZERO), if i == j then Plus(known, ZERO) else known)
  {
    PlusZero(total);
    PlusZero(known);
  }

  lemma StepOfReward(servers: seq<Server>, now: Action)
    requires now.Rewarded? && now.server < |servers|
    ensures Step(servers, now)
         == RecordAt(servers, now.server, now.player, now.arm, RewardValue(servers[now.server], now.reward))
  {
  }

  lemma RewardCell(servers: seq<Server>, now: Action, i: nat, p: Id, a: Id, total: ArmInfo, known: ArmInfo,
                   gain: ArmInfo)
    requires i < |servers| && CellAt(servers, i, p, a, total, known)
    requires now.Rewarded? && GainIs(servers, now, p, a, gain)
    requires now.server < |servers| ==> Tidy(servers[now.server])
    ensures |Step(servers, now)| == |servers|
    ensures CellAt(Step(servers, now), i, p, a, Plus(total, gain), if i == now.server then Plus(known, gain) else known)
  {
    if now.server < |servers| {
      var worth := RewardValue(servers[now.server], now.reward);
      StepOfReward(servers, now);
      RecordCell(servers, now.server, now.player, now.arm, worth, i, p, a, total, known, gain);
    } else {
      NothingDone(servers, now.server, i, p, a, total, known);
    }
  }

  lemma StepOfChoice(servers: seq<Server>, now: Action)
    requires now.Chosen?
    ensures Step(servers, now)
         == if now.server < |servers| && servers[now.server].assumeUnrewarded
            then RecordAt(servers, now.server, now.player, now.arm, ArmInfo(1, 0.0)) else servers
  {
  }

  lemma ChoiceCell(servers: seq<Server>, now: Action, i: nat, p: Id, a: Id, total: ArmInfo, known: ArmInfo,
                   gain: ArmInfo)
    requires i < |servers| && CellAt(servers, i, p, a, total, known)
    requires now.Chosen? && GainIs(servers, now, p, a, gain)
    requires now.server < |servers| ==> Tidy(servers[now.server])
    ensures |Step(servers, now)| == |servers|
    ensures CellAt(Step(servers, now), i, p, a, Plus(total, gain), if i == now.server then Plus(known, gain) else known)
  {
    StepOfChoice(servers, now);
    if now.server < |servers| && servers[now.server].assumeUnrewarded {
      RecordCell(servers, now.server, now.player, now.arm, ArmInfo(1, 0.0), i, p, a, total, known, gain);
    } else {
      NothingDone(servers, now.server, i, p, a, total, known);
    }
  }

  lemma StepCell(servers: seq<Server>, now: Action, i: nat, p: Id, a: Id, total: ArmInfo, known: ArmInfo,
                 gain: ArmInfo)
    requires i < |servers| && CellAt(servers, i, p, a, total, known) && GainIs(servers, now, p, a, gain)
    requires (now.Rewarded? || now.Chosen?) && now.server < |servers| ==> Tidy(servers[now.server])
    ensures |Step(servers, now)| == |servers|
    ensures CellAt(Step(servers, now), i, p, a, TotalAfter(now, a, total, gain),
                   KnownAfter(now, i, a, total, known, gain))
  {
    if now.Rewarded? || now.Chosen? {
      SomeGain(now, i, a, total, known, gain);
    } else {
      NoGain(now, i, a, total, known);
    }
    if now.Rewarded? {
      RewardCell(servers, now, i, p, a, total, known, gain);
    } else if now.Chosen? {
      ChoiceCell(servers, now, i, p, a, total, known, gain);
    } else {
      ArmOrRound(servers, now, i, p, a, total, known);
    }
  }

  /** The server that a reward or a selection reaches. */
  ghost predicate Ready(flags: seq<bool>, past: seq<Action>, servers: seq<Server>, now: Action)
    requires |servers| == |flags|
  {
    (now.Rewarded? || now.Chosen?) && now.server < |servers| ==>
      Tidy(servers[now.server]) && ListsArms(flags, past, servers, now.server)
  }

  lemma HistoryGain(flags: seq<bool>, past: seq<Action>, servers: seq<Server>, now: Action, p: Id, a: Id)
    requires |servers| == |flags|
    requires (now.Rewarded? || now.Chosen?) && now.server < |servers| ==> ListsArms(flags, past, servers, now.server)
    ensures GainIs(servers, now, p, a, Gain(flags, past, now, p, a))
  {
  }

  lemma StepFollows(flags: seq<bool>, past: seq<Action>, servers: seq<Server>, now: Action, i: nat, p: Id, a: Id)
    requires |servers| == |flags| && i < |servers| && Follows(flags, past, servers, i, p, a)
    requires Ready(flags, past, servers, now)
    ensures |Step(servers, now)| == |servers| && Follows(flags, past + [now], Step(servers, now), i, p, a)
  {
    var total, known := Total(flags, past, p, a), Known(flags, past, i, p, a);
    HistoryGain(flags, past, servers, now, p, a);
    StepCell(servers, now, i, p, a, total, known, Gain(flags, past, now, p, a));
    HistoryGrows(flags, past, now, i, p, a);
  }

  lemma StepTidy(servers: seq<Server>, now: Action, i: nat)
    requires i < |servers| && SameTables(servers) && forall j :: 0 <= j < |servers| ==> Tidy(servers[j])
    ensures |Step(servers, now)| == |servers| && Tidy(Step(servers, now)[i])
  {
    match now
    case AddArm(arm) => AddArmTidy(servers[i], arm);
    case DropArm(arm) => DropArmTidy(servers[i], arm);
    case MixRound => MixTidy(servers, i);
    case Rewarded(j, player, arm, w) =>
      if j < |servers| {
        RecordTidy(servers[j], player, arm, RewardValue(servers[j], w));
      }
    case Chosen(j, player, arm) =>
      if j < |servers| {
        RecordTidy(servers[j], player, arm, ArmInfo(1, 0.0));
      }
  }

  lemma StepSameTables(servers: seq<Server>, now: Action)
    requires SameTables(servers)
    ensures SameTables(Step(servers, now))
  {
    if now == MixRound {
      MixSameTables(servers);
    }
  }

  lemma StepLists(flags: seq<bool>, past: seq<Action>, servers: seq<Server>, now: Action, i: nat)
    requires i < |servers| == |flags| && ListsArms(flags, past, servers, i)
    ensures |Step(servers, now)| == |servers| && ListsArms(flags, past + [now], Step(servers, now), i)
  {
    LastAction(flags, past, now);
    if now.DropArm? {
      WithoutKeeps(servers[i].armIds, now.arm);
    }
  }

  lemma StepInv(flags: seq<bool>, past: seq<Action>, servers: seq<Server>, now: Action)
    requires Inv(flags, past, servers)
    ensures Inv(flags, past + [now], Step(servers, now))
  {
    var after := Step(servers, now);
    StepSameTables(servers, now);
    forall i | 0 <= i < |servers|
      ensures Tidy(after[i]) && ListsArms(flags, past + [now], after, i)
    {
      StepTidy(servers, now, i);
      StepLists(flags, past, servers, now, i);
    }
    assert Ready(flags, past, servers, now);
    forall i, p, a | 0 <= i < |servers| ensures Follows(flags, past + [now], after, i, p, a) {
      StepFollows(flags, past, servers, now, i, p, a);
    }
  }

  lemma EmptyCell(servers: seq<Server>, i: nat, p: Id, a: Id)
    requires i < |servers| && forall j :: 0 <= j < |servers| ==> servers[j].mixed == map[] == servers[j].unmixed
    ensures CellAt(servers, i, p, a, ZERO, ZERO)
  {
    UnmixedOfNothing(servers, p, a);
    InfoOfNothing(p, a);
    AnswerOf(servers[i], p, a, ZERO, ZERO);
    PlusZero(ZERO);
  }

  lemma NothingYet(flags: seq<bool>, servers: seq<Server>, i: nat, p: Id, a: Id)
    requires i < |servers| && forall j :: 0 <= j < |servers| ==> servers[j].mixed == map[] == servers[j].unmixed
    ensures Follows(flags, [], servers, i, p, a)
  {
    assert Total(flags, [], p, a) == ZERO == Known(flags, [], i, p, a);
    EmptyCell(servers, i, p, a);
  }

  lemma StartInv(flags: seq<bool>)
    ensures Inv(flags, [], Start(flags))
  {
    var servers := Start(flags);
    forall i | 0 <= i < |servers| ensures Tidy(servers[i]) && ListsArms(flags, [], servers, i) { }
    forall i, p, a | 0 <= i < |servers| ensures Follows(flags, [], servers, i, p, a) {
      NothingYet(flags, servers, i, p, a);
    }
  }

  lemma {:induction false} RunInv(flags: seq<bool>, actions: seq<Action>)
    ensures Inv(flags, actions, Run(flags, actions))
  {
    if actions == [] {
      StartInv(flags);
    } else {
      var n := |actions| - 1;
      var past, now := actions[..n], actions[n];
      assert past + [now] == actions;
      RunInv(flags, past);
      StepInv(flags, past, Run(flags, past), now);
      LastAction(flags, past, now);
    }
  }

  // ----- what holds over all runs

  /** Nothing is lost or counted twice: after every run each server's mixed table plus all unmixed tables holds
      exactly the accepted trials and rewards since the arm was last dropped, and all mixed tables agree. */
  lemma NothingLostOrDoubled(flags: seq<bool>, actions: seq<Action>, i: nat, j: nat, p: Id, a: Id)
    requires i < |flags| && j < |flags|
    ensures var servers := Run(flags, actions);
            && |servers| == |flags|
            && servers[i].mixed == servers[j].mixed
            && Plus(Info(servers[i].mixed, p, a), Unmixed(servers, p, a)) == Total(flags, actions, p, a)
  {
    RunInv(flags, actions);
    assert Follows(flags, actions, Run(flags, actions), i, p, a);
  }

  /** After every run a server answers with all trials and rewards before the last round, from any server, and
      its own after it. */
  lemma ServerAnswersWhatItKnows(flags: seq<bool>, actions: seq<Action>, i: nat, p: Id, a: Id)
    requires i < |flags|
    ensures |Run(flags, actions)| == |flags|
    ensures GetArmInfo(Run(flags, actions)[i], p, a) == Known(flags, actions, i, p, a)
  {
    RunInv(flags, actions);
    assert Follows(flags, actions, Run(flags, actions), i, p, a);
  }

  lemma RoundTellsAll(flags: seq<bool>, actions: seq<Action>, i: nat, p: Id, a: Id)
    requires actions != [] && actions[|actions| - 1] == MixRound
    ensures Known(flags, actions, i, p, a) == Total(flags, actions, p, a)
  {
    var past := actions[..|actions| - 1];
    assert past + [MixRound] == actions;
    HistoryGrows(flags, past, MixRound, i, p, a);
    NoGain(MixRound, i, a, Total(flags, past, p, a), Known(flags, past, i, p, a));
  }

  /** Right after a round every server answers with the global total. */
  lemma RoundGivesGlobalTotals(flags: seq<bool>, actions: seq<Action>, i: nat, p: Id, a: Id)
    requires i < |flags| && actions != [] && actions[|actions| - 1] == MixRound
    ensures |Run(flags, actions)| == |flags|
    ensures GetArmInfo(Run(flags, actions)[i], p, a) == Total(flags, actions, p, a)
  {
    ServerAnswersWhatItKnows(flags, actions, i, p, a);
    RoundTellsAll(flags, actions, i, p, a);
  }

  /** Every player's stored count is the sum of its arms' trial counts, at all times and in both tables. */
  lemma CountsAreSums(flags: seq<bool>, actions: seq<Action>, i: nat, p: Id)
    requires i < |flags|
    ensures |Run(flags, actions)| == |flags|
    ensures var s := Run(flags, actions)[i];
            && (p in s.mixed ==> s.mixed[p].count == SumTrials(s.mixed[p].arms))
            && (p in s.unmixed ==> s.unmixed[p].count == SumTrials(s.unmixed[p].arms))
  {
    RunInv(flags, actions);
    assert Tidy(Run(flags, actions)[i]);
  }
}
