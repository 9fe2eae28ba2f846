/** The summation storage of the bandits: what one server's operations compute, and the code that
    computes it (jubatus/core/bandit/summation_storage.cpp). */
module BanditStorage {

  /** Arm and player identifiers; only their equality matters. */
  type Id = nat

  datatype ArmInfo = ArmInfo(trials: int, weight: real)

  const ZERO := ArmInfo(0, 0.0)

  /** A player's arms with the stored sum of their trial counts. */
  datatype Player = Player(count: int, arms: map<Id, ArmInfo>)

  type Table = map<Id, Player>

  function Plus(a: ArmInfo, b: ArmInfo): ArmInfo {
    ArmInfo(a.trials + b.trials, a.weight + b.weight)
  }

  function ArmAt(arms: map<Id, ArmInfo>, arm: Id): ArmInfo {
    if arm in arms then arms[arm] else ZERO
  }

  function PlayerAt(t: Table, player: Id): Player {
    if player in t then t[player] else Player(0, map[])
  }

  function Info(t: Table, player: Id, arm: Id): ArmInfo {
    ArmAt(PlayerAt(t, player).arms, arm)
  }

  // ----- operations on tables

  function MixArms(l: map<Id, ArmInfo>, r: map<Id, ArmInfo>): map<Id, ArmInfo> {
    map a | a in l.Keys + r.Keys :: if a in l then Plus(ArmAt(r, a), l[a]) else r[a]
  }

  function MixPlayer(l: Player, r: Player): Player {
    Player(r.count + l.count, MixArms(l.arms, r.arms))
  }

  function MixTables(l: Table, r: Table): Table {
    map p | p in l.Keys + r.Keys :: if p in l then MixPlayer(l[p], PlayerAt(r, p)) else r[p]
  }

  function WithoutArm(p: Player, arm: Id): Player {
    Player(p.count - ArmAt(p.arms, arm).trials, p.arms - {arm})
  }

  function DeleteFrom(t: Table, arm: Id): Table {
    map p | p in t :: WithoutArm(t[p], arm)
  }

  function WithArm(p: Player, arm: Id): Player {
    if arm in p.arms then p else Player(p.count, p.arms[arm := ZERO])
  }

  function AddTo(t: Table, arm: Id): Table {
    map p | p in t :: WithArm(t[p], arm)
  }

  function Without(ids: seq<Id>, id: Id): seq<Id> {
    if ids == [] then [] else (if ids[0] == id then [] else [ids[0]]) + Without(ids[1..], id)
  }

  // ----- operations on one server

  datatype Server = Server(assumeUnrewarded: bool, armIds: seq<Id>, mixed: Table, unmixed: Table)

  function RegisterArm(s: Server, arm: Id): Server {
    if arm in s.armIds then s else s.(armIds := s.armIds + [arm], unmixed := AddTo(s.unmixed, arm))
  }

  function DeleteArm(s: Server, arm: Id): Server {
    s.(mixed := DeleteFrom(s.mixed, arm), unmixed := DeleteFrom(s.unmixed, arm), armIds := Without(s.armIds, arm))
  }

  function FreshPlayer(s: Server): Player {
    Player(0, map a | a in s.armIds :: ZERO)
  }

  /** The unmixed table with an entry for the player. */
  function Entered(s: Server, player: Id): Table {
    if player in s.unmixed then s.unmixed else s.unmixed[player := FreshPlayer(s)]
  }

  function Credit(p: Player, arm: Id, gain: ArmInfo): Player
    requires arm in p.arms
  {
    Player(p.count + gain.trials, p.arms[arm := Plus(p.arms[arm], gain)])
  }

  /** What a reward or a selection adds; an unregistered arm is an error that still enters the player. */
  function Record(s: Server, player: Id, arm: Id, gain: ArmInfo): Server {
    var t := Entered(s, player);
    s.(unmixed := if arm in t[player].arms then t[player := Credit(t[player], arm, gain)] else t)
  }

  function RewardValue(s: Server, reward: real): ArmInfo {
    ArmInfo(if s.assumeUnrewarded then 0 else 1, reward)
  }

  function RegisterReward(s: Server, player: Id, arm: Id, reward: real): Server {
    Record(s, player, arm, RewardValue(s, reward))
  }

  function NotifySelected(s: Server, player: Id, arm: Id): Server {
    if s.assumeUnrewarded then Record(s, player, arm, ArmInfo(1, 0.0)) else s
  }

  function PutDiff(s: Server, diff: Table): Server {
    s.(mixed := MixTables(diff, s.mixed), unmixed := map[])
  }

  function GetArmInfo(s: Server, player: Id, arm: Id): ArmInfo {
    Plus(Info(s.mixed, player, arm), Info(s.unmixed, player, arm))
  }

  /** From one state to the next, the cell gains so much and every other cell is as it was. */
  ghost predicate Gained(before: Server, after: Server, player: Id, arm: Id, trials: int, weight: real) {
    && GetArmInfo(after, player, arm).trials == GetArmInfo(before, player, arm).trials + trials
    && GetArmInfo(after, player, arm).weight == GetArmInfo(before, player, arm).weight + weight
    && forall p, a :: p != player || a != arm ==> GetArmInfo(after, p, a) == GetArmInfo(before, p, a)
  }

  // ----- what the operations do to single cells

  lemma PlusZero(x: ArmInfo)
    ensures Plus(x, ZERO) == x && Plus(ZERO, x) == x
  {
  }

  lemma MixedArm(l: map<Id, ArmInfo>, r: map<Id, ArmInfo>, arm: Id)
    ensures arm in l ==> arm in MixArms(l, r) && MixArms(l, r)[arm] == Plus(ArmAt(r, arm), l[arm])
    ensures arm !in l && arm in r ==> arm in MixArms(l, r) && MixArms(l, r)[arm] == r[arm]
    ensures arm !in l && arm !in r ==> arm !in MixArms(l, r)
  {
  }

  lemma ArmOfMix(l: map<Id, ArmInfo>, r: map<Id, ArmInfo>, arm: Id)
    ensures ArmAt(MixArms(l, r), arm) == Plus(ArmAt(r, arm), ArmAt(l, arm))
  {
    MixedArm(l, r, arm);
    if arm in l {
    } else if arm in r {
      PlusZero(r[arm]);
    } else {
      PlusZero(ZERO);
    }
  }

  lemma MixedPlayer(l: Table, r: Table, p: Id)
    ensures p in l ==> PlayerAt(MixTables(l, r), p) == MixPlayer(l[p], PlayerAt(r, p))
    ensures p !in l ==> PlayerAt(MixTables(l, r), p) == PlayerAt(r, p)
  {
  }

  /** Mixing adds the tables cell by cell. */
  lemma InfoOfMix(l: Table, r: Table, player: Id, arm: Id)
    ensures Info(MixTables(l, r), player, arm) == Plus(Info(r, player, arm), Info(l, player, arm))
  {
    MixedPlayer(l, r, player);
    if player in l {
      ArmOfMix(l[player].arms, PlayerAt(r, player).arms, arm);
    } else {
      PlusZero(Info(r, player, arm));
    }
  }

  lemma EnteredInfo(s: Server, player: Id, p: Id, a: Id)
    ensures player in Entered(s, player)
    ensures Info(Entered(s, player), p, a) == Info(s.unmixed, p, a)
  {
  }

  lemma CreditedInfo(t: Table, player: Id, arm: Id, gain: ArmInfo, p: Id, a: Id)
    requires player in t && arm in t[player].arms
    ensures Info(t[player := Credit(t[player], arm, gain)], p, a)
         == if p == player && a == arm then Plus(Info(t, p, a), gain) else Info(t, p, a)
  {
  }

  lemma RecordedInfo(s: Server, player: Id, arm: Id, gain: ArmInfo, p: Id, a: Id)
    requires arm in Entered(s, player)[player].arms
    ensures Record(s, player, arm, gain).mixed == s.mixed
    ensures Info(Record(s, player, arm, gain).unmixed, p, a)
         == if p == player && a == arm then Plus(Info(s.unmixed, p, a), gain) else Info(s.unmixed, p, a)
  {
    EnteredInfo(s, player, p, a);
    CreditedInfo(Entered(s, player), player, arm, gain, p, a);
  }

  lemma AnswerOf(s: Server, p: Id, a: Id, mixed: ArmInfo, unmixed: ArmInfo)
    requires Info(s.mixed, p, a) == mixed && Info(s.unmixed, p, a) == unmixed
    ensures GetArmInfo(s, p, a) == Plus(mixed, unmixed)
  {
  }

  lemma PlusAssociates(x: ArmInfo, y: ArmInfo, z: ArmInfo)
    ensures Plus(x, Plus(y, z)) == Plus(Plus(x, y), z)
  {
  }

  lemma AnswerGains(s: Server, t: Server, p: Id, a: Id, gain: ArmInfo)
    requires t.mixed == s.mixed && Info(t.unmixed, p, a) == Plus(Info(s.unmixed, p, a), gain)
    ensures GetArmInfo(t, p, a) == Plus(GetArmInfo(s, p, a), gain)
  {
    var m, u := Info(s.mixed, p, a), Info(s.unmixed, p, a);
    AnswerOf(s, p, a, m, u);
    AnswerOf(t, p, a, m, Plus(u, gain));
    PlusAssociates(m, u, gain);
  }

  lemma AnswerStays(s: Server, t: Server, p: Id, a: Id)
    requires t.mixed == s.mixed && Info(t.unmixed, p, a) == Info(s.unmixed, p, a)
    ensures GetArmInfo(t, p, a) == GetArmInfo(s, p, a)
  {
  }

  lemma RecordGains(s: Server, t: Server, player: Id, arm: Id, gain: ArmInfo)
    requires arm in Entered(s, player)[player].arms && t == Record(s, player, arm, gain)
    ensures Gained(s, t, player, arm, gain.trials, gain.weight)
  {
    forall p, a | p != player || a != arm ensures GetArmInfo(t, p, a) == GetArmInfo(s, p, a) {
      RecordedInfo(s, player, arm, gain, p, a);
      AnswerStays(s, t, p, a);
    }
    RecordedInfo(s, player, arm, gain, player, arm);
    AnswerGains(s, t, player, arm, gain);
  }

  // ----- the stored counts

  ghost function SumTrials(arms: map<Id, ArmInfo>): int
    decreases |arms|
  {
    if arms == map[] then 0
    else
      var a :| a in arms;
      arms[a].trials + SumTrials(arms - {a})
  }

  lemma {:induction false} SumPick(arms: map<Id, ArmInfo>, a: Id)
    requires a in arms
    ensures SumTrials(arms) == arms[a].trials + SumTrials(arms - {a})
    decreases |arms|
  {
    var b :| b in arms && SumTrials(arms) == arms[b].trials + SumTrials(arms - {b});
    if a != b {
      SumPick(arms - {b}, a);
      SumPick(arms - {a}, b);
      assert arms - {b} - {a} == arms - {a} - {b};
    }
  }

  lemma SumUpdate(arms: map<Id, ArmInfo>, a: Id, v: ArmInfo)
    ensures SumTrials(arms[a := v]) == SumTrials(arms) - ArmAt(arms, a).trials + v.trials
  {
    SumPick(arms[a := v], a);
    assert arms[a := v] - {a} == arms - {a};
    if a in arms {
      SumPick(arms, a);
    } else {
      assert arms - {a} == arms;
    }
  }

  lemma MixOneMore(l: map<Id, ArmInfo>, r: map<Id, ArmInfo>, a: Id)
    requires a in l
    ensures var rest := MixArms(l - {a}, r);
            MixArms(l, r) == rest[a := Plus(ArmAt(r, a), l[a])] && ArmAt(rest, a) == ArmAt(r, a)
  {
  }

  lemma {:induction false} SumMix(l: map<Id, ArmInfo>, r: map<Id, ArmInfo>)
    ensures SumTrials(MixArms(l, r)) == SumTrials(l) + SumTrials(r)
    decreases |l|
  {
    if l == map[] {
      assert MixArms(l, r) == r;
    } else {
      var a :| a in l;
      MixOneMore(l, r, a);
      SumMix(l - {a}, r);
      SumPick(l, a);
      SumUpdate(MixArms(l - {a}, r), a, Plus(ArmAt(r, a), l[a]));
    }
  }

  lemma {:induction false} SumZeros(arms: map<Id, ArmInfo>)
    requires forall a :: a in arms ==> arms[a] == ZERO
    ensures SumTrials(arms) == 0
    decreases |arms|
  {
    if arms != map[] {
      var a :| a in arms;
      SumPick(arms, a);
      SumZeros(arms - {a});
    }
  }

  /** Every player's stored count is the sum of its arms' trial counts. */
  ghost predicate Counted(t: Table) {
    forall p :: p in t ==> t[p].count == SumTrials(t[p].arms)
  }

  lemma MixCounted(l: Table, r: Table)
    requires Counted(l) && Counted(r)
    ensures Counted(MixTables(l, r))
  {
    forall p | p in l { SumMix(l[p].arms, PlayerAt(r, p).arms); }
  }

  lemma DeleteCounted(t: Table, arm: Id)
    requires Counted(t)
    ensures Counted(DeleteFrom(t, arm))
  {
    forall p | p in t ensures SumTrials(t[p].arms - {arm}) == t[p].count - ArmAt(t[p].arms, arm).trials {
      if arm in t[p].arms {
        SumPick(t[p].arms, arm);
      } else {
        assert t[p].arms - {arm} == t[p].arms;
      }
    }
  }

  lemma AddCounted(t: Table, arm: Id)
    requires Counted(t)
    ensures Counted(AddTo(t, arm))
  {
    forall p | p in t { SumUpdate(t[p].arms, arm, ZERO); }
  }

  lemma RecordCounted(s: Server, player: Id, arm: Id, gain: ArmInfo)
    requires Counted(s.unmixed)
    ensures Counted(Record(s, player, arm, gain).unmixed)
  {
    SumZeros(FreshPlayer(s).arms);
    var t := Entered(s, player);
    if arm in t[player].arms {
      SumUpdate(t[player].arms, arm, Plus(t[player].arms[arm], gain));
    }
  }

  // ----- the code

  /** delete_arm_: every player of a table loses the arm and its trials. */
  method DeleteArmFrom(t: Table, arm: Id) returns (out: Table)
    ensures out == DeleteFrom(t, arm)
  {
    out := t;
    var todo := t.Keys;
    while todo != {}
      invariant todo <= t.Keys == out.Keys
      invariant forall p :: p in t ==> out[p] == if p in todo then t[p] else WithoutArm(t[p], arm)
      decreases todo
    {
      var p :| p in todo;
      var count := out[p].count;
      if arm in out[p].arms {
        count := count - out[p].arms[arm].trials;
      }
      out := out[p := Player(count, out[p].arms - {arm})];
      todo := todo - {p};
    }
  }

  /** The loop of register_arm over the unmixed players. */
  method InsertArm(t: Table, arm: Id) returns (out: Table)
    ensures out == AddTo(t, arm)
  {
    out := t;
    var todo := t.Keys;
    while todo != {}
      invariant todo <= t.Keys == out.Keys
      invariant forall p :: p in t ==> out[p] == if p in todo then t[p] else WithArm(t[p], arm)
      decreases todo
    {
      var p :| p in todo;
      if arm !in out[p].arms {
        out := out[p := Player(out[p].count, out[p].arms[arm := ZERO])];
      }
      todo := todo - {p};
    }
  }

  /** The inner loop of mix. */
  method MixInto(l: map<Id, ArmInfo>, r: map<Id, ArmInfo>) returns (out: map<Id, ArmInfo>)
    ensures out == MixArms(l, r)
  {
    out := r;
    var todo := l.Keys;
    while todo != {}
      invariant todo <= l.Keys && out.Keys == r.Keys + (l.Keys - todo)
      invariant forall a :: a in out ==> out[a] == if a in l && a !in todo then Plus(ArmAt(r, a), l[a]) else r[a]
      decreases todo
    {
      var a :| a in todo;
      out := out[a := Plus(ArmAt(out, a), l[a])];
      todo := todo - {a};
    }
  }

  /** The table with the players of l but those in todo mixed in. */
  ghost predicate MixedBut(l: Table, r: Table, todo: set<Id>, out: Table) {
    && todo <= l.Keys && out.Keys == r.Keys + (l.Keys - todo)
    && forall p :: p in out ==> out[p] == if p in l && p !in todo then MixPlayer(l[p], PlayerAt(r, p)) else r[p]
  }

  lemma MixedOneMore(l: Table, r: Table, todo: set<Id>, out: Table, p: Id)
    requires MixedBut(l, r, todo, out) && p in todo
    ensures MixedBut(l, r, todo - {p}, out[p := MixPlayer(l[p], PlayerAt(out, p))])
  {
    assert PlayerAt(out, p) == PlayerAt(r, p);
  }

  lemma MixedAll(l: Table, r: Table, out: Table)
    requires MixedBut(l, r, {}, out)
    ensures out == MixTables(l, r)
  {
    assert out.Keys == l.Keys + r.Keys;
  }

  /** mix: adds table l into table r. */
  method Mix(l: Table, r: Table) returns (out: Table)
    ensures out == MixTables(l, r)
  {
    out := r;
    var todo := l.Keys;
    while todo != {}
      invariant MixedBut(l, r, todo, out)
      decreases todo
    {
      var p :| p in todo;
      MixedOneMore(l, r, todo, out, p);
      var into := PlayerAt(out, p);
      var arms := MixInto(l[p].arms, into.arms);
      out := out[p := Player(into.count + l[p].count, arms)];
      todo := todo - {p};
    }
    MixedAll(l, r, out);
  }

  lemma WithoutNext(out: seq<Id>, ids: seq<Id>, i: nat, id: Id)
    requires i < |ids|
    ensures out + Without(ids[i..], id) == (if ids[i] != id then out + [ids[i]] else out) + Without(ids[i + 1..], id)
  {
    assert ids[i..][1..] == ids[i + 1..];
  }

  method Remove(ids: seq<Id>, id: Id) returns (out: seq<Id>)
    ensures out == Without(ids, id)
  {
    out := [];
    for i := 0 to |ids|
      invariant out + Without(ids[i..], id) == Without(ids, id)
    {
      WithoutNext(out, ids, i, id);
      if ids[i] != id {
        out := out + [ids[i]];
      }
    }
  }

  lemma {:induction false} WithoutKeeps(ids: seq<Id>, id: Id)
    ensures |Without(ids, id)| <= |ids| && (|Without(ids, id)| == |ids| <==> id !in ids)
    ensures id !in ids ==> Without(ids, id) == ids
    ensures forall x :: x in Without(ids, id) <==> x in ids && x != id
  {
    if ids != [] {
      WithoutKeeps(ids[1..], id);
      assert ids == [ids[0]] + ids[1..];
    }
  }

  class SummationStorage {
    const assumeUnrewarded: bool
    var armIds: seq<Id>
    var mixed: Table
    var unmixed: Table

    ghost function State(): Server
      reads this
    {
      Server(assumeUnrewarded, armIds, mixed, unmixed)
    }

    constructor (assumeUnrewarded: bool)
      ensures State() == Server(assumeUnrewarded, [], map[], map[])
    {
      this.assumeUnrewarded := assumeUnrewarded;
      armIds, mixed, unmixed := [], map[], map[];
    }

    method Register(arm: Id) returns (added: bool)
      modifies this
      ensures State() == RegisterArm(old(State()), arm) && added == (arm !in old(armIds))
    {
      if arm in armIds {
        return false;
      }
      armIds := armIds + [arm];
      unmixed := InsertArm(unmixed, arm);
      return true;
    }

    method Delete(arm: Id) returns (removed: bool)
      modifies this
      ensures State() == DeleteArm(old(State()), arm) && removed == (arm in old(armIds))
    {
      mixed := DeleteArmFrom(mixed, arm);
      unmixed := DeleteArmFrom(unmixed, arm);
      var left := Remove(armIds, arm);
      WithoutKeeps(armIds, arm);
      removed := |left| != |armIds|;
      armIds := left;
    }

    /** get_counted_arm_info_map_ on the unmixed table: enters the player if needed. */
    method Enter(player: Id)
      modifies this
      ensures State() == old(State()).(unmixed := Entered(old(State()), player))
    {
      if player !in unmixed {
        unmixed := unmixed[player := Player(0, map a | a in armIds :: ZERO)];
      }
    }

    /** False where the source throws: the arm is not registered. */
    method Selected(player: Id, arm: Id) returns (ok: bool)
      modifies this
      ensures State() == NotifySelected(old(State()), player, arm)
      ensures ok <==> !assumeUnrewarded || arm in Entered(old(State()), player)[player].arms
      ensures ok ==> Gained(old(State()), State(), player, arm, if assumeUnrewarded then 1 else 0, 0.0)
    {
      if !assumeUnrewarded {
        return true;
      }
      Enter(player);
      ok := arm in unmixed[player].arms;
      if ok {
        var p := unmixed[player];
        var a := p.arms[arm];
        unmixed := unmixed[player := Player(p.count + 1, p.arms[arm := ArmInfo(a.trials + 1, a.weight)])];
        RecordGains(old(State()), State(), player, arm, ArmInfo(1, 0.0));
      }
    }

    method Reward(player: Id, arm: Id, reward: real) returns (ok: bool)
      modifies this
      ensures State() == RegisterReward(old(State()), player, arm, reward)
      ensures ok <==> arm in Entered(old(State()), player)[player].arms
      ensures ok ==> Gained(old(State()), State(), player, arm, if assumeUnrewarded then 0 else 1, reward)
    {
      Enter(player);
      ok := arm in unmixed[player].arms;
      if ok {
        var p := unmixed[player];
        var a := p.arms[arm];
        var count, trials := p.count, a.trials;
        if !assumeUnrewarded {
          trials := trials + 1;
          count := count + 1;
        }
        unmixed := unmixed[player := Player(count, p.arms[arm := ArmInfo(trials, a.weight + reward)])];
        RecordGains(old(State()), State(), player, arm, RewardValue(old(State()), reward));
      }
    }

    method Put(diff: Table)
      modifies this
      ensures State() == PutDiff(old(State()), diff)
    {
      mixed := Mix(diff, mixed);
      unmixed := map[];
    }
  }
}
