/** What holds of the credential registry over every run of calls by any
    organizations, where each key came from, and how revocations combine. */
module ApiKeyTheorems {
  import opened TokenLedger
  import opened BountyTypes
  import opened ApiKeys

  // ----- one organization's vector

  /** Ids are positive, increasing, and no larger than the counter. */
  ghost predicate InOrder(v: Vector, organization: Address, counter: U64) {
    && (forall i :: 0 <= i < |v| ==> 1 <= v[i].id <= counter && v[i].organization == organization)
    && (forall i, j :: 0 <= i < j < |v| ==> v[i].id < v[j].id)
  }

  ghost predicate ActiveDistinct(v: Vector) {
    forall i, j :: 0 <= i < j < |v| && v[i].isActive && v[j].isActive ==> v[i].fingerprint != v[j].fingerprint
  }

  /** Exactly one primary when some key is active, none otherwise; and it is active. */
  ghost predicate OnePrimary(v: Vector) {
    && (forall i :: 0 <= i < |v| && v[i].isPrimary ==> v[i].isActive)
    && (forall i, j :: 0 <= i < |v| && 0 <= j < |v| && v[i].isPrimary && v[j].isPrimary ==> i == j)
    && (SomeActive(v) ==> exists i :: 0 <= i < |v| && v[i].isPrimary)
  }

  /** A nonzero predecessor is an earlier key of the same vector. */
  ghost predicate Linked(v: Vector) {
    forall i :: 0 <= i < |v| && v[i].previousId != 0 ==> exists j :: 0 <= j < i && v[j].id == v[i].previousId
  }

  /** The rotations a vector shows: old id, new id and time of each key with a predecessor. */
  function RotationsIn(v: Vector): seq<(U64, U64, U64)> {
    if v == [] then []
    else
      var last := v[|v| - 1];
      RotationsIn(v[..|v| - 1]) + if last.previousId != 0 then [(last.previousId, last.id, last.createdAt)] else []
  }

  /** The history entries are the vector's rotations, one to one and in order. */
  ghost predicate Logged(v: Vector, history: seq<Rotation>, organization: Address) {
    && |history| == |RotationsIn(v)|
    && forall k :: 0 <= k < |history| ==>
         && history[k].organization == organization && history[k].actor == organization
         && (history[k].oldId, history[k].newId, history[k].rotatedAt) == RotationsIn(v)[k]
  }

  ghost predicate VectorSound(v: Vector, history: seq<Rotation>, organization: Address, counter: U64) {
    InOrder(v, organization, counter) && ActiveDistinct(v) && OnePrimary(v) && Linked(v)
      && Logged(v, history, organization)
  }

  ghost predicate IdsUnique(r: Registry) {
    forall o, p, i, j :: o != p && 0 <= i < |r.CredentialsOf(o)| && 0 <= j < |r.CredentialsOf(p)| ==>
      r.CredentialsOf(o)[i].id != r.CredentialsOf(p)[j].id
  }

  ghost predicate KeysSound(r: Registry) {
    && (forall o :: VectorSound(r.CredentialsOf(o), r.HistoryOf(o), o, r.counter))
    && IdsUnique(r)
  }

  lemma {:induction false} SoundVector(r: Registry, o: Address)
    requires KeysSound(r)
    ensures VectorSound(r.CredentialsOf(o), r.HistoryOf(o), o, r.counter)
  {
    hide VectorSound, IdsUnique;
  }

  /** Keys only change by being switched off or by the primary moving. */
  ghost predicate OnlyFlagsFall(v: Vector, v': Vector) {
    && |v| <= |v'|
    && forall i :: 0 <= i < |v| ==>
         && v'[i] == v[i].(isActive := v'[i].isActive, isPrimary := v'[i].isPrimary)
         && (v'[i].isActive ==> v[i].isActive)
  }

  // ----- what each call does to a vector

  lemma {:induction false} RotationsOfSameKeys(v: Vector, v': Vector)
    requires |v| == |v'| && OnlyFlagsFall(v, v')
    ensures RotationsIn(v') == RotationsIn(v)
  {
    if v != [] { RotationsOfSameKeys(v[..|v| - 1], v'[..|v| - 1]); }
  }

  lemma {:induction false} FlagsKeepSound(v: Vector, v': Vector, history: seq<Rotation>, organization: Address,
        counter: U64)
    requires VectorSound(v, history, organization, counter) && |v| == |v'| && OnlyFlagsFall(v, v') && OnePrimary(v')
    ensures VectorSound(v', history, organization, counter)
  {
    RotationsOfSameKeys(v, v');
    forall i | 0 <= i < |v'| && v'[i].previousId != 0
      ensures exists j :: 0 <= j < i && v'[j].id == v'[i].previousId
    {
      var j :| 0 <= j < i && v[j].id == v[i].previousId;
      assert v'[j].id == v'[i].previousId;
    }
  }

  lemma {:induction false} AppendKeepsOrder(v: Vector, key: Credential, organization: Address, counter: U64)
    requires InOrder(v, organization, counter) && key.id == counter + 1 && key.organization == organization
    ensures InOrder(v + [key], organization, counter + 1)
  {
  }

  lemma {:induction false} AppendKeepsDistinct(v: Vector, key: Credential)
    requires ActiveDistinct(v) && !HasActive(v, key.fingerprint)
    ensures ActiveDistinct(v + [key])
  {
  }

  lemma {:induction false} AppendKeepsLinked(v: Vector, key: Credential)
    requires Linked(v) && (key.previousId == 0 || HasId(v, key.previousId))
    ensures Linked(v + [key])
  {
    var v' := v + [key];
    forall i | 0 <= i < |v'| && v'[i].previousId != 0
      ensures exists j :: 0 <= j < i && v'[j].id == v'[i].previousId
    {
      var j :| 0 <= j < i && v[j].id == v'[i].previousId;
      assert v'[j].id == v'[i].previousId;
    }
  }

  lemma {:induction false} RegisterKeepsLogged(v: Vector, key: Credential, history: seq<Rotation>,
        organization: Address)
    requires Logged(v, history, organization) && key.previousId == 0
    ensures Logged(v + [key], history, organization)
  {
    assert (v + [key])[..|v|] == v;
  }

  lemma {:induction false} RotateKeepsLogged(v: Vector, key: Credential, history: seq<Rotation>,
        organization: Address, reason: string)
    requires Logged(v, history, organization) && key.previousId != 0
    ensures Logged(v + [key],
                   history + [Rotation(organization, key.previousId, key.id, organization, reason, key.createdAt)],
                   organization)
  {
    assert (v + [key])[..|v|] == v;
  }

  lemma {:induction false} RegisterKeepsOnePrimary(v: Vector, key: Credential)
    requires OnePrimary(v) && key.isActive && key.isPrimary == !SomeActive(v)
    ensures OnePrimary(v + [key])
  {
    var v' := v + [key];
    if SomeActive(v) {
      var i :| 0 <= i < |v| && v[i].isPrimary;
      assert v'[i].isPrimary;
    } else {
      assert v'[|v|].isPrimary;
    }
  }

  lemma {:induction false} WithPrimaryHasOne(v: Vector, p: int, organization: Address, counter: U64)
    requires InOrder(v, organization, counter) && 0 <= p < |v| && v[p].isActive
    ensures OnePrimary(WithPrimary(v, v[p].id))
  {
    assert WithPrimary(v, v[p].id)[p].isPrimary;
  }

  lemma {:induction false} FirstActiveFound(v: Vector, organization: Address, counter: U64) returns (p: int)
    requires InOrder(v, organization, counter)
    ensures if FirstActiveId(v) == 0 then !SomeActive(v)
            else
              && 0 <= p < |v| && v[p].isActive && v[p].id == FirstActiveId(v)
              && forall i :: 0 <= i < p ==> !v[i].isActive
  {
    p := 0;
    if v != [] {
      var init := v[..|v| - 1];
      p := FirstActiveFound(init, organization, counter);
      if FirstActiveId(init) == 0 {
        assert forall i :: 0 <= i < |init| ==> v[i] == init[i];
        assert forall i :: 0 <= i < |init| ==> !v[i].isActive by {
          assert !SomeActive(init);
        }
        p := |v| - 1;
      }
    }
  }

  predicate Spared(key: Credential, ids: set<U64>) {
    key.isActive && key.id !in ids
  }

  /** The vector with the given ids off and the oldest key still active, if any, primary. */
  function LeftBy(v: Vector, ids: set<U64>): (r: Vector)
    ensures |r| == |v|
  {
    seq(|v|, i requires 0 <= i < |v| =>
      v[i].(isActive := Spared(v[i], ids),
            isPrimary := Spared(v[i], ids) && forall j :: 0 <= j < i ==> !Spared(v[j], ids)))
  }

  /** What revoking leaves does not depend on which key was primary before. */
  lemma {:induction false} RevokingLeaves(v: Vector, id: U64, organization: Address, counter: U64)
    requires InOrder(v, organization, counter) && OnePrimary(v)
    ensures AfterRevoking(v, id) == LeftBy(v, {id})
  {
    var rest := Deactivated(v, id);
    assert InOrder(rest, organization, counter);
    var p := FirstActiveFound(rest, organization, counter);
    assert forall i :: 0 <= i < |v| ==> (rest[i].isActive <==> Spared(v[i], {id}));
    forall i | 0 <= i < |v|
      ensures AfterRevoking(v, id)[i] == LeftBy(v, {id})[i]
    {
      assert FirstActiveId(rest) == 0 ==> !rest[i].isActive;
      hide SomeActive;
    }
  }

  lemma {:induction false} LeftByHasOnePrimary(v: Vector, ids: set<U64>)
    ensures OnePrimary(LeftBy(v, ids)) && OnlyFlagsFall(v, LeftBy(v, ids))
  {
    var v' := LeftBy(v, ids);
    if i :| 0 <= i < |v'| && v'[i].isActive {
      var p := 0;
      while !Spared(v[p], ids)
        invariant 0 <= p <= i && forall j :: 0 <= j < p ==> !Spared(v[j], ids)
        decreases i - p
      {
        assert v'[i].isActive == Spared(v[i], ids);
        p := p + 1;
      }
      assert v'[p].isPrimary;
    }
  }

  lemma {:induction false} LeftByTwice(v: Vector, ids: set<U64>, more: set<U64>)
    ensures LeftBy(LeftBy(v, ids), more) == LeftBy(v, ids + more)
  {
    assert forall i :: 0 <= i < |v| ==> Spared(LeftBy(v, ids)[i], more) == Spared(v[i], ids + more);
  }

  // ----- every run

  lemma {:induction false} RegisterKeepsSound(r: Registry, now: U64, c: KeyCall)
    requires KeysSound(r) && c.Register? && KeyReplyTo(r, c).KeyId?
    ensures VectorSound(r.CredentialsOf(c.organization) + [NewCredential(r, now, c)], r.HistoryOf(c.organization),
            c.organization, r.counter + 1)
  {
    var o := c.organization;
    var v, key, history := r.CredentialsOf(o), NewCredential(r, now, c), r.HistoryOf(o);
    hide KeysSound, InOrder, ActiveDistinct, OnePrimary, Linked, Logged;
    SoundVector(r, o);
    AppendKeepsOrder(v, key, o, r.counter);
    AppendKeepsDistinct(v, key);
    AppendKeepsLinked(v, key);
    RegisterKeepsLogged(v, key, history, o);
    RegisterKeepsOnePrimary(v, key);
  }

  lemma {:induction false} SameKeysStayOrdered(v: Vector, v': Vector, organization: Address, counter: U64)
    requires InOrder(v, organization, counter) && ActiveDistinct(v) && |v'| == |v| && OnlyFlagsFall(v, v')
    ensures InOrder(v', organization, counter) && ActiveDistinct(v')
  {
  }

  lemma {:induction false} RebuildKeepsSound(v: Vector, history: seq<Rotation>, organization: Address, counter: U64)
    requires v != [] && v[|v| - 1].isActive
    requires InOrder(v, organization, counter) && ActiveDistinct(v) && Linked(v) && Logged(v, history, organization)
    ensures VectorSound(WithPrimary(v, v[|v| - 1].id), history, organization, counter)
  {
    hide Linked, ActiveDistinct, OnePrimary, InOrder, RotationsIn;
    var rebuilt := WithPrimary(v, v[|v| - 1].id);
    SameKeysStayOrdered(v, rebuilt, organization, counter);
    RotationsOfSameKeys(v, rebuilt);
    WithPrimaryHasOne(v, |v| - 1, organization, counter);
    SameKeysStayLinked(v, rebuilt);
  }

  lemma {:induction false} RotateKeepsSound(r: Registry, now: U64, c: KeyCall)
    requires KeysSound(r) && c.Rotate? && KeyReplyTo(r, c).KeyId?
    ensures VectorSound(WithPrimary(r.CredentialsOf(c.organization) + [NewCredential(r, now, c)], r.counter + 1),
                        r.HistoryOf(c.organization)
                        + [Rotation(c.organization, c.currentId, r.counter + 1, c.organization, c.reason, now)],
                        c.organization, r.counter + 1)
  {
    hide KeysSound, InOrder, ActiveDistinct, OnePrimary, Linked, Logged, HasUnusable, HasId, HasActive, WithPrimary,
      VectorSound;
    var o := c.organization;
    var v, key, history := r.CredentialsOf(o), NewCredential(r, now, c), r.HistoryOf(o);
    SoundVector(r, o);
    VectorParts(v, history, o, r.counter);
    IdsArePositive(v, o, r.counter, c.currentId);
    AppendKeepsOrder(v, key, o, r.counter);
    AppendKeepsDistinct(v, key);
    AppendKeepsLinked(v, key);
    RotateKeepsLogged(v, key, history, o, c.reason);
    var appended := v + [key];
    assert appended[|appended| - 1] == key;
    RebuildKeepsSound(appended, history + [Rotation(o, key.previousId, key.id, o, c.reason, key.createdAt)], o,
      r.counter + 1);
  }

  lemma {:induction false} VectorParts(v: Vector, history: seq<Rotation>, organization: Address, counter: U64)
    requires VectorSound(v, history, organization, counter)
    ensures InOrder(v, organization, counter) && ActiveDistinct(v) && OnePrimary(v) && Linked(v)
            && Logged(v, history, organization)
  {
  }

  lemma {:induction false} IdsArePositive(v: Vector, organization: Address, counter: U64, id: U64)
    requires InOrder(v, organization, counter) && HasId(v, id)
    ensures id != 0
  {
  }

  lemma {:induction false} SameKeysStayLinked(v: Vector, v': Vector)
    requires Linked(v) && |v'| == |v| && OnlyFlagsFall(v, v')
    ensures Linked(v')
  {
    forall i | 0 <= i < |v'| && v'[i].previousId != 0
      ensures exists j :: 0 <= j < i && v'[j].id == v'[i].previousId
    {
      var j :| 0 <= j < i && v[j].id == v[i].previousId;
      assert v'[j].id == v'[i].previousId;
    }
  }

  lemma {:induction false} AppendingOnlyFlagsFall(v: Vector, key: Credential, primaryId: U64)
    ensures OnlyFlagsFall(v, v + [key]) && OnlyFlagsFall(v, WithPrimary(v + [key], primaryId))
  {
  }

  lemma {:induction false} RevokingOnlyFlagsFall(v: Vector, history: seq<Rotation>, o: Address, counter: U64, id: U64)
    requires VectorSound(v, history, o, counter)
    ensures OnlyFlagsFall(v, AfterRevoking(v, id))
  {
    hide OnlyFlagsFall, AfterRevoking, LeftBy;
    RevokingLeaves(v, id, o, counter);
    LeftByHasOnePrimary(v, {id});
  }

  lemma {:induction false} ApplyOnlyFlagsFall(r: Registry, now: U64, c: KeyCall, o: Address)
    requires KeysSound(r)
    ensures OnlyFlagsFall(r.CredentialsOf(o), Apply(r, now, c).CredentialsOf(o))
    ensures r.HistoryOf(o) <= Apply(r, now, c).HistoryOf(o)
    ensures o != c.organization ==> Apply(r, now, c).CredentialsOf(o) == r.CredentialsOf(o)
  {
    hide KeysSound, VectorSound, OnlyFlagsFall, WithPrimary, AfterRevoking, HasUnusable, HasId, HasActive, SomeActive;
    var v := r.CredentialsOf(o);
    SoundVector(r, o);
    NothingFalls(v);
    if o == c.organization && !KeyReplyTo(r, c).Refused? {
      if c.Revoke? {
        RevokingOnlyFlagsFall(v, r.HistoryOf(o), o, r.counter, c.credentialId);
      } else {
        AppendingOnlyFlagsFall(v, NewCredential(r, now, c), r.counter + 1);
      }
    }
  }

  lemma {:induction false} NothingFalls(v: Vector)
    ensures OnlyFlagsFall(v, v)
  {
  }

  lemma {:induction false} ApplyStores(r: Registry, now: U64, c: KeyCall)
    requires !KeyReplyTo(r, c).Refused?
    ensures var o, r' := c.organization, Apply(r, now, c);
      match c
      case Register(_, _, _) =>
        && r'.CredentialsOf(o) == r.CredentialsOf(o) + [NewCredential(r, now, c)]
        && r'.HistoryOf(o) == r.HistoryOf(o) && r'.counter == r.counter + 1
      case Rotate(_, id, _, _, reason) =>
        && r'.CredentialsOf(o) == WithPrimary(r.CredentialsOf(o) + [NewCredential(r, now, c)], r.counter + 1)
        && r'.HistoryOf(o) == r.HistoryOf(o) + [Rotation(o, id, r.counter + 1, o, reason, now)]
        && r'.counter == r.counter + 1
      case Revoke(_, id) =>
        && r'.CredentialsOf(o) == AfterRevoking(r.CredentialsOf(o), id)
        && r'.HistoryOf(o) == r.HistoryOf(o) && r'.counter == r.counter
  {
    hide AfterRevoking, WithPrimary, HasUnusable, HasId, HasActive;
  }

  lemma {:induction false} CallKeepsVectorSound(r: Registry, now: U64, c: KeyCall)
    requires KeysSound(r) && !KeyReplyTo(r, c).Refused?
    ensures var r' := Apply(r, now, c);
      VectorSound(r'.CredentialsOf(c.organization), r'.HistoryOf(c.organization), c.organization, r'.counter)
  {
    hide KeysSound, VectorSound, Apply, AfterRevoking, WithPrimary, HasUnusable, HasId, HasActive, NewCredential;
    var o := c.organization;
    SoundVector(r, o);
    ApplyStores(r, now, c);
    if c.Register? {
      RegisterKeepsSound(r, now, c);
    } else if c.Rotate? {
      RotateKeepsSound(r, now, c);
    } else {
      RevokeKeepsSound(r.CredentialsOf(o), r.HistoryOf(o), o, r.counter, c.credentialId);
    }
  }

  lemma {:induction false} RevokeKeepsSound(v: Vector, history: seq<Rotation>, organization: Address, counter: U64,
        id: U64)
    requires VectorSound(v, history, organization, counter)
    ensures VectorSound(AfterRevoking(v, id), history, organization, counter)
  {
    hide InOrder, OnePrimary, ActiveDistinct, Linked, Logged;
    RevokingLeaves(v, id, organization, counter);
    LeftByHasOnePrimary(v, {id});
    FlagsKeepSound(v, LeftBy(v, {id}), history, organization, counter);
  }

  lemma {:induction false} HigherCounterKeepsSound(v: Vector, history: seq<Rotation>, organization: Address,
        counter: U64, higher: U64)
    requires VectorSound(v, history, organization, counter) && counter <= higher
    ensures VectorSound(v, history, organization, higher)
  {
    hide ActiveDistinct, OnePrimary, Linked, Logged;
  }

  lemma {:induction false} CallConcernsOneVector(r: Registry, now: U64, c: KeyCall, o: Address)
    ensures r.counter <= Apply(r, now, c).counter
    ensures o != c.organization || KeyReplyTo(r, c).Refused? ==>
      Apply(r, now, c).CredentialsOf(o) == r.CredentialsOf(o) && Apply(r, now, c).HistoryOf(o) == r.HistoryOf(o)
  {
  }

  /** An id of an organization was its own before the call, or the call just gave it out. */
  lemma {:induction false} IdsAreOldOrNew(r: Registry, now: U64, c: KeyCall, o: Address, i: int)
    requires KeysSound(r) && 0 <= i < |Apply(r, now, c).CredentialsOf(o)|
    ensures var id := Apply(r, now, c).CredentialsOf(o)[i].id;
      if i < |r.CredentialsOf(o)| then id == r.CredentialsOf(o)[i].id && id <= r.counter
      else id == r.counter + 1 && o == c.organization
  {
    ApplyOnlyFlagsFall(r, now, c, o);
    SoundVector(r, o);
    hide KeysSound, ActiveDistinct, OnePrimary, Linked, Logged;
  }

  lemma {:induction false} ApplyKeepsSound(r: Registry, now: U64, c: KeyCall)
    requires KeysSound(r)
    ensures KeysSound(Apply(r, now, c))
  {
    hide VectorSound, Apply;
    assert KeysSound(r);
    var r' := Apply(r, now, c);
    forall o
      ensures VectorSound(r'.CredentialsOf(o), r'.HistoryOf(o), o, r'.counter)
    {
      CallConcernsOneVector(r, now, c, o);
      if o == c.organization && !KeyReplyTo(r, c).Refused? {
        CallKeepsVectorSound(r, now, c);
      } else {
        HigherCounterKeepsSound(r.CredentialsOf(o), r.HistoryOf(o), o, r.counter, r'.counter);
      }
    }
    forall o, p, i, j | o != p && 0 <= i < |r'.CredentialsOf(o)| && 0 <= j < |r'.CredentialsOf(p)|
      ensures r'.CredentialsOf(o)[i].id != r'.CredentialsOf(p)[j].id
    {
      IdsAreOldOrNew(r, now, c, o, i);
      IdsAreOldOrNew(r, now, c, p, j);
    }
  }

  datatype KeyStep = KeyStep(now: U64, call: KeyCall)

  function RunKeys(r: Registry, steps: seq<KeyStep>): Registry
    decreases |steps|
  {
    if steps == [] then r else RunKeys(Apply(r, steps[0].now, steps[0].call), steps[1..])
  }

  lemma {:induction false} RunKeepsSound(r: Registry, steps: seq<KeyStep>)
    requires KeysSound(r)
    ensures KeysSound(RunKeys(r, steps))
    decreases |steps|
  {
    if steps != [] {
      ApplyKeepsSound(r, steps[0].now, steps[0].call);
      RunKeepsSound(Apply(r, steps[0].now, steps[0].call), steps[1..]);
    }
  }

  const EMPTY := Registry(map[], map[], 0)

  /** Whatever the calls: active fingerprints are distinct per organization, one key is primary
      iff some key is active, ids are positive and globally unique, predecessors are earlier keys
      of the same organization, and the history lists exactly the rotations. */
  lemma {:induction false} KeysSoundOnEveryRun(steps: seq<KeyStep>)
    ensures KeysSound(RunKeys(EMPTY, steps))
  {
    RunKeepsSound(EMPTY, steps);
  }

  lemma {:induction false} OnlyFlagsFallTransitive(v: Vector, v': Vector, v'': Vector)
    requires OnlyFlagsFall(v, v') && OnlyFlagsFall(v', v'')
    ensures OnlyFlagsFall(v, v'')
  {
    forall i | 0 <= i < |v|
      ensures v''[i] == v[i].(isActive := v''[i].isActive, isPrimary := v''[i].isPrimary)
              && (v''[i].isActive ==> v[i].isActive)
    {
      assert v'[i] == v[i].(isActive := v'[i].isActive, isPrimary := v'[i].isPrimary);
      assert v''[i] == v'[i].(isActive := v''[i].isActive, isPrimary := v''[i].isPrimary);
    }
  }

  /** Keys are never removed or renamed and never come back to life; the history only grows. */
  lemma {:induction false} KeysAreAppendOnly(before: seq<KeyStep>, after: seq<KeyStep>, o: Address)
    ensures var r := RunKeys(EMPTY, before); var r' := RunKeys(r, after);
      OnlyFlagsFall(r.CredentialsOf(o), r'.CredentialsOf(o)) && r.HistoryOf(o) <= r'.HistoryOf(o)
  {
    KeysSoundOnEveryRun(before);
    SoundRunIsAppendOnly(RunKeys(EMPTY, before), after, o);
  }

  lemma {:induction false} SoundRunIsAppendOnly(r: Registry, steps: seq<KeyStep>, o: Address)
    requires KeysSound(r)
    ensures OnlyFlagsFall(r.CredentialsOf(o), RunKeys(r, steps).CredentialsOf(o))
    ensures r.HistoryOf(o) <= RunKeys(r, steps).HistoryOf(o)
    decreases |steps|
  {
    if steps != [] {
      var next := Apply(r, steps[0].now, steps[0].call);
      ApplyKeepsSound(r, steps[0].now, steps[0].call);
      ApplyOnlyFlagsFall(r, steps[0].now, steps[0].call, o);
      SoundRunIsAppendOnly(next, steps[1..], o);
      OnlyFlagsFallTransitive(r.CredentialsOf(o), next.CredentialsOf(o), RunKeys(r, steps).CredentialsOf(o));
    }
  }

  // ----- where a key came from

  /** The positions met by following predecessors from position i. */
  ghost function Provenance(v: Vector, i: nat): seq<nat>
    requires i < |v| && Linked(v)
    decreases i
  {
    if v[i].previousId == 0 then [i]
    else
      var j: nat :| j < i && v[j].id == v[i].previousId;
      [i] + Provenance(v, j)
  }

  lemma {:induction false} ProvenanceDescends(v: Vector, i: nat)
    requires i < |v| && Linked(v)
    ensures var chain := Provenance(v, i);
      && 1 <= |chain| <= i + 1 && chain[0] == i
      && (forall k :: 0 <= k < |chain| ==> chain[k] <= i)
      && v[chain[|chain| - 1]].previousId == 0
      && (forall k :: 0 <= k < |chain| - 1 ==> chain[k + 1] < chain[k] && v[chain[k]].previousId == v[chain[k + 1]].id)
    decreases i
  {
    if v[i].previousId != 0 {
      var chain := Provenance(v, i);
      var j: nat :| j < i && v[j].id == v[i].previousId && chain == [i] + Provenance(v, j);
      ProvenanceDescends(v, j);
    }
  }

  /** From any key of any organization, after any run, following predecessors stays among the
      organization's own keys, strictly lowers the id, and ends at a registered key. */
  lemma {:induction false} RotationsEndAtRegistration(steps: seq<KeyStep>, o: Address, i: nat) returns (chain: seq<nat>)
    requires i < |RunKeys(EMPTY, steps).CredentialsOf(o)|
    ensures var v := RunKeys(EMPTY, steps).CredentialsOf(o);
      && 1 <= |chain| <= i + 1 && chain[0] == i
      && (forall k :: 0 <= k < |chain| ==> chain[k] < |v|)
      && v[chain[|chain| - 1]].previousId == 0
      && (forall k :: 0 <= k < |chain| - 1 ==> v[chain[k]].previousId == v[chain[k + 1]].id < v[chain[k]].id)
  {
    KeysSoundOnEveryRun(steps);
    var r := RunKeys(EMPTY, steps);
    var v := r.CredentialsOf(o);
    assert VectorSound(v, r.HistoryOf(o), o, r.counter);
    chain := Provenance(v, i);
    ProvenanceDescends(v, i);
  }

  // ----- revocations combine

  lemma {:induction false} RevokingIsSound(v: Vector, ids: set<U64>, organization: Address, counter: U64)
    requires InOrder(v, organization, counter)
    ensures InOrder(LeftBy(v, ids), organization, counter)
    ensures forall id :: HasId(LeftBy(v, ids), id) <==> HasId(v, id)
    ensures forall id ::
      HasUnusable(LeftBy(v, ids), organization, id, false)
      <==> HasUnusable(v, organization, id, false)
  {
    var v' := LeftBy(v, ids);
    assert forall i :: 0 <= i < |v| ==> v'[i].id == v[i].id && v'[i].organization == v[i].organization;
    forall id
      ensures HasId(v', id) <==> HasId(v, id)
    {
      if i :| 0 <= i < |v| && v[i].id == id { assert v'[i].id == id; }
    }
  }

  /** Two revocations in one vector: the order does not matter, and repeating one does nothing. */
  lemma {:induction false} RevokingCommutes(v: Vector, a: U64, b: U64, organization: Address, counter: U64)
    requires InOrder(v, organization, counter) && OnePrimary(v)
    ensures AfterRevoking(AfterRevoking(v, a), b) == LeftBy(v, {a, b})
    ensures AfterRevoking(AfterRevoking(v, a), b) == AfterRevoking(AfterRevoking(v, b), a)
    ensures AfterRevoking(AfterRevoking(v, a), a) == AfterRevoking(v, a)
  {
    hide AfterRevoking, InOrder, OnePrimary, LeftBy;
    RevokingLeaves(v, a, organization, counter);
    RevokingLeaves(v, b, organization, counter);
    RevokingIsSound(v, {a}, organization, counter);
    RevokingIsSound(v, {b}, organization, counter);
    LeftByHasOnePrimary(v, {a});
    LeftByHasOnePrimary(v, {b});
    RevokingLeaves(LeftBy(v, {a}), b, organization, counter);
    RevokingLeaves(LeftBy(v, {a}), a, organization, counter);
    RevokingLeaves(LeftBy(v, {b}), a, organization, counter);
    LeftByTwice(v, {a}, {b});
    LeftByTwice(v, {a}, {a});
    LeftByTwice(v, {b}, {a});
    assert {a} + {b} == {a, b} == {b} + {a} && {a} + {a} == {a};
  }

  /** Revoking some other key leaves the primary where it is exactly when no older key stays
      active: the code promotes the oldest active key at every revocation. */
  lemma {:induction false} PrimaryKeptExactly(v: Vector, id: U64, p: int, organization: Address, counter: U64)
    requires InOrder(v, organization, counter) && OnePrimary(v)
    requires 0 <= p < |v| && v[p].isPrimary && v[p].id != id
    ensures AfterRevoking(v, id)[p].isPrimary <==> forall j :: 0 <= j < p ==> !v[j].isActive || v[j].id == id
  {
    RevokingLeaves(v, id, organization, counter);
    hide AfterRevoking, InOrder;
    assert forall j :: 0 <= j < p ==> (Spared(v[j], {id}) <==> v[j].isActive && v[j].id != id);
  }

  predicate Known(r: Registry, organization: Address, id: U64) {
    HasId(r.CredentialsOf(organization), id)
  }

  /** A revocation rewrites one vector when it knows the key, and nothing otherwise. */
  lemma {:induction false} RevocationStores(r: Registry, now: U64, c: KeyCall)
    requires KeysSound(r) && c.Revoke?
    ensures Apply(r, now, c)
            == if Known(r, c.organization, c.credentialId)
               then r.(credentials := r.credentials[c.organization :=
                 AfterRevoking(r.CredentialsOf(c.organization), c.credentialId)])
               else r
    ensures forall o, id :: Known(Apply(r, now, c), o, id) <==> Known(r, o, id)
  {
    hide KeysSound, ActiveDistinct, Linked, Logged;
    var o := c.organization;
    SoundVector(r, o);
    RevokingLeaves(r.CredentialsOf(o), c.credentialId, o, r.counter);
    RevokingIsSound(r.CredentialsOf(o), {c.credentialId}, o, r.counter);
  }

  /** Storing two revocations in either order, when both know their key. */
  lemma {:induction false} StoredEitherWay(r: Registry, o: Address, p: Address, a: U64, b: U64)
    requires KeysSound(r) && o in r.credentials && p in r.credentials
    ensures var once := r.credentials[o := AfterRevoking(r.CredentialsOf(o), a)];
      && once[o := AfterRevoking(once[o], a)] == once
      && once[p := AfterRevoking(once[p], b)]
         == (var other := r.credentials[p := AfterRevoking(r.CredentialsOf(p), b)];
             other[o := AfterRevoking(other[o], a)])
  {
    hide KeysSound, ActiveDistinct, Linked, Logged, InOrder, OnePrimary, AfterRevoking;
    SoundVector(r, o);
    RevokingCommutes(r.CredentialsOf(o), a, b, o, r.counter);
  }

  /** After any run, revoking twice is revoking once, and two revocations by any organizations
      leave the same stored state in either order. */
  lemma {:induction false} RevocationsCommute(steps: seq<KeyStep>, now: U64, c: KeyCall, d: KeyCall)
    requires c.Revoke? && d.Revoke?
    ensures var r := RunKeys(EMPTY, steps);
      && Apply(Apply(r, now, c), now, c) == Apply(r, now, c)
      && Apply(Apply(r, now, c), now, d) == Apply(Apply(r, now, d), now, c)
  {
    hide VectorSound, IdsUnique, KeysSound, Apply, AfterRevoking, Known, RunKeys;
    KeysSoundOnEveryRun(steps);
    var r := RunKeys(EMPTY, steps);
    ApplyKeepsSound(r, now, c);
    ApplyKeepsSound(r, now, d);
    RevocationStores(r, now, c);
    RevocationStores(r, now, d);
    RevocationStores(Apply(r, now, c), now, c);
    RevocationStores(Apply(r, now, c), now, d);
    RevocationStores(Apply(r, now, d), now, c);
    KnownIsStored(r, c.organization, c.credentialId);
    KnownIsStored(r, d.organization, d.credentialId);
    if Known(r, c.organization, c.credentialId) {
      StoredEitherWay(r, c.organization,
                      if Known(r, d.organization, d.credentialId) then d.organization else c.organization,
                      c.credentialId, d.credentialId);
    }
  }

  lemma {:induction false} KnownIsStored(r: Registry, o: Address, id: U64)
    ensures Known(r, o, id) ==> o in r.credentials
  {
  }

  const ORGANIZATION := Address(0)

  /** A key, the key that replaced it, and an unrelated one. */
  const THREE_KEYS: Vector :=
    [Credential(1, ORGANIZATION, "", "a", 1, true, false, 0), Credential(2, ORGANIZATION, "", "b", 2, true, true, 1),
     Credential(3, ORGANIZATION, "", "c", 3, true, false, 0)]

  lemma {:induction false} ReachThreeKeys() returns (steps: seq<KeyStep>)
    ensures RunKeys(EMPTY, steps).CredentialsOf(ORGANIZATION) == THREE_KEYS
  {
    var o := ORGANIZATION;
    var first := KeyStep(1, Register(o, "", "a"));
    var second := KeyStep(2, Rotate(o, 1, "", "b", ""));
    var third := KeyStep(3, Register(o, "", "c"));
    steps := [first, second, third];
    assert "a"[0] != "b"[0] && "a"[0] != "c"[0] && "b"[0] != "c"[0];
    var r1 := Apply(EMPTY, 1, first.call);
    assert r1.CredentialsOf(o) == [Credential(1, o, "", "a", 1, true, true, 0)];
    assert r1.CredentialsOf(o)[0].id == 1 && HasId(r1.CredentialsOf(o), 1);
    assert KeyReplyTo(r1, second.call) == KeyId(2);
    var r2 := Apply(r1, 2, second.call);
    assert r2.CredentialsOf(o) == THREE_KEYS[..2];
    var r3 := Apply(r2, 3, third.call);
    assert r2.CredentialsOf(o)[0].isActive && KeyReplyTo(r2, third.call) == KeyId(3);
    assert r3.CredentialsOf(o) == THREE_KEYS;
    hide Apply;
    assert steps[1..] == [second, third] && [second, third][1..] == [third] && [third][1..] == [];
    assert RunKeys(r3, []) == r3 && RunKeys(r2, [third]) == r3 && RunKeys(r1, [second, third]) == r3;
  }

  /** So a rotated-in primary loses its place when an unrelated key is revoked. */
  lemma {:induction false} RevokingAnotherMovesPrimary() returns (steps: seq<KeyStep>, c: KeyCall)
    ensures c.Revoke? && c.credentialId != 2
    ensures var v := RunKeys(EMPTY, steps).CredentialsOf(ORGANIZATION);
            var v' := Apply(RunKeys(EMPTY, steps), 4, c).CredentialsOf(ORGANIZATION);
      |v| == |v'| == 3 && v[1].id == v'[1].id == 2 && v[1].isPrimary && v'[1].isActive && !v'[1].isPrimary
  {
    hide RunKeys, Apply, AfterRevoking, KeysSound;
    steps := ReachThreeKeys();
    c := Revoke(ORGANIZATION, 3);
    var r, v := RunKeys(EMPTY, steps), THREE_KEYS;
    KeysSoundOnEveryRun(steps);
    SoundVector(r, ORGANIZATION);
    RevocationStores(r, 4, c);
    assert v[2].id == 3 && Known(r, ORGANIZATION, 3);
    RevokingLeaves(v, 3, ORGANIZATION, r.counter);
    assert v[0].isActive && v[0].id == 1;
    PrimaryKeptExactly(v, 3, 1, ORGANIZATION, r.counter);
  }
}
