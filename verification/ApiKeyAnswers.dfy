/** What each call on the credential registry answers after any run, and what it leaves behind,
    over the fields of the organization's keys alone. */
module ApiKeyAnswers {
  import opened TokenLedger
  import opened BountyTypes
  import opened ApiKeys
  import opened ApiKeyTheorems

  /** Some run of calls leads to this registry. */
  ghost predicate Reachable(r: Registry) {
    exists steps :: RunKeys(EMPTY, steps) == r
  }

  /** Among an organization's keys an id is there once, and each key is the organization's. */
  ghost predicate OwnKeys(v: Vector, o: Address) {
    && (forall i :: 0 <= i < |v| ==> v[i].id != 0 && v[i].organization == o)
    && (forall i, j :: 0 <= i < j < |v| ==> v[i].id != v[j].id)
  }

  lemma {:induction false} ReachableVector(r: Registry, o: Address)
    requires Reachable(r)
    ensures OwnKeys(r.CredentialsOf(o), o) && InOrder(r.CredentialsOf(o), o, r.counter)
    ensures OnePrimary(r.CredentialsOf(o))
  {
    hide RunKeys, KeysSound, ActiveDistinct, Linked, Logged, OnePrimary;
    var steps :| RunKeys(EMPTY, steps) == r;
    KeysSoundOnEveryRun(steps);
    SoundVector(r, o);
  }

  lemma {:induction false} RefusedLeavesAll(r: Registry, now: U64, c: KeyCall)
    ensures KeyReplyTo(r, c).Refused? ==> Apply(r, now, c) == r
  {
  }

  /** Nothing of any other organization changed. */
  ghost predicate OthersKept(r: Registry, r': Registry, o: Address) {
    forall p :: p != o ==> r'.CredentialsOf(p) == r.CredentialsOf(p) && r'.HistoryOf(p) == r.HistoryOf(p)
  }

  ghost predicate ActiveWith(v: Vector, fingerprint: Fingerprint) {
    exists i :: 0 <= i < |v| && v[i].isActive && v[i].fingerprint == fingerprint
  }

  /** A fingerprint is registered unless an active key of the organization has it; a revoked one
      can be registered again. */
  lemma {:induction false} RegisterAnswers(r: Registry, o: Address, name: string, fingerprint: Fingerprint)
    requires Reachable(r)
    ensures var v, c := r.CredentialsOf(o), Register(o, name, fingerprint);
      && (KeyReplyTo(r, c).KeyId? <==> !ActiveWith(v, fingerprint) && r.counter < 0xffff_ffff_ffff_ffff)
      && (KeyReplyTo(r, c).KeyId? ==> KeyReplyTo(r, c).id == r.counter + 1)
      && (KeyReplyTo(r, c) == Refused(ApiKeyAlreadyExists) <==> ActiveWith(v, fingerprint))
      && (KeyReplyTo(r, c) == Refused(CounterOverflow)
          <==> !ActiveWith(v, fingerprint) && r.counter == 0xffff_ffff_ffff_ffff)
  {
  }

  /** An accepted registration appends an active key with what the call gave, the primary iff the
      organization has no active key, and changes nothing else. */
  lemma {:induction false} RegisterLeaves(r: Registry, now: U64, o: Address, name: string, fingerprint: Fingerprint)
    requires Reachable(r)
    ensures var v, r' := r.CredentialsOf(o), Apply(r, now, Register(o, name, fingerprint));
      if KeyReplyTo(r, Register(o, name, fingerprint)).Refused? then r' == r
      else
        && r.counter < 0xffff_ffff_ffff_ffff && r'.counter == r.counter + 1
        && r'.CredentialsOf(o)
           == v + [Credential(r.counter + 1, o, name, fingerprint, now, true,
                              forall i :: 0 <= i < |v| ==> !v[i].isActive, 0)]
        && r'.HistoryOf(o) == r.HistoryOf(o) && OthersKept(r, r', o)
  {
  }

  /** A key is rotated iff it is an active key of the organization, no active key of the
      organization has the new fingerprint, and an id is left. */
  lemma {:induction false} RotateAnswers(r: Registry, o: Address, id: U64, name: string, fingerprint: Fingerprint,
                                         reason: string)
    requires Reachable(r)
    ensures var v, c := r.CredentialsOf(o), Rotate(o, id, name, fingerprint, reason);
      var known := exists i :: 0 <= i < |v| && v[i].id == id;
      var active := exists i :: 0 <= i < |v| && v[i].id == id && v[i].isActive;
      && (KeyReplyTo(r, c).KeyId? <==> active && !ActiveWith(v, fingerprint) && r.counter < 0xffff_ffff_ffff_ffff)
      && (KeyReplyTo(r, c).KeyId? ==> KeyReplyTo(r, c).id == r.counter + 1)
      && (KeyReplyTo(r, c) == Refused(ApiKeyNotFound) <==> !known)
      && (KeyReplyTo(r, c) == Refused(UnauthorizedApiKeyAction) <==> known && !active)
      && (KeyReplyTo(r, c) == Refused(ApiKeyAlreadyExists) <==> active && ActiveWith(v, fingerprint))
      && (KeyReplyTo(r, c) == Refused(CounterOverflow)
          <==> active && !ActiveWith(v, fingerprint) && r.counter == 0xffff_ffff_ffff_ffff)
  {
    hide Reachable, InOrder, OnePrimary;
    ReachableVector(r, o);
  }

  /** An accepted rotation appends an active key with what the call gave, after the rotated one and
      primary in place of any other, logs the rotation, and changes nothing else: the rotated key
      stays active. */
  lemma {:induction false} RotateLeaves(r: Registry, now: U64, o: Address, id: U64, name: string,
                                        fingerprint: Fingerprint, reason: string)
    requires Reachable(r)
    ensures var v, c := r.CredentialsOf(o), Rotate(o, id, name, fingerprint, reason);
      var r' := Apply(r, now, c);
      if KeyReplyTo(r, c).Refused? then r' == r
      else
        && r.counter < 0xffff_ffff_ffff_ffff && r'.counter == r.counter + 1
        && |r'.CredentialsOf(o)| == |v| + 1
        && (forall i :: 0 <= i < |v| ==> r'.CredentialsOf(o)[i] == v[i].(isPrimary := false))
        && r'.CredentialsOf(o)[|v|] == Credential(r.counter + 1, o, name, fingerprint, now, true, true, id)
        && r'.HistoryOf(o) == r.HistoryOf(o) + [Rotation(o, id, r.counter + 1, o, reason, now)]
        && OthersKept(r, r', o)
  {
    hide Reachable, OnePrimary;
    ReachableVector(r, o);
  }

  /** A key is revoked iff it is one of the organization's, active or not. */
  lemma {:induction false} RevokeAnswers(r: Registry, o: Address, id: U64)
    requires Reachable(r)
    ensures var v, c := r.CredentialsOf(o), Revoke(o, id);
      && (KeyReplyTo(r, c) == Revoked <==> exists i :: 0 <= i < |v| && v[i].id == id)
      && (KeyReplyTo(r, c) == Refused(ApiKeyNotFound) <==> forall i :: 0 <= i < |v| ==> v[i].id != id)
  {
    hide Reachable, InOrder, OnePrimary;
    ReachableVector(r, o);
  }

  /** An accepted revocation switches the key off, makes the oldest key still active the primary,
      and changes nothing else. */
  lemma {:induction false} RevokeLeaves(r: Registry, now: U64, o: Address, id: U64)
    requires Reachable(r)
    ensures var v, r' := r.CredentialsOf(o), Apply(r, now, Revoke(o, id));
      if KeyReplyTo(r, Revoke(o, id)).Refused? then r' == r
      else
        && r'.counter == r.counter && |r'.CredentialsOf(o)| == |v|
        && (forall i :: 0 <= i < |v| ==>
              r'.CredentialsOf(o)[i]
              == v[i].(isActive := v[i].isActive && v[i].id != id,
                       isPrimary := && v[i].isActive && v[i].id != id
                                    && forall j :: 0 <= j < i ==> !v[j].isActive || v[j].id == id))
        && r'.HistoryOf(o) == r.HistoryOf(o) && OthersKept(r, r', o)
  {
    hide Reachable, OwnKeys, KeyReplyTo, AfterRevoking, InOrder, OnePrimary;
    ReachableVector(r, o);
    RevokingLeaves(r.CredentialsOf(o), id, o, r.counter);
  }
}
