/** The API credential registry of the TaskBounty contract: what registering,
    rotating and revoking a key do, and the object that does it. */
module ApiKeys {
  import opened TokenLedger
  import opened BountyTypes

  type Fingerprint = string

  datatype Credential = Credential(
    id: U64, organization: Address, name: string, fingerprint: Fingerprint, createdAt: U64,
    isActive: bool, isPrimary: bool, previousId: U64)

  datatype Rotation = Rotation(
    organization: Address, oldId: U64, newId: U64, actor: Address, reason: string, rotatedAt: U64)

  datatype KeyError = ApiKeyNotFound | ApiKeyAlreadyExists | UnauthorizedApiKeyAction | CounterOverflow

  datatype KeyReply = KeyId(id: U64) | Revoked | Refused(error: KeyError)

  type Vector = seq<Credential>

  datatype Registry = Registry(credentials: map<Address, Vector>, histories: map<Address, seq<Rotation>>,
        counter: U64) {
    function CredentialsOf(organization: Address): Vector {
      if organization in credentials then credentials[organization] else []
    }

    function HistoryOf(organization: Address): seq<Rotation> {
      if organization in histories then histories[organization] else []
    }
  }

  datatype KeyCall =
    | Register(organization: Address, name: string, fingerprint: Fingerprint)
    | Rotate(organization: Address, currentId: U64, newName: string, newFingerprint: Fingerprint, reason: string)
    | Revoke(organization: Address, credentialId: U64)

  predicate HasActive(credentials: Vector, fingerprint: Fingerprint) {
    exists i :: 0 <= i < |credentials| && credentials[i].isActive && credentials[i].fingerprint == fingerprint
  }

  predicate SomeActive(credentials: Vector) {
    exists i :: 0 <= i < |credentials| && credentials[i].isActive
  }

  predicate HasId(credentials: Vector, id: U64) {
    exists i :: 0 <= i < |credentials| && credentials[i].id == id
  }

  /** Some credential of that id is not the organization's to use. */
  predicate HasUnusable(credentials: Vector, organization: Address, id: U64, activeOnly: bool) {
    exists i :: 0 <= i < |credentials| && credentials[i].id == id
      && (credentials[i].organization != organization || (activeOnly && !credentials[i].isActive))
  }

  function WithPrimary(credentials: Vector, primaryId: U64): (r: Vector)
    ensures |r| == |credentials|
  {
    seq(|credentials|, i requires 0 <= i < |credentials| =>
      credentials[i].(isPrimary := credentials[i].isActive && credentials[i].id == primaryId))
  }

  function Deactivate(credential: Credential, id: U64): Credential {
    if credential.id == id then credential.(isActive := false, isPrimary := false) else credential
  }

  function Deactivated(credentials: Vector, id: U64): (r: Vector)
    ensures |r| == |credentials|
  {
    seq(|credentials|, i requires 0 <= i < |credentials| => Deactivate(credentials[i], id))
  }

  /** The id the scan settles on: 0 until an active credential gives its own. */
  function FirstActiveId(credentials: Vector): U64 {
    if credentials == [] then 0
    else
      var earlier := FirstActiveId(credentials[..|credentials| - 1]);
      if earlier == 0 && credentials[|credentials| - 1].isActive then credentials[|credentials| - 1].id else earlier
  }

  function AfterRevoking(credentials: Vector, id: U64): Vector {
    var rest := Deactivated(credentials, id);
    if FirstActiveId(rest) != 0 then WithPrimary(rest, FirstActiveId(rest)) else rest
  }

  function KeyReplyTo(r: Registry, c: KeyCall): KeyReply {
    var credentials := r.CredentialsOf(c.organization);
    match c
    case Register(_, _, fingerprint) =>
      if HasActive(credentials, fingerprint) then Refused(ApiKeyAlreadyExists)
      else if r.counter == U64_MAX then Refused(CounterOverflow)
      else KeyId(r.counter + 1)
    case Rotate(organization, id, _, fingerprint, _) =>
      if HasUnusable(credentials, organization, id, true) then Refused(UnauthorizedApiKeyAction)
      else if !HasId(credentials, id) then Refused(ApiKeyNotFound)
      else if HasActive(credentials, fingerprint) then Refused(ApiKeyAlreadyExists)
      else if r.counter == U64_MAX then Refused(CounterOverflow)
      else KeyId(r.counter + 1)
    case Revoke(organization, id) =>
      if HasUnusable(credentials, organization, id, false) then Refused(UnauthorizedApiKeyAction)
      else if !HasId(credentials, id) then Refused(ApiKeyNotFound)
      else Revoked
  }

  /** The credential an accepted registration or rotation appends. */
  function NewCredential(r: Registry, now: U64, c: KeyCall): Credential
    requires !c.Revoke? && KeyReplyTo(r, c).KeyId?
  {
    if c.Register? then
      Credential(r.counter + 1, c.organization, c.name, c.fingerprint, now, true,
                 !SomeActive(r.CredentialsOf(c.organization)), 0)
    else
      Credential(r.counter + 1, c.organization, c.newName, c.newFingerprint, now, true, true, c.currentId)
  }

  /** One call; a refused one changes nothing. */
  function Apply(r: Registry, now: U64, c: KeyCall): Registry {
    var credentials := r.CredentialsOf(c.organization);
    if KeyReplyTo(r, c).Refused? then r
    else
      match c
      case Register(organization, _, _) =>
        r.(credentials := r.credentials[organization := credentials + [NewCredential(r, now, c)]],
           counter := r.counter + 1)
      case Rotate(organization, id, _, _, reason) =>
        r.(credentials := r.credentials[organization :=
          WithPrimary(credentials + [NewCredential(r, now, c)], r.counter + 1)],
           histories := r.histories[organization := r.HistoryOf(organization)
                                    + [Rotation(organization, id, r.counter + 1, organization, reason, now)]],
           counter := r.counter + 1)
      case Revoke(organization, id) =>
        r.(credentials := r.credentials[organization := AfterRevoking(credentials, id)])
  }

  class ApiKeyRegistry {
    var credentials: map<Address, Vector>
    var histories: map<Address, seq<Rotation>>
    var counter: U64

    function Stored(): Registry
      reads this
    {
      Registry(credentials, histories, counter)
    }

    constructor ()
      ensures Stored() == Registry(map[], map[], 0)
    {
      credentials, histories, counter := map[], map[], 0;
    }

    static method HasActiveFingerprint(credentials: Vector, fingerprint: Fingerprint) returns (found: bool)
      ensures found == HasActive(credentials, fingerprint)
    {
      for i := 0 to |credentials|
        invariant !HasActive(credentials[..i], fingerprint)
      {
        if credentials[i].isActive && credentials[i].fingerprint == fingerprint {
          return true;
        }
      }
      assert credentials[..|credentials|] == credentials;
      return false;
    }

    static method RebuildWithPrimary(credentials: Vector, primaryId: U64) returns (rebuilt: Vector)
      ensures rebuilt == WithPrimary(credentials, primaryId)
    {
      rebuilt := [];
      for i := 0 to |credentials|
        invariant rebuilt == WithPrimary(credentials[..i], primaryId)
      {
        var next := credentials[i];
        next := next.(isPrimary := next.isActive && next.id == primaryId);
        rebuilt := rebuilt + [next];
      }
      assert credentials[..|credentials|] == credentials;
    }

    method RegisterApiKey(now: U64, c: KeyCall) returns (reply: KeyReply)
      requires c.Register?
      modifies this
      ensures reply == KeyReplyTo(old(Stored()), c)
      ensures Stored() == Apply(old(Stored()), now, c)
    {
      var current := Stored().CredentialsOf(c.organization);
      var duplicate := HasActiveFingerprint(current, c.fingerprint);
      if duplicate { return Refused(ApiKeyAlreadyExists); }
      if counter == U64_MAX { return Refused(CounterOverflow); }

      var isPrimary := !SomeActive(current);
      counter := counter + 1;
      var credential := Credential(counter, c.organization, c.name, c.fingerprint, now, true, isPrimary, 0);
      credentials := credentials[c.organization := current + [credential]];
      return KeyId(counter);
    }

    method RotateApiKey(now: U64, c: KeyCall) returns (reply: KeyReply)
      requires c.Rotate?
      modifies this
      ensures reply == KeyReplyTo(old(Stored()), c)
      ensures Stored() == Apply(old(Stored()), now, c)
    {
      var current := Stored().CredentialsOf(c.organization);
      var found := false;
      for i := 0 to |current|
        invariant found == HasId(current[..i], c.currentId)
        invariant !HasUnusable(current[..i], c.organization, c.currentId, true)
      {
        if current[i].id == c.currentId {
          found := true;
          if !current[i].isActive || current[i].organization != c.organization {
            return Refused(UnauthorizedApiKeyAction);
          }
        }
      }
      assert current[..|current|] == current;
      if !found { return Refused(ApiKeyNotFound); }
      var duplicate := HasActiveFingerprint(current, c.newFingerprint);
      if duplicate { return Refused(ApiKeyAlreadyExists); }
      if counter == U64_MAX { return Refused(CounterOverflow); }

      counter := counter + 1;
      var credential := Credential(counter, c.organization, c.newName, c.newFingerprint, now, true, true, c.currentId);
      var updated: Vector := [];
      for i := 0 to |current|
        invariant |updated| == i
        invariant forall j :: 0 <= j < i ==> updated[j] == current[j].(isPrimary := updated[j].isPrimary)
      {
        var next := current[i];
        if next.id == c.currentId {
          next := next.(isPrimary := false);
        }
        updated := updated + [next];
      }
      updated := updated + [credential];
      updated := RebuildWithPrimary(updated, counter);
      assert updated == WithPrimary(current + [credential], counter);
      credentials := credentials[c.organization := updated];

      var history := Stored().HistoryOf(c.organization);
      history := history + [Rotation(c.organization, c.currentId, counter, c.organization, c.reason, now)];
      histories := histories[c.organization := history];
      return KeyId(counter);
    }

    method RevokeApiKey(c: KeyCall) returns (reply: KeyReply)
      requires c.Revoke?
      modifies this
      ensures reply == KeyReplyTo(old(Stored()), c)
      ensures forall now :: Stored() == Apply(old(Stored()), now, c)
    {
      var current := Stored().CredentialsOf(c.organization);
      var found := false;
      var nextPrimaryId: U64 := 0;
      var updated: Vector := [];
      for i := 0 to |current|
        invariant found == HasId(current[..i], c.credentialId)
        invariant !HasUnusable(current[..i], c.organization, c.credentialId, false)
        invariant updated == Deactivated(current[..i], c.credentialId)
        invariant nextPrimaryId == FirstActiveId(updated)
      {
        var next := current[i];
        if next.id == c.credentialId {
          if next.organization != c.organization {
            return Refused(UnauthorizedApiKeyAction);
          }
          next := next.(isActive := false, isPrimary := false);
          found := true;
        }
        if next.isActive && nextPrimaryId == 0 {
          nextPrimaryId := next.id;
        }
        ghost var before := updated;
        updated := updated + [next];
        assert updated[..|updated| - 1] == before;
      }
      assert current[..|current|] == current;
      if !found { return Refused(ApiKeyNotFound); }
      if nextPrimaryId != 0 {
        updated := RebuildWithPrimary(updated, nextPrimaryId);
      }
      credentials := credentials[c.organization := updated];
      return Revoked;
    }
  }
}
