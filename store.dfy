/** The users, options and resources tables as one in-memory store, with the operations that
    change them. Each method is one committed transaction: it either applies its whole effect
    or, on an error, changes nothing. */
module Database {
  import opened Wrappers
  import opened UserModels
  import opened ResourceModels
  import opened ResourceSerializers
  import opened UserSerializers
  import opened ResourceViews
  import opened UserViews

  /** The schema's constraints: keys below the next key to hand out, exactly one options row
      per account, unique emails, quotas in the column's range, every resource owned by a
      stored account, valid names and unique resource keys. */
  ghost predicate Schema(users: map<UserId, User>, options: map<UserId, Options>, resources: seq<Resource>,
                         nextUserId: nat, nextResourceId: nat)
  {
    && (forall u :: u in users ==> users[u].id == u && u < nextUserId)
    && options.Keys == users.Keys
    && (forall u :: u in options ==> options[u].user == u && ValidQuota(options[u].quota))
    && EmailsUnique(users)
    && (forall i :: 0 <= i < |resources| ==>
          resources[i].owner in users && resources[i].id < nextResourceId && ValidName(resources[i].name))
    && IdsUnique(resources)
  }

  /** Inserting a valid row owned by a stored account, under the next free key, keeps the
      schema's constraints. */
  lemma InsertKeepsSchema(users: map<UserId, User>, options: map<UserId, Options>, resources: seq<Resource>,
                          nextUserId: nat, nextResourceId: nat, x: Resource)
    requires Schema(users, options, resources, nextUserId, nextResourceId)
    requires x.id == nextResourceId && x.owner in users && ValidName(x.name)
    ensures Schema(users, options, resources + [x], nextUserId, nextResourceId + 1)
    ensures forall y :: y in resources ==> y.id != x.id
  {
    AppendFreshKeepsIdsUnique(resources, x);
    var r := resources + [x];
    forall i | 0 <= i < |r|
      ensures r[i].owner in users && r[i].id < nextResourceId + 1 && ValidName(r[i].name)
    {
      if i < |resources| {
        assert r[i] == resources[i];
      }
    }
    forall y | y in resources ensures y.id != x.id {
      var k :| 0 <= k < |resources| && resources[k] == y;
    }
  }

  /** Saving a new account under the next free key, with its options row, keeps the schema's
      constraints when the email is unused. */
  lemma AddUserKeepsSchema(users: map<UserId, User>, options: map<UserId, Options>, resources: seq<Resource>,
                           nextUserId: nat, nextResourceId: nat, email: string)
    requires Schema(users, options, resources, nextUserId, nextResourceId)
    requires !EmailInUse(users, email)
    ensures nextUserId !in users
    ensures Schema(users[nextUserId := NewUser(nextUserId, email)], options[nextUserId := NewOptions(nextUserId)],
                   resources, nextUserId + 1, nextResourceId)
  {
  }

  /** Replacing the options row of a stored account by one with the same user link and a
      quota in range keeps the schema's constraints. */
  lemma SetOptionsKeepsSchema(users: map<UserId, User>, options: map<UserId, Options>, resources: seq<Resource>,
                              nextUserId: nat, nextResourceId: nat, target: UserId, row: Options)
    requires Schema(users, options, resources, nextUserId, nextResourceId)
    requires target in options && row.user == target && ValidQuota(row.quota)
    ensures Schema(users, options[target := row], resources, nextUserId, nextResourceId)
  {
  }

  /** Deleting a resource row keeps the schema's constraints. */
  lemma DeleteKeepsSchema(users: map<UserId, User>, options: map<UserId, Options>, resources: seq<Resource>,
                          nextUserId: nat, nextResourceId: nat, id: ResourceId)
    requires Schema(users, options, resources, nextUserId, nextResourceId)
    ensures Schema(users, options, WithoutId(resources, id), nextUserId, nextResourceId)
  {
    WithoutIdKeepsIdsUnique(resources, id);
    var rest := WithoutId(resources, id);
    forall i | 0 <= i < |rest|
      ensures rest[i].owner in users && rest[i].id < nextResourceId && ValidName(rest[i].name)
    {
      assert rest[i] in resources;
    }
  }

  /** Deleting an account that owns no resource, together with its options row, keeps the
      schema's constraints. */
  lemma RemoveUserKeepsSchema(users: map<UserId, User>, options: map<UserId, Options>, resources: seq<Resource>,
                              nextUserId: nat, nextResourceId: nat, id: UserId)
    requires Schema(users, options, resources, nextUserId, nextResourceId)
    requires Count(resources, id) == 0
    ensures Schema(users - {id}, options - {id}, resources, nextUserId, nextResourceId)
  {
    CountZeroIffOwnsNothing(resources, id);
    forall i | 0 <= i < |resources| ensures resources[i].owner != id {
      assert resources[i] in resources;
    }
  }

  class Store {
    var users: map<UserId, User>
    var options: map<UserId, Options>
    var resources: seq<Resource>
    var nextUserId: nat
    var nextResourceId: nat

    /** The schema's constraints hold of the stored tables. */
    ghost predicate Valid()
      reads this
    {
      Schema(users, options, resources, nextUserId, nextResourceId)
    }

    /** Every account whose quota is set owns at most that many resources. */
    ghost predicate QuotaRespected()
      reads this
    {
      WithinQuota(options, resources)
    }

    /** An empty database. */
    constructor ()
      ensures Valid() && QuotaRespected()
      ensures users == map[] && options == map[] && resources == []
    {
      users, options, resources := map[], map[], [];
      nextUserId, nextResourceId := 1, 1;
    }

    /** RegistrationSerializer validation and create: an unused email and an accepted password
        save a new account together with its options row, which has no quota. */
    method Register(email: string, passwordAccepted: bool) returns (r: Result<UserId, RegistrationError>)
      requires Valid()
      modifies this
      ensures Valid()
      ensures resources == old(resources) && nextResourceId == old(nextResourceId)
      ensures r.Err? <==> EmailInUse(old(users), email) || !passwordAccepted
      ensures r.Err? ==> r.error == RegistrationInvalid(EmailInUse(old(users), email), !passwordAccepted)
      ensures r.Err? ==> users == old(users) && options == old(options) && nextUserId == old(nextUserId)
      ensures r.Ok? ==> r.value == old(nextUserId) && r.value !in old(users)
      ensures r.Ok? ==> users == old(users)[r.value := NewUser(r.value, email)]
      ensures r.Ok? ==> options == old(options)[r.value := NewOptions(r.value)]
      ensures r.Ok? ==> nextUserId == old(nextUserId) + 1
      ensures old(QuotaRespected()) ==> QuotaRespected()
    {
      var inUse := EmailInUse(users, email);
      if inUse || !passwordAccepted {
        return Err(RegistrationInvalid(inUse, !passwordAccepted));
      }
      var id := nextUserId;
      AddUserKeepsSchema(users, options, resources, nextUserId, nextResourceId, email);
      users := users[id := NewUser(id, email)];
      options := options[id := NewOptions(id)];
      nextUserId := nextUserId + 1;
      r := Ok(id);
    }

    /** CreateResourceSerializer validation and create, for an authenticated caller. The fields
        are validated first; the owner is then resolved (the caller unless the caller is staff,
        and the caller when `owner_id` is omitted); a set quota the owner has reached refuses
        the insert. */
    method CreateResource(caller: UserId, name: string, ownerId: Option<UserId>) returns (r: Result<Resource, CreateError>)
      requires Valid() && caller in users
      modifies this
      ensures Valid()
      ensures users == old(users) && options == old(options) && nextUserId == old(nextUserId)
      ensures r.Err? ==> resources == old(resources) && nextResourceId == old(nextResourceId)
      ensures (r.Err? && r.error.InvalidFields?) <==> !ValidName(name) || (ownerId.Some? && ownerId.value !in old(users))
      ensures
        var owner := if users[caller].isStaff && ownerId.Some? then ownerId.value else caller;
        && ((r.Err? && r.error.QuotaExceeded?) <==>
              && ValidName(name) && (ownerId.Some? ==> ownerId.value in users)
              && options[owner].quota.Some? && Count(old(resources), owner) >= options[owner].quota.value)
        && (r.Err? && r.error.QuotaExceeded? ==> r.error.quota == options[owner].quota.value)
        && (r.Ok? ==> r.value == Resource(old(nextResourceId), name, owner))
      ensures r.Ok? ==> resources == old(resources) + [r.value] && nextResourceId == old(nextResourceId) + 1
      ensures r.Ok? ==> forall x :: x in old(resources) ==> x.id != r.value.id
      ensures old(QuotaRespected()) ==> QuotaRespected()
    {
      var invalid := InvalidCreateFields(users, name, ownerId);
      if invalid != [] {
        return Err(InvalidFields(invalid));
      }
      var owner := ValidateOwner(users[caller], RequestedOwner(users[caller], ownerId));
      var quota := options[owner].quota;
      if !CreateAllowed(quota, Count(resources, owner)) {
        return Err(QuotaExceeded(quota.value));
      }
      var x := Resource(nextResourceId, name, owner);
      InsertKeepsSchema(users, options, resources, nextUserId, nextResourceId, x);
      if WithinQuota(options, resources) {
        CreateKeepsWithinQuota(options, resources, x);
      }
      resources := resources + [x];
      nextResourceId := nextResourceId + 1;
      r := Ok(x);
    }

    /** UserOptionsSerializer.update as written, reached through the options endpoint for the
        row of `target`. The row is looked up first (404), the quota value is then validated,
        and a given quota is checked against the resource count of the REQUESTING user.
        `userId` is the read-only `user_id` field: it is never applied. */
    method UpdateOptions(requester: UserId, target: UserId, quota: QuotaInput, userId: Option<int>) returns (r: Result<Options, OptionsError>)
      requires Valid() && requester in users
      modifies this
      ensures Valid()
      ensures users == old(users) && resources == old(resources)
      ensures nextUserId == old(nextUserId) && nextResourceId == old(nextResourceId)
      ensures r.Err? ==> options == old(options)
      ensures r == Err(OptionsNotFound) <==> target !in old(options)
      ensures r == Err(QuotaOutOfRange) <==> target in old(options) && !QuotaInputInRange(quota)
      ensures (r.Err? && r.error.QuotaBelowUsage?) <==>
        target in old(options) && QuotaInputInRange(quota) && quota.Given? && Count(resources, requester) > quota.value
      ensures r.Err? && r.error.QuotaBelowUsage? ==> r.error == QuotaBelowUsage(QuotaField, QuotaBelowUsageMessage)
      ensures r.Ok? ==> r.value == Options(target, QuotaAfter(old(options)[target].quota, quota))
      ensures r.Ok? ==> options == old(options)[target := r.value]
      ensures requester == target && old(QuotaRespected()) ==> QuotaRespected()
      ensures r.Ok? && old(QuotaRespected()) ==>
        (QuotaRespected() <==> !(quota.Given? && Count(resources, target) > quota.value))
    {
      var row := OptionsObject(options, target);
      if row.None? {
        return Err(OptionsNotFound);
      }
      if !QuotaInputInRange(quota) {
        return Err(QuotaOutOfRange);
      }
      if !quota.Absent? {
        var newQuota := if quota.Null? then None else Some(quota.value as nat);
        if !QuotaCheck(newQuota, Count(resources, requester)) {
          return Err(QuotaBelowUsage(QuotaField, QuotaBelowUsageMessage));
        }
      }
      var updated := Options(row.value.user, QuotaAfter(row.value.quota, quota));
      if !(quota.Given? && Count(resources, target) > quota.value) && WithinQuota(options, resources) {
        TargetCheckKeepsQuota(options, resources, target, updated.quota);
      }
      SetOptionsKeepsSchema(users, options, resources, nextUserId, nextResourceId, target, updated);
      options := options[target := updated];
      r := Ok(updated);
    }

    /** The options update with the quota checked against the resource count of the account
        whose row is updated, which keeps every set quota respected. */
    method UpdateOptionsCorrected(target: UserId, quota: QuotaInput) returns (r: Result<Options, OptionsError>)
      requires Valid()
      modifies this
      ensures Valid()
      ensures users == old(users) && resources == old(resources)
      ensures nextUserId == old(nextUserId) && nextResourceId == old(nextResourceId)
      ensures r.Err? ==> options == old(options)
      ensures r == Err(OptionsNotFound) <==> target !in old(options)
      ensures r == Err(QuotaOutOfRange) <==> target in old(options) && !QuotaInputInRange(quota)
      ensures (r.Err? && r.error.QuotaBelowUsage?) <==>
        target in old(options) && QuotaInputInRange(quota) && quota.Given? && Count(resources, target) > quota.value
      ensures r.Err? && r.error.QuotaBelowUsage? ==> r.error == QuotaBelowUsage(QuotaField, QuotaBelowUsageMessage)
      ensures r.Ok? ==> r.value == Options(target, QuotaAfter(old(options)[target].quota, quota))
      ensures r.Ok? ==> options == old(options)[target := r.value]
      ensures old(QuotaRespected()) ==> QuotaRespected()
    {
      var row := OptionsObject(options, target);
      if row.None? {
        return Err(OptionsNotFound);
      }
      if !QuotaInputInRange(quota) {
        return Err(QuotaOutOfRange);
      }
      if !quota.Absent? {
        var newQuota := if quota.Null? then None else Some(quota.value as nat);
        if !QuotaCheck(newQuota, Count(resources, target)) {
          return Err(QuotaBelowUsage(QuotaField, QuotaBelowUsageMessage));
        }
      }
      var updated := Options(row.value.user, QuotaAfter(row.value.quota, quota));
      if WithinQuota(options, resources) {
        TargetCheckKeepsQuota(options, resources, target, updated.quota);
      }
      SetOptionsKeepsSchema(users, options, resources, nextUserId, nextResourceId, target, updated);
      options := options[target := updated];
      r := Ok(updated);
    }

    /** ResourcesView list: the caller's scope of the table. */
    method ListResources(caller: UserId, ownerFilter: Option<UserId>) returns (rows: seq<Resource>)
      requires Valid() && caller in users
      ensures forall x :: x in rows <==>
        x in resources && (ownerFilter.None? || x.owner == ownerFilter.value) && (users[caller].isStaff || x.owner == caller)
    {
      rows := Scope(users[caller], ownerFilter, resources);
    }

    /** ResourcesView retrieve: a row outside the caller's scope is not found. */
    method RetrieveResource(caller: UserId, ownerFilter: Option<UserId>, id: ResourceId) returns (found: Option<Resource>)
      requires Valid() && caller in users
      ensures found.Some? ==> found.value in resources && found.value.id == id
      ensures found.Some? ==> users[caller].isStaff || found.value.owner == caller
      ensures ownerFilter.None? ==> forall x :: x in resources && x.id == id ==>
        found == if users[caller].isStaff || x.owner == caller then Some(x) else None
    {
      found := Retrieve(users[caller], ownerFilter, resources, id);
      if ownerFilter.None? {
        forall x | x in resources && x.id == id
          ensures found == if users[caller].isStaff || x.owner == caller then Some(x) else None
        {
          RetrieveVisibility(users[caller], resources, x);
        }
      }
    }

    /** ResourcesView destroy: the row is looked up within the caller's scope and deleted. */
    method DeleteResource(caller: UserId, ownerFilter: Option<UserId>, id: ResourceId) returns (deleted: Option<Resource>)
      requires Valid() && caller in users
      modifies this
      ensures Valid()
      ensures users == old(users) && options == old(options)
      ensures nextUserId == old(nextUserId) && nextResourceId == old(nextResourceId)
      ensures deleted == Retrieve(users[caller], ownerFilter, old(resources), id)
      ensures deleted.Some? ==> users[caller].isStaff || deleted.value.owner == caller
      ensures deleted.Some? ==> resources == WithoutId(old(resources), id)
      ensures deleted.None? ==> resources == old(resources)
      ensures old(QuotaRespected()) ==> QuotaRespected()
    {
      deleted := Retrieve(users[caller], ownerFilter, resources, id);
      if deleted.Some? {
        DeleteKeepsSchema(users, options, resources, nextUserId, nextResourceId, id);
        if WithinQuota(options, resources) {
          WithoutIdKeepsQuota(options, resources, id);
        }
        resources := WithoutId(resources, id);
      }
    }

    /** UsersView destroy: the account and, by cascade, its options row are deleted; an
        account that still owns resources is protected and nothing changes. */
    method DeleteUser(id: UserId) returns (r: Result<User, DeleteUserError>)
      requires Valid()
      modifies this
      ensures Valid()
      ensures resources == old(resources)
      ensures nextUserId == old(nextUserId) && nextResourceId == old(nextResourceId)
      ensures r == Err(UserNotFound) <==> id !in old(users)
      ensures r == Err(Protected) <==> id in old(users) && Count(resources, id) > 0
      ensures r.Err? ==> users == old(users) && options == old(options)
      ensures r.Ok? ==> r.value == old(users)[id] && users == old(users) - {id} && options == old(options) - {id}
      ensures old(QuotaRespected()) ==> QuotaRespected()
    {
      if id !in users {
        return Err(UserNotFound);
      }
      if Count(resources, id) > 0 {
        return Err(Protected);
      }
      RemoveUserKeepsSchema(users, options, resources, nextUserId, nextResourceId, id);
      r := Ok(users[id]);
      users := users - {id};
      options := options - {id};
    }
  }
}
