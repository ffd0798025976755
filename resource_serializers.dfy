/** Owner resolution and the quota test of resource creation (resources/seriazliers.py). */
module ResourceSerializers {
  import opened Wrappers
  import opened UserModels
  import opened ResourceModels

  /** Why a creation request fails: fields that did not validate (by field name), or
      ResourceQuotaExceeded carrying the owner's quota. */
  datatype CreateError = InvalidFields(fields: seq<string>) | QuotaExceeded(quota: nat)

  /** The owner the request names, or the caller when `owner_id` is omitted. */
  function RequestedOwner(caller: User, ownerId: Option<UserId>): (o: UserId)
    ensures ownerId.None? ==> o == caller.id
    ensures ownerId.Some? ==> o == ownerId.value
  {
    ownerId.GetOr(caller.id)
  }

  /** validate_owner_id: a caller who is not staff always owns what they create;
      a staff caller gets the owner they asked for. */
  function ValidateOwner(caller: User, owner: UserId): (o: UserId)
    ensures !caller.isStaff ==> o == caller.id
    ensures caller.isStaff ==> o == owner
  {
    if !caller.isStaff then caller.id else owner
  }

  /** The fields of a creation request that fail validation, in declaration order:
      a blank or over-long name, an `owner_id` naming no account. */
  function InvalidCreateFields(users: map<UserId, User>, name: string, ownerId: Option<UserId>): (fields: seq<string>)
    ensures fields == [] <==> ValidName(name) && (ownerId.Some? ==> ownerId.value in users)
    ensures "name" in fields <==> !ValidName(name)
    ensures "owner_id" in fields <==> ownerId.Some? && ownerId.value !in users
  {
    (if ValidName(name) then [] else ["name"])
    + (if ownerId.Some? && ownerId.value !in users then ["owner_id"] else [])
  }

  /** The quota test of create: refused when a quota is set and the owner already holds
      that many resources or more. */
  predicate CreateAllowed(quota: Option<nat>, count: nat)
  {
    !(quota.Some? && count >= quota.value)
  }

  /** An insertion the quota test allowed keeps every set quota respected. */
  lemma CreateKeepsWithinQuota(options: map<UserId, Options>, rs: seq<Resource>, x: Resource)
    requires WithinQuota(options, rs)
    requires x.owner in options
    requires CreateAllowed(options[x.owner].quota, Count(rs, x.owner))
    ensures WithinQuota(options, rs + [x])
  {
    forall u | u in options && options[u].quota.Some?
      ensures Count(rs + [x], u) <= options[u].quota.value
    {
      CountAppend(rs, x, u);
    }
  }

  /** With no quota, the test always passes, whatever the count. */
  lemma UnlimitedAlwaysAllowed(count: nat)
    ensures CreateAllowed(None, count)
  {
  }
}
