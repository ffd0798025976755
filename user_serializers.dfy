/** Registration and the quota check of an options update (users/seriazliers.py). */
module UserSerializers {
  import opened Wrappers
  import opened UserModels
  import opened ResourceModels
  import opened ResourceSerializers

  /** Name of the field a quota rejection is attached to, and its message. */
  const QuotaField: string := "quota"
  const QuotaBelowUsageMessage: string := "quota cannot be less than current number of resources"

  /** A rejected registration: which of the two validated fields failed. */
  datatype RegistrationError = RegistrationInvalid(emailInUse: bool, passwordRejected: bool)

  /** The error RegistrationSerializer.update raises. */
  datatype Unsupported = NotImplementedError

  /** The `quota` key of an options update: missing, null, or an integer. */
  datatype QuotaInput = Absent | Null | Given(value: int)

  /** Why an options update fails: no options row for that user, a quota outside the
      column's range, or the quota check on the `quota` field. */
  datatype OptionsError =
    | OptionsNotFound
    | QuotaOutOfRange
    | QuotaBelowUsage(field: string, message: string)

  /** RegistrationSerializer.update: registration data never updates an account. */
  function RegistrationUpdate(instance: User): (r: Result<User, Unsupported>)
    ensures r.Err?
  {
    Err(NotImplementedError)
  }

  /** The integer, when one is given, is a value the quota column can hold. */
  predicate QuotaInputInRange(q: QuotaInput)
  {
    !q.Given? || 0 <= q.value <= MaxQuota
  }

  /** The quota the options row holds after an accepted update: a missing key keeps it. */
  function QuotaAfter(current: Option<nat>, q: QuotaInput): (r: Option<nat>)
    requires QuotaInputInRange(q)
    ensures q.Absent? ==> r == current
    ensures q.Null? ==> r == None
    ensures q.Given? ==> r == Some(q.value)
    ensures ValidQuota(current) ==> ValidQuota(r)
  {
    match q
    case Absent => current
    case Null => None
    case Given(v) => Some(v)
  }

  /** The test of _check_quota: refused when a quota is set and the checked user's
      count exceeds it. */
  predicate QuotaCheck(quota: Option<nat>, count: nat)
  {
    !(quota.Some? && count > quota.value)
  }

  /** The update check accepts exactly the quotas not below the current count, and null.
      A quota equal to the count passes it but already blocks creation. */
  lemma QuotaBoundaries(count: nat)
    ensures QuotaCheck(Some(count), count) && !CreateAllowed(Some(count), count)
    ensures QuotaCheck(None, count) && CreateAllowed(None, count)
    ensures forall q: nat :: q < count ==> !QuotaCheck(Some(q), count)
    ensures forall q: nat :: count <= q ==> QuotaCheck(Some(q), count)
  {
  }

  /** Checking the count of the user whose row is updated keeps every set quota respected. */
  lemma TargetCheckKeepsQuota(options: map<UserId, Options>, rs: seq<Resource>, target: UserId, quota: Option<nat>)
    requires WithinQuota(options, rs)
    requires QuotaCheck(quota, Count(rs, target))
    ensures WithinQuota(options[target := Options(target, quota)], rs)
  {
  }

  /** Checking the requesting user's count instead: whenever the requester owns at most `q`
      resources and the target owns more, the update is accepted and leaves the target over
      quota. */
  lemma RequesterCheckBreaksQuota(options: map<UserId, Options>, rs: seq<Resource>, requester: UserId, target: UserId, q: nat)
    requires Count(rs, requester) <= q < Count(rs, target)
    ensures QuotaCheck(Some(q), Count(rs, requester))
    ensures !WithinQuota(options[target := Options(target, Some(q))], rs)
  {
  }

  /** Such a state exists: a requester with no resources sets quota 0 for a user who owns
      one, from a state where every quota is respected. */
  lemma RequesterCheckBreaksQuotaExample()
    ensures var rs := [Resource(1, "r", 2)];
            var options := map[1 := NewOptions(1), 2 := NewOptions(2)];
            && WithinQuota(options, rs)
            && Count(rs, 1) <= 0 < Count(rs, 2)
            && !WithinQuota(options[2 := Options(2, Some(0))], rs)
  {
    var x := Resource(1, "r", 2);
    assert [x][1..] == [];
    assert OwnedBy([x], 1) == [];
    assert OwnedBy([x], 2) == [x];
    RequesterCheckBreaksQuota(map[1 := NewOptions(1), 2 := NewOptions(2)], [x], 1, 2, 0);
  }
}
