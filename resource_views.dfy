/** The resources endpoint: permission, serializer choice, ownership scope and the
    translation of a refused quota (resources/views.py). */
module ResourceViews {
  import opened Wrappers
  import opened UserModels
  import opened ResourceModels
  import opened Exceptions
  import opened Permissions

  /** The two serializers of the endpoint. */
  datatype SerializerKind = CreateResourceSerializer | DetailResourceSerializer

  /** Beginning of the message of a creation refused by the quota. */
  const QuotaMessagePrefix: string := "Maximum number of resources is reached: "

  /** Every action of the endpoint requires an authenticated caller. */
  const ResourcesViewPermissions: seq<Permission> := SignedInOnly()

  /** get_serializer_class: `create` uses the creation serializer, every other action the
      detail serializer. */
  function SerializerFor(action: string): (k: SerializerKind)
    ensures k == CreateResourceSerializer <==> action == "create"
  {
    if action == "create" then CreateResourceSerializer else DetailResourceSerializer
  }

  /** The `owner_id` query filter, when one is sent. */
  function OwnerFiltered(rs: seq<Resource>, ownerFilter: Option<UserId>): seq<Resource>
  {
    match ownerFilter
    case None => rs
    case Some(o) => OwnedBy(rs, o)
  }

  /** The `owner_id` filter keeps exactly the rows of the named owner. */
  lemma OwnerFilteredMembers(rs: seq<Resource>, ownerFilter: Option<UserId>)
    ensures forall x :: x in OwnerFiltered(rs, ownerFilter) <==>
      x in rs && (ownerFilter.None? || x.owner == ownerFilter.value)
  {
    if ownerFilter.Some? {
      OwnedByMembers(rs, ownerFilter.value);
    }
  }

  /** filter_queryset: the rows a caller may list, retrieve or delete. Staff see every row the
      filter keeps; anyone else sees only their own rows among those. */
  function Scope(caller: User, ownerFilter: Option<UserId>, rs: seq<Resource>): (r: seq<Resource>)
    ensures forall x :: x in r <==>
      x in rs && (ownerFilter.None? || x.owner == ownerFilter.value) && (caller.isStaff || x.owner == caller.id)
    ensures |r| <= |rs|
    ensures caller.isStaff && ownerFilter.None? ==> r == rs
    ensures caller.isStaff && ownerFilter.Some? ==> r == OwnedBy(rs, ownerFilter.value)
    ensures !caller.isStaff && ownerFilter.None? ==> r == OwnedBy(rs, caller.id)
  {
    OwnerFilteredMembers(rs, ownerFilter);
    OwnedByMembers(OwnerFiltered(rs, ownerFilter), caller.id);
    if caller.isStaff then OwnerFiltered(rs, ownerFilter)
    else OwnedBy(OwnerFiltered(rs, ownerFilter), caller.id)
  }

  /** A caller who is not staff and filters by owner gets their own rows when the filter names
      them and nothing otherwise: the filter narrows the self-restriction, never widens it. */
  lemma ScopeFilterOnlyNarrows(caller: User, o: UserId, rs: seq<Resource>)
    requires !caller.isStaff
    ensures Scope(caller, Some(o), rs) == if o == caller.id then OwnedBy(rs, o) else []
  {
    OwnedByTwice(rs, o, caller.id);
  }

  /** Scoping an already scoped collection changes nothing. */
  lemma ScopeIdempotent(caller: User, ownerFilter: Option<UserId>, rs: seq<Resource>)
    ensures Scope(caller, ownerFilter, Scope(caller, ownerFilter, rs)) == Scope(caller, ownerFilter, rs)
  {
    match ownerFilter
    case None =>
      if !caller.isStaff {
        OwnedByTwice(rs, caller.id, caller.id);
      }
    case Some(o) =>
      if caller.isStaff {
        OwnedByTwice(rs, o, o);
      } else {
        ScopeFilterOnlyNarrows(caller, o, rs);
        if o == caller.id {
          OwnedByTwice(rs, o, o);
          ScopeFilterOnlyNarrows(caller, o, OwnedBy(rs, o));
        } else {
          ScopeFilterOnlyNarrows(caller, o, []);
        }
      }
  }

  /** The first row with primary key `id`, if any. */
  function FindById(rs: seq<Resource>, id: ResourceId): (r: Option<Resource>)
    ensures r.Some? ==> r.value in rs && r.value.id == id
    ensures r.None? <==> forall x :: x in rs ==> x.id != id
  {
    if rs == [] then None
    else if rs[0].id == id then Some(rs[0])
    else
      assert forall x :: x in rs <==> x == rs[0] || x in rs[1..];
      FindById(rs[1..], id)
  }

  /** get_object for retrieve and delete: the row with that key within the caller's scope;
      None is a 404. */
  function Retrieve(caller: User, ownerFilter: Option<UserId>, rs: seq<Resource>, id: ResourceId): Option<Resource>
  {
    FindById(Scope(caller, ownerFilter, rs), id)
  }

  /** With unique keys and no filter, a stored row is found exactly when the caller is staff or
      owns it; anyone else is answered as if it did not exist. */
  lemma RetrieveVisibility(caller: User, rs: seq<Resource>, x: Resource)
    requires IdsUnique(rs) && x in rs
    ensures Retrieve(caller, None, rs, x.id) == if caller.isStaff || x.owner == caller.id then Some(x) else None
  {
    var found := Retrieve(caller, None, rs, x.id);
    if found.Some? {
      var i :| 0 <= i < |rs| && rs[i] == x;
      var j :| 0 <= j < |rs| && rs[j] == found.value;
      assert i == j;
    }
  }

  /** The decimal digit for `d`. */
  function DigitChar(d: nat): char
    requires d < 10
  {
    ('0' as int + d) as char
  }

  /** The value of a decimal digit character; 0 for any other character. */
  function DigitValue(c: char): nat
  {
    if '0' <= c <= '9' then c as int - '0' as int else 0
  }

  /** `str(n)`: the decimal representation of a non-negative integer. */
  function DecimalString(n: nat): (s: string)
    ensures |s| > 0
    ensures forall i :: 0 <= i < |s| ==> '0' <= s[i] <= '9'
    ensures n > 0 ==> s[0] != '0'
  {
    if n < 10 then [DigitChar(n)] else DecimalString(n / 10) + [DigitChar(n % 10)]
  }

  /** The number a string of decimal digits denotes. */
  function ParseDecimal(s: string): nat
  {
    if s == [] then 0 else ParseDecimal(s[..|s| - 1]) * 10 + DigitValue(s[|s| - 1])
  }

  /** The decimal representation of `n` reads back as `n`. */
  lemma {:induction false} DecimalRoundTrip(n: nat)
    ensures ParseDecimal(DecimalString(n)) == n
  {
    var s := DecimalString(n);
    if n < 10 {
      assert s[..|s| - 1] == [];
    } else {
      assert s[..|s| - 1] == DecimalString(n / 10);
      DecimalRoundTrip(n / 10);
    }
  }

  /** ResourcesView.create: a creation refused by the quota is answered with PermissionDenied
      (403) whose message is the fixed prefix followed by the owner's quota in canonical
      decimal (no leading zeros), which reads back as the quota. */
  function DenyQuotaExceeded(quota: nat): (r: ApiException)
    ensures r.PermissionDenied? && StatusCode(r) == 403
    ensures r.message == QuotaMessagePrefix + DecimalString(quota)
    ensures QuotaMessagePrefix <= r.message
    ensures ParseDecimal(r.message[|QuotaMessagePrefix|..]) == quota
  {
    DecimalRoundTrip(quota);
    var message := QuotaMessagePrefix + DecimalString(quota);
    assert message[|QuotaMessagePrefix|..] == DecimalString(quota);
    PermissionDenied(message)
  }
}
