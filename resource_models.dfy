/** Resources, their owners and the per-owner count the quota is checked against
    (resources/models.py). */
module ResourceModels {
  import opened Wrappers
  import opened UserModels

  type ResourceId = nat

  /** max_length of the name column. */
  const MaxNameLength: nat := 100

  /** A resource row. The owner is required and is set only when the row is inserted. */
  datatype Resource = Resource(id: ResourceId, name: string, owner: UserId)

  /** The name is required, not blank, and at most MaxNameLength characters long. */
  predicate ValidName(name: string)
  {
    0 < |name| <= MaxNameLength
  }

  /** No two rows share a primary key. */
  predicate IdsUnique(rs: seq<Resource>)
  {
    forall i, j :: 0 <= i < |rs| && 0 <= j < |rs| && rs[i].id == rs[j].id ==> i == j
  }

  /** `owner.resources` for owner `u`: the rows whose owner is `u`, in table order. */
  function OwnedBy(rs: seq<Resource>, u: UserId): (r: seq<Resource>)
    ensures |r| <= |rs|
  {
    if rs == [] then []
    else
      (if rs[0].owner == u then [rs[0]] else []) + OwnedBy(rs[1..], u)
  }

  /** The rows of `owner.resources` are exactly the stored rows whose owner is `u`. */
  lemma {:induction false} OwnedByMembers(rs: seq<Resource>, u: UserId)
    ensures forall x :: x in OwnedBy(rs, u) <==> x in rs && x.owner == u
  {
    if rs != [] {
      assert forall x :: x in rs <==> x == rs[0] || x in rs[1..];
      OwnedByMembers(rs[1..], u);
    }
  }

  /** `owner.resources.count()`. */
  function Count(rs: seq<Resource>, u: UserId): nat
  {
    |OwnedBy(rs, u)|
  }

  /** Every user whose quota is set owns at most `quota` resources. */
  predicate WithinQuota(options: map<UserId, Options>, rs: seq<Resource>)
  {
    forall u :: u in options && options[u].quota.Some? ==> Count(rs, u) <= options[u].quota.value
  }

  /** Filtering by owner distributes over concatenation of tables. */
  lemma {:induction false} OwnedByConcat(s: seq<Resource>, t: seq<Resource>, u: UserId)
    ensures OwnedBy(s + t, u) == OwnedBy(s, u) + OwnedBy(t, u)
  {
    if s == [] {
      assert s + t == t;
    } else {
      var head := if s[0].owner == u then [s[0]] else [];
      assert (s + t)[0] == s[0];
      assert (s + t)[1..] == s[1..] + t;
      assert OwnedBy(s + t, u) == head + OwnedBy(s[1..] + t, u);
      OwnedByConcat(s[1..], t, u);
      assert OwnedBy(s, u) == head + OwnedBy(s[1..], u);
    }
  }

  /** Inserting one row adds it to its owner's resources and to nobody else's. */
  lemma {:induction false} CountAppend(rs: seq<Resource>, x: Resource, u: UserId)
    ensures Count(rs + [x], u) == Count(rs, u) + (if x.owner == u then 1 else 0)
  {
    OwnedByConcat(rs, [x], u);
    assert [x][1..] == [];
  }

  /** After an insert, the new row's owner holds one more resource and everyone else the same. */
  lemma {:induction false} InsertCounts(rs: seq<Resource>, x: Resource)
    ensures Count(rs + [x], x.owner) == Count(rs, x.owner) + 1
    ensures forall u :: u != x.owner ==> Count(rs + [x], u) == Count(rs, u)
  {
    forall u ensures Count(rs + [x], u) == Count(rs, u) + (if x.owner == u then 1 else 0) {
      CountAppend(rs, x, u);
    }
  }

  /** Filtering by owner twice: the same owner changes nothing, two different owners leave nothing. */
  lemma {:induction false} OwnedByTwice(rs: seq<Resource>, a: UserId, b: UserId)
    ensures OwnedBy(OwnedBy(rs, a), b) == if a == b then OwnedBy(rs, a) else []
  {
    if rs != [] {
      var head := if rs[0].owner == a then [rs[0]] else [];
      OwnedByConcat(head, OwnedBy(rs[1..], a), b);
      assert [rs[0]][1..] == [];
      OwnedByTwice(rs[1..], a, b);
    }
  }

  /** The table after the row with primary key `id` is deleted. */
  function WithoutId(rs: seq<Resource>, id: ResourceId): (r: seq<Resource>)
    ensures forall x :: x in r <==> x in rs && x.id != id
    ensures |r| <= |rs|
  {
    if rs == [] then []
    else
      assert forall x :: x in rs <==> x == rs[0] || x in rs[1..];
      (if rs[0].id != id then [rs[0]] else []) + WithoutId(rs[1..], id)
  }

  /** Deleting a row never raises any owner's count. */
  lemma {:induction false} CountWithoutId(rs: seq<Resource>, id: ResourceId, u: UserId)
    ensures Count(WithoutId(rs, id), u) <= Count(rs, u)
  {
    if rs != [] {
      var head := if rs[0].id != id then [rs[0]] else [];
      OwnedByConcat(head, WithoutId(rs[1..], id), u);
      OwnedByConcat([rs[0]], rs[1..], u);
      assert [rs[0]] + rs[1..] == rs;
      CountWithoutId(rs[1..], id, u);
    }
  }

  /** Deleting a row keeps the table free of duplicate keys. */
  lemma {:induction false} WithoutIdKeepsIdsUnique(rs: seq<Resource>, id: ResourceId)
    requires IdsUnique(rs)
    ensures IdsUnique(WithoutId(rs, id))
  {
    if rs != [] {
      var tail := rs[1..];
      assert IdsUnique(tail) by {
        forall i, j | 0 <= i < |tail| && 0 <= j < |tail| && tail[i].id == tail[j].id
          ensures i == j
        {
          assert rs[i + 1] == tail[i] && rs[j + 1] == tail[j];
        }
      }
      WithoutIdKeepsIdsUnique(tail, id);
      var rest := WithoutId(tail, id);
      if rs[0].id != id {
        forall x | x in tail ensures x.id != rs[0].id {
          var k :| 0 <= k < |tail| && tail[k] == x;
          assert rs[k + 1] == x;
        }
        var r := [rs[0]] + rest;
        forall i, j | 0 <= i < |r| && 0 <= j < |r| && r[i].id == r[j].id
          ensures i == j
        {
          if i > 0 { assert r[i] == rest[i - 1] && r[i] in tail; }
          if j > 0 { assert r[j] == rest[j - 1] && r[j] in tail; }
        }
      }
    }
  }

  /** Appending a row whose key is above every stored key keeps keys unique. */
  lemma AppendFreshKeepsIdsUnique(rs: seq<Resource>, x: Resource)
    requires IdsUnique(rs)
    requires forall i :: 0 <= i < |rs| ==> rs[i].id < x.id
    ensures IdsUnique(rs + [x])
  {
    var r := rs + [x];
    forall i, j | 0 <= i < |r| && 0 <= j < |r| && r[i].id == r[j].id
      ensures i == j
    {
      if i < |rs| && j < |rs| {
        assert r[i] == rs[i] && r[j] == rs[j];
      }
    }
  }

  /** Deleting a row keeps every set quota respected. */
  lemma WithoutIdKeepsQuota(options: map<UserId, Options>, rs: seq<Resource>, id: ResourceId)
    requires WithinQuota(options, rs)
    ensures WithinQuota(options, WithoutId(rs, id))
  {
    forall u | u in options && options[u].quota.Some?
      ensures Count(WithoutId(rs, id), u) <= options[u].quota.value
    {
      CountWithoutId(rs, id, u);
    }
  }

  /** A user owns no row exactly when their count is zero. */
  lemma CountZeroIffOwnsNothing(rs: seq<Resource>, u: UserId)
    ensures Count(rs, u) == 0 <==> forall x :: x in rs ==> x.owner != u
  {
    OwnedByMembers(rs, u);
    if Count(rs, u) > 0 {
      assert OwnedBy(rs, u)[0] in OwnedBy(rs, u);
    }
  }
}
