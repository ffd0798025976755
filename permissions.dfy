/** The permission classes the views are configured with, and how a list of them is checked. */
module Permissions {
  import opened UserModels

  /** Who sends a request: nobody, or an authenticated account. */
  datatype Requester = Anonymous | SignedIn(user: User)

  /** AllowAny, IsAuthenticated, IsAdminUser and the negation of a permission. */
  datatype Permission = AllowAny | IsAuthenticated | IsAdminUser | Not(operand: Permission)

  /** Whether permission `p` lets `who` through. */
  predicate Grants(p: Permission, who: Requester)
  {
    match p
    case AllowAny => true
    case IsAuthenticated => who.SignedIn?
    case IsAdminUser => who.SignedIn? && who.user.isStaff
    case Not(q) => !Grants(q, who)
  }

  /** A request is let through when every configured permission grants it. */
  predicate Permitted(perms: seq<Permission>, who: Requester)
  {
    forall i :: 0 <= i < |perms| ==> Grants(perms[i], who)
  }

  /** A single configured permission decides on its own. */
  lemma PermittedSingleton(p: Permission)
    ensures forall who :: Permitted([p], who) <==> Grants(p, who)
  {
    forall who ensures Permitted([p], who) <==> Grants(p, who) {
      assert [p][0] == p;
    }
  }

  /** `permission_classes = (IsAdminUser,)`: exactly the authenticated staff accounts. */
  function StaffOnly(): (perms: seq<Permission>)
    ensures forall who :: Permitted(perms, who) <==> who.SignedIn? && who.user.isStaff
  {
    PermittedSingleton(IsAdminUser);
    [IsAdminUser]
  }

  /** `permission_classes = (IsAuthenticated,)`: exactly the authenticated accounts. */
  function SignedInOnly(): (perms: seq<Permission>)
    ensures forall who :: Permitted(perms, who) <==> who.SignedIn?
  {
    PermittedSingleton(IsAuthenticated);
    [IsAuthenticated]
  }
}
