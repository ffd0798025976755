/** Permission tables and object lookup of the account endpoints (users/views.py). */
module UserViews {
  import opened Wrappers
  import opened UserModels
  import opened Exceptions
  import opened Permissions

  /** Why deleting an account fails: no such account, or it still owns resources (the
      owner link is PROTECT), which Django reports as ProtectedError. */
  datatype DeleteUserError = UserNotFound | Protected

  /** AuthViewSet.get_permissions: `register` only for callers who are not authenticated;
      any other action (login) is open to anyone. */
  function AuthPermissions(action: string): (perms: seq<Permission>)
    ensures forall who :: Permitted(perms, who) <==> (action == "register" ==> who.Anonymous?)
  {
    PermittedSingleton(Not(IsAuthenticated));
    PermittedSingleton(AllowAny);
    assert forall who :: Grants(Not(IsAuthenticated), who) <==> !Grants(IsAuthenticated, who);
    if action == "register" then [Not(IsAuthenticated)] else [AllowAny]
  }

  /** UsersView: listing, creating, retrieving and deleting accounts all require staff. */
  const UsersViewPermissions: seq<Permission> := StaffOnly()

  /** UsersOptionsView: reading or updating any options row, one's own included, requires staff. */
  const OptionsViewPermissions: seq<Permission> := StaffOnly()

  /** MeView: any authenticated caller. */
  const MeViewPermissions: seq<Permission> := SignedInOnly()

  /** UsersOptionsView.get_object: the options row whose user link equals the `pk` of the URL;
      None is a 404. */
  function OptionsObject(options: map<UserId, Options>, pk: UserId): (r: Option<Options>)
    requires forall u :: u in options ==> options[u].user == u
    ensures r.Some? ==> r.value in options.Values && r.value.user == pk
    ensures r.None? <==> forall o :: o in options.Values ==> o.user != pk
  {
    if pk in options then
      assert options[pk] in options.Values;
      Some(options[pk])
    else
      assert forall o :: o in options.Values ==> exists u :: u in options && options[u] == o;
      None
  }

  /** MeView.get_object: whatever the request, the object is the caller's own account. */
  function MeObject(caller: User): (u: User)
    ensures u == caller
  {
    caller
  }

  /** A refused account deletion as the exception it raises. ProtectedError is an
      IntegrityError raised by Django itself, so it has no database cause. */
  function DeleteUserFailure(e: DeleteUserError): Raised
  {
    match e
    case UserNotFound => Api(NotFound)
    case Protected => IntegrityError(None)
  }

  /** Deleting an account that still owns resources ends as a generic server error (500);
      deleting a missing one as 404. */
  lemma DeleteUserFailureStatus(e: DeleteUserError)
    ensures HandleException(DeleteUserFailure(e)).Api?
    ensures StatusCode(HandleException(DeleteUserFailure(e)).api) == if e.Protected? then 500 else 404
  {
  }
}
