# resources-api: quota and ownership model

A Dafny model of the decision logic of a small multi-tenant REST backend. Accounts (users)
each have one options row holding an optional quota. Resources each have one owner, fixed
when the row is inserted. The model covers:

- registration, which creates an account together with its options row;
- resource creation, which resolves the owner and refuses the insert when the owner's quota
  is reached;
- the quota update on an options row;
- deletion of resources and accounts, with the cascade to options and the protection of
  owners;
- the ownership scope that decides which resource rows a caller may list, retrieve or delete;
- the permission tables of the endpoints;
- the translation of storage integrity errors into API errors.

The three tables live in one in-memory store, the class `Database.Store`. Each method is one
committed transaction: an error changes nothing. `Store.Valid()` holds the schema's
constraints: unique emails, one options row per account, quotas within the column's range,
every resource owned by a stored account, valid names and unique keys. `Store.QuotaRespected()`
is the global quota invariant: an owner never holds more resources than a quota that is set.
Every operation that keeps it says so in its contract. The one that does not is described
under "Findings".

Modules follow the source files:

| module | file | models |
|---|---|---|
| `UserModels` | `user_models.dfy` | `src/users/models.py` |
| `ResourceModels` | `resource_models.dfy` | `src/resources/models.py`, and the count `owner.resources.count()` |
| `ResourceSerializers` | `resource_serializers.dfy` | `src/resources/seriazliers.py` (owner resolution, quota test) |
| `UserSerializers` | `user_serializers.dfy` | `src/users/seriazliers.py` (registration, quota check) |
| `ResourceViews` | `resource_views.dfy` | `src/resources/views.py` |
| `UserViews` | `user_views.dfy` | `src/users/views.py` |
| `Permissions` | `permissions.dfy` | the permission classes both view files configure |
| `Exceptions` | `exceptions.dfy` | `src/resources_api/exceptions.py` |
| `Database` | `store.dfy` | the tables and the operations that change them |
| `Wrappers` | `wrappers.dfy` | `Option` and `Result` |

Inputs that come from code outside the model are parameters:

- whether the password passes the password policy (`passwordAccepted`);
- the authenticated caller (a stored account id);
- the action name of a view.

## Model

| member | source | states |
|---|---|---|
| `ResourceModels.OwnedByMembers` | src/resources/models.py:20 | `owner.resources` holds exactly the stored rows whose owner is that user |
| `ResourceModels.InsertCounts` | src/resources/seriazliers.py:52-55 | inserting one row raises its owner's count from c to c+1 and leaves every other count unchanged |
| `ResourceModels.WithoutId` | src/resources/views.py:25 | after a delete, the table holds exactly the rows with a different key |
| `ResourceModels.WithoutIdKeepsQuota` | src/resources/views.py:25 | deleting a resource keeps every set quota respected |
| `ResourceModels.CountZeroIffOwnsNothing` | src/resources/models.py:20 | an owner's count is zero exactly when no row has that owner, which is the condition PROTECT tests |
| `ResourceSerializers.RequestedOwner` | src/resources/seriazliers.py:26-30 | an omitted `owner_id` defaults to the current user; a given one is taken as sent |
| `ResourceSerializers.ValidateOwner` | src/resources/seriazliers.py:39-45 | a caller who is not staff is always the owner, whatever was sent; a staff caller gets the owner asked for |
| `ResourceSerializers.InvalidCreateFields` | src/resources/seriazliers.py:25-34 | a creation request is invalid exactly when the name is blank or longer than 100 characters, or `owner_id` names no account; each failing field is listed by name |
| `ResourceSerializers.CreateKeepsWithinQuota` | src/resources/seriazliers.py:47-55 | an insert that passed the quota test (`count < quota`, or no quota) keeps every set quota respected |
| `ResourceSerializers.UnlimitedAlwaysAllowed` | src/resources/seriazliers.py:52 | with a null quota the creation test passes for every count |
| `UserSerializers.RegistrationUpdate` | src/users/seriazliers.py:48-49 | updating through the registration serializer always fails |
| `UserSerializers.QuotaAfter` | src/users/seriazliers.py:88-93 | an accepted update keeps the quota when the key is missing, clears it on null and sets it to a given value; a valid quota stays valid |
| `UserSerializers.QuotaBoundaries` | src/users/seriazliers.py:85 | a quota equal to the count passes the update check (strict `>`) but already blocks creation (`>=`); null passes both; every quota at or above the count is accepted and every quota below it is refused |
| `UserSerializers.TargetCheckKeepsQuota` | src/users/seriazliers.py:81-86 | checking the count of the account whose row is updated keeps every set quota respected |
| `UserSerializers.RequesterCheckBreaksQuota` | src/users/seriazliers.py:89-91 | with the requester's count checked, any requester owning at most q resources can set quota q on an account owning more; the update passes and leaves that account over quota |
| `UserSerializers.RequesterCheckBreaksQuotaExample` | src/users/seriazliers.py:91 | a concrete state: every quota is respected, the requester owns nothing, the target owns one resource and gets quota 0 |
| `Exceptions.ApiExceptionFor` | src/resources_api/exceptions.py:12-21 | the mapping is total and has two outcomes. A unique or not-null violation becomes a validation error (400) carrying the database message. A missing cause, a cause with no code or any other code becomes a generic error (500) |
| `Exceptions.HandleException` | src/resources_api/exceptions.py:24-30 | an IntegrityError is replaced by the mapping of its cause; every other exception passes through unchanged; no IntegrityError reaches the framework |
| `Permissions.SignedInOnly` | src/resources/views.py:28 | `IsAuthenticated` admits exactly the authenticated callers; the resources endpoint and `MeView` (src/users/views.py:103) are configured with it |
| `ResourceViews.SerializerFor` | src/resources/views.py:31-34 | `create` uses the creation serializer; every other action uses the detail serializer |
| `ResourceViews.OwnerFilteredMembers` | src/resources/views.py:29 | the `owner_id` filter keeps exactly the rows of the named owner |
| `ResourceViews.Scope` | src/resources/views.py:36-40 | a row is in scope exactly when the filter keeps it and the caller is staff or owns it. The result is drawn from the input. Staff with no filter see every row; staff filtering by X see exactly X's rows; anyone else with no filter sees exactly their own rows |
| `ResourceViews.ScopeFilterOnlyNarrows` | src/resources/views.py:40 | for a caller who is not staff, an `owner_id` filter gives their own rows when it names them and nothing otherwise |
| `ResourceViews.ScopeIdempotent` | src/resources/views.py:36-40 | applying the scope twice equals applying it once |
| `ResourceViews.RetrieveVisibility` | src/resources/views.py:36-40 | with unique keys, a stored row is found by key exactly when the caller is staff or owns it; otherwise the answer is "not found" |
| `ResourceViews.DecimalRoundTrip` | src/resources/views.py:47 | the decimal text of the quota in the message reads back as the quota |
| `ResourceViews.DenyQuotaExceeded` | src/resources/views.py:42-47 | a creation refused by the quota becomes PermissionDenied (403); its message is exactly the fixed prefix followed by the quota in canonical decimal (no leading zeros), and that text reads back as the quota |
| `UserViews.AuthPermissions` | src/users/views.py:42-50 | `register` is allowed exactly for callers who are not authenticated; every other auth action is open to anyone |
| `Permissions.StaffOnly` | src/users/views.py:78 | `IsAdminUser` admits exactly the authenticated staff accounts; the accounts endpoint and the options endpoint (src/users/views.py:93), one's own row included, are configured with it |
| `UserViews.OptionsObject` | src/users/views.py:95-97 | the options row is found by its user link equal to the URL `pk`; none is found exactly when no row has that user |
| `UserViews.MeObject` | src/users/views.py:106-107 | the `me` endpoint always targets the caller's own account |
| `UserViews.DeleteUserFailureStatus` | src/resources/models.py:20 | deleting an account that still owns resources raises ProtectedError, an IntegrityError with no database cause, which the handler turns into a generic 500; deleting a missing account gives 404 |
| `Database.InsertKeepsSchema` | src/resources/models.py:19-20 | inserting a valid row owned by a stored account, under a fresh key, keeps the schema's constraints |
| `Database.AddUserKeepsSchema` | src/users/models.py:34 | saving an account with an unused email keeps emails unique and keeps one options row per account |
| `Database.SetOptionsKeepsSchema` | src/users/models.py:65-66 | replacing an options row by one with the same user link and a quota in range keeps the schema's constraints |
| `Database.DeleteKeepsSchema` | src/resources/models.py:20 | deleting a resource keeps the schema's constraints |
| `Database.RemoveUserKeepsSchema` | src/users/models.py:65 | deleting an account that owns nothing, cascading to its options row, keeps the schema's constraints |
| `Database.Store.Register` | src/users/seriazliers.py:25-46 | refused exactly when the email is in use or the password is rejected, with both failures reported. Otherwise it adds one account (not staff, active, blank names) and its options row with a null quota, under a fresh key. Resources do not change |
| `Database.Store.CreateResource` | src/resources/seriazliers.py:39-55 | invalid fields are refused first. Otherwise it refuses with `QuotaExceeded(quota)` exactly when the effective owner's quota is set and the owner's count is `>= quota`, and the resource table stays unchanged. Otherwise it appends exactly one row with a fresh key, the given name and the effective owner. Accounts and options never change, and the quota invariant is kept |
| `Database.Store.UpdateOptions` | src/users/seriazliers.py:81-93 | as written. 404 when the account has no options row; a quota out of range is refused. A given quota is refused on field `quota` exactly when the REQUESTER's count exceeds it. A missing key skips the check and null always passes. A refusal leaves the row unchanged. The user link is never changed, whatever `user_id` is sent. After an accepted update of a store that respected every quota, the invariant still holds exactly when no quota was given or the TARGET's count does not exceed it; a refusal changes nothing |
| `Database.Store.UpdateOptionsCorrected` | src/users/seriazliers.py:81-93 | the same update, with the count of the account whose row is updated checked; it always keeps the quota invariant |
| `Database.Store.ListResources` | src/resources/views.py:36-40 | a listed row is exactly a stored row that the filter keeps and that the caller owns, unless the caller is staff |
| `Database.Store.RetrieveResource` | src/resources/views.py:36-40 | a retrieved row has the requested key and is owned by the caller unless the caller is staff. With no filter, another account's row is not found for a caller who is not staff, and is found for staff |
| `Database.Store.DeleteResource` | src/resources/views.py:22-40 | deletes exactly the row the scoped lookup finds, and nothing when it finds none. Accounts and options do not change, and the quota invariant is kept |
| `Database.Store.DeleteUser` | src/users/views.py:72-78 | 404 for a missing account. The account is protected exactly when it still owns resources, and then nothing changes. Otherwise the account and its options row are removed. The quota invariant is kept |

## Findings

| source | as written | input that shows it | evidently intended | confidence | as-written member | corrected member |
|---|---|---|---|---|---|---|
| src/users/seriazliers.py:91 | `update` checks the new quota against the resource count of `self.context["request"].user`, the requesting staff account. It also locks that account's options row, not the row being updated | a staff requester owning no resources sets quota 0 on an account owning one resource: the update is accepted and leaves that account over its quota | check (and lock) the account of `instance.user`, whose row is updated, as the error message "quota cannot be less than current number of resources" says | high, not executed | `UserSerializers.RequesterCheckBreaksQuota` | `UserSerializers.TargetCheckKeepsQuota` |

`Database.Store.UpdateOptions` models the code as written. Its contract states exactly when an
accepted update leaves the quota invariant intact: when the target's count fits the new quota,
which the as-written check does not test. `Database.Store.UpdateOptionsCorrected`
checks the target's count and keeps the invariant.

## Left out

- Row locks (`select_for_update`) and `transaction.atomic`: each method is one atomic step of a sequential store, so the concurrency guarantee cannot be stated.
- JWT issuance and login (`obtain_jwt`), password hashing and the password policy: library calls. The policy's verdict is the parameter `passwordAccepted` of `Register`.
- Email format validation of the email field, and the framework's whitespace trimming of names: library validators.
- ResourceSerializers.InvalidCreateFields: does not model the framework's refusal of a name containing a NUL character, nor of an explicit `owner_id: null` (the model's `ownerId` is either omitted or an account id); both are library field checks.
- The `createsuperuser` manager: framework glue. It saves an account without an options row. In the model every account has exactly one options row, and staff accounts are simply stored accounts with `isStaff` set; no operation in the core grants staff.
- The generic list and retrieve of accounts, and the profile update through `MeView`: framework plumbing with no decision logic beyond the permissions modelled.
- The framework's default exception handler, response rendering, the 401-versus-403 choice for a refused permission, and Swagger annotations. `Exceptions.StatusCode` gives the status of each API error.
- Validation of the `owner_id` query filter value by the filtering library. The filter is modelled as an optional account id.
- Storage-level unique or not-null violations, such as a duplicate-email race: they cannot occur in a sequential store. Their translation is modelled in `Exceptions`.
- The order of query results: the model keeps insertion order, where the database promises none.
- Database.Store.RetrieveResource: the exact found-or-not-found answer is stated only for requests without an `owner_id` filter. With a filter, the contract states only that a found row is in the caller's scope.
- URL routing, the WSGI entry point, migrations and tests.
