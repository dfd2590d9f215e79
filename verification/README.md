# SLA tracking, agent form and request helpers of the SunkingHub back end

This project models, in Dafny, the parts of the SunkingHub Django back end
that hold real logic, and proves properties about them:

- **The SLA evaluator** (`Sla`, `SlaProperties`). Requests, projects and
  tasks share it. It materialises a due time once from the
  entity's creation instant and its `sla_target`, classifies the entity as
  on track, due soon or overdue against the current time, raises a breach
  flag and stamps the breach time when the flag goes from false to true (due
  soon, on track and no due time clear the flag), and reports whether any of
  the four persisted SLA fields changed. Instants and durations are integers counting
  microseconds, and the current time is a parameter.
- **The save drivers** (`SlaSave`, `SlaSaveProperties`). `Project.save` and
  `Task.save` write the entity, evaluate the SLA, and write the four SLA
  columns a second time only when the evaluation reports a change.
  `Request.save` first derives `sla_target` from `duration_type`: three days
  for a short-term request, ten days otherwise. It skips the evaluation for a
  save that names `sla_due` in `update_fields`. A save is described by the
  list of base-`save` calls it issues, and `Replay` applies them to a stored
  row.
- **The Zendesk agent display name** (`AgentModel`) and **the agent form's
  `clean`** (`AgentForm`, `AgentFormProperties`). The form trims seven
  fields, reports the first missing one, rejects a username, employee id or
  email that another agent already uses, and writes the trimmed values back.
  The stored agents are a list, and the agent being edited is excluded.
- **The role permission** `HasRole(allowed_roles)` (`Roles`,
  `RolesProperties`).
- **The Google ID-token validation and the email login**
  (`Users`, `UsersProperties`). The token verifier and the
  authentication backend are function parameters.
- **The Paga helpers** (`Paga`, `PagaProperties`): the URL and headers of a
  `paga_post` call, and the reference number made from a version 4 UUID. The
  UUID is modelled as its 128-bit integer, and `uuid.hex` as its 32 hex
  digits.

`PyText` holds the Python string behaviour these rely on:
- the truthiness of optional strings;
- `strip()` with Python's whitespace set;
- `lstrip(c)` and `rstrip(c)`.

`Wrappers` holds `Option` and `Result`.

The code does less than its own comments and help texts say, and the model
follows the code:
- The help text of `sla_breached_at` reads "When the SLA was first breached."
  (apps/projects/mixins.py:40), and the comment at apps/projects/mixins.py:84
  says the breach time is set only once. But the breach flag is not sticky.
  An evaluation that finds the entity due soon or on track clears it
  (apps/projects/mixins.py:89 and :92), and so does one without a due time.
  Once the flag has been cleared, a later breach stamps a new time
  (`SlaProperties.BreachStampNotCleared`).
- A due time that already exists is kept and evaluated even after the target
  is removed. So "no target" means "on track" only while no due time has
  been stored (`SlaProperties.ExistingDueIgnoresTarget`,
  `SlaProperties.NoTargetClearsBreach`).
- A zero `sla_target` is falsy in Python and counts as no target
  (`SlaProperties.ZeroTargetIsNoTarget`). A negative one is truthy and is
  used as given.
- The help text of the request's `sla_due` reads "Computed due datetime =
  created_at + sla_target." (apps/request/mixins.py:26). But requests anchor
  the due time on `timestamp`, and fall back to `created_at`, which `Request`
  does not have (apps/request/mixins.py:49). Both mixins fall back to the
  current time when the anchor is missing.

In `paga_post` the missing-credentials warning is logged only when both the
principal and the credentials are missing, although its text says "or". The
model follows the code.

## Model

| member | source | states |
|---|---|---|
| Sla.RequestAnchor | apps/request/mixins.py:49 | the request's due time is anchored on `timestamp` when set, else on `created_at`; with neither, the caller falls back to the current time |
| Sla.ComputeDue | apps/projects/mixins.py:46-52 | no due time exactly when the target is missing or zero; otherwise the due time minus the target is the anchor, or the current time when there is no anchor |
| Sla.StatusAt | apps/projects/mixins.py:81-92 | overdue exactly when the clock is past the due time; due soon exactly when it lies in the closed window from one threshold before the due time up to the due time; on track exactly before that window |
| Sla.Evaluate | apps/projects/mixins.py:54-100 | target untouched; an existing due time is kept and a missing one is computed; the result is settled (status as the clock dictates, flag raised exactly when overdue, everything cleared without a due time); first breach stamped with `now`, a repeated breach keeps its stamp, due soon and on track keep the stamp; `changed` holds exactly when the record differs |
| SlaProperties.EvaluateIdempotent | apps/projects/mixins.py:69-100 | a second evaluation at the same instant changes nothing and reports no change |
| SlaProperties.ExistingDueIgnoresTarget | apps/projects/mixins.py:70-71 | once a due time exists, changing the target alone changes neither the derived fields nor the change flag |
| SlaProperties.ZeroTargetIsNoTarget | apps/projects/mixins.py:48-52 | a zero target evaluates exactly like no target |
| SlaProperties.NoTargetClearsBreach | apps/projects/mixins.py:73-77 | without target and due time the record becomes on track with breach flag and breach time cleared, at any clock, and the change flag says whether anything was set before |
| SlaProperties.StepNeverRegresses | apps/projects/mixins.py:78-92 | from a settled record and a clock that does not go back, the status never moves backwards, the due time is kept, and an overdue record stays overdue with its breach time |
| SlaProperties.RunNeverRegresses | apps/projects/mixins.py:54-100 | over any run of evaluations with a non-decreasing clock, for every earlier and later record: same due time, status rank non-decreasing, overdue stays overdue with the first breach time |
| SlaProperties.ThreeDayScenario | apps/projects/mixins.py:54-100 | the three-day example: due time materialised at 12h (changed), due soon at 2d6h, overdue with breach time 3d1h, then unchanged at 4d |
| SlaProperties.DueSoonWindowInclusive | apps/projects/mixins.py:82-88 | both ends of the due-soon window are due soon; one microsecond after the due time is overdue, one before the window is on track |
| SlaProperties.BreachStampNotCleared | apps/projects/mixins.py:84-89 | a breached record whose due time is moved later becomes due soon with the flag cleared and the old stamp kept, and a later breach stamps a new time |
| SlaSave.SaveTracked | apps/projects/models.py:60-80 | the caller's write comes first and the evaluation sees its stamp; the evaluation's record is kept unless every call raises; a second write happens exactly when the SLA fields changed or the first evaluation raised, names only the four SLA columns, and there are at most two writes |
| SlaSave.TargetFor | apps/request/models.py:89-92 | three days for `"short_term"`, ten days for any other duration type |
| SlaSave.SaveRequest | apps/request/models.py:80-117 | every save re-derives the target; a save naming `sla_due` is one plain write without evaluation; any other save is the shared two-phase save of the bridged request |
| SlaSave.ApplyWrite | apps/projects/models.py:78-80 | a write without `update_fields` stores the whole entity; one with `update_fields` changes exactly the named columns |
| SlaSaveProperties.IsSlaUpdateExactly | apps/request/models.py:99-100 | the guard holds exactly when `update_fields` is given and contains `sla_due` |
| SlaSaveProperties.SlaWriteTouchesOnlySlaColumns | apps/projects/models.py:78-80 | the SLA-only write leaves the stamp and the target of the stored row alone and stores the four SLA fields |
| SlaSaveProperties.FullSavePersistsEntity | apps/projects/models.py:60-80 | after a full save that completes, the stored row equals the entity in memory |
| SlaSaveProperties.NewEntityAnchoredOnStamp | apps/projects/models.py:136-148 | a new entity with a target gets the due time stamp-plus-target, where the stamp is the instant of its first write, not the evaluation clock |
| SlaSaveProperties.ResaveWritesOnce | apps/projects/models.py:70-80 | saving the saved entity again at the same instant issues only the caller's write |
| SlaSaveProperties.DurationChangeKeepsDue | apps/request/models.py:89-117 | changing `duration_type` after a due time exists changes the target but not the due time, on every path |
| SlaSaveProperties.RequestTargets | apps/request/models.py:89-92 | the short-term target is 3 days and the long-term target 10 days in microseconds; an unknown duration type gets the long-term target |
| AgentModel.Names | apps/modules/agent_session_manager/models.py:21-23 | the name is trimmed and is a slice of first name, space, last name with only whitespace around it |
| AgentModel.NamesWithoutLastName | apps/modules/agent_session_manager/models.py:23 | an empty last name gives the stripped first name |
| AgentModel.NamesOfTrimmed | apps/modules/agent_session_manager/models.py:23 | non-empty trimmed names are joined verbatim with one space |
| AgentForm.WriteBack | apps/modules/agent_session_manager/forms.py:46-54 | the result has the submitted keys plus the seven field keys; each field key holds its trimmed value; every other key passes through |
| AgentForm.Clean | apps/modules/agent_session_manager/forms.py:12-54 | each missing field is reported exactly when the fields before it are present; then username, employee id and email clashes with another agent, in that order; success exactly when all are present and nothing clashes, and then the trimmed values are written back |
| AgentFormProperties.StatusDefaultsToActive | apps/modules/agent_session_manager/forms.py:19 | a missing, null or empty status reads as `"ACTIVE"` |
| AgentFormProperties.BlankFirstNameIsMissing | apps/modules/agent_session_manager/forms.py:16-22 | a whitespace-only first name is reported missing, with "First Name missing", before anything else |
| AgentFormProperties.FieldsAreTrimmed | apps/modules/agent_session_manager/forms.py:14-20 | every field value has no whitespace at either end |
| AgentFormProperties.WriteBackTwice | apps/modules/agent_session_manager/forms.py:46-53 | writing the same values back twice is writing them once |
| AgentFormProperties.CleanIdempotent | apps/modules/agent_session_manager/forms.py:12-54 | cleaning the result of a successful cleaning succeeds with that same result |
| AgentFormProperties.EditedAgentIsNotOther | apps/modules/agent_session_manager/forms.py:33-36 | the agent named by `user_id` never clashes with itself |
| AgentFormProperties.OwnRecordAccepted | apps/modules/agent_session_manager/forms.py:33-44 | an agent re-submitting complete details with its own `user_id` passes the uniqueness checks |
| AgentFormProperties.OwnRecordBlocksNewAgent | apps/modules/agent_session_manager/forms.py:37-42 | without `user_id`, an agent with the same stored username makes the form fail with "Username is already taken." |
| Roles.AnyRoleHeld | apps/roles/permissions.py:11-12 | true exactly when some allowed role is among the user's group names |
| Roles.HasPermission | apps/roles/permissions.py:5-12 | allowed exactly when a user is present and authenticated and is a superuser or holds one of the allowed roles |
| RolesProperties.NoRolesOnlySuperusers | apps/roles/permissions.py:9-12 | with no allowed roles exactly the authenticated superusers are let through |
| RolesProperties.AnonymousSuperuserRefused | apps/roles/permissions.py:7-10 | the superuser flag does not help an unauthenticated user |
| RolesProperties.MoreRolesNeverRevoke | apps/roles/permissions.py:12 | adding allowed roles before or after never takes a permission away |
| RolesProperties.MoreGroupsNeverRevoke | apps/roles/permissions.py:11-12 | joining more groups never takes a permission away |
| RolesProperties.OnlyTheRoleSetMatters | apps/roles/permissions.py:12 | two role lists with the same elements grant the same permissions |
| Users.AsDict | apps/users/serializers.py:84-92 | the merged attributes have the submitted keys plus the six added ones; the added keys hold the claims, the email, the given and family names, the picture and the subject, overwriting any submitted value; submitted keys not overwritten keep their values |
| Users.ValidateIdToken | apps/users/serializers.py:51-92 | each error is reported exactly when the checks before it pass and its own fails: token missing or empty, verifier failure, audience, issuer, email present and verified; on success the verified claims, the email and the profile fields with their defaults are stored |
| Users.Authenticate | apps/users/serializers.py:27-41 | with email and password both non-empty, the backend's user or the login error; otherwise no user and no error |
| UsersProperties.AudienceBeforeIssuer | apps/users/serializers.py:68-72 | a token wrong in both audience and issuer is reported as an audience mismatch, with "Google token audience mismatch." |
| UsersProperties.UnsetClientIdAcceptsOnlyMissingAudience | apps/users/serializers.py:63-69 | with the client id unset, exactly the tokens without an audience pass the audience check |
| UsersProperties.ClientIdMustMatch | apps/users/serializers.py:63-69 | with a client id set, the audience must be that string |
| UsersProperties.DefaultIssuersAccepted | apps/users/serializers.py:71-72 | without the issuer setting exactly the two Google issuer spellings are accepted |
| UsersProperties.MissingEmailVerifiedFails | apps/users/serializers.py:66-75 | a token without `email_verified` fails the email check |
| UsersProperties.AddedKeysOverwrite | apps/users/serializers.py:84-91 | the six added keys overwrite: removing them from the submitted attributes before the merge gives the same merged dictionary |
| UsersProperties.SuccessKeepsSubmittedKeys | apps/users/serializers.py:84-92 | on success the merged attributes keep the submitted token and every submitted key, and `claims` holds the verified claims |
| UsersProperties.CredentialsGivenNeverSilent | apps/users/serializers.py:36-41 | with both credentials given the login returns a user or raises "Unable to login with provided credentials" |
| UsersProperties.MissingCredentialSkipsBackend | apps/users/serializers.py:33-41 | without email or password the answer does not depend on the backend |
| Paga.JoinUrl | apps/paga_payments/utils.py:28-32 | fails exactly when the base variable is missing, empty or only slashes; otherwise the URL is the base without trailing slashes, one slash, and the endpoint without leading slashes |
| Paga.PreparePost | apps/paga_payments/utils.py:25-46 | of the modelled steps only the URL can fail, and then before any warning; otherwise it carries that URL, warns exactly when principal and credentials are both missing, and puts both in the headers dict as given with the JSON content type |
| Paga.Reference | apps/paga_payments/utils.py:11-16 | 16 characters, each an upper-case hex digit, each the upper-cased digit at the same place of the UUID's hex form |
| PagaProperties.EndpointLeadingSlashesIgnored | apps/paga_payments/utils.py:32 | any number of leading slashes on the endpoint gives the same result |
| PagaProperties.BaseTrailingSlashesIgnored | apps/paga_payments/utils.py:28 | any number of trailing slashes on the base gives the same result |
| PagaProperties.CanonicalJoin | apps/paga_payments/utils.py:28-32 | a base without trailing slash and an endpoint without leading slash are joined with exactly one slash |
| PagaProperties.SingleSlashAtSeam | apps/paga_payments/utils.py:28-32 | in every URL built, the joining slash has no slash before it and none after it |
| PagaProperties.MissingBaseUrlReported | apps/paga_payments/utils.py:28-30 | a missing, empty or all-slash base URL fails with "Missing required environment variable: PAGA_BASE_URL", whatever the credentials |
| PagaProperties.MissingCredentialsOnlyWarn | apps/paga_payments/utils.py:35-46 | with principal and credentials both missing the request is still prepared, with a warning and a null principal header |
| PagaProperties.ReferenceIsHighHalf | apps/paga_payments/utils.py:16 | the reference is the upper 64 bits of the UUID in upper-case hex |
| PagaProperties.ReferenceRoundTrip | apps/paga_payments/utils.py:16 | parsing the reference as hex gives back the upper 64 bits of the UUID |
| PagaProperties.SameReferenceIffSameHighHalf | apps/paga_payments/utils.py:16 | two UUIDs give the same reference exactly when their upper 64 bits agree |
| PagaProperties.ReferenceVersionDigit | apps/paga_payments/utils.py:16 | for a version 4 UUID the thirteenth reference character is always `4` |

## Left out

- Django, the ORM and the database are not modelled. The uniqueness checks compare strings exactly, where the database collation may not, and the stored agents are given as a list.
- `Sla.ComputeDue`: instants are unbounded integers. Python datetimes stop at years 1 to 9999, and a due time outside that range makes `compute_sla_due` raise `OverflowError`. The save drivers catch only `TypeError`, so such a save raises; the model always returns a due time.
- The current time is a parameter. `compute_sla_due` reads the clock again for its fallback. The model uses the evaluation's own instant there, and the two readings are microseconds apart.
- The `TypeError` fallback of the save drivers is modelled as an oracle (`SlaSave.Fault`). This is because integer time cannot raise. Partial changes an evaluation makes before raising are not modelled. When only the first call raises, the second call's record is kept. When every call raises, the entity is left as the first write stored it.
- `SlaSave.SaveTracked`: the framework's insert-versus-update distinction and `auto_now` columns such as `updated_at` are not modelled. The stamp column is filled on the first write when absent.
- Naive and aware datetimes, time zones and the float of `total_seconds()` are not modelled. The sign test on microseconds is what the comparison decides.
- `AgentForm.Clean`: `user_id` is the edited agent's id when the raw form value is non-empty. A non-numeric value, which makes the database filter raise, is not modelled. The form's `ModelForm` field validation before `clean` is not modelled either. Because `status` is not one of the form's fields, in practice it always reads as `"ACTIVE"`.
- `Users.ValidateIdToken`: the Google library's signature, expiry and key fetching are the `verify` parameter, and a raised exception is `None`. Claims are limited to null, booleans, integers and strings, and a list-valued audience is not modelled. The serializer's field validation before `validate` is not modelled.
- `Users.Authenticate`: Django's `authenticate` and its backends are the `backend` parameter.
- `Paga.PreparePost`: the SHA-512 `hash` header (`sha512_hash`), reading the environment and the HTTP call with its timeout are not modelled. The environment values are parameters. An unset `PAGA_HASHKEY` makes `sha512_hash` raise `TypeError` after the warning, while the headers are built; the model has no such failure. A header whose value is `None` is dropped by the HTTP library when sending; the model stops at the headers dict.
- `Paga.Reference`: the randomness of `uuid4` is not modelled. The reference is a function of the UUID's integer value, and the version digit is a precondition of `PagaProperties.ReferenceVersionDigit`.
- The views, URL configuration, migrations and settings loading are not modelled. Besides routing requests, the payment views look up an earlier payment by `idempotency_key` (apps/paga_payments/views.py:51-53), create the `Payment` row (:60-68) and set its status to failed or successful after the Paga call (:89, :104, :108). The Google login view creates or fetches the user and the social account and issues the JWT pair (apps/users/views.py:39-70). The agent migration runs vendor-specific SQL. All of these are ORM or database work.
- `InitiatePaymentSerializer.validate` is not modelled. As written it reads five values and then fails at `timedelta(min=15)` (apps/paga_payments/serializers.py:69), which is not a valid call, before any of its checks; further on it refers to the undefined name `recent_duplicate` (:79).
- The role and permission serializers and signals are not modelled. They are thin ORM wrappers, and the reference-filling signal depends on UUID randomness.
- `UserSerializer` and `AdminUserSerializer` are not modelled. They only list a user's groups and permissions.
- The `__str__` methods and `CustomRegisterSerializer.get_cleaned_data` are not modelled. They are field formatting only.
