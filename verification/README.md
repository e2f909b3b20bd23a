# Verified model of the membership, permission and account core

This project models five connected parts of the service in Dafny and proves what they promise.

1. **Rate limiting** (`SlidingWindow`, `CompositeLimiter`, `WatchedLimiter`, `CheckVerdicts`,
   `PairLimiter`). The per-key deques with their lazy pruning are a class whose methods are proved against a
   history of all hits; what the three limiters of one check answer together is read off the earlier checks.
   Times are reals, so the closed window boundary and the clock that is read before the lock is taken are
   exact.
2. **Role-based access** (`Store`, `CompanyRoles`, `Members`, `Permissions`, `Companies` and their
   repositories). Ten tables are maps of rows with a closed flag. A request is a step: the states it
   commits, in order, and what it reports. The repositories are classes over a database session with commit
   and rollback, each method proved to carry out its step; loops over rows stay loops. One invariant covers
   every commit of every run (`StoreInvariant`, `CompanyCreation`, `DefaultRoles`, `Service`), and on it
   rest the authorisation check (`Authorization`), the batched listings with their list objects
   (`EffectivePermissions`, `PermissionListing`, `ListingOrder`), what can never be undone (`StoreHistory`),
   when a company can be created and what it then has (`CompanyOutcome`, `CreationFailures`,
   `CreationEffect`), and effects, inverses and isolation (`StoreLaws`). `StoreOutcomes` says request by
   request what is refused, why, and which rows are written. `SystemPolicy` holds the shipped catalogue.
3. **Data migrations** (`LevelMigration`, `IdMigration`, `RoleMigration`, composed in `MigrationChain` and
   `IdRoundTrip`, and `SeedMigration`). The row loops are methods over old and new tables; meaning is
   compared through joins down to emails and names, and closing times through to the running service's
   membership invariant (`MigratedAccess`, `MigratedStore`, `ChainAccess`, `ChainOrders`). Between
   migrations a table is read in any order (`RowOrder`, `MigrationReads`).
4. **Accounts** (`Accounts`, `UserRepository`, `AccountService`, `AccountOutcomes`, `AccountRuns`,
   `ResetRuns`). One metadata map per user, one writer per key, token versions and reset tokens over whole
   runs.
5. **Superuser bootstrap** (`Bootstrap`, `BootstrapOutcomes`, `BootstrapRuns`, `BootstrapWindow`,
   `SuperuserAccess`). One attempt as a class method, and many attempts as a transaction protocol over one
   lock, interleaved with crashes and with any other account activity.

## What the model assumes

- Every transaction is serial, except in the bootstrap protocol. A request that commits several times
  contributes each of its commits. In the runs of `AccountRuns` and `ResetRuns` a bootstrap is one such
  request; what its interleaving with other requests changes is the subject of `BootstrapWindow`.
- The bootstrap protocol is that of a database with row locks, where account requests go on while the
  control row is locked. SQLite lets nobody write meanwhile, so there the window is never hit.
- Foreign keys are enforced as declared. SQLite does not do so unless told to. Primary keys of the old
  tables are unique.
- The migrations select whole tables without ORDER BY, so each read may give the rows in any order; nothing
  is assumed about it. On MySQL, for one, roles come back in the order of their keys, which are UUIDs after
  the second migration.
- The store is driven at repository level, without the authorisation checks in front of it. The states
  reached are therefore a superset of the service's own.
- Signatures are ideal: a token that a client presents is one that was handed out, or is rejected. Hashes
  are opaque. Identifiers drawn for new rows are new. Name-based ids (section 5.5 of RFC 9562) are injective
  and never drawn.
- Lower-casing and trimming are those of ASCII text.

## Main theorems

- Rate limiting: `SlidingWindow.WindowBound` with `SlidingWindow.SkewWeakensWindow`,
  `SlidingWindow.AcceptsByFullHistory`, `SlidingWindow.RetryAfterIsExact`, `PairLimiter.PairRefusalIsLag`,
  `PairLimiter.NoWeakerCondition`, `CheckVerdicts.VerdictsAreExact`, `CheckVerdicts.AllowedPerHour`.
- Access: `Service.EveryCommitSatisfiesInv`, `Authorization.JoinIsSimpleTest`, `Authorization.RequireIff`,
  `Authorization.CheckMatchesListing`, `CreationEffect.CreatedCompany`, `CreationEffect.OwnerMayUse`,
  `PermissionListing.PermissionReader.EffectivePermissionsByAssignments`, `StoreHistory.RunFollows`,
  `StoreHistory.CatalogueIsProtected`, `StoreLaws.CompaniesAreIsolated`, `StoreLaws.ReplaceRoleEffect`,
  `CompanyRoles.AssignEachMeans`, `CompanyOutcome.CreationSucceedsIff`,
  `CompanyOutcome.DeletedDefaultStopsCreation`.
- Migrations: `MigrationChain.UpgradeAll`, `ChainOrders.WorksInEveryOrderIff`, `MigratedAccess.UsableIff`,
  `IdMigration.UpgradeIsIsomorphism`, `IdRoundTrip.RoundTripIsIdentityIff`, `SeedMigration.UpgradeFailsIff`,
  `SeedMigration.DowngradeRestoresIff`.
- Accounts: `Accounts.EachWriterKeepsToItsKey`, `AccountRuns.TokenIsCurrentIff`,
  `AccountRuns.AuthenticatedMeansLoggedIn`, `ResetRuns.ResetFollowsIssue`, `ResetRuns.IssuedTokenResets`,
  `ResetRuns.ResetTokenWorksOnce`, `AccountOutcomes.RightPasswordLogsIn`, `ResetRuns.TokensHaveOneHolder`.
- Bootstrap: `BootstrapRuns.AtMostOneChange`, `BootstrapRuns.LogMatchesControl`,
  `BootstrapRuns.CompletionIsForever`, `BootstrapWindow.ChangeEndsSessionsIff`, `SuperuserAccess.AccessIff`.

The other rows of the table below are the handlers that carry the specifications out, and smaller facts about
single requests.

## What the proofs found

- Closed rows keep their keys. A removed member can never be added to that company again
  (`StoreHistory.RemovalIsFinal`), a role disabled for a company can never be enabled there again
  (`StoreHistory.UnassignIsFinal`), and a deleted account's email can never be registered again
  (`AccountRuns.DeletionIsFinal`).
- Once a default role has been deleted, no company can be created any more
  (`CompanyOutcome.DeletedDefaultStopsCreation`), and each attempt leaves its company row behind. A
  permission that has a name of the catalogue under an id of its own stops creation too while a default role
  is missing, but only until it is renamed or deleted. These two are the only causes
  (`CompanyOutcome.CreationSucceedsIff`), and both occur (`CreationFailures.DeletedViewerStopsCreation`,
  `CreationFailures.TakenNameStopsCreation`).
- Role normalisation takes a global role's closing time from the first row of its name, so one company's
  closed role closes the name for all companies and makes their open memberships unusable
  (`MigratedAccess.ClosedRoleSpreads`). `MigratedAccess.UsableIff` says exactly when that happens for one
  order of the rows. Which row comes first is up to the database: the same legacy database can end either
  way (`ChainOrders.OrderDecides`), and only one without any closed row of a name that an open membership
  uses is safe in every order (`ChainOrders.WorksInEveryOrderIff`).
- Reverting the seeding, or the UUID migration, restores the starting database only under the conditions of
  `SeedMigration.DowngradeRestoresIff` and `IdRoundTrip.RoundTripIsIdentityIff`. Numbering 1..n is not
  enough for the second: users can swap ids when the downgrade reads them in another order
  (`IdRoundTrip.SomeReadChangesIds`).
- The bootstrap writes its target's metadata as it read it. On a database with row locks a login or
  revocation of the target between read and write is overwritten: its session stays current, and with two of
  them the version even goes down (`BootstrapWindow.ChangeEndsSessionsIff`,
  `BootstrapWindow.ChangeLowersVersionIff`, `BootstrapWindow.TwoLoginsAreUndone`). The next login then hands
  out the lost version a second time, so that a token refused since the change works again
  (`BootstrapWindow.ThirdLoginRevives`, `BootstrapWindow.LostVersionReturns`).
- A refresh token that is no longer current still revokes (`AccountRuns.RevokeWorksIff`), and neither a
  password reset nor a profile password change ends any session (`AccountRuns.TokenIsCurrentIff`).
- The three limiters of one check read the clock separately. The pair limiter, redundant otherwise
  (`PairLimiter.PairLimiterIsRedundant`), can refuse whenever the lag between the readings shrinks
  (`PairLimiter.ShrinkingLagRefuses`), for any time less than it has shrunk by
  (`PairLimiter.PairRefusalIsLag`).

## Reading order

`Prelude` and `Users` hold the shared types. In each part the specification module comes first (`Store`,
`CompanyRoles`, `Accounts`, `Bootstrap`), then the class that carries it out, then the theorems. The whole
project can be checked with `dafny verify dfyconfig.toml`.

## Model

| member | source | states |
|---|---|---|
| SlidingWindow.SlidingWindowRateLimiter.Prune | app/utils/rate_limiter.py:34-41 | the loop drops exactly the leading expired entries of the key's deque, removes an emptied key, and leaves every other key alone |
| SlidingWindow.PruneKeepsLiveKeys | app/utils/rate_limiter.py:34-41 | a pruned key stays exactly while one of its times still counts, and then holds the times from the first such one on; other keys are left alone |
| SlidingWindow.SlidingWindowRateLimiter.Hit | app/utils/rate_limiter.py:43-51 | the new dictionary and the verdict, with the retry time, are those of one hit on that key |
| SlidingWindow.SlidingWindowRateLimiter.Reset | app/utils/rate_limiter.py:53-55 | afterwards no key has an entry |
| SlidingWindow.KeysAreIndependent | app/utils/rate_limiter.py:34-55 | after any mix of hits and resets a key's deque depends on the hits of that key and the resets alone |
| SlidingWindow.WindowBound | app/utils/rate_limiter.py:34-51 | if the times used for a key never fall more than d (at most the window W) below the largest used, every closed interval of length W-d holds at most `limit` accepted hits between resets; d = 0 is the exact sliding-window bound |
| SlidingWindow.SkewWeakensWindow | app/utils/rate_limiter.py:44-45 | the bound is tight: for every limit of two or more, every d up to W and every interval longer than W-d, some history that slips back by d puts one accepted hit too many into an interval of that length |
| SlidingWindow.SingleLimitIgnoresSkew | app/utils/rate_limiter.py:43-51 | with a limit of one the clock does not matter: in every history, every closed interval of length W holds at most one accepted hit between resets |
| SlidingWindow.AcceptsByFullHistory | app/utils/rate_limiter.py:43-51 | with a clock that never goes back a hit is accepted exactly when fewer than `limit` accepted hits of its key are at or after now-W |
| SlidingWindow.RejectionLeavesNoTrace | app/utils/rate_limiter.py:46-50 | no later verdict can tell a refused hit from no hit, although the refusal has pruned the deque |
| SlidingWindow.RetryAfterIsExact | app/utils/rate_limiter.py:48-50 | the max with 0 is never needed, and with no other hits a retry is refused up to and including now+retry_after and accepted at every later time |
| CompositeLimiter.PasswordResetRateLimiter.Check | app/utils/rate_limiter.py:67-74 | three hits in order, stopping at the first refusal, each limiter with its own key and clock reading |
| CompositeLimiter.PasswordResetRateLimiter.Reset | app/utils/rate_limiter.py:76-79 | all three limiters are empty afterwards |
| CompositeLimiter.PairKeysAreInjective | app/utils/rate_limiter.py:70 | for emails without a colon equal pair keys mean the same address and the same lower-cased email, whatever the address contains |
| PairLimiter.PairRefusalIsLag | app/utils/rate_limiter.py:43-51 | whatever the three clock readings of a check are, as long as the email limiter's never goes back: a refusal by the pair limiter waits for less than the time by which the lag between the email and the pair reading has shrunk since the oldest live pair entry |
| PairLimiter.PairLimiterIsRedundant | app/utils/rate_limiter.py:67-74 | with colon-free emails and a lag that never shrinks the pair limiter never refuses in any sequence of checks, even though an address refusal has already used an email slot |
| PairLimiter.OneReadingNeverRefuses | app/utils/rate_limiter.py:67-74 | in particular it never refuses if one reading serves all three hits |
| PairLimiter.ShrinkingLagRefuses | app/utils/rate_limiter.py:72-74 | for every colon-free email, every address, all lags with the later one shorter, and every wait below the difference and within the window: a run of six checks, in order, with only these two lags, whose last check the pair limiter refuses with exactly this wait |
| PairLimiter.NoWeakerCondition | app/utils/rate_limiter.py:72-74 | any relation that lets the earlier lag repeat, and whose runs the pair limiter never refuses, lets that lag not be followed by a shorter one: among such relations never shrinking is the weakest |
| PairLimiter.RepeatIsNeeded | app/utils/rate_limiter.py:72-74 | without the repetition this is false: a relation that no three checks satisfy lets a lag shrink, and the pair limiter refuses in none of its runs |
| PairLimiter.ColonMergesPairs | app/utils/rate_limiter.py:70 | a run with one clock reading per check in which the pair limiter refuses because two pairs share a key: an email with a colon, which only a direct caller of `check` can supply |
| CheckVerdicts.VerdictsAreExact | app/utils/rate_limiter.py:60-74 | for clocks that never go back and colon-free emails, the verdict on a check read off the earlier ones: refused by the email limit exactly with 5 recent entries of the same email, else by the address limit exactly with 20 of the same address, else by the pair limit exactly with 5 of both; recent means at most 3600 seconds old, and an entry is what that limiter was asked for and did not refuse |
| CheckVerdicts.RefusedIff | app/utils/rate_limiter.py:67-74 | the same for each limiter by itself, under its own clock |
| CheckVerdicts.RefusedCheckWaits | app/utils/rate_limiter.py:48-50 | a refused check is told to wait until the earliest of these recent checks is 3600 seconds old |
| CheckVerdicts.AllowedPerHour | app/utils/rate_limiter.py:60-74 | every closed interval of 3600 seconds lets at most 20 checks of an address through, and at most 5 of an email |
| CheckVerdicts.SameAddressIff | app/utils/rate_limiter.py:69 | a missing address, an empty one and "unknown" are one address, and no others are |
| SlidingWindow.WaitByFullHistory | app/utils/rate_limiter.py:46-50 | with a clock that never goes back a refusal waits for the oldest accepted hit that is at or after now-W |
| SlidingWindow.NoAllowanceAlwaysFails | app/utils/rate_limiter.py:46-48 | with a limit of zero or less nothing is ever accepted: every hit fails reading an empty deque |
| CompanyRoleRepository.RoleRepository.CreateRole | app/repository/company_role.py:151-178 | commits the new role, or nothing if an open role has the name or a closed one owns it |
| CompanyRoleRepository.RoleRepository.UpdateRole | app/repository/company_role.py:180-208 | renames and redescribes an open role, or rolls back on a name clash |
| CompanyRoleRepository.RoleRepository.UpdateCompanyRole | app/repository/company_role.py:407-431 | the same edit of the shared role row, reached through the name of a role enabled for the company |
| CompanyRoleRepository.RoleRepository.DeleteRole | app/repository/company_role.py:245-302 | closes a role nobody active holds and deletes its links, grants and platform assignments in one commit; refused otherwise with nothing changed |
| CompanyRoleRepository.CompanyRoleAssignmentRepository.AssignRole | app/repository/company_role.py:433-453 | enables an open role for the company unless a row exists; a closed row is a refused insert |
| CompanyRoleRepository.CompanyRoleAssignmentRepository.AssignRoleToCompanies | app/repository/company_role.py:455-475 | the companies before the first blocked one (missing, or with a closed row for the role) get the role, each in a commit of its own; the list reported is the first occurrences, in order, of those that lacked it, and it is reported exactly if none is blocked |
| CompanyRoles.AssignEachMeans | app/repository/company_role.py:461-475 | the recursion over the list equals this description for every store and list |
| CompanyRoles.AssignToCompaniesIff | app/repository/company_role.py:455-475 | the request succeeds exactly if the role is open and every listed company exists and has no closed row for it, and then exactly the listed companies have gained the role |
| CompanyRoles.NewCompaniesAre | app/repository/company_role.py:462-474 | the reported list has no repeats and holds exactly the listed companies that lacked the role |
| CompanyRoleRepository.CompanyRoleAssignmentRepository.UnassignRole | app/repository/company_role.py:477-506 | closes an assignment that no active member uses and deletes the company's grants to the role |
| CompanyRoleRepository.CompanyRoleAssignmentRepository.ReassignAndDeleteRole | app/repository/company_role.py:508-574 | moves, disables, deletes grants and reports the count; the late failure branch is proved unreachable |
| CompanyRoleRepository.CompanyRoleService.DeleteRole | app/models/company/roles.py:35-43 | a default role name is refused by the request's validator before the repository is asked |
| CompanyRoleRepository.CompanyRoleAssignmentRepository.MoveAll | app/repository/company_role.py:533-545 | the reassignment loop, in any order, moves exactly the active holders and counts them |
| MemberRepository.CompanyUserRepository.AddUserToCompany | app/repository/company_user.py:85-123 | adds an active membership with the company's enabled role of that name; every refusal, a closed row included, leaves the store unchanged |
| MemberRepository.CompanyUserRepository.RemoveUserFromCompany | app/repository/company_user.py:125-161 | closes the membership, except for non-members and administrators acting on themselves |
| MemberRepository.CompanyUserService.RemoveUserFromCompany | app/services/company/user.py:111-134 | an owner is refused before the repository is asked |
| MemberRepository.CompanyUserRepository.UpdateUserRole | app/repository/company_user.py:163-197 | changes the role of an active membership to an enabled role |
| PermissionRepository.GlobalPermissionRepository.CreatePermission | app/repository/permission.py:91-111 | inserts a global permission, rolling back on any name clash |
| PermissionRepository.GlobalPermissionRepository.UpdatePermission | app/repository/permission.py:142-171 | edits a permission; a catalogue entry keeps its name |
| PermissionRepository.GlobalPermissionRepository.DeletePermission | app/repository/permission.py:173-185 | deletes a permission that is not in the catalogue, with its role links |
| PermissionRepository.SystemPermissionRepository.EnsurePermissions | app/repository/permission.py:192-217 | the loop leaves the rows of the whole catalogue in place, or fails on a conflict and adds nothing |
| PermissionRepository.SystemPermissionRepository.ResolveDefinition | app/repository/permission.py:240-258 | existing row, missing row or conflict, from the rows that match the id or the name |
| PermissionRepository.CompanyPermissionRepository.CreatePermission | app/repository/permission.py:304-326 | inserts a company permission, rolling back on a clash inside the company |
| PermissionRepository.CompanyPermissionRepository.UpdatePermission | app/repository/permission.py:361-381 | edits a permission of this company only |
| PermissionRepository.CompanyPermissionRepository.DeletePermission | app/repository/permission.py:383-391 | deletes a company permission and its grants |
| PermissionRepository.RolePermissionRepository.AssignGlobalPermission | app/repository/permission.py:533-559 | links an open role to an open permission once |
| PermissionRepository.RolePermissionRepository.RemoveGlobalPermission | app/repository/permission.py:561-580 | removes exactly that link |
| PermissionRepository.RolePermissionRepository.AssignCompanyPermission | app/repository/permission.py:582-623 | grants a permission of the company to a role enabled there |
| PermissionRepository.RolePermissionRepository.RemoveCompanyPermission | app/repository/permission.py:625-652 | removes exactly that grant |
| PermissionRepository.PlatformRoleRepository.AssignRole | app/repository/permission.py:699-714 | gives an open role to an active user once |
| PermissionRepository.PlatformRoleRepository.RemoveRole | app/repository/permission.py:716-730 | removes exactly that assignment |
| CompanyRepository.CompanyRepository.EnsureDefaultRoles | app/repository/company.py:61-91 | the loop over the default roles followed by seeding ends in one commit of the specified tables, or fails without one |
| CompanyRepository.CompanyRepository.FillDefaults | app/repository/company.py:62-83 | the loop leaves in `default_roles`, `created_role_names` and the role table what the recursive specification of the set-up says, or reports its refusal; DefaultRoles.SetUpRoles and DefaultsFailIff say what that means |
| CompanyRepository.CompanyRepository.SeedNewDefaultRoles | app/repository/permission.py:219-238 | links exactly the newly created roles to the catalogue entries that name them |
| CompanyRepository.CompanyRepository.CreateCompany | app/repository/company.py:93-138 | four separate commits, company, roles, enabling and owner, each as specified; a failure keeps the earlier ones |
| CompanyRepository.CompanyRepository.DeleteCompany | app/repository/company.py:180-188 | closes the company row and nothing else |
| StoreInvariant.DeleteRoleKeeps | app/repository/company_role.py:245-302 | deleting a role keeps the invariant: no membership, link, grant or platform row is left on it |
| StoreInvariant.ReplaceRoleKeeps | app/repository/company_role.py:508-574 | replacing a role keeps the invariant |
| StoreInvariant.AddMemberKeeps | app/repository/company_user.py:85-123 | adding a member keeps the invariant |
| CompanyCreation.CreateCompanyKeeps | app/repository/company.py:93-138 | the invariant holds at every commit inside company creation, also when a later part fails |
| Service.EveryCommitSatisfiesInv | app/repository/company_role.py:245-574 | in every state that any run from the empty store commits: an active membership names an open role enabled for its company, a grant names an enabled company role, an open role and that company's own permission, links and platform rows name open roles, and keys and foreign keys hold |
| StoreHistory.RunFollows | app/repository/company_user.py:111-117 | over any run no row of roles, companies, enablings or memberships is dropped, a closed one never reopens, and a complete catalogue stays complete |
| StoreHistory.RemovalIsFinal | app/repository/company_user.py:148-152 | a removed member is never active in that company again and never regains a permission there: the closed row blocks a new one |
| StoreHistory.AssignRoleIff | app/repository/company_role.py:433-442 | enabling succeeds exactly if role and company exist, the role is open, and no row, open or closed, links them |
| StoreHistory.UnassignIsFinal | app/repository/company_role.py:433-506 | after a role has been disabled for a company, whatever requests follow, it is never enabled there again and every request to do so is refused |
| StoreHistory.CatalogueIsProtected | app/repository/permission.py:142-187 | with a complete catalogue no run of requests renames or removes an entry or gives its name to another row |
| DefaultRoles.SetUpRoles | app/repository/company.py:64-83 | after set-up every default name has an open role with its catalogue description; roles that were there keep name and closing state |
| DefaultRoles.SetUpLinks | app/repository/permission.py:219-238 | a role created by the set-up has exactly its catalogue permissions; no earlier role gains or loses a link |
| DefaultRoles.SecondSetUpAddsNothing | app/repository/company.py:61-91 | a second set-up, with any other identifiers, commits the same state again |
| DefaultRoles.DefaultsFailIff | app/repository/company.py:64-80 | with fresh identifiers the set-up of the role rows fails exactly when a deleted role owns a default name |
| CompanyCreation.BurntDefaultStrandsCompany | app/repository/company.py:103-120 | if a deleted role owns a default name, creation fails after its first commit: the company row is left behind without roles or members, and the next attempt with its email is refused |
| CompanyOutcome.DeletionBurnsName | app/repository/company_role.py:286-288 | deleting a role leaves its name with a closed row |
| CompanyOutcome.DeletedDefaultStopsCreation | app/repository/company.py:64-80 | once a default role has been deleted, every creation of a company is refused, after any run of requests and with any identifiers |
| CompanyOutcome.OnlyNamesConflict | app/repository/permission.py:240-258 | in a reachable state the catalogue can be completed exactly if no other row has one of its names: a catalogue id always carries its own name |
| CompanyOutcome.SetUpSucceedsIff | app/repository/company.py:61-91 | the set-up succeeds exactly if no deleted role owns a default name, and either nothing has to be created or no other permission has a catalogue name |
| CompanyOutcome.CreationSucceedsIff | app/repository/company.py:93-138 | given that the row can be inserted and the creator is known, creation succeeds exactly under that condition; otherwise the inserted row stays behind alone |
| CreationEffect.CreatedCompany | app/repository/company.py:93-138 | a creation that succeeds makes four commits; afterwards the user with the creator's email is the only member, active, with an open role named "Owner" that is enabled there; open roles of exactly the default names are enabled; and members, enablings, grants, company permissions and older roles and links of everybody else are as before |
| CreationEffect.OwnerMayUse | app/repository/company.py:93-138 | where no role was named "Owner" before, the creator may then use every permission whose catalogue entry names owners |
| CreationEffect.FounderMayUseEverything | app/models/system_permissions.py:30-143 | with the shipped catalogue these are all sixteen permissions |
| CreationFailures.DeletedViewerStopsCreation | app/repository/company.py:93-138 | a run from the empty store with the shipped catalogue: a role "Viewer" is created and deleted, and from then on creation is refused with its company row left behind |
| CreationFailures.TakenNameStopsCreation | app/repository/company.py:93-138 | a second run: a permission named "company.read" stops the creation of the first company in the same way, and deleting that permission lets it succeed |
| Permissions.EnsuredOutcome | app/repository/permission.py:192-258 | the loop over the catalogue fails exactly when the starting table holds a conflicting id or name, and otherwise adds exactly the missing rows |
| Permissions.ResolveMeans | app/repository/permission.py:240-258 | the resolution reads as: right row there, row missing, or id or name in use by another row |
| EffectivePermissions.ListingIsUnique | app/repository/permission.py:65-66 | two strictly sorted lists with the same permissions are the same list |
| EffectivePermissions.ListingsAgree | app/repository/permission.py:454-497 | whatever the order of rows and pairs, two lookups of the same permissions give the same list |
| EffectivePermissions.NoForeignPermissions | app/repository/permission.py:464-491 | a company permission in a pair's listing belongs to that company and is granted to that role there |
| PermissionListing.PermissionList.SortInPlace | app/repository/permission.py:65-66 | sorts the list object in place into the unique listing of its contents |
| PermissionListing.PermissionReader.GlobalPermissionsByRoleIds | app/repository/permission.py:428-452 | one fresh list object per role that has permissions: their strictly sorted listing |
| PermissionListing.PermissionReader.EffectivePermissionsByAssignments | app/repository/permission.py:454-497 | one fresh list object per pair, with repeats and in any order of the request, no two pairs sharing an object: the strictly sorted listing of the pair's effective permissions |
| Authorization.JoinIsSimpleTest | app/services/company/authorization.py:31-65 | under the invariant the six-table join has a row exactly when the user is an active member of the open company and the role is linked to the permission |
| Authorization.CompanyReader.GetUserCompanies | app/repository/company.py:190-248 | the open companies in which the user is active, each with the role and the sorted effective permissions |
| Authorization.CheckMatchesListing | app/services/company/authorization.py:23-70 | the check accepts a non-superuser for a catalogue permission exactly when the user's company listing shows that id with global scope for the company |
| Authorization.CompanyAuthorizationService.RequirePermission | app/services/company/authorization.py:24-68 | the check of a request: the superuser flag of the user's own row first, the join only without it |
| Authorization.RequireNeedsSixRows | app/services/company/authorization.py:31-65 | in any database, consistent or not, a user without the flag is accepted exactly if the six rows given by the user, the company and the permission are there and open: a closed membership, company, role, enabling, link or permission refuses |
| Authorization.RequireIff | app/services/company/authorization.py:24-68 | in every state of the service the check accepts exactly superusers and active members of the open company whose role is linked to the permission |
| SuperuserAccess.AccessIff | app/services/company/authorization.py:28-29 | in every state of every bootstrap run a user is accepted for a company and a permission exactly if the log names that user or the role test admits it |
| SuperuserAccess.ChangeOpensEverything | app/services/superuser_bootstrap.py:149-165 | after a reported change the promoted user is accepted for every company and permission, everybody else exactly by role |
| ListingOrder.EffectiveIs | app/repository/permission.py:428-497 | a role carries in a company exactly its linked global permissions and that company's grants to it, each with its name, description, scope and owning company |
| ListingOrder.EffectiveRows | app/repository/permission.py:428-497 | the same for any database: a closed link, grant or permission, or a grant of another company's permission, is not listed |
| ListingOrder.ListingIsOrdered | app/repository/permission.py:65-68 | in a listing company permissions come before global ones, each part ordered by name, then by id |
| ListingOrder.TextLeIs | app/repository/permission.py:65-68 | text is ordered by the first character that differs, and a prefix comes first |
| StoreLaws.CompaniesAreIsolated | app/repository/permission.py:304-391 | a member, role-assignment or permission request about one company, or an assignment of a role to a list of them (app/repository/company_role.py), leaves every other company's effective permissions and authorisation answers as they were, at each commit |
| StoreLaws.UpdateCompanyRoleEffect | app/repository/company_role.py:407-424 | editing a role through one company changes no company's effective permissions; what changes, for every company that has the role, is the name it is found by |
| StoreLaws.UpdateCompanyRoleKeepsAnswers | app/repository/company_role.py:407-424 | nor does it change any authorisation answer |
| StoreLaws.PlatformRolesDoNotReachCompanies | app/repository/permission.py:699-730 | platform assignments change no company authorisation answer and no effective permission |
| StoreLaws.ReplaceRoleRefusedIff | app/models/company/roles.py:35-43 | a replacement is refused, with nothing committed, exactly for a default role (these lines), or for equal names or a name that no enabled open role has (app/repository/company_role.py, lines 508 to 531) |
| StoreLaws.ReplaceRoleEffect | app/repository/company_role.py:533-574 | the active members stay, exactly the holders move, their number is reported, and no active member, grant or enabling is left on the old role |
| StoreLaws.AddMemberIff | app/repository/company_user.py:85-117 | adding a known user with an enabled role succeeds exactly when no row, even a closed one, links user and company |
| StoreLaws.AddMemberEffect | app/repository/company_user.py:111-117 | the new member may use exactly what the role is linked to; no other user or company is affected |
| StoreLaws.RemoveMemberEffect | app/repository/company_user.py:148-152 | the removed member may use nothing there; everybody else's access is unchanged |
| StoreLaws.RemoveMemberRefusedIff | app/services/company/user.py:120-134 | removal is refused exactly for owners (these lines), non-members, and administrators acting on themselves (app/repository/company_user.py, lines 128 to 146) |
| StoreLaws.UpdateMemberRoleEffect | app/repository/company_user.py:163-189 | after a role change the member may use exactly what the new role is linked to; nobody else is affected |
| StoreLaws.DeleteCompanyEffect | app/repository/company.py:180-188 | closing a company ends all access there and none elsewhere |
| StoreLaws.DeleteRoleTakesNoAccess | app/repository/company_role.py:245-288 | deleting a role never takes access from anyone: it is refused while an active member holds it |
| StoreLaws.UnassignTakesNoAccess | app/repository/company_role.py:477-506 | disabling a role for a company never takes access from anyone, and no row that the check joins for an active member changes |
| StoreLaws.DeletePermissionTakesNoAccess | app/repository/permission.py:173-185 | deleting a permission changes no authorisation answer about a catalogue permission |
| StoreLaws.AssignGlobalEffect | app/repository/permission.py:533-559 | a link adds one permission to the role in every company and changes no other role |
| StoreLaws.AssignCompanyEffect | app/repository/permission.py:582-623 | a grant adds one permission to one role of one company and nothing anywhere else |
| StoreLaws.GlobalAssignmentRoundTrip | app/repository/permission.py:533-580 | assign then remove, and remove then assign, restore the store |
| StoreLaws.CompanyAssignmentRoundTrip | app/repository/permission.py:582-652 | the same for company grants |
| StoreLaws.PlatformAssignmentRoundTrip | app/repository/permission.py:699-730 | the same for platform roles |
| SystemPolicy.PolicyIsValid | app/models/system_permissions.py:11-143 | the sixteen shipped entries have distinct ids and names, and the default roles distinct names |
| SystemPolicy.DefaultsGet | app/models/system_permissions.py:30-143 | of the sixteen entries owners get all, administrators all but the deletion of a company, viewers exactly the reading of a company and of its members, and nobody else any |
| StoreOutcomes.RoleIsEdited | app/repository/company_role.py:180-208 | an edit of an open role succeeds exactly if a new non-empty name is free, and writes exactly the given fields of that row |
| StoreOutcomes.RoleIsDeleted | app/repository/company_role.py:210-303 | a role is deleted exactly if it is open and neither an active member nor an open account with a platform assignment holds it; exactly its links, grants and platform assignments go with it |
| StoreOutcomes.RoleIsUnassigned | app/repository/company_role.py:477-506 | a role is disabled exactly if it is enabled and no active member of that company holds it; exactly the company's grants to it go with it |
| StoreOutcomes.MemberIsAdded | app/repository/company_user.py:85-123 | a new membership is an open row with the role of that name; an active row and a closed one are told apart |
| StoreOutcomes.MemberIsRemoved | app/repository/company_user.py:125-161 | a removal closes the row and keeps its role, except for owners and for administrators who act on themselves |
| StoreOutcomes.GlobalPermissionIsEdited | app/repository/permission.py:142-171 | an edit is refused exactly for a new name of a catalogue row or one already taken, and else writes exactly the given fields |
| StoreOutcomes.CompanyPermissionIsEdited | app/repository/permission.py:361-381 | the same for a company's own permission, whose name must be free within the company |
| StoreOutcomes.PlatformAnswers | app/repository/permission.py:659-730 | platform roles are given to and taken from open accounts with the status "Active" only |
| SeedMigration.Migration.SeedPermission | alembic/versions/c9f4a6b8d210_seed_default_api_permissions.py:140-171 | one catalogue row: kept, inserted, or the error of a conflicting id or name |
| SeedMigration.Migration.SeedLinks | alembic/versions/c9f4a6b8d210_seed_default_api_permissions.py:173-200 | the inner loop links the entry to exactly the open default roles that lack it |
| SeedMigration.Migration.Upgrade | alembic/versions/c9f4a6b8d210_seed_default_api_permissions.py:135-200 | the nested loops commit the specified database or fail and commit nothing |
| SeedMigration.Migration.Downgrade | alembic/versions/c9f4a6b8d210_seed_default_api_permissions.py:203-214 | removes every catalogue row and every link to one |
| SeedMigration.UpgradeFailsIff | alembic/versions/c9f4a6b8d210_seed_default_api_permissions.py:150-155 | the upgrade fails exactly when the starting database holds a conflicting id or name |
| SeedMigration.UpgradeCompletes | alembic/versions/c9f4a6b8d210_seed_default_api_permissions.py:156-200 | afterwards the catalogue is complete and a default role is linked to an entry exactly as the catalogue says or as it was before |
| SeedMigration.UpgradeIsIdempotent | alembic/versions/c9f4a6b8d210_seed_default_api_permissions.py:135-200 | upgrading an upgraded database changes nothing |
| SeedMigration.DowngradeRestoresIff | alembic/versions/c9f4a6b8d210_seed_default_api_permissions.py:203-214 | downgrade after upgrade restores the starting database exactly when it held no catalogue row and no link to one |
| LevelMigration.Upgrade | alembic/versions/9552b9fc884a_add_new_table.py:34-55 | the added roles, in any order, are exactly the missing (company, level-or-Member) keys, and every membership names its level |
| LevelMigration.UpgradeIsSound | alembic/versions/9552b9fc884a_add_new_table.py:27-61 | a well-formed database stays well-formed, every membership finds its role, and user email, company email and role name of each membership are kept; the old roles stay first, and the added ones are open, undescribed and of missing keys only |
| LevelMigration.Downgrade | alembic/versions/9552b9fc884a_add_new_table.py:126-142 | every level is the role name again, the roles stay |
| LevelMigration.UpgradeUndoesDowngrade | alembic/versions/9552b9fc884a_add_new_table.py:27-142 | upgrading what a downgrade left gives back the same database |
| RowOrder.OrderOf | alembic/versions/4f9d2f8f6c13_migrate_user_and_company_ids_to_uuid.py:173-176 | reading without an order is reading by some list of all places, each once |
| MigrationReads.ReadKeeps | alembic/versions/4f9d2f8f6c13_migrate_user_and_company_ids_to_uuid.py:173-176 | whatever order the rows are read in, keys stay unique, references resolve, and the email-level view has the same rows |
| IdMigration.BuildMap | alembic/versions/4f9d2f8f6c13_migrate_user_and_company_ids_to_uuid.py:178-184 | the id dictionary after the loop |
| IdMigration.MoveAll | alembic/versions/4f9d2f8f6c13_migrate_user_and_company_ids_to_uuid.py:186-247 | rows rewritten through the maps; it fails exactly when an id has no entry (the lookup error) or a membership's new company and role name are no row of the new role table (its composite foreign key) |
| IdMigration.Upgrade | alembic/versions/4f9d2f8f6c13_migrate_user_and_company_ids_to_uuid.py:178-247 | succeeds exactly under these conditions, and gives the database renamed to the drawn UUIDs |
| IdMigration.UpgradeSucceedsIff | alembic/versions/4f9d2f8f6c13_migrate_user_and_company_ids_to_uuid.py:110-141 | with unique company ids and fresh UUIDs these conditions are that every old foreign key resolves, the composite one from membership to role included |
| IdMigration.Downgrade | alembic/versions/4f9d2f8f6c13_migrate_user_and_company_ids_to_uuid.py:382-448 | succeeds exactly under these conditions, and gives the database renamed to row numbers |
| IdMigration.DowngradeSucceedsIff | alembic/versions/4f9d2f8f6c13_migrate_user_and_company_ids_to_uuid.py:337-364 | the same for the row numbers of the downgrade |
| IdMigration.UpgradeIsIsomorphism | alembic/versions/4f9d2f8f6c13_migrate_user_and_company_ids_to_uuid.py:178-247 | with fresh UUIDs keys stay unique, foreign keys resolve, and the email-level view of memberships and roles is unchanged |
| IdMigration.DowngradeIsIsomorphism | alembic/versions/4f9d2f8f6c13_migrate_user_and_company_ids_to_uuid.py:382-448 | the same for the downgrade |
| IdMigration.DowngradeNumbersRows | alembic/versions/4f9d2f8f6c13_migrate_user_and_company_ids_to_uuid.py:382-385 | the downgraded ids are exactly 1..n in the order in which the rows were read |
| IdRoundTrip.RoundTripKeepsFacts | alembic/versions/4f9d2f8f6c13_migrate_user_and_company_ids_to_uuid.py:173-448 | whatever order the two reads give, upgrade followed by downgrade keeps keys, references and the rows of the email-level view, and yields ids 1..n |
| IdRoundTrip.RoundTripIsIdentityIff | alembic/versions/4f9d2f8f6c13_migrate_user_and_company_ids_to_uuid.py:173-448 | with unique emails, as the schema declares them (lines 65 and 91), the same rows come back exactly if the ids were 1..n and the downgrade reads users and companies in the order of these numbers |
| IdRoundTrip.SomeReadChangesIds | alembic/versions/4f9d2f8f6c13_migrate_user_and_company_ids_to_uuid.py:377-385 | with two users or more, some order of that read gives ids to other rows, whatever the ids were |
| RoleMigration.MoveRoles | alembic/versions/a4e8c1b7d2f9_normalize_roles_to_global_catalog.py:117-162 | the loop over role rows: the catalogue, the company rows and the key dictionary are those of the recursive specification; it is refused exactly if a role belongs to no company |
| RoleMigration.MoveMembers | alembic/versions/a4e8c1b7d2f9_normalize_roles_to_global_catalog.py:164-182 | the loop over memberships; it fails exactly when a membership's (company, role name) is no role row (the lookup error) or its user or company does not exist (the foreign keys) |
| RoleMigration.UpgradeSchema | alembic/versions/a4e8c1b7d2f9_normalize_roles_to_global_catalog.py:43-50 | a schema that is normalised already is left as it is; otherwise the migration runs |
| RoleMigration.Upgrade | alembic/versions/a4e8c1b7d2f9_normalize_roles_to_global_catalog.py:114-182 | succeeds exactly when every foreign key of roles and memberships resolves, and then normalises the database |
| RoleMigration.CatalogueIsKeyed | alembic/versions/a4e8c1b7d2f9_normalize_roles_to_global_catalog.py:121-138 | one catalogue row per distinct name, with distinct ids, and each id leads back to its name |
| RoleMigration.CatalogueDescribes | alembic/versions/a4e8c1b7d2f9_normalize_roles_to_global_catalog.py:139-147 | a row's description is the first non-null one of its name in row order, null only if all are |
| RoleMigration.FirstRestIs | alembic/versions/a4e8c1b7d2f9_normalize_roles_to_global_catalog.py:128-138 | the other columns of a catalogue row are those of the first row of the name |
| MigratedAccess.UsableIff | alembic/versions/a4e8c1b7d2f9_normalize_roles_to_global_catalog.py:128-182 | an open membership names an open catalogue role and an open company_role row exactly if the first old row of the role's name, in whichever company, and its own company's row are open |
| MigratedAccess.MembersUsableIff | alembic/versions/a4e8c1b7d2f9_normalize_roles_to_global_catalog.py:117-182 | all open memberships are usable exactly if that holds for each of them |
| MigratedAccess.ClosedRoleSpreads | alembic/versions/a4e8c1b7d2f9_normalize_roles_to_global_catalog.py:128-138 | a well-formed database of two companies in which the first company's closed role makes the second company's open membership unusable |
| MigratedStore.MembersOkIff | alembic/versions/a4e8c1b7d2f9_normalize_roles_to_global_catalog.py:117-182 | the running service's membership invariant holds of the migrated tables exactly if every open membership is usable |
| RoleMigration.JoinIsOldKeys | alembic/versions/a4e8c1b7d2f9_normalize_roles_to_global_catalog.py:149-162 | joining company_role with role gives back the old (company, name) keys row by row, so none is lost or added |
| RoleMigration.FactsSurvive | alembic/versions/a4e8c1b7d2f9_normalize_roles_to_global_catalog.py:164-182 | user email, company email and role name of every membership are unchanged, row by row |
| RoleMigration.MembersKeepTheirRoles | alembic/versions/a4e8c1b7d2f9_normalize_roles_to_global_catalog.py:149-182 | every membership's role is one its company has |
| RoleMigration.KeysStayUnique | alembic/versions/a4e8c1b7d2f9_normalize_roles_to_global_catalog.py:120-182 | role ids and names, (company, role) keys and (user, company) keys are unique, so no insert is refused |
| MigrationChain.UpgradeAll | alembic/versions/a4e8c1b7d2f9_normalize_roles_to_global_catalog.py:114-182 | for every well-formed legacy database, and whatever order each migration reads the rows in, the three migrations in a row succeed and give exactly one membership per legacy one, with the same user and company emails, the role named by its level or Member, a company_role row for it and the old columns; the service's membership invariant then holds exactly if every open membership's first row, as read last, and own row are open |
| MigrationChain.ChainKeeps | alembic/versions/a4e8c1b7d2f9_normalize_roles_to_global_catalog.py:117-182 | the same of every chain of reads and migrations at once, as a statement about the steps |
| ChainOrders.WorksInEveryOrderIff | alembic/versions/a4e8c1b7d2f9_normalize_roles_to_global_catalog.py:117-182 | every open membership works after every possible chain of reads exactly if, for each open legacy membership, every role row of its name is open, in whichever company |
| ChainOrders.InOrderUsableIff | alembic/versions/a4e8c1b7d2f9_normalize_roles_to_global_catalog.py:117-182 | if every table is read in its stored order, a weaker condition suffices: the first row of the name and the company's own row |
| ChainOrders.OrderDecides | alembic/versions/a4e8c1b7d2f9_normalize_roles_to_global_catalog.py:117-138 | a database of two companies on which one order of the rows leaves the open membership usable and another does not |
| UserRepository.UserRepository.UpdateJsonField | app/repository/base.py:48-70 | writes one metadata key of one row, commits, and changes nothing else |
| UserRepository.UserRepository.CreateUser | app/repository/user.py:86-114 | two commits, row then status; an email in use, even by a closed account, leaves nothing behind |
| UserRepository.UserRepository.CheckPassword | app/repository/user.py:63-79 | wrong passwords are refused; a legacy one that matches is hashed and committed |
| UserRepository.UserRepository.GetRefreshTokenVersion | app/repository/user.py:141-154 | the stored version of an open account, 0 if missing or not a number |
| UserRepository.UserRepository.IncrementRefreshTokenVersion | app/repository/user.py:156-174 | the version goes up by one in one commit |
| UserRepository.UserRepository.DeleteUser | app/repository/user.py:176-183 | closes the row and nothing else |
| UserRepository.UserRepository.FindByResetToken | app/repository/user.py:185-200 | the scan returns the first holder in row order |
| UserRepository.UserRepository.CreatePasswordResetRecord | app/repository/user_password.py:45-63 | the record replaces the one that was pending |
| UserRepository.UserRepository.VerifyPasswordResetToken | app/repository/user_password.py:65-84 | method and token match and the expiry is strictly later than now |
| UserRepository.UserRepository.SpendPasswordReset | app/repository/user_password.py:86-96 | verified: password set and record dropped in one commit, other metadata kept |
| AccountService.AccountService.Register | app/services/user/basic_auth.py:141-166 | an empty password fails before anything else; otherwise the row and its first status, verified or pending by configuration, are committed one after the other |
| AccountService.AccountService.Login | app/services/user/basic_auth.py:111-120 | on success one version step, preceded by the commit of a rehashed legacy password, which stays even when the status then refuses; every other failure commits nothing |
| AccountService.AccountService.Refresh | app/services/user/basic_auth.py:122-134 | a signed refresh token of an open, allowed account with the current version is answered with the same version; nothing is committed in any case |
| AccountService.AccountService.Revoke | app/services/user/basic_auth.py:136-139 | a signed refresh token of an open account advances the version by one; its own version is not compared |
| AccountService.AccountService.CurrentUser | app/api/security/jwt.py:206-241 | the current user of an access token, or the failure |
| AccountService.AccountService.VerifyAccount | app/services/user/verification.py:34-73 | a pending account becomes active; other statuses are left alone |
| AccountService.AccountService.RequestPasswordReset | app/services/user/password.py:81-193 | configuration check, then the limiter for this email and client address, then the account: which of them is consulted, what each leaves behind, and the stored record |
| AccountService.AccountService.ValidateOtpAndChangePassword | app/services/user/password.py:195-225 | the code is checked against the record of the open account of that email; on success password and record change in one commit |
| AccountService.AccountService.ResetPasswordWithToken | app/services/user/password.py:227-265 | the first open holder in row order is found, verified again by email, and its record spent in one commit |
| AccountService.AccountService.UpdateProfile | app/services/user/profile.py:42-62 | a non-empty new password is hashed; a request without any field, or for a closed account, is refused; the pending reset record and the version stay |
| Accounts.EachWriterKeepsToItsKey | app/repository/base.py:48-70 | any request changes a row only as its outcome says: version, reset record, status, life, superuser flag and password each have their own writers, and all other metadata stays |
| Accounts.EveryCommitKeepsRows | app/repository/user.py:86-114 | no request drops a row or breaks email uniqueness, at any of its commits |
| Accounts.RegisterWorksIff | app/repository/user.py:86-114 | registration succeeds exactly for a non-empty password, an unused id and an email no row has, even a closed one |
| Accounts.LoginWorksIff | app/services/user/basic_auth.py:111-120 | login succeeds exactly for an open account, the right password and an allowed status, and hands out the next version |
| AccountOutcomes.RightPasswordLogsIn | app/services/user/basic_auth.py:33-42 | with the right password an account logs in exactly if its status is "Active", or "Awaiting Verification" where no verification is required: the next version is then stored; any other status, or none, is forbidden and stores no version |
| AccountOutcomes.RefreshAnswers | app/api/security/jwt.py:113-196 | a refresh writes nothing and answers by signature, type, account, these statuses and version, in this order |
| AccountOutcomes.AuthenticationAnswers | app/api/security/jwt.py:198-241 | the authentication of a request answers by signature, type, account, version and these statuses, in this order |
| AccountOutcomes.VerificationAnswers | app/services/user/verification.py:34-73 | a link activates an account that waits for verification, tells an active one so, and is forbidden for any other status |
| AccountOutcomes.ProfilePasswordLogsIn | app/services/user/profile.py:42-62 | after a profile update with a password exactly that password passes the login's test |
| AccountOutcomes.RegistrationAnswers | app/services/user/basic_auth.py:141-166 | the two commits of a registration, and why one fails: an empty password first, then a taken email, closed accounts included |
| AccountOutcomes.ResetRequestAnswers | app/services/user/password.py:81-193 | for an open account: configuration, limit, then the record with its expiry |
| AccountOutcomes.LinkAnswers | app/services/user/password.py:227-265 | a link changes the password exactly if the holder's record is for links, has this token and has not expired |
| Accounts.RightPasswordIsHashed | app/repository/user.py:63-73 | the right password leaves a hash behind even when the status then refuses the login |
| Accounts.RequestIssuesIff | app/services/user/password.py:99-142 | a reset record is issued exactly for an open account, within the limits, and for a link only when the frontend address is configured |
| AccountRuns.VersionsNeverDecrease | app/repository/user.py:156-174 | over any run of whole requests, the bootstrap among them, a user's version grows by exactly the number of logins, revocations and bootstraps of that user |
| AccountRuns.TokenIsCurrentIff | app/api/security/jwt.py:181-196 | over runs of whole requests an issued token's version is the current one exactly while no login, revocation or bootstrap of its user has happened since; a password reset is none of these |
| AccountRuns.TokenWorksIff | app/api/security/jwt.py:181-241 | an issued access or refresh token is accepted exactly while no such event has happened, the account is open and its status is allowed |
| AccountOutcomes.TokenWorksByStatus | app/api/security/jwt.py:20-24 | the same with the two admitted statuses written out |
| AccountRuns.RevokeWorksIff | app/services/user/basic_auth.py:136-139 | any refresh token of an open account revokes, whatever its version, and the version goes up by one |
| AccountRuns.SessionStartsAtLogin | app/services/user/basic_auth.py:111-134 | if only tokens handed out are presented, every chain of refreshes starts at one login of the same user and version |
| AccountRuns.AuthenticatedMeansLoggedIn | app/api/security/jwt.py:206-241 | whoever is authenticated logged in, and nothing has advanced that user's version since |
| AccountRuns.DeletionIsFinal | app/repository/user.py:176-183 | a deleted account's tokens fail for ever and its email can neither log in nor register again |
| ResetRuns.OtpResetWorksIff | app/services/user/password.py:195-225 | a code works for a user exactly if it is the unexpired record of that open account |
| ResetRuns.ScanFindsTheHolder | app/repository/user.py:185-200 | when no token has two holders the scan finds the holder in whatever order the rows come |
| ResetRuns.MagicResetWorksIff | app/services/user/password.py:227-265 | a link token works for a user exactly if it is the unexpired record of that open account |
| ResetRuns.PendingIsLatestIssue | app/repository/user_password.py:45-63 | a pending record is the user's latest issue, with no reset since |
| ResetRuns.TokensHaveOneHolder | app/repository/user.py:185-200 | if tokens are never drawn twice, no state of a run has two holders of one token |
| ResetRuns.ResetFollowsIssue | app/services/user/password.py:195-265 | every reset was preceded by an issue to the same user, of the same method and token, the latest of that user, and happens strictly before its expiry |
| ResetRuns.IssuedTokenResets | app/services/user/password.py:195-265 | the converse: while the issued record is neither replaced nor spent, the account is open and the expiry has not passed, presenting the token by its method, a code with the account's email or a link with the account among the scanned rows, resets the password and stores the new one |
| ResetRuns.ResetTokenWorksOnce | app/repository/user_password.py:86-96 | no two resets of a run use the same token |
| ResetRuns.ResetServesItsUser | app/repository/user_password.py:65-96 | a token resets the password of the user it was issued to and of nobody else |
| ResetRuns.ResetThenLogin | app/services/user/password.py:195-225 | after a reset the new password logs in, if the status allows any login |
| ResetRuns.RegisterThenLogin | app/services/user/basic_auth.py:141-166 | a registered account logs in at once, or after verification where that is required |
| AccountLaws.AccountCommitsKeepInv | app/repository/user.py:86-183 | every commit of every account request keeps the invariant of the whole store |
| AccountLaws.AccountRequestsAreEnvironment | app/repository/user.py:86-183 | no account request other than the bootstrap sets or clears a superuser flag |
| Bootstrap.SuperuserBootstrapService.Bootstrap | app/services/superuser_bootstrap.py:106-173 | committed tables and result of an undisturbed attempt, every refusal rolled back |
| Bootstrap.SuperuserBootstrapService.GetTarget | app/services/superuser_bootstrap.py:49-69 | the one open active account of the trimmed, lower-cased email, or the reason why there is none |
| Bootstrap.SuperuserBootstrapService.ValidateReason | app/services/superuser_bootstrap.py:96-104 | a reason is accepted exactly if it has between 1 and 1024 characters once trimmed; a blank one is told apart from an overlong one |
| Bootstrap.ChangesIff | app/services/superuser_bootstrap.py:106-173 | an attempt makes a superuser exactly under the listed conditions: reason, control row, no superuser yet, unique active match, confirmed id |
| BootstrapOutcomes.TargetDecides | app/services/superuser_bootstrap.py:116-165 | for the one open account of the email the status, the confirmed id, the control row and other superusers decide in this order; a change writes flag, next version, control row and the audit event with all its fields |
| BootstrapOutcomes.ChangeIsPromotion | app/services/superuser_bootstrap.py:142-165 | the promotion among the account requests is exactly what a change does to the user rows, and it fails for any account that is not open and active |
| BootstrapOutcomes.MalformedAttempts | app/services/superuser_bootstrap.py:69-118 | before that, reason, control row and email are asked for in this order, and nothing is written |
| BootstrapOutcomes.StripIs | app/services/superuser_bootstrap.py:95-105 | trimming takes blank text off both ends, and nothing blank is left there |
| Bootstrap.ChangeEffect | app/services/superuser_bootstrap.py:142-170 | one superuser, one version step, a completed control row, one audit event, and no other row touched |
| Bootstrap.FailuresLeaveNoTrace | app/services/superuser_bootstrap.py:171-173 | an attempt that does not report a change leaves the tables unchanged |
| Bootstrap.RepeatIsHarmless | app/services/superuser_bootstrap.py:122-128 | repeating the successful attempt reports no change and changes nothing |
| Bootstrap.OnceOnly | app/services/superuser_bootstrap.py:122-140 | after a change no later attempt changes anything |
| BootstrapRuns.EveryStateSatisfiesInv | app/services/superuser_bootstrap.py:75-173 | the protocol invariant holds in every state of every interleaving of attempts, crashes and account activity |
| BootstrapRuns.AtMostOneChange | app/services/superuser_bootstrap.py:75-170 | in every interleaving at most one attempt reports a change |
| BootstrapRuns.LogMatchesControl | app/services/superuser_bootstrap.py:142-170 | the log has one event exactly when the control row is complete; then event and control row name the only superuser, and otherwise there is none |
| BootstrapWindow.ChangeWritesWhatItRead | app/services/superuser_bootstrap.py:116-149 | in any interleaving a change writes the metadata as the locked read found it, with the next version, over whatever the row holds by then: metadata writes in between are lost, the other columns keep their latest values |
| BootstrapWindow.ChangeEndsSessionsIff | app/services/superuser_bootstrap.py:116-149 | with account requests in between and after, a change ends every earlier session of its user in every later state exactly if no login or revocation of that user falls between the read and the write |
| BootstrapWindow.LostVersionReturns | app/services/superuser_bootstrap.py:142-148 | a version that the change takes back was current before the write and is current again on the way, as soon as later version steps reach it |
| BootstrapWindow.ChangeLowersVersionIff | app/services/superuser_bootstrap.py:142-148 | the version goes down exactly if two or more version steps fall in between |
| BootstrapWindow.TwoLoginsAreUndone | app/services/superuser_bootstrap.py:116-149 | wherever an attempt would change an account with a hashed password, there is a run with two logins of it between read and write, after which the version is one lower than before the write |
| BootstrapWindow.ThirdLoginRevives | app/services/superuser_bootstrap.py:142-148 | one more login after that run: the token of the second login works before the change, is refused right after it and works again then, and two logins hand out the same version |
| BootstrapWindow.ReachableWindow | app/services/superuser_bootstrap.py:116-149 | the run with two logins from an initial state with one account and one attempt: version 2 before the write, 1 after it |
| BootstrapRuns.ChangeIsRecorded | app/services/superuser_bootstrap.py:151-170 | a reported change is in the tables |
| BootstrapRuns.CompletionIsForever | app/services/superuser_bootstrap.py:122-140 | once complete, log, control row and superuser never change again |
| BootstrapRuns.OnlyAChangeWrites | app/services/superuser_bootstrap.py:120-173 | an attempt changes the committed tables only in the step that reports its change |
| BootstrapRuns.UnchangedMeansCompleted | app/services/superuser_bootstrap.py:122-128 | "already done" is reported only when it is, for the confirmed user |
| BootstrapRuns.UndisturbedAttempt | app/services/superuser_bootstrap.py:106-173 | the five locked steps run alone amount to the whole attempt |

## Left out

- Routers, middleware, exception handlers, logging, metrics, command-line prompts, settings and the session manager: I/O and wiring.
- Mail and templates: sending is a no-op, as its failures are caught or run in the background.
- bcrypt, JWT encoding and the expiry claim (section 4.1.4 of RFC 7519): ideal, as said above.
- Text filters, paging, timestamps, phone numbers and free-form metadata, including who added, assigned, removed or deleted a row: they decide nothing that is modelled. The extra commits that only write such metadata are left out with them.
- The session's autoflush, refresh and cascades: replaced by explicit row maps, key checks, commit and rollback.
- `Role.delete_role_and_reassign_users`, the payload path of `RoleRepository.delete_role`, and the table classmethods: no service calls them. The first closes a role for all companies after moving one company's members, so it does not keep the invariant.
- Races between serial-looking requests, such as two version increments at once: the code takes no lock there.
- Any promise that a company has an owner: a role update may demote the last one.
- The permission listing of a platform user (`app/repository/permission.py:732-738`): it merges lists that are modelled and would only repeat the sorting argument.
- The verification-mail limiter: its code is that of the password-reset limiter, line for line, with the same limits.
- RoleMigration.Upgrade: a null metadata column is read as an empty one; the early return is in RoleMigration.UpgradeSchema.
- IdMigration.Upgrade: the optional superuser column travels with the other copied columns.
- LevelMigration.Upgrade: column widths and constraint names are not modelled.
- Authorization.CompanyReader.GetUserCompanies: gives all pages at once, unfiltered and without page order.
- BootstrapRuns.CompletionIsForever: the superuser administration workflow that later changes would use is not part of the repository; the model lets nothing else write the superuser flag.
- AccountRuns.VersionsNeverDecrease: holds for bootstraps taken whole; interleaved with logins of its target a bootstrap can put the version back, exactly as BootstrapWindow.ChangeLowersVersionIff says.
- AccountRuns.TokenIsCurrentIff: holds for bootstraps taken whole; what a login inside the bootstrap's window does is BootstrapWindow.ChangeEndsSessionsIff.
- AccountRuns.TokenWorksIff: the expiry claim is not modelled, so "works" means "works until it expires".
- SlidingWindow.SlidingWindowRateLimiter.Hit: the lock appears only as the order of the hits; times may still arrive out of order.
