# SimpleAuth: stores, token protocols and migration, verified

This project models the parts of SimpleAuth whose correctness spans several operations, and proves what they promise.
`dafny verify dfyconfig.toml` checks all of it.

## What is modelled

**Identity mappings on two backends.** Bolt keeps a forward bucket (`"provider:externalID"` to GUID) and a per-user list of
mappings; Postgres keeps one relation. `BoltBackend.BoltStore` and `RelationStore.PostgresStore` are the two stores with
their fields updated in place; each Bolt `update` that returns an error leaves every field as it was. `Simulation` compares
them over whole runs of create, update, delete, set, merge, unmerge, role and app-delete calls; `Repair` covers the startup repair,
`BackendMigration` the copy in both directions, `MergeGraph` the chains of merged users, `MergeHistory` what whole runs do to
them when record updates read now and write later.

**Refresh tokens.** `RefreshTokens.RefreshStore` is the store; `RefreshRotation` lets any number of handlers interleave
between their store calls: login, consume, save the successor, abort, revoke a replayed family, revoke a family or a user,
clean up.

**Authorization codes.** `AuthCodes` has both backends, with Bolt's rolled-back deletion of an expired code.

**Moving a deployment.** `TokenRoles` decides what a token says, `Bundling` packages a standalone deployment, `Importing`
classifies and applies the bundle on a central deployment, `ImportLaws` and `Preservation` state what the move guarantees,
`MigrationToken` is the single-use token protocol around it, `BackendBundles` says when a bundle depends on the backend.

**Time windows.** `RateLimiting` and `Lockout`, on integer clocks that never go back.

Strings are sequences of characters; two strings compare as Go compares them (`Prelude.Before`). GUIDs, token ids and codes are
fresh by hypothesis. Times, the validity of a password or token, and the verdict of checks outside the model are parameters.

## What the proofs found

- The composite key is not injective. The reverse index stays in step in every run over a set of mappings if and only if no
  two of them share a key (`IndexInStepIffNonColliding`); `local`, `ldap`, `kerberos` and `applocal:<slug>` never collide.
- The modelled calls part the backends in exactly four cases (`StepInStep`). Bolt refuses an empty key, so a mapping to, or
  grants of, the empty GUID are written on Postgres only. Bolt refuses to merge a missing source where Postgres goes on.
  Postgres refuses a merge whose new GUID already holds grants that the sources' would be inserted over, where Bolt overwrites
  them (a merge refused on both is in step). Deleting the app with the empty id removes every owner-less user on Bolt and
  nobody on Postgres, whose JSON field is then absent.
- A merge can be undone without an unmerge: an update that read the source before the merge writes the old mark back. The
  redirection lasts in every continuation that leaves the source alone if and only if no such update is in flight
  (`MergeLastsIff`). Even so no run makes a cycle.
- A family revocation silences the family for good if and only if no rotation of it is in flight; otherwise a successor can
  still be saved.
- The rate limiter admits at most 2M - 1 requests in one window length (M the largest limit, at least 1), one fewer than twice
  the limit, and some run reaches that number.
- The lockout bound needs no assumption about the state the account starts in.
- The same authorization-code exchanges succeed on both backends as long as no code is saved over a stored one: there Bolt takes
  the new expiry and Postgres refuses the row (`StaysSameIff` has the exact condition; random codes meet it). A second attempt
  with an expired code is reported differently.
- A packaged entry can depend on the order Postgres returns mapping rows in: exactly for a local user with a password and two
  rival login names (`SameEntryOnBothBackendsIff`).
- Apply assigns entries of an unknown kind, which the dry run counts nowhere (`UnknownKindIsNotAnnounced`); Package makes none.
- A user who has only default roles, behind `require_assignment`, gets no token at home but gets one on the target.
- The commit reads the target app again when it applies, and can find another instance than its guard did in two ways: the app
  was deleted and registered again in between, or an update that had read an earlier instance wrote it back. The import lands
  on the guarded instance if and only if the last step in between that touched the app's record, if any, was an update that
  had read that instance (`ImportLandsWhereGuardedIff`). Without a deletion it does so in every continuation if and only if no
  update that has read another instance is in flight when the guard reads (`DeletionFreeImportsLandIff`).
- A migration token minted between another commit's guard and its claim dies with that claim.
- Deleting an app or rotating its secret drops a pending migration token. It can still authorise an import afterwards if and only
  if a commit that has passed its guard holds it (`DroppedTokenLivesIffHeld`).

## Model

| member | source | states |
|---|---|---|
| Prelude.SortedKeys | internal/handler/apps.go:211-218 | the keys come out in string order, each once, and any two such listings of a set are the same list |
| Prelude.BeforeTrichotomy | internal/handler/apps.go:211-218 | string order is total and strict |
| Prelude.BeforeIff | internal/handler/apps.go:211-218 | of two strings the one that ends first, or has the smaller character where they first differ, comes first |
| Prelude.SortedListUnique | internal/handler/apps.go:211-218 | a set has one sorted listing, so map iteration order never shows |
| MappingKeys.IndexOfColon | internal/store/bolt.go:559-568 | finds the first colon, or reports that there is none |
| MappingKeys.SplitKey | internal/store/bolt.go:559-568 | takes a key apart as the index recorded it, else at the first colon, and fails only without a colon |
| MappingKeys.SplitRejoins | internal/store/bolt.go:525-568 | whatever halves a key is split into, they join to that key again |
| MappingKeys.InjectiveIffPrefixFree | internal/store/bolt.go:525-527 | the composite key is injective over a set of providers exactly when none, with its colon, is a prefix of another |
| MappingKeys.StandardProvidersPrefixFree | internal/store/bolt.go:529-568 | local, ldap, kerberos and one applocal provider per colon-free app id never collide |
| RelationStore.DeleteAppIsExact | internal/store/postgres.go:187-200 | deleting a named app removes exactly its own users and the rows that point at one of them; every other row is unchanged |
| RelationStore.PostgresStore.SetIdentityMapping | internal/store/postgres.go:425-432 | the row of that pair points at the user, no other row changes |
| RelationStore.PostgresStore.DeleteIdentityMapping | internal/store/postgres.go:446-452 | exactly that row disappears |
| RelationStore.PostgresStore.SetUserRoles | internal/store/postgres.go:493-500 | that user's row holds the given roles, whatever the GUID |
| RelationStore.PostgresStore.SetUserPermissions | internal/store/postgres.go:515-522 | that user's row holds the given permissions, whatever the GUID |
| RelationStore.PostgresStore.MergeUsers | internal/store/postgres.go:913-1007 | the whole new state: sources marked, their rows re-pointed, their grants united on the new user; or no change when an inserted row is already there |
| RelationStore.PostgresStore.CreateUser | internal/store/postgres.go:302-318 | upsert of the record |
| RelationStore.PostgresStore.DeleteUser | internal/store/postgres.go:368-371 | the record alone is removed |
| RelationStore.PostgresStore.UpdateUser | internal/store/postgres.go:352-366 | replaces the whole record of a user that exists, fails otherwise |
| RelationStore.PostgresStore.UnmergeUser | internal/store/postgres.go:1009-1019 | clears the merge mark of a merged user, fails and changes nothing otherwise |
| RelationStore.PostgresStore.DeleteApp | internal/store/postgres.go:187-214 | removes the app's local users with every row that points at one of them, and nothing else of these tables |
| BoltBackend.BoltStore.RemoveMappingFromIndex | internal/store/bolt.go:765-787 | the user's list loses that mapping and keeps its order; an emptied list is deleted |
| BoltBackend.BoltStore.AddMappingToIndex | internal/store/bolt.go:652-670 | the mapping is appended once; a list that has it stays as it is |
| BoltBackend.BoltStore.SetIdentityMapping | internal/store/bolt.go:585-610 | forward entry and both lists move together; an empty GUID fails and rolls everything back |
| BoltBackend.BoltStore.DeleteIdentityMapping | internal/store/bolt.go:625-638 | forward entry and the owner's list entry go together |
| BoltBackend.BoltStore.SetUserRoles | internal/store/bolt.go:814-822 | the roles are stored, unless the GUID is empty: then it fails and nothing changes |
| BoltBackend.BoltStore.SetUserPermissions | internal/store/bolt.go:836-844 | the permissions are stored, unless the GUID is empty: then it fails and nothing changes |
| BoltBackend.BoltStore.MergeUsers | internal/store/bolt.go:1294-1391 | the whole new state of users, both buckets and grants, or no change at all when a source is missing |
| BoltBackend.BoltStore.CreateUser | internal/store/bolt.go:401-415 | put of the record under its GUID |
| BoltBackend.BoltStore.DeleteUser | internal/store/bolt.go:466-470 | the record alone is removed |
| BoltBackend.BoltStore.UpdateUser | internal/store/bolt.go:452-464 | replaces the whole record of a user that exists, fails otherwise |
| BoltBackend.BoltStore.UnmergeUser | internal/store/bolt.go:1393-1413 | clears the merge mark of a merged user, fails and changes nothing otherwise |
| BoltBackend.BoltStore.DeleteApp | internal/store/bolt.go:152-221 | removes the owned users, their lists, and the forward keys those lists claim and still own |
| BoltBackend.BoltStore.ResolveMapping | internal/store/bolt.go:612-623 | the owner the forward bucket has for the pair's key |
| BoltBackend.BoltStore.MappingSplits | internal/store/bolt.go:537-554 | a table that holds every claimed key, filed with a mapping of some list that has this key |
| BoltBackend.BoltStore.ListAllMappings | internal/store/bolt.go:789-810 | every forward entry that can be split, once, with its owner |
| BoltBackend.BoltStore.PlanRepair | internal/store/bolt.go:691-763 | plans a new list for exactly the users with an entry the forward bucket does not back |
| BoltBackend.BoltStore.ApplyPlan | internal/store/bolt.go:691-763 | planned lists replace the old ones, empty ones are deleted, other users keep theirs |
| BoltBackend.BoltStore.RepairMappingIndex | internal/store/bolt.go:691-763 | with the skip switch nothing is written; otherwise the index is the pruned one and no forward entry moves |
| BoltBackend.RecordGrowsAtTheEnd | internal/store/bolt.go:652-670 | a list keeps its order, a new mapping comes last, and no other list changes |
| BoltBackend.AppendNewGrowsAtTheEnd | internal/store/bolt.go:1325-1333 | moving a source's mappings keeps the order of the list they join |
| Simulation.CallBolt | internal/store/interface.go:27-60 | an operation of a run changes the Bolt store exactly as the store's own method does |
| Simulation.CallPostgres | internal/store/interface.go:27-60 | the same for the Postgres store |
| Simulation.StepInStep | internal/store/bolt.go:585-638 | from states in step, one operation leaves both backends in step exactly when its guard holds |
| Simulation.MergeInStep | internal/store/bolt.go:1294-1391 | a merge keeps the backends in step exactly when it succeeds on both or is refused on both |
| Simulation.DeleteAppInStep | internal/store/bolt.go:152-221 | the app-delete cascade matches the relation's exactly unless the app id is empty and some user has no owner |
| Simulation.QueriesAgree | internal/store/bolt.go:612-650 | in step, both backends resolve, list a user's mappings and list all mappings alike |
| Simulation.RunsInStep | internal/store/bolt.go:585-650 | over every guarded run with distinct keys Bolt simulates the relation and answers every query as it does |
| Simulation.IndexInStepIffNonColliding | internal/store/bolt.go:585-610 | in every run over these mappings the lists hold exactly what the forward bucket backs, without duplicates or empty lists, if and only if no two of the mappings share a key |
| Simulation.CollisionLeavesStale | internal/store/bolt.go:585-610 | re-pointing a key under another pair leaves the first owner's entry unbacked |
| Simulation.CoveredInEveryRun | internal/store/bolt.go:652-787 | with no hypothesis on keys, every forward key is claimed by an entry of its owner's list in every reachable store |
| Repair.RepairKeepsBacked | internal/store/bolt.go:691-763 | from any state, an entry survives repair exactly when the forward bucket backs it |
| Repair.RepairKeepsOrder | internal/store/bolt.go:691-763 | a repaired list is the backed entries of the old one in their old order |
| Repair.RepairIdempotent | internal/store/bolt.go:691-763 | repairing again changes nothing |
| Repair.HealthyIsFixed | internal/store/bolt.go:691-763 | a store in step with a relation is left alone |
| Repair.RepairRestoresIffCovered | internal/store/bolt.go:671-763 | with distinct keys, repair restores agreement with some relation exactly when every forward key is covered |
| BackendMigration.MigrateToPostgres | internal/store/migrate.go:123-195 | the target holds exactly the split rows of the forward bucket, and the row check passes exactly when every key could be split |
| BackendMigration.CountOfRows | internal/store/migrate.go:181-213 | distinct keys become distinct rows, so the counts agree exactly when no key is unsplittable |
| BackendMigration.MigrateFromPostgres | internal/store/migrate.go:329-375 | whatever the target held before, it ends as the import of the rows in the order they came |
| BackendMigration.ImportAgrees | internal/store/migrate.go:372-375 | for every order of the rows the import agrees with the relation, given distinct keys |
| BackendMigration.TransferExact | internal/store/migrate.go:123-160 | from a store in step the copied table is the relation itself, whichever split table was built |
| BackendMigration.TransferCounts | internal/store/migrate.go:164-190 | from a store in step the migration's own row check passes |
| BackendMigration.AgreeingStoresMatch | internal/store/migrate.go:372-375 | two stores in step with one relation have the same forward bucket and the same lists up to order |
| BackendMigration.BoltRoundTrip | internal/store/migrate.go:123-375 | Bolt to Postgres and back gives the same mappings and restores the index, for every order of rows |
| BackendMigration.PostgresRoundTripIff | internal/store/migrate.go:123-375 | Postgres to Bolt and back gives the same table exactly when no two of its pairs share a key |
| MergeGraph.ResolveUser | internal/store/bolt.go:433-450 | follows the merge chain, on any store, with at most one lookup per user and one for a missing one |
| MergeGraph.ResolveIffMeaning | internal/store/bolt.go:433-450 | found, missing and cycle mean: the chain ends at an unmerged user, at a missing one, or comes back to itself |
| MergeGraph.MergeResolution | internal/store/bolt.go:1294-1391 | after a merge everybody whose chain reached a source resolves to the new user, and nobody else's answer changes |
| MergeGraph.UnionOfGrants | internal/store/bolt.go:1335-1391 | the new user holds exactly what some source held, and the sources hold nothing any more |
| MergeGraph.MergeMovesIdentities | internal/store/bolt.go:1294-1391 | end to end: each identity logs in as the new user exactly when its owner's chain reached a source |
| MergeGraph.MergeMakesUser | internal/store/bolt.go:1294-1391 | every source resolves to a new user of the given name and email and nothing else; a source changes in its mark alone; nobody else's record or grants change |
| MergeGraph.PostgresMergeMakesUser | internal/store/postgres.go:913-1007 | the same on Postgres for the sources that exist, with the union of the grants |
| MergeGraph.PostgresMergeKeepsGrants | internal/store/postgres.go:980-1001 | a merge whose new GUID holds grants that others would be inserted over changes nothing |
| MergeGraph.RowsFollowTheMerge | internal/store/postgres.go:936-940 | rows of a source go to the new user, the others stay |
| MergeGraph.UnmergeRestores | internal/store/bolt.go:1393-1413 | an unmerged user resolves to itself with its own record, and nobody else's moves |
| MergeHistory.MarksRise | internal/store/bolt.go:1294-1413 | in every run of store calls, with reads written back at any later time, each merge mark points at a user first used later |
| MergeHistory.NoReachableCycle | internal/store/bolt.go:433-464 | no such run makes ResolveUser report a cycle |
| MergeHistory.ResolvesAsTarget | internal/store/bolt.go:433-450 | a merged user resolves as the user it points at |
| MergeHistory.MergeLastsIff | internal/handler/admin.go:140-179 | a merge redirects a source, until it is unmerged, deleted, re-created or merged again, in every continuation exactly when no update that read it before is in flight |
| MergeHistory.StaleMarkContinuation | internal/handler/admin.go:140-179 | with such an update in flight, a continuation in which the source resolves elsewhere |
| MergeHistory.StaleUpdateUndoesMerge | internal/store/bolt.go:452-464 | read, merge, write back: the source resolves to itself again |
| MergeHistory.ReadsAreUsedOnce | internal/handler/admin.go:140-179 | in every run what an update has read is written or given up once, or still in flight |
| RefreshTokens.RefreshStore.SaveRefreshToken | internal/store/bolt.go:1079-1087 | stores that token and no other; an empty id fails and changes nothing |
| RefreshTokens.RefreshStore.ConsumeRefreshToken | internal/store/bolt.go:1127-1151 | accepts an unused token once and marks it; a used one is reported and nothing changes |
| RefreshTokens.RefreshStore.RevokeTokenFamily | internal/store/bolt.go:1154-1172 | exactly the family's tokens are gone |
| RefreshTokens.RefreshStore.RevokeUserTokens | internal/store/bolt.go:1194-1212 | exactly the user's tokens are gone |
| RefreshTokens.RefreshStore.CleanExpired | internal/store/bolt.go:1762-1782 | exactly the tokens past their expiry are gone |
| RefreshTokens.RemovalsAreExact | internal/store/bolt.go:1154-1212 | a token goes exactly when it has the family, has the user, or is past its expiry; what stays is unchanged |
| RefreshTokens.RotationHandsOver | internal/handler/auth.go:741-762 | after a rotation the old token is spent and the new one can be consumed once, in the same family and app, for the user, expiry and audience it was saved with |
| RefreshTokens.RefreshStore.HandleRefresh | internal/handler/auth.go:637-773 | undisturbed, a refresh rotates, or revokes the family of a reused token, or leaves the token consumed when a later check or the save fails |
| RefreshRotation.RotationSafety | internal/handler/oidc.go:747-834 | in every interleaving a family has at most one unused token and rotation in flight together, no id is consumed twice, one app per family |
| RefreshRotation.FamilyKeepsItsApp | internal/handler/auth.go:741-760 | tokens of one family carry one app, however far apart in a run |
| RefreshRotation.RevocationKillsIffNoneInFlight | internal/store/bolt.go:1154-1172 | revoking a family ends it in every continuation exactly when no rotation of it is in flight |
| RefreshRotation.RevokeUserIsExact | internal/store/bolt.go:1194-1212 | no token of the user is left and every other token is as it was |
| RefreshRotation.RevokedUserIsSilentIff | internal/handler/admin.go:388-392 | after that, no token of the user is stored or consumed in a continuation exactly as long as no login and no save of a rotation in flight names the user |
| RefreshRotation.LoginStores | internal/handler/auth.go:421-441 | a login stores a live token of that user, family and app, and nothing else |
| RefreshRotation.ReplayKillsFamily | internal/handler/auth.go:662-672 | a replayed token with nothing of its family in flight ends the family for good |
| RefreshRotation.CleaningTakesTheExpired | internal/store/bolt.go:1762-1782 | a cleaning takes exactly the tokens past their expiry and disturbs no handler |
| RefreshRotation.HandlerIsItsSteps | internal/handler/oidc.go:747-843 | a handler nobody interrupts is exactly its steps |
| AuthCodes.BoltCodes.SaveOIDCAuthCode | internal/store/bolt.go:1495-1503 | the code is stored with its expiry, over an earlier one; an empty code fails |
| AuthCodes.PostgresCodes.SaveOIDCAuthCode | internal/store/postgres.go:1069-1076 | a code that is still stored is refused and keeps its expiry |
| AuthCodes.BoltCodes.ConsumeOIDCAuthCode | internal/store/bolt.go:1506-1528 | a live code is exchanged and gone; an expired one is refused and, the deletion rolled back, still there |
| AuthCodes.BoltCodes.CleanExpired | internal/store/bolt.go:1740-1760 | exactly the expired codes are gone |
| AuthCodes.PostgresCodes.ConsumeOIDCAuthCode | internal/store/postgres.go:1078-1095 | the code is gone whatever the verdict |
| AuthCodes.PostgresCodes.CleanExpired | internal/store/postgres.go:816-819 | exactly the expired codes are gone |
| AuthCodes.ServeOnBolt | internal/store/bolt.go:1495-1528 | an event of a run is a call of the Bolt store's own method, and succeeds when that method exchanges |
| AuthCodes.ServeOnPostgres | internal/store/postgres.go:1069-1095 | the same for the Postgres store |
| AuthCodes.CleaningIsExact | internal/store/bolt.go:1740-1760 | a cleaning removes exactly the codes past their expiry |
| AuthCodes.LiveUntilExpiry | internal/store/bolt.go:1506-1528 | a stored code can be exchanged exactly up to its expiry, cleaned in between or not |
| AuthCodes.SameLiveMeans | internal/store/bolt.go:1506-1528 | two code tables have the same live codes exactly when no later exchange can tell them apart |
| AuthCodes.StaysSameIff | internal/store/postgres.go:1069-1095 | redeeming and cleaning never part the backends; saving does exactly when the code is stored with another expiry and one of the two is still live, or is empty and live on Postgres only |
| AuthCodes.FreshSavesAgree | internal/handler/oidc.go:278-335 | random codes never meet that case |
| AuthCodes.SameExchanges | internal/store/bolt.go:1506-1528 | in every run whose saves agree the same redemptions succeed on both backends |
| AuthCodes.SavedTwiceDiffers | internal/store/postgres.go:1069-1076 | for every code, a run that saves it twice and exchanges it on Bolt only |
| AuthCodes.ExchangedInItsLifetime | internal/handler/oidc.go:571-580 | every exchange comes after a save of its code and not after that save's expiry |
| AuthCodes.ExchangedAtMostOnce | internal/handler/oidc.go:571-580 | a code is exchanged at most once |
| AuthCodes.ExpiredTwiceDiffers | internal/store/postgres.go:1078-1095 | a run where the backends give different reasons for the same refusal |
| RateLimiting.RateLimiter.constructor | internal/handler/middleware.go:58-66 | starts with no counters, switched on |
| RateLimiting.RateLimiter.SetConfig | internal/handler/middleware.go:71-90 | non-positive values keep the current ones; a new window or on/off state drops all counters, a new limit alone none |
| RateLimiting.RateLimiter.Allow | internal/handler/middleware.go:92-108 | the verdict and the whole new state, on, off, in a window or opening one |
| RateLimiting.RateLimiter.Retry | internal/handler/middleware.go:110-122 | the seconds advertised for the IP's window |
| RateLimiting.RateLimiter.Cleanup | internal/handler/middleware.go:124-136 | exactly the counters past their window are gone |
| RateLimiting.Serve | internal/handler/middleware.go:71-136 | an event of a run is a call of the limiter's own method, and its answer that method's answer |
| RateLimiting.CleanupIsExact | internal/handler/middleware.go:124-136 | a counter stays, as it is, exactly while its window is not over |
| RateLimiting.SettingsApply | internal/handler/middleware.go:71-90 | positive values are in force at once, others keep the current ones; counters are forgotten exactly on a window or on/off change |
| RateLimiting.NewLimitDecides | internal/handler/middleware.go:71-108 | within an open window the new limit alone decides |
| RateLimiting.OffMeansOff | internal/handler/middleware.go:71-108 | switched off nothing is refused, switched on again everybody starts anew |
| RateLimiting.RefusedIff | internal/handler/middleware.go:92-108 | refused exactly when on, in an open window, with the quota used up |
| RateLimiting.IntervalBound | internal/handler/middleware.go:92-108 | with a fixed window, any closed interval of that length admits at most 2M - 1 requests of an IP |
| RateLimiting.IntervalBoundTight | internal/handler/middleware.go:92-108 | for every limit and window some run reaches that bound |
| RateLimiting.CleanupInvisible | internal/handler/middleware.go:124-136 | leaving all cleanups out of any run changes no verdict and no advertised wait |
| RateLimiting.RetryAfterSuffices | internal/handler/middleware.go:110-122 | after the advertised wait with no request of that IP the next one is allowed, whatever else happens |
| RateLimiting.RetryAfterNeeded | internal/handler/middleware.go:110-122 | one second less is too little once the limit is used up |
| Lockout.Account.IsAccountLocked | internal/handler/auth.go:259-274 | locked up to and including the end of the lock; past it the counter and the lock are cleared |
| Lockout.Account.RecordFailedLogin | internal/handler/auth.go:277-286 | one failure more, and a new lock from the threshold on |
| Lockout.Account.FailLogin | internal/handler/auth.go:152-225 | a locked account's password is not tried and nothing is counted |
| Lockout.NoThresholdNoLockout | internal/handler/auth.go:259-262 | without a positive threshold every login of every run gets its password tried |
| Lockout.RefusedIff | internal/handler/auth.go:259-274 | refused exactly under a positive threshold and a lock that has not ended |
| Lockout.FailureBelowThreshold | internal/handler/auth.go:277-286 | a failure below the threshold is counted and sets no lock |
| Lockout.AtMostThresholdPerLock | internal/handler/auth.go:259-286 | from any state, sequential failing logins test at most `threshold` passwords in any closed interval as long as the lock |
| Lockout.ThresholdIsReached | internal/handler/auth.go:277-286 | a fresh account does test that many, at one instant, and is locked by the last |
| Lockout.LockHoldsThenEnds | internal/handler/auth.go:259-286 | the locking failure shuts the account for exactly the lock, after which counting starts at one |
| TokenRoles.UserAssignmentKeys | internal/handler/apps.go:69-85 | each name of the user once: GUID, account name, every mapped name, never the empty one |
| TokenRoles.ResolveHomeAppRoles | internal/handler/apps.go:155-192 | sorted effective roles and the permissions from them and from direct grants, or a refusal that default roles do not avert |
| TokenRoles.ResolveTokenRoles | internal/handler/apps.go:110-150 | the home app answers from the global stores; a named app from its own assignments alone, refusing the unassigned who are not its own |
| TokenRoles.AssignmentKeysAre | internal/handler/apps.go:69-85 | a name is a key exactly when it is not empty and is the GUID, the account name or a mapped name |
| TokenRoles.AudienceIs | internal/handler/apps.go:48-53 | the configured audience, and the app id only when none is configured |
| TokenRoles.NamedAppDeniesIff | internal/handler/apps.go:135-137 | denied exactly when assignment is required, the user is not the app's own, and nothing is assigned under any name or group |
| TokenRoles.NamedAppGrants | internal/handler/apps.go:115-149 | a granted token has, sorted and once each, exactly the assigned roles and the permissions the app gives them |
| TokenRoles.HomeAppDeniesIff | internal/handler/apps.go:155-164 | denied exactly when assignment is required, the user is not the app's own, and has no explicit role |
| TokenRoles.HomeAppGrants | internal/handler/apps.go:166-191 | exactly the explicit roles or, without any, the defaults, and exactly their permissions and the direct ones |
| Bundling.MappedKey | internal/migrate/bundle.go:291-309 | the least candidate, bare names first, from mappings in any order |
| Bundling.KeyUnique | internal/migrate/bundle.go:280-310 | a set of candidates has one key |
| Bundling.FindUsername | internal/migrate/bundle.go:313-335 | the first local name, else the first app-local one, else the account name, else the email |
| Bundling.ClassifyUser | internal/migrate/bundle.go:182-227 | a directory identity decides before a password; mappings that cannot be read leave the user behind |
| Bundling.Package | internal/migrate/bundle.go:115-162 | the configuration, the catalog and the entries of the eligible users in listing order |
| Bundling.EntryHasSource | internal/migrate/bundle.go:147-160 | every entry is the classification of an eligible listed user |
| Bundling.SourceHasEntry | internal/migrate/bundle.go:147-160 | every eligible user that can be classified is in the bundle |
| Bundling.HashTravelsIff | internal/migrate/bundle.go:182-227 | a password hash leaves exactly for a readable, named holder with an owning app or no directory identity |
| Bundling.HashesInBundle | internal/migrate/bundle.go:182-227 | no hash in a packaged bundle belongs to a directory user without an owning app |
| Bundling.DirectoryProviderIff | internal/migrate/bundle.go:242-248 | a directory's provider is one whose word before the first colon is ldap or kerberos |
| Bundling.BareNameWins | internal/migrate/bundle.go:301-309 | with a bare name among the directory names the key is bare, and the least of them |
| Bundling.DirectoryKeyIsTheUsers | internal/migrate/bundle.go:280-310 | the key is the account name or the external id of one of the user's directory mappings |
| Bundling.WhoStaysBehind | internal/migrate/bundle.go:147-160 | merged-away records and other apps' users never travel, everybody else is classified |
| Bundling.LeftOutIff | internal/migrate/bundle.go:182-227 | left out exactly when needed mappings cannot be read or a non-directory user lacks a password or a login name |
| Bundling.EntryTells | internal/migrate/bundle.go:182-227 | which of the user's data an entry of each kind carries |
| Bundling.ConfigCarries | internal/migrate/bundle.go:122-138 | each setting of a registered home app travels, of an unregistered one none |
| Bundling.BundleCarries | internal/migrate/bundle.go:115-145 | the catalogue travels, and the directory binding exactly when there is one |
| Bundling.EntriesInListingOrder | internal/migrate/bundle.go:143-161 | the entries stand in the order the users are listed |
| BackendBundles.NameIgnoresOrderIff | internal/migrate/bundle.go:313-335 | a user has one login name in every order of the mappings exactly when no two local names, or without any no two app-local ones, differ |
| BackendBundles.EntryIgnoresOrderIff | internal/migrate/bundle.go:182-335 | a user's entry is the same for every order of the mappings exactly for an unreadable or directory user, one without a password, or one with a single login name |
| BackendBundles.SameEntryOnBothBackendsIff | internal/migrate/bundle.go:260-335 | after any run in step, Postgres packages the entry Bolt packages, for every order of its rows, under the same exact condition |
| Importing.ResolveCarriedAudience | internal/migrate/bundle.go:392-427 | accepts the target's own audience or a free one, keeps it when none is carried, refuses any other app's |
| Importing.CentralStore.Classify | internal/migrate/bundle.go:434-528 | writes nothing; each count is the number of entries of that kind that carry roles, each blocked AD user is listed |
| Importing.CountUsers | internal/migrate/bundle.go:469-514 | the counts of the user loop |
| Importing.CentralStore.Apply | internal/migrate/bundle.go:553-665 | a refused bundle changes nothing; otherwise the whole new store and the four counts |
| Importing.CentralStore.ImportUsers | internal/migrate/bundle.go:634-664 | the user loop: accounts, names, assignments and counts |
| Importing.NamesAfterImport | internal/migrate/bundle.go:639-651 | exactly the new names are mapped, each to the account of its first entry |
| Importing.AssignmentsAfterImport | internal/migrate/bundle.go:654-656 | each key ends with the roles of its last role-bearing entry, other keys keep theirs |
| Importing.AccountsAfterImport | internal/migrate/bundle.go:639-651 | an entry creates its account exactly when it is the first of a new name |
| Importing.OthersAfterImport | internal/migrate/bundle.go:634-664 | records the import did not create stay as they are |
| ImportLaws.TrimSpaceTrims | internal/migrate/bundle.go:393 | trimming takes spaces off both ends and nothing else |
| ImportLaws.TrimSpaceLeavesNone | internal/migrate/bundle.go:393 | no space is left at either end |
| ImportLaws.AudienceAcceptedIff | internal/migrate/bundle.go:392-427 | a carried audience is accepted, and kept, exactly when the target has it or neither the default app nor another app answers to it |
| ImportLaws.TargetSettings | internal/migrate/bundle.go:572-616 | each setting ends as carried or, when not carried, as it was; local login is on exactly if it was or some local entry bears roles |
| ImportLaws.LocalLoginOpens | internal/migrate/bundle.go:606-616 | an import with a local account to make lets local users in |
| ImportLaws.TargetAudience | internal/handler/apps.go:48-53 | tokens of the target are issued for the carried audience |
| ImportLaws.TargetCatalog | internal/migrate/bundle.go:622-634 | a carried role map replaces the map and its sorted names the roles, carried permissions the list; group assignments stay |
| ImportLaws.NewAccountIs | internal/migrate/bundle.go:641-647 | an account carries its entry's name, email and hash and belongs to the app |
| ImportLaws.AssignmentsAre | internal/migrate/bundle.go:634-656 | each key ends with its last role-bearing entry's roles; other assignments stay |
| ImportLaws.ApplyCountsMean | internal/migrate/bundle.go:632-657 | the counts are the target's roles and the entries with and without roles |
| ImportLaws.TargetIsFreeIff | internal/migrate/bundle.go:437-444 | free means no assignment, role, role map or permission at all |
| ImportLaws.SameDirectoryIff | internal/migrate/bundle.go:530-538 | same by domain if both name one, else by base DN if both name one, else never |
| ImportLaws.ADSatisfiableIff | internal/migrate/bundle.go:461-463 | AD users are satisfiable exactly when both sides are bound to the same directory |
| ImportLaws.BlockedAre | internal/migrate/bundle.go:500-505 | the blocked users are exactly the AD entries, with the reason that holds |
| ImportLaws.KnownNamesAre | internal/migrate/bundle.go:467-474 | known names are the non-empty account names of central records |
| ImportLaws.CountsMean | internal/migrate/bundle.go:476-513 | what each counter of a passing dry run counts |
| ImportLaws.ReportOKIff | internal/migrate/bundle.go:434-528 | the dry run passes exactly a free target, a free audience, and AD users only with the same directory connected |
| ImportLaws.ClassifyPredictsApply | internal/migrate/bundle.go:474-513 | a passing dry run of an existing target announces the assignments, skips and audience Apply produces |
| ImportLaws.PackagedKindsAreKnown | internal/migrate/bundle.go:182-227 | no entry of a packaged bundle is of an unknown kind |
| ImportLaws.PackagedPredictsApply | internal/migrate/bundle.go:474-513 | for a packaged bundle the announced local and AD users are exactly the assignments set |
| ImportLaws.UnknownKindIsNotAnnounced | internal/migrate/bundle.go:494-513 | a bundle that passes the dry run announcing nobody and has one user assigned |
| ImportLaws.ApplyTwice | internal/migrate/bundle.go:548-665 | the same bundle again changes nothing |
| ImportLaws.AudiencesStayDistinct | internal/migrate/bundle.go:392-427 | no bundle makes two apps share an effective audience, the made-up default app included |
| ImportLaws.OneAccountPerNewKey | internal/migrate/bundle.go:639-651 | the number of records grows by the number of distinct unmapped role-bearing local keys |
| ImportLaws.NewAccount | internal/migrate/bundle.go:639-651 | a new key's account comes from its first entry and is reachable under that one name |
| ImportLaws.ApplyTouchesOnlyTarget | internal/migrate/bundle.go:553-665 | other apps, their authorization, every existing user and every mapped name stay as they are |
| ImportLaws.GatesNeverWeaken | internal/migrate/bundle.go:600-616 | assignment stays required, the secret changes only on request, and local login opens only if a local name of the app is mapped afterwards |
| ImportLaws.TargetRoles | internal/handler/apps.go:110-150 | on a free target any user's roles are those the bundle grants under that user's names |
| Preservation.SourceDeniesIff | internal/handler/apps.go:28-42 | the source turns a user away exactly when its app has a row with the gate on, the user is not its own, and no role is explicit |
| Preservation.TokenCarriesOverIff | internal/handler/apps.go:110-192 | for a source user with a role and any central user, the target's token has the source's roles and exactly their permissions if and only if the source admits the user and the bundle grants exactly those roles under the central user's names |
| Preservation.BoundUserCarriesOver | internal/migrate/bundle.go:634-656 | bound to one unshared key of the bundle, a user's token carries over exactly when the source admits the user |
| Preservation.LocalUserArrives | internal/migrate/bundle.go:553-665 | a local user becomes an account of the target, which then lets local users in, under the old login, with the old password, name and email if the key is not shared |
| Preservation.LocalUserCarriesOver | internal/migrate/bundle.go:182-227 | that account's token carries the source's over exactly when the source admits the user and no later entry of the key has other roles; it is granted either way |
| Preservation.DefaultRolesOnlyIsNotPreserved | internal/handler/apps.go:155-164 | a user the source home app denies although the bundle carries roles for that user |
| MigrationToken.MigrationDesk.GenMigrationToken | internal/handler/migration_central.go:47-77 | stores an unused record bound to the app's creation time, never for the default or a missing app |
| MigrationToken.MigrationDesk.AuthMigration | internal/handler/migration_central.go:82-99 | admits the stored, unused, unexpired token of that instance and nothing else |
| MigrationToken.MigrationDesk.ConsumeMigrationToken | internal/handler/migration_central.go:104-122 | the stored record is used up; without one it fails |
| MigrationToken.MigrationDesk.DeleteApp | internal/handler/admin_apps.go:266-283 | the app and its pending token are gone, and nothing authenticates for it; the default app is refused |
| MigrationToken.MigrationDesk.RotateSecret | internal/handler/admin_apps.go:287-312 | a pending token is gone, and nothing authenticates for the app |
| MigrationToken.MigrationDesk.Guard | internal/handler/migration_central.go:133-164 | passes exactly an enabled, non-default app whose token authenticates |
| MigrationToken.MigrationDesk.Commit | internal/handler/migration_central.go:183-229 | spends the token exactly when the guard and the dry run pass, after which nothing authenticates for the app |
| MigrationToken.OneImportPerToken | internal/handler/migration_central.go:183-229 | in every interleaving with mints, updates, secret rotations, deletions and re-creations a token authorises at most one import, and its guard read the instance the token was minted for |
| MigrationToken.DroppedTokenLivesIffHeld | internal/handler/admin_apps.go:276-309 | after a deletion or rotation has dropped the record, some continuation still imports with a pending token exactly when a commit past its guard holds it |
| MigrationToken.GuardPassesIff | internal/handler/migration_central.go:82-99 | a guard passes exactly an enabled app with a record of this token, unused, unexpired and of this instance |
| MigrationToken.ImportsCheckedInTime | internal/handler/migration_central.go:82-99 | in every interleaving each import's token was checked no later than the expiry it was minted with |
| MigrationToken.MintSetsExpiry | internal/handler/migration_central.go:64-66 | the expiry remembered for a token is the one it was minted with, for good |
| MigrationToken.CommitIsItsSteps | internal/handler/migration_central.go:183-229 | undisturbed, the steps of a commit do to the records what the desk's commit does |
| MigrationToken.SpendMarksOnly | internal/handler/migration_central.go:104-122 | spending marks the app's record and changes nothing else |
| MigrationToken.ApplyWritesWhatItRead | internal/migrate/bundle.go:617-619 | Apply writes the app back as it read it and touches no other app |
| MigrationToken.UpdateWritesUnderItsStamp | internal/store/bolt.go:138-150 | an update replaces the record of a registered app under the stamp it has read, and registers none |
| MigrationToken.WhoTouchesAnApp | internal/store/interface.go:39-44 | a registration stores the app as given; afterwards only an update, an import or a deletion changes its record |
| MigrationToken.AbortLetsTheNextIn | internal/handler/migration_central.go:185-210 | a commit given up leaves apps, tokens and imports as they are and lets the next one in |
| MigrationToken.UpdatesBalance | internal/handler/admin_apps.go:177-250 | in every run an instance read for an update is written back once, or still in flight |
| MigrationToken.MintsBalance | internal/handler/migration_central.go:50-80 | in every run a reading of the app mints one token, or is still in flight |
| MigrationToken.StampIsLastTouch | internal/handler/migration_central.go:183-229 | the creation time an app ends with is the one its last create, delete or update left |
| MigrationToken.ImportLandsWhereGuardedIff | internal/handler/migration_central.go:183-229 | in every run the import lands on the guarded instance exactly when the last touch of the app in between, if any, was an update that had read it |
| MigrationToken.DeletionFreeImportsLandIff | internal/handler/admin_apps.go:178-250 | without a deletion every continuation lands there exactly when no update that read another instance is in flight at the guard |
| MigrationToken.StaleContinuation | internal/handler/admin_apps.go:178-250 | with such an update in flight, a continuation whose import lands on the instance it had read |
| MigrationToken.StaleUpdateIsReachable | internal/handler/admin_apps.go:178-250 | a run from the start that gets there |
| MigrationToken.SuccessorGetsTheImport | internal/migrate/bundle.go:556-559 | delete and re-register after the guard, and the new app gets the import |
| MigrationToken.ClaimSpendsAll | internal/handler/migration_central.go:104-122 | a claim spends every token minted for the app so far |
| MigrationToken.MintedInBetweenIsSpent | internal/handler/migration_central.go:104-122 | whatever else happens, a token minted between guard and claim never authorises an import |

## Left out

- DeleteApp: the app, authz and admin rows it also deletes are not part of the store model; users, mappings and lists are.
- MergeUsers: role and permission lists are sets here, because the source writes them in map iteration order.
- UnmergeUser: on Postgres a read and a write of the whole record, modelled as one step.
- MigrateToPostgres: only the identity mappings; the truncation is taken to succeed, and the other tables are not modelled.
- MigrateFromPostgres: only the identity mappings, with every row readable.
- Retry: exact nanoseconds instead of floating-point seconds.
- Classify: the notes, the list of redirect URIs and the bundle's version are not modelled; domain names are folded for ASCII letters only.
- Apply: store errors other than a missing app are not modelled; base URL and icon arrive as validation leaves them, and creation times are not kept.
- Package: store errors other than unreadable mappings are not modelled; JSON encoding of the bundle is taken to be faithful, although on the wire an empty role map arrives as an absent one; on the free target a dry run demands the two do the same.
- OneImportPerToken: commits exclude each other within one process; two processes on one database are not modelled.
- Guard: the rate limit, the request parsing and the schema revision check before it are not modelled.
- AtMostThresholdPerLock: logins of one account one after the other; concurrent ones read and write the whole record and can lose counts.
- ClassifyUser: how a username depends on backend order is modelled, not excluded: the first match in the given order wins.
- The audit log is not modelled.
- Limits of the databases on key sizes and on characters (NUL, invalid UTF-8) are not modelled.
- HTTP, cookies, HTML, configuration merging, LDAP, Kerberos, JWT signing, hashing and encryption are not modelled.
- The database restore swap, the session tables, revocation lists and the unused single-token mark are not modelled.
- PKCE, redirect and client checks before a code exchange, and password policy, are single-branch checks left out as easy.
