# Sidago back end: a verified model

The back end keeps users, sessions and one-time tokens in PostgreSQL, caches lists in Redis, stores uploads under a
local directory and manages organizations, brands, roles and permissions.  This project models the parts of it whose
guarantees no single function shows, and proves those guarantees in Dafny.  `dafny verify dfyconfig.toml` checks all of it.

## What is modelled

**Authentication** (`auth_*.dfy`). One state holds the user, session and action-token tables, the throttle keys in
Redis, the JWTs signed so far and the clock. A request - login, refresh, authorize, logout, logout-all, revoke-one,
forgot and reset password, verify and resend, profile change, admin create, change and removal, both cleanups - is one
atomic step at one instant, and a run is any sequence of requests with any time between them, from any user table with
distinct live addresses; a `Run` lists the states it passes and the answers it gives. `auth_model.dfy` says what each
request does; `auth_services.dfy` holds the services as classes that work on the tables statement by statement, each
method proved to do exactly that. The other files prove what holds over all runs: active owners and present
credentials (`auth_owners.dfy`), single-use rotation as in section 4.14.2 of RFC 9700, replay and write-once
revocation (`auth_rotation.dfy`), accurate activity (`auth_activity.dfy`), the lockout bound (`auth_lockout.dfy`),
single-use action tokens (`auth_action_tokens.dfy`), the address that a verification verifies
(`auth_verification_email.dfy`), distinct addresses (`auth_emails.dfy`), and that cleanup cannot be observed
(`auth_cleanup.dfy`). `auth_effects.dfy` reads off the tables what every request answers and which rows it leaves;
`auth_liveness.dfy` carries that over runs: how long an issued refresh token is good, and how long a deactivated user
stays shut out. Two history fields, the digest a session was opened with and the session that set a user's digest,
exist only to state the credential result; no request reads them.

**Caching** (`versioned_cache.dfy`, `cache_keys.dfy`, `ttl_store.dfy`). Readers and writers of cached namespaces are
interleaved one store access at a time; the freshness theorem is about every interleaving. Cache keys are built as the
code builds them and proved not to collide. The file fallback of the Redis service is compared with a store in which
keys really expire.

**Data transformations.** `user_join.dfy`: the batched role, permission and brand join against the definition for one
user and against the repository's queries. `permission_sync.dfy`: the permission sync and its configured definitions.
`storage_paths.dfy` and `avatar_reference.dfy`: storage keys, paths and avatar references. `catalog.dfy`:
organizations and brands, and `catalog_effects.dfy` what each of their requests answers and stores.
`user_accounts.dfy` and `profile_avatars.dfy` join the account requests with role and brand assignments and with
stored files. `text.dfy` and `wrappers.dfy` have what all share.

Some things that the code's shape suggests are false of it, and the lemmas say exactly when they hold instead: a
verification verifies the address it was sent to unless a profile change failed after issuing it; reads after an
invalidation are fresh if the counter existed or nothing older was left under the default version; updates may put a
brand in another organization than its parent or close a cycle of brands; queries whose texts are not typed may share
a cache key, and company queries exactly when companyType or country can be read two ways; a new avatar's file is lost
if the previous key spelled the same path differently.

## Model

| member | source | states |
|---|---|---|
| AuthOwners.UnrevokedSessionHasActiveOwner | src/modules/users/users.service.ts:176-181 | Over every run of all requests, an unrevoked session belongs to a user who exists, is not deleted and is active. |
| AuthOwners.AdmittedCallerIsActive | src/modules/auth/services/auth-session.service.ts:136-148 | A caller whom the guard admits is an active user, although authorizing never looks at isActive. |
| AuthOwners.InactiveRefreshUnreachable | src/modules/auth/services/auth-session.service.ts:109-112 | No refresh in any reachable state ends in the inactive-account rejection. |
| AuthOwners.UnrevokedSessionKnowsPassword | src/modules/auth/services/account.service.ts:59-74 | Over every run, an unrevoked session was opened with its owner's present password digest, or is the session whose own profile change stored it; requests that fail part-way are included. |
| AuthOwners.CompromisedMeansReuse | src/modules/auth/repositories/user-session.repository.ts:35-57 | A session row carries compromisedAt exactly when its revocation reason is token reuse, and then the two times are equal. |
| AuthOwners.RevokedRowsClosed | src/modules/auth/repositories/user-session.repository.ts:35-57 | After revokeAllForUser nothing of the user is open but the excepted session, for every reason and compromise time; the rows stay well-formed exactly when the time given fits the reason or nothing was there to revoke. |
| AuthOwners.SaveEditedSound | src/modules/users/users.service.ts:176-190 | An admin's edit keeps the session invariants, in whatever combination it changes activity and password, provided deactivation and a new password have closed the user's sessions. |
| AuthOwners.StepSound | src/modules/auth/services/auth-session.service.ts:136-148 | Every request keeps the invariants behind the owner and credential results, from any sound state. |
| AuthEvolution.StepShape | src/modules/auth/services/auth-session.service.ts:84-134 | Every step of the system is, for the session tables, a touch and then revocations, a session opened by a login of an active user, a rotation of a session that passed every check, or revocations and deletions only. |
| AuthEvolution.RunEvolves | src/modules/auth/repositories/user-session.repository.ts:28-57 | Over any run session ids are never reused, revoked rows keep their revocation columns and minted tokens are never taken back. |
| AuthRotation.AcceptedExactly | src/modules/auth/services/auth-session.service.ts:88-112 | A refresh is accepted if and only if the token is signed and unexpired, its session is live and at the token's version, and the owner is active; the bcrypt comparison, which may confuse secrets, decides nothing. |
| AuthRotation.OneRedeemable | src/modules/auth/services/auth-session.service.ts:98-107 | At any time at most one refresh token of a session is redeemable. |
| AuthRotation.MintedVersionsExact | src/modules/auth/services/auth-session.service.ts:116-131 | The refresh tokens minted for a session carry exactly the versions 1 to tokenVersion, with one token each. |
| AuthRotation.AcceptedAtMostOnce | src/modules/auth/services/auth-session.service.ts:94-131 | Over any run a refresh token is accepted at most once. |
| AuthRotation.ReplayClosesAccount | src/modules/auth/services/auth-session.service.ts:98-101 | A stale token for a live session fails, revokes every unrevoked session of that user for token reuse at that moment, and changes no other session row. |
| AuthRotation.NothingUntilLogin | src/modules/auth/services/auth-session.service.ts:261-268 | After a replay no refresh and no guarded request of that user succeeds until a new login. |
| AuthRotation.RevocationWrittenOnce | src/modules/auth/repositories/user-session.repository.ts:28-57 | Time, reason and compromise mark of a revocation are never overwritten by anything later in the run. |
| AuthActivity.ActivityIsAccurate | src/modules/auth/services/auth-session.service.ts:234-249 | After an admitted request the session row is still there and its lastActiveAt lies less than one throttle window back, in any mixture of requests and refreshes. |
| AuthActivity.WritesAreSpaced | src/modules/auth/services/auth-session.service.ts:234-249 | Two writes that touchSession makes for one session are at least one throttle window apart. |
| AuthLockout.StepLock | src/modules/auth/services/auth.service.ts:194-204 | A step that fails a password check of a user adds one to the count and sets the lock from the maxFailedLogins-th failure on; any other step clears the count or leaves count and lock alone. |
| AuthLockout.LockoutBound | src/modules/auth/services/auth.service.ts:53-61 | From count 0 and without a successful login or completed reset, the nth wrong password check comes at least (n - maxFailedLogins) lock periods after check number maxFailedLogins, because an expired lock does not clear the count. |
| AuthActionTokens.AtMostOneOutstanding | src/modules/auth/services/auth-token.service.ts:21-35 | In every reachable state a user has at most one unconsumed action token of a purpose. |
| AuthActionTokens.RawTokenAcceptedAtMostOnce | src/modules/auth/services/auth-token.service.ts:39-47 | Over any run a raw action token is accepted at most once, for whatever purposes it is presented. |
| AuthVerificationEmail.StepMatchesExactly | src/modules/auth/services/account.service.ts:76-132 | From a state where every outstanding verification token carries its user's address, one step leaves such a state if and only if it is not a profile change that issues a token for a new address and is then rejected for its avatar. |
| AuthVerificationEmail.ProfileMatchesExactly | src/modules/auth/services/account.service.ts:46-132 | The same equivalence for updateProfile alone, whatever else the change contains. |
| AuthVerificationEmail.VerifiesAddressSentTo | src/modules/auth/services/auth.service.ts:125-138 | If no profile change of the run issued a token and then failed, a verification marks as verified the address its token was sent to. |
| AuthVerificationEmail.WrongAddressVerified | src/modules/auth/services/account.service.ts:76-118 | In the excepted case, with or without a new password, the issued token verifies the old address while it lasts, although it was sent to another one. |
| AuthVerificationEmail.WrongAddressInRuns | src/modules/auth/services/account.service.ts:76-118 | In every run, a profile change of the excepted kind followed by the verification with its token ends with the old address verified by a token sent to another one; the password may change in the same request. |
| AuthVerificationEmail.WrongAddressRun | src/modules/auth/services/account.service.ts:117-118 | For every configuration a run from one registered user - login, rejected change, verification - that ends so. |
| AuthCleanup.CleanupUnobservable | src/modules/auth/repositories/user-session.repository.ts:81-86 | Runs that differ only in where session and token cleanups occur accept and reject the same requests and issue the same tokens. |
| AuthCleanup.ServeAlike | src/modules/auth/repositories/auth-action-token.repository.ts:52-54 | Two states that agree on live sessions and live tokens answer every request alike and still agree afterwards, also when only one of them cleans up. |
| AuthCleanup.ConsumableAlike | src/modules/auth/services/auth-token.service.ts:39-47 | Which row an action token is accepted for depends on live rows only. |
| AuthEmails.AddressesDistinct | src/modules/users/users.service.ts:227-232 | Over every run, live accounts have distinct e-mail addresses. |
| AuthEmails.StepDistinct | src/modules/users/users.service.ts:149-159 | Every request keeps live addresses distinct, in create, admin change and profile change. |
| AuthEmails.FoundIsOnly | src/modules/auth/repositories/user.repository.ts:26-28 | A lookup by e-mail finds the one live account that has it. |
| AuthLiveness.IssuedTokenWorksExactly | src/modules/auth/services/auth-session.service.ts:116-131 | Over every run: the refresh token of an accepted login or refresh, presented before the session (one session lifetime after that answer) and the token expire, is accepted if and only if the session was neither revoked nor rotated in between. |
| AuthLiveness.AcceptanceRenews | src/modules/auth/services/auth-session.service.ts:119 | Over every run, whatever a login or refresh answers leaves its session open at the version of the new token and expiring one session lifetime from then. |
| AuthLiveness.RefreshAnswersExactly | src/modules/auth/services/auth-session.service.ts:88-112 | Over every run, each answer of a refresh by the token, the session row and its version alone; a refused one that is not a reuse changes nothing. |
| AuthLiveness.DeactivationHolds | src/modules/users/users.service.ts:176-181 | Over every run, an admin change that deactivates a user shuts the user out - no tokens, no refresh, nothing past the guard, logins refused as inactive - until an accepted change activates them. |
| AuthLiveness.OffIsShutOut | src/modules/auth/services/auth.service.ts:49-51 | The same from any state of a run in which the user is switched off. |
| AuthLiveness.RemovalIsFinal | src/modules/users/users.service.ts:206-217 | Over every run, a removed user is never activated again and stays shut out. |
| AuthEffects.LoginAnswersExactly | src/modules/auth/services/auth.service.ts:40-61 | A login gives tokens if and only if some live account has the normalised address, a digest, is active and not locked and the password matches; locked and inactive accounts are refused whatever the password, with no change. |
| AuthEffects.LoginOpens | src/modules/auth/services/auth.service.ts:63-69 | An accepted login clears the failures, stamps the row and opens one session under an unused id, with its expiry and both tokens. |
| AuthEffects.WrongLoginCounts | src/modules/auth/services/auth.service.ts:194-209 | A wrong password adds one to the count and locks for lockMinutes from the maxFailedLogins-th failure on, and changes nothing else. |
| AuthEffects.RefreshRotates | src/modules/auth/services/auth-session.service.ts:116-131 | An accepted refresh moves version, activity, expiry and digest of its session, signs the two tokens, and changes nothing else. |
| AuthEffects.ForgotIssues | src/modules/auth/services/auth.service.ts:141-164 | Forgot-password issues a reset token to the owner of the address, consuming the one outstanding before, and answers alike when there is none. |
| AuthEffects.ForgottenResets | src/modules/auth/services/auth.service.ts:141-171 | A reset with the issued token, while it lasts, is accepted. |
| AuthEffects.ResetAnswersExactly | src/modules/auth/services/auth.service.ts:166-171 | A reset answers Done if and only if the raw token is an unconsumed, unexpired reset token of a user who is not deleted. |
| AuthEffects.ResetStores | src/modules/auth/services/auth.service.ts:173-186 | An accepted reset stores a digest of the new password, clears failures and lock, consumes the token and revokes every open session of the user. |
| AuthEffects.OrphanTokenUsedUp | src/modules/auth/services/auth.service.ts:167-171 | A token whose user is deleted is used up and nothing else happens. |
| AuthEffects.VerifyMarks | src/modules/auth/services/auth.service.ts:125-139 | A verification is accepted exactly for a usable token of a user who is not deleted, and marks that user verified and consumes the token only. |
| AuthEffects.NewPasswordOpens | src/modules/auth/services/auth.service.ts:173-181 | After any accepted request that sets a password - reset, profile change, admin change, create - a login with it is accepted if the user is active and not locked, and one with a text that does not match its digest is not. |
| AuthEffects.StoredPasswordOpens | src/modules/auth/services/auth.service.ts:57-61 | With a digest of a text in the row, a login is accepted if and only if the user is active, not locked and the password matches that digest, which the text itself does. |
| AuthEffects.GuardDecides | src/modules/auth/guards/access-token.guard.ts:20-37 | A guarded request is refused without effect exactly when its token is unsigned or expired or its session is gone, revoked, expired or another user's; otherwise it is handled on the touched rows. |
| AuthEffects.AuthorizeAnswers | src/modules/auth/services/auth-session.service.ts:136-148 | Authorizing answers exactly for a token that the guard lets through. |
| AuthEffects.LogoutCloses | src/modules/auth/services/auth-session.service.ts:150-168 | Logout revokes the session of the token, logout-all every open session of the user. |
| AuthEffects.RevokeOneCloses | src/modules/auth/services/auth-session.service.ts:170-183 | Revoking one session closes the named one if and only if it is the caller's. |
| AuthEffects.ResendIssues | src/modules/auth/services/auth.service.ts:97-123 | A resend issues a verification token for the present address if and only if the user is there and not verified. |
| AuthEffects.ProfileAnswersExactly | src/modules/auth/services/account.service.ts:46-118 | A profile change is accepted if and only if the user is there, the present password is right when a new one is given, a new address is nobody else's and the avatar is not rejected. |
| AuthEffects.ProfileStores | src/modules/auth/services/account.service.ts:55-132 | The row that an accepted profile change leaves, the sessions it closes and the token it issues. |
| AuthEffects.ProfileRejected | src/modules/auth/services/account.service.ts:46-118 | Every rejection of a profile change, and what it has done by then: other sessions closed once the password was right, a token issued once the address was free, no row of a user changed. |
| AuthEffects.CreateAdds | src/modules/users/users.service.ts:119-142 | A create is accepted if and only if the address is free and roles and brands exist, and adds one row with the password, active unless said otherwise. |
| AuthEffects.UpdateAnswersExactly | src/modules/users/users.service.ts:149-199 | An admin change is accepted if and only if the user is there, a new address is nobody else's and roles and brands exist. |
| AuthEffects.UpdateStores | src/modules/users/users.service.ts:152-202 | The row that an accepted admin change leaves - isActive, password and address as sent, else as before - with the sessions it closes and the tokens it drops. |
| AuthEffects.UpdateRejected | src/modules/users/users.service.ts:149-199 | Every rejection of an admin change: with unknown roles or brands the sessions are closed and the tokens dropped already, and the row is as before. |
| AuthEffects.RemoveHides | src/modules/users/users.service.ts:206-217 | A removal is accepted exactly for another user who is there; it deactivates and deletes the row, closes the sessions, and no lookup finds the address. |
| AuthEffects.CleanupsKeepExactly | src/modules/auth/repositories/user-session.repository.ts:81-86 | The cleanups keep exactly the rows that are neither expired nor closed before now. |
| AuthEffects.RunsMeet | src/modules/auth/repositories/user.repository.ts:26-28 | What these results ask of a state - distinct addresses, drawn ids, one outstanding token - holds in every state of every run. |
| AuthServices.AuthDatabase.FindUserByEmail | src/modules/auth/repositories/user.repository.ts:26-28 | Finds the live user with the address, if there is one. |
| AuthServices.AuthDatabase.RevokeSession | src/modules/auth/repositories/user-session.repository.ts:28-33 | Afterwards the row is revoked: as it was if it was revoked before, and now for the given reason otherwise; every other row is as it was. |
| AuthServices.AuthDatabase.RevokeAllFor | src/modules/auth/repositories/user-session.repository.ts:35-57 | No row of the user but the excepted one stays unrevoked; row by row, exactly the unrevoked ones change, in their three revocation columns only. |
| AuthServices.AuthDatabase.CleanupExpiredOrRevoked | src/modules/auth/repositories/user-session.repository.ts:81-86 | A row survives exactly when neither its revocation nor its expiry lies before now, and survivors are unchanged. |
| AuthServices.AuthDatabase.FindActiveByHash | src/modules/auth/repositories/auth-action-token.repository.ts:24-35 | Finds the unconsumed row with the hash and purpose, if there is one. |
| AuthServices.AuthDatabase.InvalidateOutstanding | src/modules/auth/repositories/auth-action-token.repository.ts:41-50 | Every row of the user and purpose ends consumed, at its old time if it had one and now otherwise; all other rows are unchanged. |
| AuthServices.AuthDatabase.CleanupExpiredTokens | src/modules/auth/repositories/auth-action-token.repository.ts:52-54 | A row survives exactly when neither its expiry nor its consumption lies before now, and survivors are unchanged. |
| AuthServices.AuthTokenService.CreateToken | src/modules/auth/services/auth-token.service.ts:15-37 | Consumes outstanding tokens of the purpose, stores a row under a fresh token and returns that token. |
| AuthServices.AuthTokenService.ConsumeToken | src/modules/auth/services/auth-token.service.ts:39-47 | Accepts an unconsumed, unexpired token of the purpose and marks it consumed; otherwise changes nothing. |
| AuthServices.AuthSessionService.Refresh | src/modules/auth/services/auth-session.service.ts:84-134 | Does to the tables and answers what the model of a refresh says, check by check. |
| AuthServices.AuthSessionService.TouchSession | src/modules/auth/services/auth-session.service.ts:234-249 | Writes lastActiveAt and the throttle key unless a live key stops it. |
| AuthServices.AuthSessionService.AuthorizeRequestUser | src/modules/auth/services/auth-session.service.ts:136-148 | Admits exactly the callers that the model admits, and then touches the session; a rejection changes nothing. |
| AuthServices.AuthSessionService.LogoutCurrent | src/modules/auth/services/auth-session.service.ts:150-158 | Does to the tables what the model of a logout says. |
| AuthServices.AuthSessionService.LogoutAll | src/modules/auth/services/auth-session.service.ts:160-168 | Does to the tables what the model of logging out everywhere says, also within a reset. |
| AuthServices.AuthSessionService.RevokeSpecificSession | src/modules/auth/services/auth-session.service.ts:170-183 | Does to the tables and answers what the model of revoking one session says. |
| AuthServices.AuthService.ResendVerificationEmail | src/modules/auth/services/auth.service.ts:97-123 | Does to the tables and answers what the model of a resend says. |
| AuthServices.AuthService.Login | src/modules/auth/services/auth.service.ts:40-75 | Does to the tables and answers what the model of a login says, in the order of its checks. |
| AuthServices.AuthService.VerifyEmail | src/modules/auth/services/auth.service.ts:125-139 | Consumes the token even when its user is gone; otherwise marks the user verified. |
| AuthServices.AuthService.ResetPassword | src/modules/auth/services/auth.service.ts:166-192 | Consumes the token, stores the new digest, clears failures and lock, and revokes every session. |
| AuthServices.UsersService.Remove | src/modules/users/users.service.ts:206-217 | Revokes every session of the user, then deactivates and soft-deletes them; never the caller themself. |
| VersionedCache.StepSound | src/core/cache/cache.service.ts:13-49 | Every interleaved step keeps: counters are at least 1, no page lies under a version not reached, no page or reader shows more writes than were committed. |
| VersionedCache.BumpStartsFresh | src/core/cache/cache.service.ts:41-43 | The INCR of a present counter starts a version under which nothing cached, loaded or answered misses the writer's commit. |
| VersionedCache.FreshStep | src/core/cache/cache.service.ts:13-25 | Freshness from a version on survives every step, late fills by older readers included. |
| VersionedCache.ReadsAreFresh | src/modules/brands/brands.service.ts:153-154 | For every interleaving: if the counter existed, a read that fetches the version after a writer's INCR is answered from a snapshot that shows that write. |
| VersionedCache.BumpMovesVersionExactly | src/core/cache/cache.service.ts:45-50 | An INCR moves the version that readers use if and only if the counter was there before. |
| VersionedCache.LaterReadsFreshExactly | src/core/cache/cache.service.ts:13-50 | Over all continuations: every read that comes after a writer's INCR shows the commit if and only if the counter was there before, or every page and loaded reader under the default version showed it already. |
| VersionedCache.StaleExactly | src/core/cache/cache.service.ts:27-50 | Right after a writer's INCR a read is answered from a page cached before it if and only if the counter was missing and a page lay under the default version. |
| VersionedCache.FirstInvalidationMovesNothing | src/core/cache/cache.service.ts:49 | A concrete run from an empty store in which the first invalidation leaves a stale page in use. |
| CacheKeys.VersionedKeyInjective | src/core/cache/cache.service.ts:56-62 | Equal versioned keys of colon-free namespaces have equal namespace, version and key. |
| CacheKeys.CounterKeyDisjoint | src/core/cache/cache.service.ts:52-62 | A page's key is never a version counter's key. |
| CacheKeys.DecimalInjective | src/core/cache/cache.service.ts:61 | Distinct versions have distinct decimal texts. |
| CacheKeys.InsertionOrderIrrelevant | src/modules/brands/brands.service.ts:256-262 | Queries with the same defined fields get the same key, whatever order the fields were inserted in. |
| CacheKeys.SortedUnique | src/modules/brands/brands.service.ts:259 | A list sorted by distinct names is determined by its elements. |
| CacheKeys.ParseReadsExactly | src/modules/companies/companies.service.ts:283-289 | Reading a key back field by field recovers the query if and only if no value but the last contains a bar. |
| CacheKeys.QueryKeysDoNotCollide | src/modules/organizations/organizations.service.ts:203-209 | Queries of one service whose values before the search text hold no bar are equal if their keys are. |
| CacheKeys.ListEntriesDoNotCollide | src/modules/brands/brands.service.ts:31-33 | Two list queries stored in one cache entry are of the same service, at the same version, and equal, under the same condition. |
| CacheKeys.BrandQueriesDoNotCollide | src/modules/brands/brands.service.ts:30-34 | Two validated brand list queries in one cache entry are equal and of one version, whatever order their properties came in. |
| CacheKeys.OrganizationQueriesDoNotCollide | src/modules/organizations/organizations.service.ts:29-33 | The same for validated organization list queries. |
| CacheKeys.CompanyKeySharedExactly | src/modules/companies/companies.service.ts:27-31 | A validated company query shares its key with another validated one if and only if its companyType or country is followed by a present field, or ends in a bar, a later field's name, a colon and a text that field may have. |
| CacheKeys.KeySharedExactly | src/modules/companies/companies.service.ts:283-289 | Over values of any texts, what serializeCacheKey gives one query it gives another of the same fields if and only if two fields are present, or the only value holds a bar, a later field's name and a colon. |
| CacheKeys.SharesExactly | src/modules/companies/companies.service.ts:283-289 | The same equivalence for any distinct colon-free field names. |
| CacheKeys.CompanyKeysCollide | src/modules/companies/companies.service.ts:283-289 | Two different company queries with the same key: a company type that holds a bar. |
| TtlStore.StepAgreesExactly | src/core/redis/redis.service.ts:53-122 | One operation of the file fallback agrees with a store with real expiry, in reply and in live entries, if and only if it is not an increment of a live key that has an expiry or holds no number. |
| TtlStore.FallbackRefinesStore | src/core/redis/redis.service.ts:136-154 | Over every sequence of other operations with any times between them the replies are those of a map in which expired entries are absent. |
| TtlStore.LocksAreSpaced | src/core/scheduler/scheduler.service.ts:8-10 | Two successful lock claims on one key are at least the first one's ttl apart, if nobody sets or deletes that key. |
| TtlStore.RedisService.ReadFallbackEntry | src/core/redis/redis.service.ts:136-154 | Returns a live entry and deletes an expired one. |
| TtlStore.RedisService.Set | src/core/redis/redis.service.ts:53-59 | From now on the key holds the value until the ttl has run out, for ever when the ttl is missing or zero; no other key changes. |
| TtlStore.RedisService.Get | src/core/redis/redis.service.ts:70-74 | Replies with the live value and deletes it if expired. |
| TtlStore.RedisService.Del | src/core/redis/redis.service.ts:79-83 | The key has no entry afterwards, and no other key changes. |
| TtlStore.RedisService.Incr | src/core/redis/redis.service.ts:88-94 | Stores and returns the successor of the live value, without expiry. |
| TtlStore.RedisService.SetIfNotExists | src/core/redis/redis.service.ts:99-115 | Claims the key exactly when no live entry is there. |
| TtlStore.SchedulerService.AcquireLock | src/core/scheduler/scheduler.service.ts:8-10 | The lock is acquired exactly when the key has no live entry. |
| TtlStore.CacheService.Remember | src/core/cache/cache.service.ts:8-25 | Returns a live entry that parses and keeps the store's live entries; otherwise returns the computed value and stores it with the ttl. |
| TtlStore.CacheService.RememberVersioned | src/core/cache/cache.service.ts:27-39 | Is a read under the key built from the namespace's live counter, or 1. |
| TtlStore.CacheService.InvalidateNamespace | src/core/cache/cache.service.ts:41-43 | Increments the namespace's counter and nothing else. |
| UserJoin.SerializeUsers | src/modules/users/users.service.ts:336-432 | For every list of users the batched queries and loops give each user the view that the whole tables give them alone. |
| UserJoin.CollectRolePermissions | src/modules/users/users.service.ts:381-388 | The first loop gives each role the codes of its permissions, leaving out missing rows and empty codes. |
| UserJoin.CollectRoles | src/modules/users/users.service.ts:390-403 | The second loop gives each user the codes of their existing roles and what those grant. |
| UserJoin.CollectBrands | src/modules/users/users.service.ts:405-409 | The third loop gives each user their brand ids. |
| UserJoin.SerializeUser | src/modules/users/users.service.ts:411-431 | Builds one user's object from the collected maps. |
| UserJoin.FetchedView | src/modules/users/users.service.ts:341-374 | The rows that the IN queries fetch determine each listed user's view. |
| UserJoin.ViewMeans | src/modules/users/users.service.ts:424-428 | A view holds each role code once, the non-empty permission codes strictly increasing, and each brand once: exactly those that the tables relate to the user. |
| UserJoin.FirstOccurrencesInOrder | src/modules/users/users.service.ts:425-429 | Lists without repetitions keep the order of first occurrence. |
| UserJoin.ViewInOrder | src/modules/users/users.service.ts:376-429 | A view lists role codes and brands in the order in which the assignment rows first give them. |
| UserJoin.RoleCodesAgree | src/modules/auth/repositories/user.repository.ts:38-54 | The role codes are those of getRoleCodes, for all tables. |
| UserJoin.PermissionCodesAre | src/modules/auth/repositories/user.repository.ts:56-79 | The permission codes are those of getPermissionCodes on the assignments of existing roles, the empty code left out, for all tables. |
| UserJoin.PermissionCodesAgree | src/modules/auth/repositories/user.repository.ts:56-79 | They agree with getPermissionCodes if and only if every code granted through an assigned role id is non-empty and also granted through an assigned role that has a row. |
| UserJoin.AgreeWithAllRows | src/modules/auth/repositories/user.repository.ts:56-79 | So they agree when every assigned role has a row and no code is empty. |
| UserJoin.MissingRoleRowDisagrees | src/modules/users/users.service.ts:394-400 | Tables with an assigned role without a row, on which the two differ. |
| UserJoin.ResolvesExactly | src/modules/users/users.service.ts:234-255 | Role ids resolve if and only if each, once trimmed, is blank or known, and then to each such id once. |
| UserJoin.SyncedRolesShown | src/modules/users/users.service.ts:279-301 | After the roles of a user are replaced, the user is shown with exactly their codes and everybody else as before. |
| UserJoin.SyncedBrandsShown | src/modules/users/users.service.ts:303-321 | After the brands of a user are replaced, the user is shown with them, each once and in order, and everybody else as before. |
| UserJoin.UserTables.SyncUserRoles | src/modules/users/users.service.ts:279-301 | Deletes the user's assignments and saves one per role. |
| UserJoin.UserTables.SyncUserBrands | src/modules/users/users.service.ts:303-321 | Deletes the user's mappings and saves one per distinct brand. |
| PermissionSync.SyncConverges | src/database/seeders/helpers/sync-permissions.helper.ts:26-75 | After a sync every definition has its row, existing rows keep their ids, rows with other codes are untouched, and codes stay unique. |
| PermissionSync.DefinedRoleHasExactly | src/database/seeders/helpers/sync-permissions.helper.ts:81-101 | After a sync a defined role has exactly its listed permissions, whatever it had before. |
| PermissionSync.UndefinedRoleUntouched | src/database/seeders/helpers/sync-permissions.helper.ts:81-87 | A sync does not change the permissions of a role that is not defined. |
| PermissionSync.SyncAgain | src/database/seeders/helpers/sync-permissions.helper.ts:11-102 | A second sync changes nothing. |
| PermissionSync.UpsertUniqueExactly | src/database/seeders/helpers/sync-permissions.helper.ts:19-44 | A pass keeps codes unique if and only if no two definitions share a code that was not there, because the map of existing rows is read once. |
| PermissionSync.CodeInjective | src/config/permission.config.ts:116-124 | A code of the form module.action with a dot-free module determines both. |
| PermissionSync.DefinitionsDistinct | src/config/permission.config.ts:51-63 | Codes built from distinct dot-free modules with distinct actions are pairwise distinct. |
| PermissionSync.ConfigurationDistinct | src/config/permission.config.ts:1-28 | The configured modules and roles meet what the sync needs. |
| PermissionSync.RoleLists | src/config/permission.config.ts:66-114 | Each role definition lists exactly the permissions that the role is for. |
| PermissionSync.ConfiguredRoleHas | src/config/permission.config.ts:76-114 | After a sync with the configured definitions a role has a permission if and only if the role is for it. |
| PermissionSync.ConfiguredLinks | src/config/permission.config.ts:66-114 | After such a sync the row with code module.action of any listed module and action is linked to both administrator roles, to the auditor if and only if the action is read, to the agent if and only if the module is call, call_log or lead_manual_update, and to the manager if and only if it is none of these. |
| PermissionSync.ConfiguredLinksExactly | src/config/permission.config.ts:76-114 | A configured role is linked to a permission if and only if the permission has the code of a listed module and action that the role is for; so nothing else is linked. |
| PermissionSync.ConfiguredRowsThere | src/config/permission.config.ts:51-63 | After such a sync every listed action has a row with its module and action, and each of the five roles has one. |
| PermissionSync.AgentsAndManagersApart | src/config/permission.config.ts:66-104 | After such a sync the agent and the manager role share no permission. |
| PermissionSync.PermissionDatabase.SyncPermissionRows | src/database/seeders/helpers/sync-permissions.helper.ts:19-44 | The permission loop computes the pass over the definitions. |
| PermissionSync.PermissionDatabase.SyncRoleRows | src/database/seeders/helpers/sync-permissions.helper.ts:53-75 | The role loop computes the pass over the definitions. |
| PermissionSync.PermissionDatabase.SyncRolePermissions | src/database/seeders/helpers/sync-permissions.helper.ts:81-101 | The third loop rewrites the rows of each defined role. |
| PermissionSync.PermissionDatabase.SyncPermissions | src/database/seeders/helpers/sync-permissions.helper.ts:11-103 | The whole sync, as the three loops in order. |
| StoragePaths.AcceptsExactly | src/core/storage/drivers/local-storage.driver.ts:71-81 | For a root other than / a key is accepted if and only if its dot-normalised segments have the root's segments as a prefix, and resolves to those segments. |
| StoragePaths.StartsWithRoot | src/core/storage/drivers/local-storage.driver.ts:76 | The string test with a separator on normalised paths is the proper-prefix test on segments. |
| StoragePaths.RootOnlyItself | src/core/storage/drivers/local-storage.driver.ts:74-76 | Under the root / only the root itself is accepted. |
| StoragePaths.ResolvedIsClean | src/core/storage/drivers/local-storage.driver.ts:13-16 | Every resolved directory is a normalised path, as the other results ask of the root. |
| StoragePaths.SameFileExactly | src/core/storage/drivers/local-storage.driver.ts:71-81 | Two accepted keys name one file if and only if they denote the same segments. |
| StoragePaths.PutThenRead | src/core/storage/drivers/local-storage.driver.ts:22-65 | After a put, a read by any spelling of the path gives the body and any other read what it gave before; a delete removes the file under every spelling. |
| StoragePaths.SpellingsAgree | src/core/storage/drivers/local-storage.driver.ts:83-85 | Backslashes, leading slashes and a leading dot segment do not change what a key denotes. |
| StoragePaths.NormalizeKeyIdempotent | src/core/storage/drivers/local-storage.driver.ts:83-85 | A normalised key is its own normal form. |
| StoragePaths.EscapeRejected | src/core/storage/drivers/local-storage.driver.ts:76-78 | A key of the form ../name is rejected if and only if it does not lead back to the root's own name. |
| StoragePaths.LocalStorageDriver.Put | src/core/storage/drivers/local-storage.driver.ts:22-36 | Stores the body under the resolved path and reports normalised key and URL; rejects keys outside the root without effect. |
| StoragePaths.LocalStorageDriver.Delete | src/core/storage/drivers/local-storage.driver.ts:38-48 | Removes the file; a missing file is no error. |
| StoragePaths.LocalStorageDriver.Read | src/core/storage/drivers/local-storage.driver.ts:63-65 | Says outside exactly when the key's segments leave the root, and otherwise the body stored at those segments or that there is none. |
| StoragePaths.LocalStorageDriver.Exists | src/core/storage/drivers/local-storage.driver.ts:50-61 | Says whether a file is stored, and rejects keys outside the root. |
| AvatarReference.UploadedAvatarAccepted | src/modules/media/media.service.ts:17-32 | For a trimmed base URL that starts with a slash and is more than slashes, key and URL of an upload are both stored as the key for the uploader and rejected for every other user. |
| AvatarReference.KeyRoundTripExactly | src/modules/auth/services/account.service.ts:164-175 | A stored key is read as itself if and only if the base URL without trailing slashes is not a leading directory of it. |
| AvatarReference.UrlRoundTripExactly | src/modules/auth/services/account.service.ts:164-175 | The URL of a stored key is read as the key if and only if the base URL is not just slashes and is either already normal but for trailing slashes or blank up to slashes. |
| AvatarReference.OwnedByOne | src/modules/auth/services/account.service.ts:151-154 | A key passes the owner-prefix test for its owner and for no other slash-free user id. |
| AvatarReference.ReferenceAnswers | src/modules/auth/services/account.service.ts:140-162 | A reference clears the avatar if and only if it is blank, spaces around it do not matter, and what is accepted is a stored key under the user's own prefix. |
| AvatarReference.FolderMeans | src/modules/media/media.service.ts:20 | An upload folder is the one sent without the spaces and slashes around it, and uploads if none or a blank one was sent. |
| AvatarReference.StoredKey | src/modules/media/media.service.ts:20-24 | The key that the driver reports begins with the uploader's prefix and does not end in white space. |
| UserAccounts.CreateShows | src/modules/users/users.service.ts:119-147 | An accepted create shows the new user with exactly the codes of the listed roles and the listed brands, and nobody else differently; a rejected one changes no table. |
| UserAccounts.UpdateShows | src/modules/users/users.service.ts:149-204 | An accepted update shows the listed roles and brands; a rejected one leaves the assignments alone, except that one rejected for its brands has replaced the roles already. |
| UserAccounts.CreateStores | src/modules/users/users.service.ts:119-142 | A create is accepted if and only if the address is free and every listed role and brand exists, and then adds the account with what was sent. |
| UserAccounts.UpdateStores | src/modules/users/users.service.ts:149-202 | An update is accepted if and only if the user is there, a new address is nobody else's and every listed role and brand exists, and then leaves the row with what was sent and closes the sessions it must. |
| UserAccounts.UsersService.Create | src/modules/users/users.service.ts:119-147 | Resolves role and brand ids, creates the user and writes the assignments of an accepted request. |
| UserAccounts.UsersService.Update | src/modules/users/users.service.ts:149-204 | Resolves the ids, applies the account part, and writes roles before brands are looked at. |
| ProfileAvatars.PreviousFileGoneExactly | src/modules/auth/services/account.service.ts:117-123 | The previous avatar's file is gone if and only if an accepted change replaced its key, by another or by none. |
| ProfileAvatars.NewAvatarKeptExactly | src/modules/auth/services/account.service.ts:117-125 | After an accepted avatar change the new avatar's file is there if and only if the previous key is not another spelling of the same path. |
| ProfileAvatars.OtherFilesKept | src/modules/auth/services/account.service.ts:121-123 | A profile change loses no file at another path than the previous avatar's, whatever its outcome. |
| ProfileAvatars.DotSpellingLosesFile | src/modules/auth/services/account.service.ts:117-125 | A user with a stored avatar who sends the same path with a dot segment is answered with that key, and after the accepted change its file is gone. |
| ProfileAvatars.DotSpelling | src/modules/auth/services/account.service.ts:151-154 | The two keys differ, both pass the owner test and denote one path. |
| ProfileAvatars.DeletesInOwnDirectoryExactly | src/modules/auth/services/account.service.ts:121-123 | The path that is deleted lies in the user's own directory if and only if the segments of the previous key lead there. |
| ProfileAvatars.OwnerPrefixLeads | src/modules/auth/services/account.service.ts:151-154 | A plain key under the owner prefix leads into the user's own directory, one that goes on with a double dot into the directory it names: the owner test compares texts only. |
| ProfileAvatars.KeysInsideRun | src/modules/auth/services/account.service.ts:117-132 | Over every run, whatever files come and go, stored avatar keys stay under the storage root, so deleting a previous avatar does not throw. |
| ProfileAvatars.KeysStayInside | src/modules/auth/services/account.service.ts:117-132 | One profile change keeps stored avatar keys under the storage root. |
| ProfileAvatars.OthersKeepKeysInside | src/modules/users/users.service.ts:119-217 | One step of any other request keeps them there, since none sets an avatar. |
| ProfileAvatars.ProfileService.UpdateProfile | src/modules/auth/services/account.service.ts:46-139 | Resolves the avatar against the stored files, applies the profile change and deletes the replaced file; what then is stored follows the equivalence above. |
| Catalog.IntegrityKept | src/modules/organizations/organizations.service.ts:138-152 | Over every run of both services: a live brand's organization is live, live codes are normalised and pairwise distinct in each table, and no brand is its own parent. |
| Catalog.OrganizationStepSound | src/modules/organizations/organizations.service.ts:90-152 | Every organization operation keeps these invariants. |
| Catalog.BrandStepSound | src/modules/brands/brands.service.ts:93-162 | Every brand operation keeps these invariants. |
| Catalog.SavedBrandHasGoodParent | src/modules/brands/brands.service.ts:194-226 | A brand just created or updated has no parent, or a live one of the same organization that is not itself. |
| Catalog.ParentsTogetherExactly | src/modules/brands/brands.service.ts:126-138 | A request keeps brands in their parents' organizations if and only if it does not move a brand with live children. |
| Catalog.UpdateAcyclicExactly | src/modules/brands/brands.service.ts:134-142 | An accepted update keeps the brands free of cycles if and only if climbing from the new parent does not reach the brand. |
| Catalog.OthersKeepAcyclic | src/modules/brands/brands.service.ts:93-110 | Every other request keeps the brands free of cycles. |
| Catalog.CycleReachable | src/modules/brands/brands.service.ts:202-224 | A run of accepted requests that ends in a cycle. |
| CatalogEffects.CreateOrganizationExactly | src/modules/organizations/organizations.service.ts:90-102 | A create is accepted if and only if no live organization has the normalised code, and adds that row. |
| CatalogEffects.UpdateOrganizationExactly | src/modules/organizations/organizations.service.ts:107-133 | Every answer of an update; an accepted one leaves the row live under the code sent, or the old one if none or an empty one was. |
| CatalogEffects.RemoveOrganizationExactly | src/modules/organizations/organizations.service.ts:138-150 | A removal is accepted if and only if the organization is live and has no live brand, and takes it, and nothing else, out of the live rows. |
| CatalogEffects.CreateBrandExactly | src/modules/brands/brands.service.ts:93-107 | Every answer of a create, in the order of the checks, and the row that an accepted one adds. |
| CatalogEffects.UpdateBrandExactly | src/modules/brands/brands.service.ts:112-153 | An update is accepted if and only if the row it would make - parent kept, cleared or replaced, code and organization as sent - has a free code, moves to a live organization if at all and fits its parent; then that row is stored. |
| CatalogEffects.RemoveBrandExactly | src/modules/brands/brands.service.ts:158-162 | A removal is accepted exactly for a live brand, which stays as a row that is no longer live. |
| Catalog.EnsureCodeIsUnique | src/modules/brands/brands.service.ts:174-182 | Passes exactly when no other live row has the normalised code. |
| Catalog.OrganizationsService.Create | src/modules/organizations/organizations.service.ts:90-105 | Creates an organization under a normalised, free code. |
| Catalog.OrganizationsService.Update | src/modules/organizations/organizations.service.ts:107-136 | Changes the code if it is new, not empty and free. |
| Catalog.OrganizationsService.Remove | src/modules/organizations/organizations.service.ts:138-152 | Removes an organization that no live brand belongs to. |
| Catalog.BrandsService.ValidateParentBrand | src/modules/brands/brands.service.ts:194-226 | Accepts exactly no parent or a live other brand of the organization; not-found is exactly a given other parent that is not live, anything else is a bad request. |
| Catalog.BrandsService.Create | src/modules/brands/brands.service.ts:93-110 | Creates a brand after the code, organization and parent checks, in that order. |
| Catalog.BrandsService.Update | src/modules/brands/brands.service.ts:112-156 | Updates a brand, checking again a parent that is kept. |
| Catalog.BrandsService.Remove | src/modules/brands/brands.service.ts:158-162 | Removes a live brand. |
| Text.NormalizeIdempotent | src/modules/brands/brands.service.ts:243-245 | Normalising a code twice is normalising it once, so a stored code equals its own normal form. |
| Text.TrimIgnoresSpaces | src/modules/auth/services/auth.service.ts:41 | Spaces around a text do not matter to trimming. |
| Text.BlankExactly | src/modules/auth/services/account.service.ts:141-144 | A text is trimmed to nothing if and only if it holds spaces only. |
| Text.TrimIsTrimmed | src/modules/auth/services/auth.service.ts:41 | Trimming leaves no white space at either end and nothing to trim again. |

## Left out

- Interleaved requests on the authentication tables: the services read a row and save it later without a transaction,
  so each request is one atomic step here, and all its `new Date()` calls give the same instant.
- Failures of the database, mail, audit log, queue and sockets in the middle of a request; only the exceptions that the
  services throw themselves are modelled, with what they leave behind.  The unique index on codes, which also sees
  soft-deleted rows, is such a failure.
- AuthOwners.UnrevokedSessionKnowsPassword: says nothing of a database failure between the two writes of a password
  reset, which saves the new digest before it revokes the sessions.
- VersionedCache.ReadsAreFresh: assumes an atomic INCR and a counter that is never evicted, and one database read per
  computed page.
- Mail, audit and websocket calls, device metadata, names and other plain columns, pagination, listings and their
  search filters, Swagger, guards other than the access-token check.
- JWT signatures, bcrypt, SHA and random ids: a token is valid when it is a member of the set of signed tokens, a digest
  remembers its secret and `compare` is any relation that accepts a digest's own secret, hashes are injective, ids are
  fresh numbers.
- The parsing of the refresh lifetime: the configuration holds the resulting number.
- Session listing, the answer of revoke-one and error texts in the cleanup theorem: these do see deleted rows.
- Lower case beyond A to Z, and `localeCompare` on names other than the query fields in use, where it is code-unit order.
- The non-atomic INCR of the file fallback under interleaving, the eviction of version counters, and cached texts that
  no longer parse, in the interleaved cache model; `TtlStore.CacheService.Remember` covers the last.
- Texts that `Number()` reads in unusual ways: a stored value is a number, or text, or NaN.
- Directories in the storage driver: files are a map from paths, so a key that resolves to a directory is not told apart.
- The URL parser of the platform: any parser that rejects values with a slash before the first colon.
- The existence checks of roles, brands and avatar files inside `auth_services.dfy`, whose requests carry their results;
  `user_accounts.dfy` and `profile_avatars.dfy` put the checks and the rows and files that go with them beside it.
- The length limits on the texts of a list query; `CacheKeys.CompanyKeySharedExactly` is over texts of any length.
- The companies service but for its query keys and the cache protocol: its writes repeat the organization pattern.
- A null organization id in a brand update: the request type allows only a string.
- The order of rows that the database returns: role lists follow the order of the assignment rows given, role ids the
  order of the request.
- The display texts of permissions, which are computed from module and action.
