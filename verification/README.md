# Verified model of the cosmarden agent and its browser extension

cosmarden keeps a Bitwarden-compatible vault in a background agent. Clients talk to the agent over
sockets, `ssh` uses it as an SSH agent, and a browser extension reaches it through a native
messaging host. This project models the parts of that system where many things can happen at once
or where several representations must agree, and proves what they promise.

- **Session tokens** (`TokenRefresh`, `TokenSafety`, `TokenHistory`, `TokenRuns`): any number of requests, unlocks and
  logins share one token pair, one envelope on disk and one `refresh_lock`. The agent runs on a
  current-thread runtime, so a step is what one task does between two awaits.
- **Lock order** (`LockOrder`): the two mutexes of all handlers together, with the keyring on or off.
- **Shared state** (`Entries`, `Sidebar`, `AgentState`, `AgentRuns`): entry decryption, the caches built
  from it, the class `State` with its operations, and every run over it: session value, caches, SSH
  identities, event streams and the lock epoch.
- **SSH sign waiters** (`SignWait`) and **autolock** (`Autolock`): waiting with a deadline, and locking
  neither early nor late.
- **Keys and formats** (`Bytes`, `Base64`, `Locked`, `Cipher`, `CipherText`, `Vault`, `Envelope`, `Dirs`,
  `EndToEnd`): CBC with PKCS#7 padding, cipher strings, the key hierarchy, the session envelope, and
  cache file names.
- **Host matching** (`Strings`, `Domain`).
- **Browser extension** (`NativePort`, `BrowserHost`, `PendingSave`): the request queue over the native
  port, the host's framing, and the save prompt.

A class or a method with a loop stands where the source changes things in place; each is specified by
a function on values, and the properties are proved of those functions. Concurrent code is a state
machine whose steps are the segments between awaits. Block cipher, MAC, RSA, AEAD, key derivation, text
encoding, JSON, URL parsing, SSH key parsing and the Public Suffix List are arbitrary functions; the
laws used of them are named predicates (`Cipher.Lawful`, `Envelope.Correct`, `Envelope.Authentic`), of
which `Cipher.LawfulHasInstance` and `Envelope.CorrectHasInstance` give instances.

## Where the code differs from what it says

- The comment on `refresh_lock` (`crates/cosmarden-agent/src/state.rs:89-94`) promises that one
  single-use refresh token is not spent twice. The unlock handlers restore a session without taking
  that lock, a login saves its token before it installs it, and an answer can be lost. Each of the three
  makes a replay possible. `TokenSafety.CarefulRunsNeverReplay` and `TokenRuns.CarelessStepsCanReplay`
  give the exact condition.
- One access token can be renewed more than once, because the check of the access token and the read of
  the refresh token are separate looks at the state (`crates/cosmarden-agent/src/server/auth.rs:147-170`).
  `TokenSafety.OneRenewalPerAccessToken` and `TokenRuns.RereadingRenewsTwice` give the exact condition, and
  `TokenHistory.RereadFollowsALock` shows that it takes a lock or a logout.
- The restores that requests run exclude each other, but unlocks run theirs without the lock, and a
  token that never reached the envelope is spent again. `TokenHistory.RestoresReplayExactly` gives the
  exact condition.
- A sync that cannot read its configuration half-way replaces the entries and skips the rebuild
  (`crates/cosmarden-agent/src/handler/vault/sync.rs:57-72`), so the caches are stale until
  the next unlock, login, sync, edit, lock or logout, and a key that can sign may be refused after a lock.
- An unlock installs the keys before its request counts as activity, so the vault can be unlocked beyond
  the bound from the last activity: exactly when it is unlocked while the timer sleeps beyond that bound
  (`Autolock.OutlivesExactly`, `Autolock.UnlockOutlivesBound`). The comments that speak of a check
  every five minutes (`crates/cosmarden-agent/src/lib.rs:203`, `crates/cosmarden-agent/src/lib.rs:416`) are
  out of date: the cap is 30 seconds.
- When opening the native port throws, the promise is rejected but its request stays queued and is sent
  with the next one (`browser-extension/background.js:35-55`).
- A save-prompt task that is still waiting can write its older copy over a newer submission
  (`browser-extension/background-save.js:78-128`, `PendingSave.OlderSubmissionCanBeSaved`).
- The comment on `host_from_uri` promises to strip the port (`crates/cosmarden-core/src/domain.rs:18-21`);
  an IP literal keeps it. `http://[::1]:8080/` is stored as `[::1]:8080`, which does not match the `[::1]`
  of the page (`Domain.HostRoundTrip`, `Domain.LiteralWithPortIsLost`).
- The native host's comment says native byte order; the code reads and writes little-endian lengths
  (`crates/cosmarden-agent/src/browser_host.rs:13-23`).

## Model

| member | source | states |
|---|---|---|
| `TokenSafety.RefreshTokensAreSingleUse` | crates/cosmarden-agent/src/server/auth.rs:135-236 | over every interleaving, a 401-arm exchange never has in flight a refresh token another answered 401-arm exchange rotated away; it has a spent one exactly when a restore spent it or an answer was lost; a rotated-away token is in memory only while the lock holder is about to overwrite it |
| `TokenSafety.CarefulRunsNeverReplay` | crates/cosmarden-agent/src/server/auth.rs:84-236 | if no restore loads a token that an exchange has in flight or a login has saved but not installed, and no answer is lost while its old token is in memory, no spent token is ever submitted by the 401 arm, whoever spent it |
| `TokenRuns.CarelessStepsCanReplay` | crates/cosmarden-agent/src/handler/auth/unlock.rs:139-149 | that condition is exact: from every reachable state, a step that breaks it can be continued to a replay |
| `TokenRuns.UnlockCanReplayAnExchange` | crates/cosmarden-agent/src/handler/auth/unlock.rs:139-149 | a concrete run: lock and unlock during an exchange, and the unguarded restore spends the token in flight |
| `TokenRuns.LoginCanInstallASpentToken` | crates/cosmarden-agent/src/handler/auth/login.rs:171-213 | a concrete run: a restore spends the token a login has saved and not yet installed |
| `TokenRuns.LostAnswerIsReplayed` | crates/cosmarden-agent/src/server/auth.rs:172-235 | a concrete run: after a lost answer the next 401 submits the spent token |
| `TokenSafety.DeadStaysDead` | crates/cosmarden-agent/src/server/auth.rs:172-229 | a refresh token that has left memory and is not in flight never comes back to memory or to an exchange, whatever step follows |
| `TokenSafety.OneRenewalPerAccessToken` | crates/cosmarden-agent/src/server/auth.rs:142-171 | however many tasks get a 401 on one access token, at most one answered exchange renews it, unless a task reads the refresh token for an access token that has been renewed and is no longer in memory |
| `TokenHistory.RenewedOnceWithoutLocks` | crates/cosmarden-agent/src/server/auth.rs:142-160 | without a lock or a logout no access token is ever renewed twice: a task that waited while another renewed its token retries with the new one |
| `TokenHistory.RereadFollowsALock` | crates/cosmarden-agent/src/server/auth.rs:147-170 | in every run such a read is preceded by a lock or a logout that came after the access token was installed |
| `TokenRuns.RereadingRenewsTwice` | crates/cosmarden-agent/src/server/auth.rs:155-172 | that condition is exact: from every reachable state such a read, and the answer to its exchange, renew an access token a second time |
| `TokenHistory.RestoresReplayExactly` | crates/cosmarden-agent/src/server/auth.rs:99-131 | in every run, a step puts a spent token in flight for a restore exactly when a restore loads the envelope after it was left with a spent token and not written or deleted since, or when the token a restore has in flight is accepted for another task |
| `TokenHistory.EnvelopeIsSpentExactly` | crates/cosmarden-agent/src/session_store.rs:40-65 | in every run, the envelope holds a spent token exactly when an exchange of the very token in it was accepted, or a spent token was written to it from memory, and nothing has written or deleted it since; the token of a login is never spent when it is saved |
| `TokenHistory.InstalledTokenIsUsed` | crates/cosmarden-agent/src/server/auth.rs:99-131 | once a token is in memory, whatever comes before the next lock or logout, it or a later one stays there, nothing loads the envelope, and a request that waited for its turn to restore goes ahead with the token it finds |
| `TokenHistory.RestoresAreShared` | crates/cosmarden-agent/src/server/auth.rs:99-131 | of two restores that load the envelope without a lock or logout between them, the first had installed no token by then: requests do not each spend a restore |
| `TokenSafety.GuardedRestoresAreAlone` | crates/cosmarden-agent/src/server/auth.rs:99-131 | of the restores that concurrent requests run at most one is ever in flight |
| `TokenRuns.TwoUnlocksReplay` | crates/cosmarden-agent/src/handler/auth/unlock.rs:139-149 | a concrete run: two unlocks restore at once and submit the same token |
| `TokenRuns.UnpersistedRestoreReplays` | crates/cosmarden-agent/src/session_store.rs:40-65 | concrete runs: the new token of a restore never reaches the envelope, because the write fails or the vault is locked before it, and the next restore submits the spent one |
| `TokenSafety.RenewalsAndRetries` | crates/cosmarden-agent/src/server/auth.rs:144-170 | in every run: an exchange that read its refresh token under the rejected access token is the first for it, a waiting task retries instead of renewing exactly when it finds another access token in memory, that one was installed after its own, and no task retries with the token that was rejected |
| `TokenHistory.RefusedWithoutRefreshToken` | crates/cosmarden-agent/src/server/auth.rs:162-170 | a rejected task fails with "no refresh token" only if a lock, a logout or a login without a refresh token came after its access token was installed, or there has been no refresh token in memory ever since that |
| `TokenHistory.RefreshIsHeldExactly` | crates/cosmarden-agent/src/server/auth.rs:162-229 | in every run, memory holds a refresh token exactly when an answer with one was stored and no lock, logout or login without one has come since; a 401 and a failed exchange take none away |
| `TokenRuns.RenewsAcrossALock` | crates/cosmarden-agent/src/server/auth.rs:147-170 | how such a read comes about: from every reachable state with the lock free and a database and envelope present, a waiting task renews its access token, whatever has been renewed before, when its check falls into a locked period and its read after the next restore |
| `TokenRuns.OneAccessTokenCanBeRenewedTwice` | crates/cosmarden-agent/src/server/auth.rs:147-170 | a concrete run from the start in which one access token is renewed twice |
| `TokenSafety.NoTaskBlocksForever` | crates/cosmarden-agent/src/server/auth.rs:99-142 | a task is blocked only while another holds `refresh_lock`; that holder can run, never waits for the lock itself, and releases it after at most six segments |
| `TokenRuns.RequestRestoresSession` | crates/cosmarden-agent/src/server/auth.rs:83-131 | from every reachable state with the lock free, a request of an unlocked vault without a token restores the session from the envelope and goes out with the new token, and the new refresh token is in the envelope |
| `TokenRuns.RejectedRequestRenews` | crates/cosmarden-agent/src/server/auth.rs:133-236 | from every such state a rejected request renews, stores and persists, retries with the new access token under the lock and releases it; a refresh token that the server keeps is kept |
| `TokenRuns.UnlockRestoresSession` | crates/cosmarden-agent/src/handler/auth/reauth.rs:143-178 | an unlock restores from the envelope, and with the password when there is no envelope or its token is refused |
| `TokenRuns.UnlockKeepsTokens` | crates/cosmarden-agent/src/handler/auth/unlock.rs:139-149 | an unlock that finds tokens in memory spends nothing and persists the refresh token |
| `TokenRuns.LoginInstallsSession` | crates/cosmarden-agent/src/handler/auth/login.rs:171-213 | from every reachable state a login replaces the session in memory and in the envelope |
| `TokenRuns.LoginWithoutRefreshToken` | crates/cosmarden-agent/src/handler/auth/login.rs:171-213 | a login that is granted no refresh token leaves the envelope alone and memory without one |
| `TokenRuns.KeptRestoreSpendsNothing` | crates/cosmarden-agent/src/handler/auth/reauth.rs:143-178 | a restore whose refresh token the server keeps, and a password grant without one, spend nothing and leave the envelope alone |
| `TokenRuns.FailuresReleaseTheLock` | crates/cosmarden-agent/src/server/auth.rs:83-236 | every await of a task: which answers it takes, and that a failure ends the task, or falls back on the password, releases `refresh_lock` if it was held, and changes nothing else but to spend a token whose answer was lost |
| `TokenRuns.RequestsWithoutSession` | crates/cosmarden-agent/src/server/auth.rs:83-131 | requests that have no session to use end at once, and leave `refresh_lock` free |
| `TokenRuns.LocksEndTheSession` | crates/cosmarden-agent/src/state.rs:260-317 | a lock takes keys and tokens, a logout the database as well, neither touches envelope, tasks or `refresh_lock`, and the next request fails at once |
| `LockOrder.NoDeadlock` | crates/cosmarden-agent/src/server/auth.rs:41-229 | in every reachable state of any number of disciplined tasks, the holder of the state mutex can run and does not await the watch channel, the timer or the network, and a blocked task leads in at most two steps to one that can run |
| `LockOrder.HandlersAreDisciplined` | crates/cosmarden-agent/src/server/auth.rs:41-236 | any handler made of looks at the state, questions to the keyring with or without the mutex, calls to the server, `with_refresh` and session restores on all their paths, any connection with any such requests, sign requests and the timer are disciplined |
| `LockOrder.RefreshesTakeTurns` | crates/cosmarden-agent/src/server/auth.rs:99-229 | on every path of `with_refresh` only the request itself goes to the server without `refresh_lock`; restores, exchanges and retries hold it |
| `LockOrder.CallsAreCounted` | crates/cosmarden-agent/src/server/auth.rs:41-236 | how often each path of `with_refresh` calls the server and asks the keyring |
| `LockOrder.PartsAreTold` | crates/cosmarden-agent/src/server/auth.rs:41-83 | what every other part of a handler waits for, and that looks take and give back the state mutex |
| `LockOrder.RestoreCalls` | crates/cosmarden-agent/src/handler/auth/reauth.rs:143-178 | the same for a session restore |
| `SignWait.UnlockIsServed` | crates/cosmarden-agent/src/ssh_agent/sign.rs:22-60 | no lost wake-up: an unlock in force or a logout makes the waiter runnable, and while keys are present it is served within two polls, even after its deadline |
| `SignWait.LockedRequestAsks` | crates/cosmarden-agent/src/ssh_agent/sign.rs:23-38 | a request that finds the vault locked asks for an unlock once per lock period and changes nothing else |
| `SignWait.OutcomesAreExact` | crates/cosmarden-agent/src/ssh_agent/sign.rs:16-60 | how a poll ends a request, as four equivalences: served at a look while keys are there; no key at a look while locked if and only if the cache does not list it; timed out at or after the deadline while locked; logged out while waiting without an account, which was cleared since the last look |
| `SignWait.ListedKeyStaysListed` | crates/cosmarden-agent/src/ssh_agent/sign.rs:22-60 | while the vault is not opened and the account not cleared, a request for a listed key never ends for want of the key, whatever else happens |
| `SignWait.WaitsQuietly` | crates/cosmarden-agent/src/ssh_agent/sign.rs:38-50 | a waiter does not spin: after a poll that leaves it waiting it is not runnable before its deadline until the watch channel gets another value |
| `SignWait.WaiterOnlyAsks` | crates/cosmarden-agent/src/ssh_agent/sign.rs:22-38 | what the agent goes through while a request waits is a run of its own operations and one unlock request for each look while locked |
| `SignWait.RoundsAreBounded` | crates/cosmarden-agent/src/ssh_agent/sign.rs:22-59 | over every run a waiter starts to wait at most once more than the vault has been locked since the request arrived |
| `SignWait.DeadlineBinds` | crates/cosmarden-agent/src/ssh_agent/sign.rs:33-50 | from the deadline on the waiter is runnable and its second poll at the latest ends the request, whatever happens in between |
| `Autolock.SleepIsExact` | crates/cosmarden-agent/src/timeout.rs:9-19 | no sleep exactly when the inactivity is over, else a sleep that ends at the deadline or after 30 seconds; a clock set back counts as no inactivity |
| `Autolock.TimerHandle.Reset` | crates/cosmarden-agent/src/timeout.rs:37-40 | stores the activity time and nothing else |
| `Autolock.TimerHandle.SetDuration` | crates/cosmarden-agent/src/timeout.rs:42-47 | stores the timeout and restarts the countdown |
| `Autolock.TimerHandle.AfterRequest` | crates/cosmarden-agent/src/lib.rs:317-341 | which handled requests move the deadline |
| `Autolock.TimerSleepsAgain` | crates/cosmarden-agent/src/timeout.rs:70-100 | every round of the loop ends in a sleep of at least a second, and the timer runs exactly when its sleep is over |
| `Autolock.NeverEarly` | crates/cosmarden-agent/src/timeout.rs:70-100 | over every run without a lock from outside and without anything that moves the deadline, failed requests and unlocks included, an unlocked vault stays unlocked until the second of last activity plus timeout, and for good with the timer disabled |
| `Autolock.ActivityPostpones` | crates/cosmarden-agent/src/lib.rs:338-341 | a successful vault request keeps the vault unlocked for the whole timeout after it |
| `Autolock.NewTimeoutApplies` | crates/cosmarden-agent/src/timeout.rs:42-47 | a new timeout keeps the vault unlocked from the moment it is set, and a timeout of 0 for good |
| `Autolock.LocksAfterActivity` | crates/cosmarden-agent/src/timeout.rs:70-100 | after a vault request, or after a new timeout of so many seconds, the vault is locked once these, or 30 seconds if more, have passed without more activity or an unlock |
| `Autolock.NeverLate` | crates/cosmarden-agent/src/timeout.rs:70-100 | whatever phase the timer was in, an unlocked vault is not past the second of its deadline, or is within 30 seconds of the last activity, timeout change or unlock |
| `Autolock.LockedInTime` | crates/cosmarden-agent/src/timeout.rs:70-100 | in every reachable state beyond the larger of the timeout and 30 seconds after the last activity, the vault is unlocked only if the last unlock, activity or timeout change of the run was an unlock (`Autolock.OutlivesExactly` has the exact condition) |
| `Autolock.OutlivesExactly` | crates/cosmarden-agent/src/timeout.rs:70-100 | for every reachable state, some run without another unlock ends unlocked beyond that bound if and only if the vault is unlocked and the timer's next wake-up is beyond it |
| `Autolock.OutlastsStep` | crates/cosmarden-agent/src/timeout.rs:70-100 | that state is entered by an unlock alone, and exactly when the timer is then asleep beyond the bound |
| `Autolock.UnlockOutlivesBound` | crates/cosmarden-agent/src/timeout.rs:70-100 | for every timeout there is a run from the start that ends unlocked beyond that bound |
| `Autolock.BoundIsTight` | crates/cosmarden-agent/src/timeout.rs:70-100 | for every timeout there is a run in which the vault stays unlocked the larger of the timeout and 30 seconds after its last activity |
| `Autolock.OnlyActivityPostpones` | crates/cosmarden-agent/src/lib.rs:317-341 | status requests, failed requests, locks and unlocks leave the deadline where it was, and without an unlock a locked vault stays locked |
| `Autolock.LockedUntilUnlocked` | crates/cosmarden-agent/src/timeout.rs:70-100 | the agent starts locked, a lock from outside locks, and only an unlock ends either |
| `Entries.Decrypt` | crates/cosmarden-core/src/db/models.rs:53-413 | the copy overwritten field by field is the decrypted entry: key choice, failures kept or dropped per field, SSH key pair from custom fields |
| `Entries.EveryTextIsDecrypted` | crates/cosmarden-core/src/db/models.rs:53-384 | for every entry, decryptor and set of organization keys, text by text: read under the keys of the organization if they are known; unreadable names, notes and URIs stay, other unreadable texts go, and nothing else changes |
| `Entries.KeyPairIsExact` | crates/cosmarden-core/src/db/models.rs:386-410 | each half of an SSH key pair is the native one when it can be read, and otherwise the value of the last custom field that decrypts to `private_key` or `public_key` in its turn, or absent |
| `Entries.DecryptFields` | crates/cosmarden-core/src/db/models.rs:374-384 | every custom field is decrypted; an unreadable name stays, an unreadable value goes |
| `Entries.FindFallbacks` | crates/cosmarden-core/src/db/models.rs:386-395 | the scan finds what the last field of each name holds |
| `Entries.LastValueIsLast` | crates/cosmarden-core/src/db/models.rs:386-395 | that value is the one of the last field with the name, present or not, and nothing without such a field |
| `Sidebar.BuildRow` | crates/cosmarden-agent/src/state.rs:129-243 | a row computed from the few fields it needs equals the projection of the full decryption, with organization keys, failures and the custom-field fallback |
| `Sidebar.RowsShowEntries` | crates/cosmarden-agent/src/state.rs:129-160 | what a row shows of an entry of each type, in terms of what its texts decrypt to |
| `Sidebar.RowsHaveHosts` | crates/cosmarden-agent/src/state.rs:163-193 | the hosts of a row are those of its URIs under the keys that apply, or the one in the shown name; only logins have any |
| `Sidebar.BuildRows` | crates/cosmarden-agent/src/state.rs:124-245 | one row per entry, in order |
| `Sidebar.HostsAreExact` | crates/cosmarden-agent/src/state.rs:163-193 | a host is cached exactly when a URI that is not excluded from matching decrypts to it, or when no such URI gives one and the name does |
| `Sidebar.IdentitiesShowKeys` | crates/cosmarden-agent/src/ssh_agent/identities.rs:45-61 | the identities are exactly the public keys of the SSH key rows that parse, with the names of the rows |
| `Sidebar.ListingsAgree` | crates/cosmarden-agent/src/ssh_agent/identities.rs:21-37 | locked and unlocked listings have the same keys in the same order, and a locked comment is the name followed by the token |
| `AgentState.State.RebuildSidebarCache` | crates/cosmarden-agent/src/state.rs:124-254 | rows, identities and session after a rebuild, in all four cases of keys and database |
| `AgentState.State.RebuildFromSidebar` | crates/cosmarden-agent/src/ssh_agent/identities.rs:45-61 | the identity cache is refilled from the rows and nothing else changes |
| `AgentState.State.Broadcast` | crates/cosmarden-agent/src/state.rs:256-258 | every connected subscriber gets the event, the others are dropped |
| `AgentState.State.Lock` | crates/cosmarden-agent/src/state.rs:260-284 | the whole state after a lock: secrets and tokens gone, SSH identities and sync flags kept, `Locked` broadcast |
| `AgentState.State.ClearAccount` | crates/cosmarden-agent/src/state.rs:309-317 | the whole state after a logout |
| `AgentState.State.RequestUnlock` | crates/cosmarden-agent/src/state.rs:293-304 | one request per lock period, of the kind the TPM setting calls for |
| `AgentState.State.ListIdentities` | crates/cosmarden-agent/src/ssh_agent/identities.rs:63-72 | lists the cache in the form of the lock state, and asks for an unlock only when locked |
| `AgentState.State.Subscribe` | crates/cosmarden-agent/src/lib.rs:369-379 | a new subscriber takes the pending deep link, once |
| `AgentState.State.SetPendingEntry` | crates/cosmarden-agent/src/handler/subscription_handler.rs:18-25 | the deep link goes to everyone connected and to the next subscriber |
| `AgentState.State.SignUnlocked` | crates/cosmarden-agent/src/ssh_agent/sign.rs:68-112 | finds the first entry with the requested public key and a private key, or there is none |
| `AgentRuns.LocksAreOperations` | crates/cosmarden-agent/src/state.rs:260-317 | the lock and logout steps of a run are the operations of the class |
| `AgentRuns.RequestsAreOperations` | crates/cosmarden-agent/src/state.rs:293-304 | so are unlock requests and listings |
| `AgentRuns.SubscriptionsAreOperations` | crates/cosmarden-agent/src/handler/subscription_handler.rs:18-25 | so are deep links and new subscribers |
| `AgentRuns.SessionHolds` | crates/cosmarden-agent/src/state.rs:249-317 | in every run the session value is Unlocked exactly while keys are present, a logged-out agent has no identities, keys imply a database, and no row is cached while locked |
| `AgentRuns.CachesAgreeUnlessAborted` | crates/cosmarden-agent/src/state.rs:122-254 | over every run both caches equal a full decryption of the database whenever the vault is unlocked, unless a sync was aborted since the last unlock, login, sync, edit, lock or logout |
| `AgentRuns.RepairsCaches` | crates/cosmarden-agent/src/state.rs:122-254 | each of these operations mends the caches, whatever they were |
| `AgentRuns.OthersLeaveCaches` | crates/cosmarden-agent/src/state.rs:256-317 | every other operation but an aborted sync keeps agreement and disagreement as it is |
| `AgentRuns.AbortedSyncIsStale` | crates/cosmarden-agent/src/handler/vault/sync.rs:50-85 | the condition is needed: in every unlocked state some aborted sync leaves the caches stale, and they stay stale until one of these operations |
| `AgentRuns.SignableIsListed` | crates/cosmarden-agent/src/ssh_agent/sign.rs:88-107 | a key for which the search finds an entry is in the identity cache |
| `AgentRuns.ListedExactly` | crates/cosmarden-agent/src/ssh_agent/identities.rs:45-61 | a key is listed exactly when some SSH key entry decrypts to it |
| `AgentRuns.SignableSurvivesLock` | crates/cosmarden-agent/src/ssh_agent/sign.rs:24-32 | after any run without a sync left aborted, a key that can sign is accepted by the locked-state check after a lock and anything short of unlock, login or logout |
| `AgentRuns.AbortedSyncCanHideKey` | crates/cosmarden-agent/src/handler/vault/sync.rs:50-85 | after an aborted sync a key of a new entry can sign, and is accepted after a lock exactly when it was listed before the sync |
| `AgentRuns.SignableKeyIsRefused` | crates/cosmarden-agent/src/ssh_agent/sign.rs:24-32 | a concrete run: unlock of an empty vault, an aborted sync and a lock, and a key that could sign is refused |
| `AgentRuns.DeliverIsExact` | crates/cosmarden-agent/src/state.rs:256-258 | a broadcast extends exactly the live streams by exactly the event |
| `AgentRuns.StreamIsConserved` | crates/cosmarden-agent/src/lib.rs:366-393 | for every subscriber of every run: its stream is the deep link pending when it joined followed by exactly the events broadcast since, in order, and between two unlock requests in it there is a lock |
| `AgentRuns.SubscribersAreTold` | crates/cosmarden-agent/src/state.rs:256-304 | which events each operation sends to a subscriber, by operation: one request per lock period, for a PIN when a TPM is set up |
| `AgentRuns.EventsTellTheLock` | crates/cosmarden-agent/src/state.rs:256-317 | over every run a subscriber that knew the lock state when it joined can tell it from its events |
| `AgentRuns.LockHidesSecrets` | crates/cosmarden-agent/src/state.rs:260-317 | states that differ only in keys, tokens, pins, rows, pending link, debounce flag and session are the same after a lock, and after a logout nothing of the account is left; the rest is kept |
| `AgentRuns.AccountIsTracked` | crates/cosmarden-agent/src/state.rs:309-317 | over every run the sync status is that of the last sync and the user that of the last login or sync, up to the last logout |
| `AgentRuns.LeaversAreForgotten` | crates/cosmarden-agent/src/state.rs:256-258 | a subscriber that left gets nothing any more and is forgotten with the next broadcast |
| `AgentRuns.UnlocksAreStored` | crates/cosmarden-agent/src/handler/auth/unlock.rs:100-150 | what an unlock and a login put into the state, with the pins as the favorites among the entries |
| `AgentRuns.SyncsAreStored` | crates/cosmarden-agent/src/handler/vault/sync.rs:57-72 | what a sync puts into the state; while locked it replaces the entries and pins only |
| `AgentRuns.EditsAreStored` | crates/cosmarden-agent/src/state.rs:124-254 | an edit replaces entries and pins and rebuilds, and does nothing while locked |
| `AgentRuns.EpochCounts` | crates/cosmarden-agent/src/state.rs:286-291 | the epoch counts unlocks, logins, locks and logouts modulo 2^64 |
| `Locked.Buffer.Extend` | crates/cosmarden-core/src/locked.rs:103-105 | appends in place within the capacity |
| `Locked.Buffer.Truncate` | crates/cosmarden-core/src/locked.rs:107-109 | keeps a prefix |
| `Locked.Buffer.Zero` | crates/cosmarden-core/src/locked.rs:95-101 | fills the whole capacity with zeros |
| `Locked.Buffer.Clone` | crates/cosmarden-core/src/locked.rs:119-125 | a fresh buffer with the same contents |
| `Cipher.Pkcs7Unpad` | crates/cosmarden-core/src/cipherstring.rs:236-258 | the loop computes the payload of a padded buffer |
| `Cipher.UnpadExactly` | crates/cosmarden-core/src/cipherstring.rs:236-258 | the payload is `p` exactly when the buffer is `p` followed by n bytes of value n, n from 1 to 255 |
| `Cipher.CbcInverse` | crates/cosmarden-core/src/cipherstring.rs:88-93 | CBC decryption inverts encryption for every block permutation |
| `Cipher.CbcEncryptsBlocks` | crates/cosmarden-core/src/cipherstring.rs:88-93 | each ciphertext block is the encryption of its plaintext block combined with the block before it (NIST SP 800-38A, section 6.2) |
| `Cipher.CbcDecryptsBlocks` | crates/cosmarden-core/src/cipherstring.rs:145-153 | each plaintext block is the decryption of its ciphertext block combined likewise |
| `Bytes.XorIsBitwise` | crates/cosmarden-core/src/cipherstring.rs:88-93 | the combination is the bitwise exclusive or |
| `Cipher.CbcDecryptInPlace` | crates/cosmarden-core/src/cipherstring.rs:145-153 | decrypting the buffer block by block in place gives the CBC decryption of its old contents |
| `Cipher.DecryptLockedSymmetric` | crates/cosmarden-core/src/cipherstring.rs:137-160 | the buffer returned is the whole plaintext with its padding, and every refusal has its error |
| `Cipher.DecryptEncrypted` | crates/cosmarden-core/src/cipherstring.rs:88-160 | both decryptions invert encryption under any key buffer that starts with the same 64 bytes, one without and one with the padding |
| `Cipher.DecryptsExactly` | crates/cosmarden-core/src/cipherstring.rs:108-201 | an equivalence for each decryption on raw bytes: a 16-byte vector, whole blocks, a right MAC under bytes 32 to 63, a sound padding, and the decryption under bytes 0 to 31 |
| `Cipher.RefusalsAreExact` | crates/cosmarden-core/src/cipherstring.rs:108-201 | which error each refused value gets |
| `Cipher.DecryptsUnderHalves` | crates/cosmarden-core/src/locked.rs:296-302 | what is encrypted under one 32-byte key and authenticated under another decrypts under the buffer that holds the two in this order |
| `Base64.DecodesExactlyEncodings` | crates/cosmarden-core/src/base64.rs:3-13 | decoding gives `b` exactly for the canonical encoding of `b` (RFC 4648, sections 4 and 3.5) |
| `Base64.GroupsAreNumbers` | crates/cosmarden-core/src/base64.rs:3-5 | the digits of a group are the number its bytes form, most significant first (RFC 4648, section 4) |
| `Base64.ShortGroupsArePadded` | crates/cosmarden-core/src/base64.rs:3-5 | a group of one or two bytes is filled up with zero bits and padding |
| `Base64.EncodesByGroups` | crates/cosmarden-core/src/base64.rs:3-5 | an encoding is that of its groups of three bytes in order |
| `Base64.DigitsAreStandard` | crates/cosmarden-core/src/base64.rs:3-5 | the standard alphabet in its order |
| `CipherText.ParsePrint` | crates/cosmarden-core/src/cipherstring.rs:24-86 | parsing the printed form gives the value back, except for a symmetric value without MAC |
| `CipherText.PrintParse` | crates/cosmarden-core/src/cipherstring.rs:204-227 | printing an accepted string gives that string exactly when it is of type 2, or of type 4 without a bar |
| `CipherText.ParsesExactly` | crates/cosmarden-core/src/cipherstring.rs:24-75 | an equivalence for every text and value: three fields for type 2, one field and anything after a bar for types 4 and 6 |
| `CipherText.TypesAreRefused` | crates/cosmarden-core/src/cipherstring.rs:39-75 | which types are too old, which are unknown, and which contents are malformed |
| `CipherText.FormsAreRefused` | crates/cosmarden-core/src/cipherstring.rs:26-37 | a text without exactly one dot, and a type of more or less than one character |
| `CipherText.PrintsUpToTheMac` | crates/cosmarden-core/src/cipherstring.rs:204-227 | a symmetric value without MAC prints as the text that lacks only the MAC |
| `Vault.DecryptOrgKeys` | crates/cosmarden-core/src/vault.rs:14-36 | either every organization key, or the error of one that cannot be unwrapped, and none without a private key |
| `Vault.UnlockFromKeys` | crates/cosmarden-core/src/vault.rs:38-57 | vault and organization keys, with a wrong MAC told as a wrong password |
| `Vault.OrgKeysAreAllOrNone` | crates/cosmarden-core/src/vault.rs:14-36 | without a private key there are no organization keys; otherwise every one of them, or the error of the private key or of one of them |
| `Vault.UnwrapWrapped` | crates/cosmarden-core/src/vault.rs:44-56 | an unwrapped key buffer still carries its padding and can replace the key that was wrapped |
| `Vault.WrongPasswordExactly` | crates/cosmarden-core/src/vault.rs:44-53 | other identity keys are told as a wrong password exactly when the MAC under them differs, and the right ones always unlock |
| `Vault.KeyHierarchyRoundTrip` | crates/cosmarden-core/src/vault.rs:38-93 | a text under an entry key under vault keys under identity keys decrypts to itself, although every key buffer keeps its padding |
| `Vault.RightPasswordUnlocks` | crates/cosmarden-core/src/vault.rs:38-57 | vault keys sealed by a client under the two halves of the identity keys, as a text of type 2, unlock |
| `Vault.FieldReadsExactly` | crates/cosmarden-core/src/vault.rs:81-93 | an equivalence for when a field is read: with an entry key only if that can be unwrapped, and then under it alone |
| `Vault.NoTextExactly` | crates/cosmarden-core/src/vault.rs:81-93 | bytes that decrypt but are not UTF-8 are told apart from every other failure |
| `Vault.OrgKeyExactly` | crates/cosmarden-core/src/vault.rs:14-36 | an equivalence for when an organization key is recovered: by RSA under the private key in front of the padding |
| `Vault.OrgHierarchyRoundTrip` | crates/cosmarden-core/src/vault.rs:14-36 | the same through a wrapped private key and an organization key |
| `EndToEnd.StoredKeyIsListedAndSigns` | crates/cosmarden-agent/src/ssh_agent/sign.rs:88-107 | an SSH key stored under the key hierarchy, in native or in custom fields, anywhere in any database, is listed under its name after an unlock; a request for it is signed, with its own private key unless an earlier entry has one for the same public key |
| `EndToEnd.StoredLoginIsShown` | crates/cosmarden-agent/src/state.rs:129-243 | a login of the user's own, stored under the key hierarchy, is shown under its name and user name after an unlock, is matched under the host of its URI, and decrypts to its password |
| `EndToEnd.OrgKeyIsRecovered` | crates/cosmarden-core/src/vault.rs:14-36 | the organization keys that an unlock recovers, by RSA under the private key that the vault keys unwrap, contain the organization's own key, among any others |
| `EndToEnd.StoredOrgLoginIsShown` | crates/cosmarden-agent/src/state.rs:129-243 | a login of an organization, its entry key wrapped under the organization's key, is shown and decrypts in the same way after an unlock that recovered the organization keys |
| `Envelope.Seal` | crates/cosmarden-core/src/session_envelope.rs:93-122 | version, nonce and ciphertext, or an error for short keys |
| `Envelope.Open` | crates/cosmarden-core/src/session_envelope.rs:129-192 | total on all byte strings, never overfills the locked buffer, and gives each malformed envelope its error |
| `Envelope.SealThenOpen` | crates/cosmarden-core/src/session_envelope.rs:93-192 | a sealed payload opens to itself exactly when it has at most 4096 bytes |
| `Envelope.OnlySealedBlobsOpen` | crates/cosmarden-core/src/session_envelope.rs:129-192 | an accepted blob is the sealing of what it opens to |
| `Envelope.OpensExactly` | crates/cosmarden-core/src/session_envelope.rs:93-192 | an equivalence on raw bytes for which blobs open and to what |
| `Envelope.RefusesExactly` | crates/cosmarden-core/src/session_envelope.rs:129-192 | an equivalence for each error, in the order of the checks |
| `Envelope.AadIsInjective` | crates/cosmarden-core/src/session_envelope.rs:55-62 | the associated data tells accounts apart for servers without a NUL byte |
| `Envelope.AadCollidesOnNul` | crates/cosmarden-core/src/session_envelope.rs:55-62 | an account shares its associated data with some other account exactly when its server name or email has a NUL byte |
| `Envelope.AadCollisionExample` | crates/cosmarden-core/src/session_envelope.rs:55-62 | for instance every server name that ends in one, with an empty email |
| `Envelope.WrongAccountFails` | crates/cosmarden-core/src/session_envelope.rs:124-192 | an authentic envelope opens under an account exactly when that account has the same associated data and the payload fits, so never under another account when server names have no NUL byte |
| `Envelope.SaveThenLoad` | crates/cosmarden-agent/src/session_store.rs:114-170 | a saved token is loaded exactly when it fits the locked buffer; a longer one, which the agent keeps on the heap, is lost with an error |
| `Envelope.SavesExactly` | crates/cosmarden-agent/src/session_store.rs:114-145 | a saved file is the sealing of the token under version, server, NUL and email |
| `Envelope.LoadsExactly` | crates/cosmarden-agent/src/session_store.rs:146-170 | an equivalence for what a file is loaded to, with the error of opening it or that of a token that is no text |
| `Dirs.DecodeEncode` | crates/cosmarden-core/src/dirs.rs:61-69 | percent-decoding inverts the encoding for all byte strings (RFC 3986, section 2.1) |
| `Dirs.FileNameIsDecodable` | crates/cosmarden-core/src/dirs.rs:61-70 | a cache file name has no slash, a single colon, and gives server and email back |
| `Dirs.FileNamesAreDistinct` | crates/cosmarden-core/src/dirs.rs:64-70 | two accounts share a cache file only if they are the same |
| `Dirs.NamesAreJoined` | crates/cosmarden-core/src/dirs.rs:64-70 | the name is the two encoded parts around a colon, and the extension |
| `Dirs.EncodesParts` | crates/cosmarden-core/src/dirs.rs:61-69 | encoding goes byte by byte |
| `Dirs.EncodesBytes` | crates/cosmarden-core/src/dirs.rs:61-63 | which bytes are escaped, and with which digits |
| `Domain.HostIsClean` | crates/cosmarden-core/src/domain.rs:22-40 | any result is non-empty, without capital letters and free of `/`, `?`, `#` and `@` |
| `Domain.LowersLetters` | crates/cosmarden-core/src/domain.rs:33-33 | the letters A to Z become a to z and nothing else changes |
| `Domain.BlanksDoNotMatter` | crates/cosmarden-core/src/domain.rs:22-24 | white space around a URI makes no difference |
| `Domain.HostOfWritten` | crates/cosmarden-core/src/domain.rs:22-40 | for every URI written from the components of RFC 3986, section 3, with any host, the text found is the host, with its port if it is an IP literal, lower-cased and without one `www.` |
| `Domain.HostRoundTrip` | crates/cosmarden-core/src/domain.rs:22-40 | a normalized host, name or IP literal, comes back exactly when it is not empty, the URI shields a `www.` of its own, and an IP literal has no port |
| `Domain.LiteralWithPortIsLost` | crates/cosmarden-core/src/domain.rs:26-33 | an IP literal comes back with its port, and then does not match the bare literal unless that has a dot |
| `Domain.LiteralWithPortExample` | crates/cosmarden-core/src/domain.rs:26-33 | for instance `http://[::1]:8080/` gives `[::1]:8080`, which does not match `[::1]` |
| `Domain.SeveralColonsStay` | crates/cosmarden-core/src/domain.rs:26-33 | a bare address with several colons is left whole |
| `Domain.NamedHostRoundTrip` | crates/cosmarden-core/src/domain.rs:42-52 | an entry named after its host, IP literals included, is found under that host exactly when the name has a dot and does not start with `www.` |
| `Domain.NamesWithHosts` | crates/cosmarden-core/src/domain.rs:42-52 | white space around it aside, a name gives a host exactly when it has no space, no at sign and a dot, and gives one as a URI |
| `Domain.WwwExample` | crates/cosmarden-core/src/domain.rs:34-34 | for instance `https://www.example.com` gives `example.com` |
| `Domain.SubdomainIsLabelSuffix` | crates/cosmarden-core/src/domain.rs:57-61 | the byte test holds exactly when the labels of the parent are a proper suffix of the labels of the host |
| `Domain.HostsMatchOnLabels` | crates/cosmarden-core/src/domain.rs:133-155 | hosts match exactly by equality, label suffix either way, or equal registrable domain; IP addresses and dotless hosts only by equality; the relation is symmetric |
| `NativePort.Background.ProcessQueue` | browser-extension/background.js:35-48 | the recursive drain terminates with the state of its specification, or throws exactly when opening a port throws |
| `NativePort.Background.SendToAgent` | browser-extension/background.js:50-55 | a promise is queued, and rejected at once if the port cannot be opened |
| `NativePort.Background.OnMessage` | browser-extension/background.js:27-32 | the oldest promise is resolved and the next request sent |
| `NativePort.Background.OnDisconnect` | browser-extension/background.js:14-25 | all waiting promises are rejected |
| `NativePort.RepliesAreCorrelated` | browser-extension/background.js:7-55 | over every run a resolved promise carries the host's answer to its own request, the host holds at most the oldest request, every promise waits or is settled; if no request finds itself without a port that can be opened, none does both, and something waits exactly when one request is in flight |
| `NativePort.RepliesAreDelivered` | browser-extension/background.js:27-32 | over every run a resolved promise was resolved by a reply of the run, with the text of that reply, while the host held exactly the request of the promise |
| `NativePort.EveryReplyIsDelivered` | browser-extension/background.js:27-32 | and every reply resolves the promise of the request the host held, unless it was settled before, for good |
| `NativePort.StepSettles` | browser-extension/background.js:7-55 | the reasons for which a step settles a promise, and with what; no promise is settled twice, and a lost port rejects all that wait |
| `NativePort.StuckExactly` | browser-extension/background.js:35-55 | requests wait with none in flight exactly after a request that found no port and could not open one, and the promise of that request is then both settled and waiting |
| `NativePort.ReconnectsAfterLoss` | browser-extension/background.js:10-48 | after the port is lost the next request opens a new one and goes to the host at once, or is rejected |
| `NativePort.RejectedRequestIsStillSent` | browser-extension/background.js:35-55 | a concrete run: such a request reaches the host after its promise was rejected |
| `BrowserHost.ReadFrame` | crates/cosmarden-agent/src/browser_host.rs:13-36 | one frame, or the reason to stop |
| `BrowserHost.Run` | crates/cosmarden-agent/src/browser_host.rs:12-106 | the output is exactly one framed reply per accepted frame, in order, for every input |
| `BrowserHost.ReceivedFrames` | crates/cosmarden-agent/src/browser_host.rs:13-36 | frames within the limit are read back as written |
| `BrowserHost.AnswersInOrder` | crates/cosmarden-agent/src/browser_host.rs:12-103 | a browser that writes n bodies reads n bodies, the k-th being the agent's response to the action in its k-th, or the error for a body that is no action or an agent that cannot be reached |
| `BrowserHost.LengthsAreLittleEndian` | crates/cosmarden-agent/src/browser_host.rs:13-23 | the length is 32 bits, least significant byte first |
| `BrowserHost.StopsExactly` | crates/cosmarden-agent/src/browser_host.rs:13-36 | an equivalence for each way in which reading stops |
| `PendingSave.SavesAreJustified` | browser-extension/background-save.js:153-225 | at every interleaving, whatever is saved or updated carries the fields of one submission on that tab, and the agent, having reported an unlocked vault, had found no entry, or that entry with another password, for exactly those credentials |
| `PendingSave.OnlyCompleteSubmissions` | browser-extension/background-save.js:55-60 | in every run a submission without a domain, a user name or a password changes nothing |
| `PendingSave.AnswerDecides` | browser-extension/background-save.js:78-141 | from every world with a record to evaluate, the agent's answer decides: known credentials are dropped, a changed password is offered as an update of the entry, anything else as a new entry |
| `PendingSave.LockedVaultDefers` | browser-extension/background-save.js:84-110 | while the vault is locked, logged out or unknown the record is kept, marked, and stays open to evaluation |
| `PendingSave.ClickDecides` | browser-extension/background-save.js:153-225 | what each click sends, and that it ends the matter, except for an unlock and for a refusal of the agent, which keep the record |
| `PendingSave.ChangedPasswordIsUpdated` | browser-extension/background-save.js:78-225 | so a changed password that is evaluated and confirmed reaches its entry |
| `PendingSave.SubmissionReplaces` | browser-extension/background-save.js:55-71 | a complete submission takes the record of the tab away and then stores a fresh one |
| `PendingSave.FailuresAreHandled` | browser-extension/background-save.js:78-225 | every await: which answers it takes, and that a failure ends the task, or gives the record up once the agent has been asked about it |
| `PendingSave.GivingUpDrops` | browser-extension/background-save.js:137-140 | giving up takes the record away and sends nothing |
| `PendingSave.UnshownBarDrops` | browser-extension/background-save.js:129-140 | a bar that cannot be shown takes the record away that was just written |
| `PendingSave.ForgettingDrops` | browser-extension/background-save.js:149-151 | so does closing the tab, or the end of its time |
| `PendingSave.LatestWins` | browser-extension/background-save.js:55-225 | in every reachable state: only the latest submission on a tab can be saved until the next one if and only if its record, as far as it can be saved, and every copy in flight are about that submission |
| `PendingSave.StaleCopyCanWin` | browser-extension/background-save.js:78-128 | wherever a task carries a copy, of a submission or of an evaluation, that copy can be the next thing saved, without another submission |
| `PendingSave.OlderSubmissionCanBeSaved` | browser-extension/background-save.js:55-141 | a concrete run from the start: while an evaluation holds a copy of a submission a newer one is stored on the same tab, and the older one can be the next thing saved |

## Left out

- TokenSafety.CarefulRunsNeverReplay: the keyring is off; with it, tokens can also come back from the Secret Service.
- Autolock.NeverLate: assumes a monotone clock, sleeps that end on time and a free state mutex.
- SignWait.UnlockIsServed: one waiter is followed; the others act on it only through unlock requests. `sign_request` is a step machine, since it is suspended inside its loop.
- Entries.Decrypt: cards, identities, bank accounts, licences and passports are one type with a list of optional fields; folder, history, reprompt and link ids, which are copied, are not there.
- Sidebar.IdentitiesShowKeys: a public key is identified with its wire encoding, which the search compares.
- AgentState.State.SignUnlocked: ends with the private key text; parsing it and signing are library work.
- Cipher.DecryptLockedSymmetric: requires that the source does not panic (a ciphertext over 4096 bytes, a key under 64 bytes, a MAC of another length); the specification names these cases.
- Envelope.WrongAccountFails: that an AEAD refuses foreign associated data is assumed of the one ciphertext in question.
- Envelope.SaveThenLoad: the file is a value; temporary file, rename and permissions are not there.
- SignWait.OutcomesAreExact: the watch channel is never closed, since the agent holds its sender for as long as it runs.
- Domain.HostIsClean: ASCII text; Unicode case and white space are not modelled.
- BrowserHost.Run: writing to standard output never fails.
- PendingSave.SavesAreJustified: the lifetime of a record and the alarms are not modelled, and the handlers are a step machine, because they interleave at every await.
- `with_refresh`, the session restore, the unlock handlers and login appear as step machines on values, because they are suspended while they hold or wait for locks.
- The request framing and dispatch of the agent socket, peer credentials and the other handlers.
- `set_field`, `remove_field` and `get_field` of entries: one-line list edits.
- AES, HMAC, HKDF, Argon2, PBKDF2, RSA, XChaCha20-Poly1305 and TPM operations themselves, memory locking and wiping.
- Desktop applets, tray, popup, form heuristics, command line, configuration and logging.
