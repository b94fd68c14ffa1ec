# Phosphor: a verification model

Phosphor is a relay between browsers and the SSH daemons of enrolled machines. A machine's CLI keeps
a reverse SSH tunnel to the relay's gateway; a browser opens a WebSocket, proves who it is, and is
piped down the tunnel of a machine its tenant owns. The relay never reads what it pipes, so what it
has to get right is shared state: which tunnel is whose, who may reach it, who is logged in, and when
a silent connection is given up. This project models that state and proves what the code keeps under
every interleaving and at every instant.

`dafny verify dfyconfig.toml` checks everything.

## How the model is built

Code that several goroutines or sessions run at once is a step machine: a `State`, an `Action` per
atomic step, `Enabled` and `Apply`, and theorems about every state of every run. A lock-protected
section is one step; what the code does after unlocking is another. Each part of such a state is pinned
by a theorem that reads it off the actions taken, and theorems of the form "from every state there is a
continuation in which ..." show that no step is missing. Code that updates an object in
place is also a class whose methods are proved against the same functions that the steps use.

| file | what it models |
|---|---|
| `registry.dfy` | the table of live tunnels, as a class |
| `gateway.dfy` | connections that register, evict, cancel, die and clean up, with the deferred closes as steps of their own |
| `relay.dfy`, `relayprogress.dfy` | the machines table, the gateway, the management requests and the browser bridges together; how bridges and requests move and that none gets stuck |
| `bridgecounts.dfy` | the per-path session counter |
| `users.dfy`, `bootstrap.dfy`, `linearizability.dfy`, `bootstrapprogress.dfy`, `store.dfy` | user rows and the identity index; first-login bootstrap as a step machine; that it is linearizable; how calls move, where rows come from and that no call gets stuck; the same call as a method with other sessions running between its statements |
| `machines.dfy`, `fake.dfy` | the machines table under its UNIQUE constraints; the in-memory store with its scans |
| `pipe.dfy` | the copy loop over a reused buffer; the two-way pipe with its idle watchdog, in time |
| `sessions.dfy`, `login.dfy` | pending logins with a time to live and single-use tokens; the login handlers as steps on them |
| `keepalive.dfy`, `backoff.dfy` | the CLI's keepalives against the gateway's read deadline, in time; the reconnect loop |
| `wsconn.dfy` | the browser's WebSocket as a byte stream |
| `apikey.dfy` | API key subjects, token verification, revocation |
| `wrappers.dfy` | shared datatypes |

Assumptions. Generated ids (UUIDs, session ids, key ids) are never generated twice, and the clock never
goes back. Library code is a parameter: parsing and formatting of UUIDs (`Relay.Naming`, assumed to
round-trip), the PKCE hash (`Login.Config`), token signing and the identity providers
(`ApiKey.Config`). Postgres runs at READ COMMITTED, and an insert that conflicts with another
transaction's uncommitted row waits for that transaction. Tickers fire on time.

## Where the code and its comments differ

The model follows the code.

- "A new connection wins over a possibly-zombie old one" (internal/sshgate/registry.go:39): a displaced
  connection gets the entry back if and only if it forwards again (`Gateway.EntersExactlyByForwarding`; a
  run that does in `Gateway.SecondForwardReturns`). The CLI forwards once per connection, so its newer
  connection wins (`Gateway.DisplacedStaysOut`).
- "A non-empty email updates a stale stored email" (internal/store/store.go:79-80): when the call returns,
  the stored email of its identity is another than its own if and only if the call lost the creation race
  and its re-read met another email (`Bootstrap.EmailStored`; a run in `Bootstrap.LoserKeepsWinnersEmail`).
- "Closes a session after this long with no traffic" (internal/relay/handler_ws_ssh.go:22): a tick closes
  it if and only if no copier has recorded a read since the previous tick or the start
  (`Pipe.TickClosesExactlyTheSilent`). That is after between one and two timeouts since the last record
  (`Pipe.FiresBetweenOneAndTwoTimeouts`, both bounds attained), and at exactly one timeout may or may not
  happen (`Pipe.ExactTimeoutCanFire`, `Pipe.ExactTimeoutCanSpare`). A copier records a read only after
  Read has returned (internal/relay/handler_ws_ssh.go:159-161), so a tick in between closes a session that
  has just received data (`Pipe.UnrecordedReadCanBeMissed`); no other read since the previous tick is
  missed (`Pipe.OnlyUnrecordedReadsAreMissed`).
- "A healthy tunnel never trips this" (internal/sshgate/server.go:23-24): it can if and only if the read
  deadline is at most 45 s away when the CLI's ticker starts, that is, if the gateway last read or
  wrote anything at least 45 s before, its answer to the forward request having been that slow
  (`Keepalive.TripsExactlyWhenEarly`). From the
  first keepalive's arrival on it never does (`Keepalive.DeadlineSparesLiveTunnel`).
- The session ttl bounds neither when a login can be completed nor the age of a token: `Complete` and
  `Consume` do not look at it (internal/relay/authsession_memory.go:70-90). A session is there if and only
  if no sweep or `Get` has found it expired and no poll has taken it (`Sessions.PresentUntilRemoved`), and
  a poll right after a completion succeeds on exactly that condition (`Sessions.CompletedThenPolled`). The
  sweep bounds the age at ttl + 30 s, which a session completed after its expiry attains for every ttl
  (`Sessions.TokenAgeBounded`, `Sessions.BoundAttained`).
- The authorize and callback handlers read the verifier from the session separately
  (internal/relay/handler_auth.go:132, 211), so, verifiers being random and the hash free of collisions, the
  exchange answers the redirect if and only if no provider was chosen in between (`Login.MatchesExactlyUnlessChosen`; a run that fails in
  `Login.ChoosingAgainMismatches`).
- An API key carries the caller's email when there is one (internal/relay/handler_auth.go:419-424), so it
  stands for the same user only under the condition of `ApiKey.KeyStandsForCaller`.

## Model

| member | source | states |
|---|---|---|
| Gateway.RegistryIsHistory | internal/sshgate/registry.go:40-80 | In every interleaving, a machine's entry is exactly the tunnel whose registration no later registration, Close, or cancel or cleanup by its own connection has ended; every entry sits under the machine and tenant its connection authenticated as |
| Gateway.HolderIsLastStanding | internal/sshgate/registry.go:40-80 | Folding the logged table operations gives the same tunnel as reading off the last registration that still stands |
| Gateway.ClosedExactlyWhenEvicted | internal/sshgate/registry.go:40-80 | A connection has been closed by the gateway, or some thread still owes it the close, if and only if another connection's registration or a Close pushed it out; re-registering over oneself never counts |
| Gateway.ShutExactlyWhenClosed | internal/sshgate/registry.go:40-80 | The gateway has closed a connection if and only if a thread that pushed it out has finished its registration or its Close |
| Gateway.FinishingCloses | internal/sshgate/registry.go:40-80 | The step that finishes pays the debt: the connection is shut for good, the Close thread owes nothing more and the registering goroutine serves requests again |
| Gateway.EvictingExactly | internal/sshgate/registry.go:40-48 | A goroutine owes the close of a connection exactly from the registration that displaced it until it has closed it |
| Gateway.ClosingExactly | internal/sshgate/registry.go:69-80 | A Close thread owes the close of a connection exactly from taking its entry out until it has closed it |
| Gateway.OwedCanBeClosed | internal/sshgate/registry.go:44-80 | Whatever else is going on, a close that is owed can be performed at once |
| Gateway.LiveExactlyUntilCut | internal/sshgate/server.go:118-192 | A connection is live from its handshake until it is closed as displaced or loses its transport, and never again |
| Gateway.NoZombies | internal/sshgate/server.go:150-192 | Once a connection's request loop has run its cleanup, no entry refers to it in that or any later state |
| Gateway.DeadCanBeCleaned | internal/sshgate/server.go:150-192 | A dead connection can always be cleaned up, in whatever it is caught, and has no entry then |
| Gateway.TunnelSurvives | internal/sshgate/registry.go:50-58 | A tunnel stays through any run in which no other connection registers its machine, nobody closes its machine, and its own connection neither cancels nor cleans up: the late cleanup of the tunnel it replaced cannot remove it |
| Gateway.RemovalIsExact | internal/sshgate/registry.go:50-80 | Cancel and cleanup remove exactly what their own connection has, Close exactly the machine's entry |
| Gateway.EntryFromForward | internal/sshgate/server.go:161-180 | Every entry was made by a forward request of its own connection, with that request's address and port |
| Gateway.EntersExactlyByForwarding | internal/sshgate/registry.go:38-48 | A connection outside the table, displaced or never in it, is in it at some later time if and only if it has forwarded in between: when a new connection wins and when it does not |
| Gateway.CanAlwaysRegister | internal/sshgate/server.go:161-180 | A connection whose goroutine has not finished can always register, and then has the entry, with the address and port it asked for |
| Gateway.DisplacedStaysOut | internal/cli/tunnel.go:83-95 | In particular a connection that registers at most once, as the CLI does, and has lost its entry never has one again |
| Gateway.SecondForwardReturns | internal/sshgate/registry.go:38-48 | Without that discipline a displaced connection can displace the newer one: a concrete run |
| Registry.Registry.Register | internal/sshgate/registry.go:40-48 | The entry is replaced, exactly the displaced connection of another tunnel is closed, and no other |
| Registry.Registry.Unregister | internal/sshgate/registry.go:52-58 | The entry goes only if the given connection owns it |
| Gateway.OnlineExactlyWhileRegistered | internal/sshgate/registry.go:61-66 | A machine is online, that is, has an entry, if and only if some registration for it still stands in the history |
| Registry.Registry.Close | internal/sshgate/registry.go:69-80 | Removes the entry and closes its connection and no other; reports whether there was one |
| Registry.Registry.Dial | internal/sshgate/registry.go:95-117 | A channel on the entry's own connection, naming its own bind address and port, or which of the two errors |
| Relay.PipedBridgeAuthorised | internal/relay/handler_ws_ssh.go:94-143 | Whenever a bridge pipes, the user's, the machine's and the tunnel's tenant coincide, and the tunnel's connection authenticated as exactly the machine looked up |
| Relay.LookupFindsExactlyOwn | internal/relay/handler_ws_ssh.go:108-124 | A bridge gets past its lookup on exactly that condition, however the id is spelled |
| RelayProgress.DialsStandingTunnel | internal/sshgate/registry.go:95-117 | A bridge dials exactly the tunnel whose registration under its path still stands, and leaves if there is none |
| RelayProgress.ChannelsOnLiveOnly | internal/sshgate/registry.go:95-117 | A channel opens only on a connection that was never closed and never lost its transport |
| RelayProgress.GatewayRunsInside | internal/sshgate/registry.go:38-117 | Every run of the relay contains a run of the gateway, so that all theorems about the gateway hold in the relay |
| RelayProgress.BridgesGoForward | internal/relay/handler_ws_ssh.go:57-146 | A bridge moves by its own steps only and forward with each, takes at most seven, and none once it has ended |
| RelayProgress.BridgeCanEnd | internal/relay/handler_ws_ssh.go:106-146 | From wherever a bridge is, its handler can end by itself, and then holds no slot |
| RelayProgress.LiveDialCanPipe | internal/relay/handler_ws_ssh.go:126-143 | While the tunnel it dials is live, a bridge can go on to pipe down that very tunnel |
| RelayProgress.OwnerCanConnect | internal/sshgate/server.go:54-67 | An enrolled machine can always connect with its key and register, and then has the entry over a live connection |
| Relay.PeersProvedThemselves | internal/sshgate/server.go:54-67 | Every connection got in by a handshake that presented the enrolled key of exactly the machine it is taken for, under its canonical name, with its tenant |
| Relay.IdentityAlong | internal/sshgate/server.go:54-67 | In every reachable state all rows, connections, tunnels, requests and bridges agree on who owns which machine |
| Relay.OwnersAreForever | internal/store/store.go:170-271 | In any interleaving of requests, whenever a machine has a row it is of the same tenant, key and host name as ever, and once the row is gone it never comes back |
| Relay.TableIsHistory | internal/store/store.go:170-271 | A machine has a row if and only if it was enrolled and no checked delete has removed it since, and the row is of the machine that was enrolled |
| Relay.RenameTakesEffect | internal/store/store.go:245-258 | A rename that comes to the table gives the machine the new name exactly when the renamed table meets the constraints, and changes nothing else |
| Relay.LastSeenIsLastTouch | internal/store/store.go:239-243 | A machine was last seen when it was last touched since its enrolment |
| Relay.CheckPassesExactlyForOwn | internal/relay/handler_machines.go:151-174 | A management request passes its check if and only if its path spells the id of a machine that the same tenant enrolled and nobody has deleted |
| Relay.OnlyOwnerManages | internal/relay/handler_machines.go:151-217 | A row is renamed or removed only by a request of the tenant that owns it, although check and change are separate steps |
| Relay.DeleteTakesTunnelDown | internal/relay/handler_machines.go:205-219 | At any time after a delete has closed the tunnel: the connection that had the entry is shut or about to be, and an entry under the machine's name belongs to a connection that authenticated before the close and has forwarded after it |
| RelayProgress.RequestsGoForward | internal/relay/handler_machines.go:151-219 | A management request keeps its path and tenant, moves by its own steps only and forward with each, and takes none once answered |
| RelayProgress.OwnerCanDelete | internal/relay/handler_machines.go:205-219 | A delete that has passed its check can always be carried through to no row and no tunnel |
| Relay.DeletedIsUnreachable | internal/relay/handler_machines.go:205-219 | Once the row is deleted no handshake authenticates as the machine, and no bridge whose lookup comes later reaches it, even over a connection that registers afterwards |
| Relay.DeletedIsNotDialled | internal/relay/handler_ws_ssh.go:106-132 | After the delete, a bridge holding a tunnel under the machine's name was already aimed at the machine before it |
| Relay.EarlierLookupStillReaches | internal/relay/handler_ws_ssh.go:106-132 | Both restrictions are needed: a run in which a bridge that looked the machine up before the delete pipes to it afterwards |
| Relay.CounterCountsHolders | internal/relay/handler_ws_ssh.go:32-51 | Each counter is the number of handlers between their acquire and their release, at most 16, and positive at every release, so the guard does nothing |
| Relay.AdmittedExactlyBelowSixteen | internal/relay/handler_ws_ssh.go:32-43 | A session is admitted if and only if fewer than 16 handlers hold a slot under the same path |
| Relay.SixteenPipesPerMachine | internal/relay/handler_ws_ssh.go:106-134 | Although counters are per spelling of the id, no machine ever has more than 16 piped sessions |
| BridgeCounts.BridgeCounts.Acquire | internal/relay/handler_ws_ssh.go:32-43 | Succeeds exactly below 16 and then counts one more; otherwise changes nothing |
| BridgeCounts.BridgeCounts.Release | internal/relay/handler_ws_ssh.go:45-51 | Counts one less, never below zero |
| Linearizability.Linearizable | internal/store/store.go:81-136 | However callers interleave and fail, the user and tenant ids in the users table and in every answer are those of an atomic get-or-create run on the calls one at a time, each call at most once |
| Linearizability.RealTimeOrder | internal/store/store.go:81-136 | That order puts a call that has returned before every call that starts later |
| Bootstrap.NoOrphans | internal/store/store.go:97-136 | At most one user per identity, and committed tenants and users match one to one |
| Bootstrap.SameIdentitySameUser | internal/store/store.go:81-136 | Two successful callers get the same user, and the same tenant, if and only if they have the same identity |
| BootstrapProgress.RowsOnlyByCommit | internal/store/store.go:93-136 | A user row appears only together with its tenant, by a commit of a call for its identity, with that call's email and the tenant called by the email or else by provider and subject; and every commit makes both appear |
| BootstrapProgress.OnlyMissedCallsCreate | internal/store/store.go:81-93 | Only a call that looked its identity up in vain goes on to create it |
| BootstrapProgress.CallsGoForward | internal/store/store.go:81-136 | A call keeps the identity and email it was made with and moves by its own steps only |
| BootstrapProgress.AnswersAreFinal | internal/store/store.go:81-136 | The answer of a call never changes |
| BootstrapProgress.CallCanReturn | internal/store/store.go:81-136 | In whatever state the others are, a call that has not failed can come back with a user, also when it has to wait for another transaction |
| Bootstrap.LoserFindsWinner | internal/store/store.go:124-128 | The re-read after a lost race always finds the winner's row |
| Bootstrap.EmailStored | internal/store/store.go:78-92 | When a call with a non-empty email returns, it returns the row stored for its identity, and another email than its own is stored there if and only if the call lost the race and its re-read met another one |
| Bootstrap.EmailReturned | internal/store/store.go:124-128 | Ever after, the user it was given has its own email if and only if that did not happen |
| BootstrapProgress.EmailChangesOnlyAsAsked | internal/store/store.go:84-88 | A stored email changes only by the update of a call for that identity whose email is not empty and not the one it read, and becomes that call's email; nothing else of a row ever changes |
| Bootstrap.LoserKeepsWinnersEmail | internal/store/store.go:124-128 | For any two different emails, a run in which the loser gets the winner's and it stays stored |
| Store.Store.GetOrCreateUser | internal/store/store.go:81-136 | With arbitrary other sessions between statements: the tables stay valid, the answer is the row stored for the identity, the call's own tenant and user are both there as asked for or neither, an existing user comes back with a non-empty requested email and untouched for an empty one, NotFound is never returned, and the call fails only when a statement it reaches fails, also after taking effect |
| Store.Store.Create | internal/store/store.go:102-135 | The transaction commits both rows or neither, both on success, either way when an error is reported; an empty conflict result means the identity is taken |
| Store.Store.GetUser | internal/store/store.go:138-152 | A matching row, or NotFound only when there is none |
| Fake.Fake.GetOrCreateUser | internal/store/fake.go:35-57 | One atomic get-or-create on user and tenant ids: a row that is found gets a non-empty email and keeps its own otherwise, a new row comes with a new tenant of the right name, and nothing else changes |
| Fake.Fake.CreateMachine | internal/store/fake.go:70-85 | Ends as the SQL insert may: done exactly when no constraint is violated, else an error for a violated one, in any scan order; uniqueness is kept |
| Fake.Fake.GetMachineByFingerprint | internal/store/fake.go:98-108 | Exactly the machine with the fingerprint, whatever the scan order |
| Fake.Fake.ListMachines | internal/store/fake.go:110-121 | Every machine of the tenant exactly once |
| Fake.Fake.TouchMachine | internal/store/fake.go:123-133 | The SQL update, plus an error for a missing machine |
| Fake.Fake.RenameMachine | internal/store/fake.go:135-149 | Table and outcome are those of the SQL update |
| Fake.Fake.DeleteMachine | internal/store/fake.go:151-159 | Table and outcome are those of the SQL delete |
| Fake.Fake.IsApiKeyRevoked | internal/store/fake.go:168-176 | Unknown keys count as revoked |
| Fake.Fake.RevokeApiKey | internal/store/fake.go:178-188 | Only the owner can revoke a key, once, and nothing else changes |
| Machines.InsertKeepsUnique | internal/store/store.go:171-189 | An insert keeps both UNIQUE constraints, and succeeds exactly when the key is new and the name is new in the tenant |
| Machines.RenameKeepsUnique | internal/store/store.go:245-258 | A rename gives the row the name, changes nothing else and succeeds exactly when the renamed table meets the constraints; otherwise the table is as before |
| Machines.DeleteKeepsUnique | internal/store/store.go:261-271 | A delete takes exactly the one row out, reports whether there was one, and leaves room for the same insert |
| Pipe.CopyOne | internal/relay/handler_ws_ssh.go:154-170 | What the destination got is a prefix of what was read, all of it unless the destination failed, and at most one buffer short then; activity is recorded exactly when bytes were read |
| Pipe.WrittenIsPrefixOfRead | internal/relay/handler_ws_ssh.go:150-172 | At every instant, each way: written is a prefix of read, at most 32768 bytes short, and equal while the copier waits |
| Pipe.WrittenIsWhatWasRead | internal/relay/handler_ws_ssh.go:158-165 | Each way, what has been written is the first bytes of all data read, as many as the destination accepted |
| Pipe.StopsExactlyOnError | internal/relay/handler_ws_ssh.go:157-170 | A copier leaves its loop if and only if a read failed, after writing what came with the failure, or a write failed |
| Pipe.DataCanFlow | internal/relay/handler_ws_ssh.go:157-170 | A copier that waits can always pass on up to 32768 bytes whole and wait again |
| Pipe.CancelledExactly | internal/relay/handler_ws_ssh.go:150-197 | The context is cancelled if and only if somebody outside, a copier that unwinds, or the fired watchdog cancelled it |
| Pipe.FiringEndsTheSession | internal/relay/handler_ws_ssh.go:183-188 | A watchdog that has fired and returned has cancelled the context and closed both connections; it returns otherwise only when the context is cancelled |
| Pipe.WatchdogCanReturn | internal/relay/handler_ws_ssh.go:174-191 | The watchdog can always come to its end, and having fired has then closed both connections |
| Pipe.PipeCanReturn | internal/relay/handler_ws_ssh.go:193-197 | From wherever it is, the pipe can come to its end with everything torn down |
| Pipe.ReturnsAfterTeardown | internal/relay/handler_ws_ssh.go:193-197 | The pipe returns only after both copiers have exited, both ends are closed and the context is cancelled |
| Pipe.FiresBetweenOneAndTwoTimeouts | internal/relay/handler_ws_ssh.go:174-191 | For every traffic schedule, a watchdog close comes at least one and at most two timeouts after a copier last recorded a read |
| Pipe.NeverIdleBeyondTwoTimeouts | internal/relay/handler_ws_ssh.go:174-191 | While the watchdog is armed the last record is never more than two timeouts ago |
| Pipe.TickClosesExactlyTheSilent | internal/relay/handler_ws_ssh.go:182-188 | A tick makes the watchdog fire if and only if no copier has recorded a read since the previous tick or the start |
| Pipe.ClosedExactlyWhenSilent | internal/relay/handler_ws_ssh.go:174-191 | Over a whole run, the watchdog has fired if and only if some tick came after such a silence |
| Pipe.OnlyUnrecordedReadsAreMissed | internal/relay/handler_ws_ssh.go:158-188 | If a tick closes the session although a copier has read data since the previous tick, that copier is between its read and the record of it |
| Pipe.UnrecordedReadCanBeMissed | internal/relay/handler_ws_ssh.go:158-188 | That case is real: a run in which the session is closed at the instant at which data arrived |
| Pipe.TickDecides | internal/relay/handler_ws_ssh.go:182-188 | In terms of time: a tick closes a session whose last record is more than the timeout ago and spares one whose last record is more recent than that |
| Pipe.BusySessionNeverIdled | internal/relay/handler_ws_ssh.go:174-191 | A session in which the gaps between records stay below the timeout is never closed by the watchdog |
| Pipe.ExactTimeoutCanFire | internal/relay/handler_ws_ssh.go:182-188 | A gap of exactly the timeout can be closed: a concrete run |
| Pipe.ExactTimeoutCanSpare | internal/relay/handler_ws_ssh.go:182-188 | And it can be spared: a concrete run |
| Pipe.TwoTimeoutsAttained | internal/relay/handler_ws_ssh.go:182-188 | The upper bound is attained: a concrete run |
| Sessions.MemoryStore.Create | internal/relay/authsession_memory.go:30-43 | The new table, with the session under its id |
| Sessions.MemoryStore.Get | internal/relay/authsession_memory.go:45-57 | The unexpired session or none, dropping it when expired |
| Sessions.MemoryStore.SetProvider | internal/relay/authsession_memory.go:59-68 | Provider and verifier change together, only on a session that is there |
| Sessions.MemoryStore.Complete | internal/relay/authsession_memory.go:70-78 | The token is set, only on a session that is there |
| Sessions.MemoryStore.Consume | internal/relay/authsession_memory.go:80-90 | The token of a completed session, which is removed |
| Sessions.MemoryStore.Cleanup | internal/relay/authsession_memory.go:96-114 | The sweep loop keeps exactly the unexpired sessions, in any map order |
| Sessions.SweepsInvisible | internal/relay/authsession_memory.go:96-114 | Taking every sweep out of any history, or starting from a table with other expired entries, changes no answer of Get ever, and no answer of Consume on an unexpired id |
| Sessions.LiveBisimulation | internal/relay/authsession_memory.go:30-114 | Tables that agree on unexpired sessions answer alike and still agree after any operation |
| Sessions.SingleUse | internal/relay/authsession_memory.go:80-90 | Over a whole history at most one Consume of a session succeeds |
| Sessions.HandsOutLatestToken | internal/relay/authsession_memory.go:70-90 | What it returns is the token of the latest Complete of that session |
| Sessions.NoResurrection | internal/relay/authsession_memory.go:59-78 | A session that is out of the table, whether swept, dropped by Get or consumed, never comes back, whatever completes it late |
| Sessions.PresentUntilRemoved | internal/relay/authsession_memory.go:45-114 | After its create a session is in the table if and only if no sweep or Get of it has come more than the ttl later and no Consume has come after a completion with a token; it then has a token if and only if its last completion gave one |
| Sessions.GetFindsExactlyLive | internal/relay/authsession_memory.go:45-57 | Get finds a session if and only if nothing has removed it and its ttl has not passed, and then with the provider and verifier last put into it, the token last stored, and the source and time of its create |
| Sessions.PollGetsLastToken | internal/relay/authsession_memory.go:80-90 | A successful Consume returns the token of the last completion after the create |
| Sessions.HandsOutExactlyWhen | internal/relay/authsession_memory.go:80-90 | A Consume succeeds if and only if the session was created and completed before it and nothing has removed it in between |
| Sessions.CompletedThenPolled | internal/relay/authsession_memory.go:70-90 | A Consume right after a completion succeeds if and only if nothing had removed the session before the completion: expiry alone does not matter |
| Sessions.TokenAgeBounded | internal/relay/authsession_memory.go:80-114 | With a sweep every 30 s no token is handed out at an age above ttl + 30 s |
| Sessions.BoundAttained | internal/relay/authsession_memory.go:70-90 | For every ttl >= 0 that age is attained, in a regularly swept history in which the session is completed only after it has expired and Get would refuse it |
| Login.VerifierMatchesChallenge | internal/relay/handler_auth.go:130-235 | Unless the provider is chosen again between the redirect and the callback's read, whichever comes first, the verifier sent in the exchange hashes to the challenge sent in the redirect, for the same provider |
| Login.MatchesExactlyUnlessChosen | internal/relay/handler_auth.go:130-408 | When the verifiers put into the session hash differently, that is an if and only if: they match exactly when the provider was not chosen in between |
| Login.ChoosingAgainMismatches | internal/relay/handler_auth.go:375-408 | With a choose in between it need not: a concrete run |
| Login.ExchangeFromOneOrigin | internal/relay/handler_auth.go:107-117 | The provider and verifier of an exchange were put into the session together, by one login or one choose |
| Login.PolledTokenWasExchanged | internal/relay/handler_auth.go:250-309 | The token a poll gets is the last one stored in its session; in production a callback stored it, and the last thing that same callback did before was to make an exchange for that same session |
| Login.PolledOnce | internal/relay/handler_auth.go:295-309 | With any handlers interleaved, a login session hands its token to at most one poll |
| Login.ThereExactlyWhileOpen | internal/relay/handler_auth.go:67-408 | Over the handlers: a session is there from its create until a sweep or a lookup notices its expiry or a poll takes its token |
| Login.PollGetsExactly | internal/relay/handler_auth.go:295-309 | A poll gets a token if and only if the session is still open and a token was stored in it, and then the one stored last |
| Login.AuthorizeRedirectsExactly | internal/relay/handler_auth.go:130-176 | The browser is redirected if and only if the session is open and within its ttl and its provider has an authorize endpoint, with the challenge of the verifier last put into the session |
| Login.CallbackProceedsExactly | internal/relay/handler_auth.go:211-226 | A callback goes on to the exchange if and only if the session is open and within its ttl and its provider has a token endpoint, with the provider and verifier last put into it |
| Login.StoresExactlyWhileOpen | internal/relay/handler_auth.go:280-284 | What a handler finally stores takes effect if and only if the session is still open then, expired or not |
| Login.OnlyConfiguredProviders | internal/relay/handler_auth.go:80-110 | A session is logged in or chosen for a configured provider only, except for one without a provider yet and for a developer's in development mode |
| Login.HandlersFinishOnce | internal/relay/handler_auth.go:179-408 | Between two finishes of handlers under one number a handler has started: none stores twice |
| Login.AnyoneCanLogIn | internal/relay/handler_auth.go:80-309 | Whatever else is going on, a login with a configured provider can go from its start over redirect, callback and exchange to the poll that gets its token |
| Keepalive.DeadlineSparesLiveTunnel | internal/sshgate/server.go:202-225 | Once a keepalive has arrived, the 90 s deadline never fires on a tunnel the client considers alive |
| Keepalive.ArrivalsWithin45 | internal/cli/tunnel.go:104-133 | Consecutive keepalives reach the gateway at most 45 s apart |
| Keepalive.SilentGatewayAbandoned | internal/cli/tunnel.go:112-128 | A client stays open at most 45 s after the last reply |
| Keepalive.TripsExactlyWhenEarly | internal/sshgate/server.go:121-124 | The deadline can fire on a tunnel the client considers alive, in some run, if and only if it is at most 45 s away when the ticker starts |
| Keepalive.LaterDeadlineSpares | internal/cli/tunnel.go:104-133 | With any later initial deadline, at every instant of every run an open client has an open gateway whose deadline is ahead |
| Keepalive.EarlyDeadlineCanFire | internal/sshgate/server.go:121-124 | With a deadline of at most 45 s, a run in which the gateway hangs up while the client waits for its first reply |
| Keepalive.DeadlineFollowsTransfers | internal/sshgate/server.go:195-225 | The deadline is always 90 s after the last transfer |
| Keepalive.DeadTunnelIsDropped | internal/sshgate/server.go:195-225 | Once the client is gone and nothing arrives, the gateway can hang up 90 s after the last transfer |
| Keepalive.ProbesOnTime | internal/cli/tunnel.go:104-133 | The client probes at the multiples of 30 s, gives a probe up exactly 15 s after sending it, takes an answer only to a probe that arrived, and no probe arrives twice |
| Keepalive.OpenExactlyUntil | internal/cli/tunnel.go:104-133 | The client is open exactly until it gives up or closes, the gateway until its deadline fires |
| Keepalive.SilenceCanBeNoticed | internal/cli/tunnel.go:112-128 | From every state, a client that gets no more answers can give up within 45 s |
| Keepalive.TunnelCanGoOn | internal/cli/tunnel.go:104-133 | A tunnel that is open at both ends can always complete another round of probe and answer |
| Keepalive.IdleConn.Transferred | internal/sshgate/server.go:211-225 | A read or write moves the deadline a full timeout ahead exactly when it moved bytes |
| Backoff.RunTunnel | internal/cli/tunnel.go:50-72 | The k-th delay is half of min(2^k, 60) s plus the draw, within half and one and a half times that and below 90 s, and the next backoff min(2^n, 60) s; the loop ends exactly on cancellation |
| Backoff.TotalWait | internal/cli/tunnel.go:60-67 | Closed-form lower and upper bounds on the total wait after n reconnects |
| WsConn.Conn.OnEvent | internal/webssh/wsconn.go:40-72 | Binary messages are appended, text is ignored, close and error events fail the connection, and nothing happens after release |
| WsConn.Conn.FailWith | internal/webssh/wsconn.go:74-82 | The first error is kept, the connection is closed |
| WsConn.Conn.Read | internal/webssh/wsconn.go:84-99 | Waits through exactly the callbacks that leave nothing to return, then takes bytes from the front, or reports the recorded error or the end |
| WsConn.Conn.Write | internal/webssh/wsconn.go:101-112 | Fails and sends nothing when closed, else sends the frame |
| WsConn.Conn.Close | internal/webssh/wsconn.go:114-126 | Closes and releases once |
| WsConn.BytesConserved | internal/webssh/wsconn.go:40-99 | All reads concatenated, followed by the buffer, are all binary messages in order, however reads split them |
| WsConn.ErrorOnlyWhenDrained | internal/webssh/wsconn.go:90-98 | A read reports the end or an error only after everything that arrived has been read |
| WsConn.SameErrorForEver | internal/webssh/wsconn.go:74-99 | All failing reads of a connection report the same error |
| WsConn.NoWriteAfterClose | internal/webssh/wsconn.go:101-107 | Every write after a close, by either side or by an error, fails |
| WsConn.CloseIsIdempotent | internal/webssh/wsconn.go:114-126 | A second Close changes nothing, and the socket is closed once |
| WsConn.ReadAnswersExactly | internal/webssh/wsconn.go:40-99 | A read returns the next bytes of the messages not yet returned, as many as there are or fit; if there are none, how the connection ended, or nothing yet while it has not |
| WsConn.WriteAnswersExactly | internal/webssh/wsconn.go:101-112 | A write is sent whole if and only if nothing has ended the connection |
| ApiKey.SubjectRoundTrip | internal/relay/apikey.go:92-98 | A subject reads back as written if and only if the provider has no colon and neither part is empty |
| ApiKey.ParsedSubjectIsWhole | internal/relay/apikey.go:92-98 | Parsing loses no part of a subject |
| ApiKey.ProductionNeedsProof | internal/relay/auth.go:13-67 | In production a token is accepted for an identity if and only if it is a recorded, unrevoked key signed here whose subject is that identity's, or no key at all and vouched for by a provider |
| ApiKey.DevelopmentTrustsAll | internal/relay/auth.go:13-67 | In development mode nobody is refused, and who a token stands for |
| ApiKey.GeneratedKeyVerifies | internal/relay/apikey.go:30-89 | A key is generated exactly for a non-empty secret, provider and subject, and verifies to what it was made of |
| ApiKey.KeyStandsForCaller | internal/relay/handler_auth.go:412-450 | In production a caller's own key resolves to the caller's identity if and only if the provider has no colon and the email is empty or equals the subject |
| ApiKey.KeyWorksExactlyWhileRecorded | internal/relay/auth.go:18-39 | A key signed here counts as revoked except exactly from its first recording to the first revocation after that |
| ApiKey.RevokedKeyNeverWorksAgain | internal/relay/auth.go:18-39 | A recorded key, once revoked, is rejected whatever is recorded or revoked later |

## Left out

- The SSH handshake and channels, OIDC discovery, JWT cryptography, SHA-256 and PEM handling: library code, parameters here or an abstract connection that is live or not.
- The React UI, the WASM client's SSH session, static files, HTML rendering, configuration and browser opening: input, output and rendering.
- The answer 503 when no gateway is configured, request decoding and name trimming: they touch no shared state.
- Device-code polling and the machine enrolment command of the CLI: one HTTP request after another, with no state shared between them.
- Bridge handlers, transactions and login handlers are values in a step machine rather than methods, because other threads run between their steps; `Store.Store.GetOrCreateUser` is the one call also written out as a method with interference.
- The machine statements of the Postgres store are functions on the table, shared by the relay and the in-memory store; column scanning and query errors are not modelled.
- The handshake: the time between the key check and the start of the request loop is one step, so the touch of last_seen_at in between is not modelled.
- Pipe.FiresBetweenOneAndTwoTimeouts: the upper bound is inclusive because a read at the very instant of a tick may fall on either side of it; late delivery of ticks is not modelled.
- Keepalive.DeadlineSparesLiveTunnel: the ticker is on time and the client reacts to its timers at once; delays of the client's own scheduler are not modelled.
- Linearizability.Linearizable: covers user and tenant ids; stored emails are not those of an atomic call when a race is lost (`Bootstrap.EmailStored` says exactly when), and tenant names are stated for one call only (`Store.Store.GetOrCreateUser`).
- Relay: a delete whose statement took effect although it reported an error is the run in which its last step never comes.
- Fake.Fake.CreateMachine: which of two violated constraints is reported is left open, as it depends on the scan order here and on the index order in Postgres.
- Fake.Fake.ListMachines: order, which the SQL query fixes by name and the scan does not.
- Fake.Fake.RecordApiKey: recording a key id again replaces the entry, while Postgres refuses it; `ApiKey.RevokedKeyNeverWorksAgain` is about Postgres.
- Sessions.SweepsInvisible: says nothing about Consume on an expired id, whose answer does depend on whether a sweep has come by.
- Liveness: that a close which is owed is eventually performed, or a waiting insert eventually decided, depends on the scheduler and is not stated; that it can be from every state is (`Gateway.OwedCanBeClosed`, `BootstrapProgress.CallCanReturn` and the like).
