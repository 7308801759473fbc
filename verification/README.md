# A verified model of the swat4master server

swat4master is a GameSpy master server. This project models four of its parts and proves what
they are for.

**The server store.** Records live in a Redis hash with two sorted sets and nine status sets
beside it. Every change of a record runs under a per-address lock: SETNX with a lease, WATCH, an
ownership check, the read, the branch with its conflict callback, MULTI/EXEC, and a release made of
a GET and a DEL. `LockProtocol.dfy` is a state machine over these commands for any number of
clients, in which a lock may expire between any two commands and every change of a lock key breaks
the watches on it. `LockSafety.dfy` proves its invariant, `Serializability.dfy` and `History.dfy` what
follows from it, `Release.dfy` says what becomes of a lock between two commands of its owner,
`RecordSafety.dfy` lifts properties of single records to whole runs, and `UseCalls.dfy`
applies that to the calls that the use cases make. `Guard.dfy` is the client's side as a program (the
guard, the deferred release and the retry loop as statements), proved to be a path of that machine
under every schedule of the other clients. `Store.dfy` defines the store, the transactions and the
sequential calls; `Repository.dfy` is the repository on a quiescent store, with its filters, and
`Instants.dfy` says what a filter returns on a store that some run has left, in instants.

**The discovery system.** `Probes.dfy` is the probe queue, `ProbeProtocol.dfy` the same queue under many
consumers whose range read and pop are separate commands; `Orders.dfy` says what enqueueing adds, and
`ProbeTimes.dfy` when an item may leave. `Discovery.dfy` gives the effect of every
use case and a machine of the whole system; `Outcomes.dfy` says what a verdict tells about the record then
stored. `Overtaken.dfy` says what one write does that comes late, and `TwoWrites.dfy` is the machine again
with every submission, report and retry taken apart into its two writes, and anything in between.
`Services.dfy` is the use cases as statements over the repository, the instance registry
of `Instances.dfy` and the queue, proved against those effects.

**The stream cipher.** `Cipher.dfy` and `Crypt.dfy`: the card shuffling in place, key derivation with
wrapping bytes, and the packet header.

**The wire formats.** `Gs1.dfy` reassembles GS1 and AdminMod fragments and parses parameters,
`Browsing.dfy` holds the browser's request and the packed server list, `Query.dfy` the filter query.

`Bytes.dfy`, `Entities.dfy` and `Slice.dfy` hold what these share.

## How the source is rendered

- Objects that the source updates in place are classes (`Repository`, `Registry`, `Queue`, `CipherState`,
  `Parser`, `Session`); loops are loops in methods, each proved against a function whose properties are then
  proved as lemmas. `server.Server` and `probe.Probe` are Go structs passed and stored by value, so
  they are datatypes, and the handlers that assign their fields one after the other are methods.
- A conflict callback that may change its argument and returns a bool is a function to an optional
  record. The only demand on it, `Sane`, is that it leaves address and version alone; every callback
  in the source is shown to meet it.
- Times are integers in nanoseconds; the zero time is an absent option. The conversion of a time to
  a floating-point score is an arbitrary monotone function, and filters are stated in scores.
- Tokens, submission numbers and item ids are fresh numbers where the source draws random UUIDs; no
  statement depends on the order of item ids.
- A clock reading, a probe's outcome, a retry's exponential delay, the random countdown and the random
  header bytes are parameters. A parsed info or details block carries the validator's verdict as
  a field.
- In `Discovery.dfy` and `Services.dfy` a use case reads the clock once and nobody else is around. In the
  protocol each client command reads it anew and everything may interleave.

## Where the code does not do what its comments or callers expect

The code was followed in every case. Each item names the lemma that says exactly when the expectation
is met, and where there is one the lemma with an input or a run for which it is not.

- A release can delete another client's lock, exactly when the key was deleted and taken again between
  its GET and its DEL (`ReleaseHitsForeignLockIff`, `ReleaseCanRemoveForeignLock`). Commits still serialize,
  because the victim's EXEC is refused.
- A lock that is gone at the ownership check, and that nobody has taken since, ends the call with an
  error that the retry loop does not retry; the comment there only speaks of a lock acquired by
  someone else (`OwnershipCheckIff`).
- Versions restart when an address is removed and added again, and an update made from a record of
  the previous life can then overwrite silently (`UpdateSoundIff`, `UpdateLostAcrossLives`).
- The comment in `update` says that the given version must be greater; the code lets an equal one pass
  (`CallbackIgnoredIff`).
- `Filter` reads keys and records separately. If an update falls in between, the cleaner can delete
  a server that was just refreshed (`RunCleanerDeletesFreshIff`, `FreshDeletedWasSavedBetween`,
  `CleanerDeletesFreshAfterSplitRead`).
- The conflict callbacks in `maybeDiscoverPort` and `discoverServer` test for all of several bits where
  their comments speak of any. A report overtaken by the probe it has just queued then leaves a
  retry mark that nothing serves (`LateMarkKeepsBackedIff`, `FastProbeStrandsRetry`); a submission aborts as
  meant only when none or all of the bits are there (`LateSubmitAbortsIff`). `RunStaysSettledIff` says for
  whole runs when no such mark is left.
- A retry queues its probe before it updates the record, and its conflict callback handles a failure: if the
  stored record is newer, the server counts as failed although its probe is queued (`LateRetryWaitsIff`).
- A submission whose probe cannot be queued leaves its mark behind, and nothing serves it unless another
  probe or another submission does (`BreakKeepsIff`).
- A GS1 fragment whose piece begins with a statusresponse field, or leaves its name open at the end, is
  misread as an AdminMod one (`Gs1FrameIsReadIff`).
- The completeness test of fragment reassembly compares counts only (`CompleteIsWholeIff`,
  `GapGoesUnnoticed`).
- A text value of a filter may contain " and " between its quotes, but the query is split there all the
  same (`QueryRoundTripIff`).

## Model

| member | source | states |
|---|---|---|
| Serializability.CommitsSerialize | internal/persistence/redis/repositories/servers/servers.go:83-207 | In every run of any number of clients the stored records are what the commits so far produce one after the other, each commit being the branch of the sequential call on the record its predecessors left; no call commits twice. |
| Serializability.IntervalsDoNotOverlap | internal/persistence/redis/redislock/redislock.go:28-76 | The intervals from ownership check to EXEC of any two committed calls on one address do not overlap, although locks may expire at any step. |
| Serializability.MutualExclusion | internal/persistence/redis/redislock/redislock.go:50-64 | Two different clients never both have passed the ownership check for one key with an unbroken WATCH. |
| Serializability.CallsLinearize | internal/persistence/redis/repositories/servers/servers.go:476-496 | A call that wrote has its one entry in the history, made since it began; a call that answered without writing gave the answer of the sequential call at one moment of its own duration and has no entry. |
| Serializability.AnswersMean | internal/persistence/redis/repositories/servers/servers.go:83-207 | In every run a call that got hold of the lock has written its own record over nothing or over one that is not newer, or what its callback made of the stored one, or deleted one that is not newer or that the callback gave up; or it answers without a write what was right at one moment of its duration. |
| Serializability.StepRefines | internal/persistence/redis/repositories/servers/servers.go:83-207 | Every single command leaves the address-to-record map alone, or is the whole effect of one sequential call on the record stored at that moment. |
| Serializability.IndicesAgree | internal/persistence/redis/repositories/servers/servers.go:442-468 | After every step of every run an address is in the update index iff it is stored, in the refresh index iff it is stored with a refresh time (with that score), and in a status set iff its stored status has the bit. |
| Serializability.ReleaseCanRemoveForeignLock | internal/persistence/redis/redislock/redislock.go:78-90 | A concrete run of the second half of ReleaseHitsForeignLockIff: a key that expired and was taken again between the GET and the DEL of a release is deleted by it. |
| Release.ReleaseHitsForeignLockIff | internal/persistence/redis/redislock/redislock.go:78-90 | From any state in which a release has read its own token and for any events of the others: its DEL removes its own lock iff nothing deleted the key in between, and another's iff the key was deleted and taken again since. |
| Release.RunReleaseHitsForeignLockIff | internal/persistence/redis/redislock/redislock.go:78-90 | The same in every run of any number of clients. |
| Release.OwnershipCheckIff | internal/persistence/redis/redislock/redislock.go:53-66 | From any state after a successful SETNX and for any events of the others: the ownership check passes iff nothing deleted the key, asks for a retry iff it was deleted and taken again, and fails with the error that is not retried iff it was deleted and is free. |
| Release.SetNxStarts | internal/persistence/redis/redislock/redislock.go:29-38 | A successful SETNX leaves the client holding the key under a token that was just handed out, where OwnershipCheckIff begins. |
| Release.ReleaseChecksFirst | internal/persistence/redis/redislock/redislock.go:78-90 | The first command of a release deletes nothing, and leads to the DEL iff the key held the token of the release. |
| Release.CallsHaveFiveAttempts | internal/persistence/redis/repositories/servers/servers.go:476-496 | A call starts with five attempts, at the SETNX, from the record that its client holds. |
| Release.RetryLoop | internal/persistence/redis/repositories/servers/servers.go:476-496 | From any state: a SETNX without success costs one attempt, and without attempts the call gives up; a refused transaction changes nothing and leads back to the SETNX after its release, where a settled attempt ends the call with its answer. |
| Release.LocksAreOwned | internal/persistence/redis/redislock/redislock.go:41-52 | In every run each lock is that of a client in the middle of a call for that key: no lock outlives the call that took it. |
| Release.KeyFate | internal/persistence/redis/redislock/redislock.go:28-90 | A held key is held under the same token after any run iff no event deleted it, and under another one iff it was taken again since its last deletion. |
| LockSafety.RunKeeps | internal/persistence/redis/redislock/redislock.go:28-90 | The protocol invariant (lock ownership while the watch is unbroken, current reads, serial log, distinct tokens) holds in every state of every run. |
| LockSafety.QuietKeeps | internal/persistence/redis/redislock/redislock.go:31-64 | Every command that touches only its own client (WATCH, ownership check, read, branch, clock, refused EXEC, first half of the release) keeps the invariant. |
| LockSafety.LockKeeps | internal/persistence/redis/redislock/redislock.go:31-38 | A successful SETNX keeps the invariant and flags the key's watchers. |
| LockSafety.ExecKeeps | internal/persistence/redis/repositories/servers/servers.go:442-468 | A transaction on an unbroken watch keeps the invariant. |
| LockSafety.ReleaseDeleteKeeps | internal/persistence/redis/redislock/redislock.go:86 | The DEL of the release, whoever's lock it hits, keeps the invariant. |
| LockSafety.ExpireKeeps | internal/persistence/redis/redislock/redislock.go:31 | Expiry of a lock at any moment keeps the invariant. |
| Guard.Session.SetNx | internal/persistence/redis/redislock/redislock.go:29-38 | SETNX with whatever others do before it: acquired or not, one attempt used. |
| Guard.Session.CheckOwner | internal/persistence/redis/redislock/redislock.go:57-66 | The three results of the ownership check, a missing key being an error of its own. |
| Guard.Session.Operate | internal/persistence/redis/repositories/servers/servers.go:83-107 | Read, branch or conflict callback, clock, EXEC: the verdict is the answer, or a retry when EXEC is refused. |
| Guard.Session.Release | internal/persistence/redis/redislock/redislock.go:78-90 | Token check and DEL as two commands; afterwards the call is over or goes round again. |
| Guard.Session.Guarded | internal/persistence/redis/redislock/redislock.go:28-76 | One attempt with its deferred release is a path of the protocol, for every schedule of the other clients. |
| Guard.Session.UpdateExclusive | internal/persistence/redis/repositories/servers/servers.go:476-496 | The retry loop ends within its attempts with the answer that the protocol records for the call. |
| Guard.Session.Perform | internal/persistence/redis/repositories/servers/servers.go:476-496 | A whole call run command by command under any schedule of others returns an answer that is linearizable between its beginning and its end. |
| History.StoredVersionGrows | internal/persistence/redis/repositories/servers/servers.go:433-435 | While an address is not removed, its record stays the same or gets a greater version. |
| History.VersionsIncrease | internal/persistence/redis/repositories/servers/servers.go:433-435 | Within one life of an address the committed versions strictly increase. |
| History.NoLostUpdate | internal/persistence/redis/repositories/servers/servers.go:126-155 | While the address lives, every committed update is the caller's change to exactly the record it had read, or the conflict callback applied to the stored one. |
| RunHistory.RunLosesNoUpdate | internal/persistence/redis/repositories/servers/servers.go:126-155 | The same for every run of any number of clients: an update from the record a client held is applied to exactly that record or went through its callback, if the address lived on. |
| RunHistory.HeldIsGenuine | internal/persistence/redis/repositories/servers/servers.go:62-64 | In every reachable state whatever a client holds, and whatever it held when it began its current or latest call, was the stored record at the moment noted with it. |
| RunHistory.BaseIsGenuine | internal/persistence/redis/repositories/servers/servers.go:62-64 | The same of the record that the call of a committed entry began from. |
| History.UpdateSoundIff | internal/persistence/redis/repositories/servers/servers.go:126-155 | For any history, an update is sound in that sense iff the stored record is the one read or has a greater version; otherwise the address was removed in between. |
| History.UpdateLostAcrossLives | internal/persistence/redis/repositories/servers/servers.go:167-191 | A concrete history in which removal and re-adding restarts the versions and an update is lost. |
| History.CleanerDeletesFreshIff | internal/cleanup/cleaners/servercleaner/servercleaner.go:76-90 | While the address lives, the cleaner deletes a server refreshed after the cutoff iff that is the very record it fetched and it was already fresh then. |
| History.CleanerDeletesFreshOnlyIf | internal/cleanup/cleaners/servercleaner/servercleaner.go:76-90 | Without that assumption it deletes a fresh server only if its version is not greater than that of the fetched record, and another record than the fetched one only if the address died in between. |
| History.FreshFetchedWasSaved | internal/persistence/redis/repositories/servers/servers.go:209-234 | A record that is fetched fresh although a filter had selected its address before was saved between the two. |
| History.CleanerSparesFresh | internal/cleanup/cleaners/servercleaner/servercleaner.go:48-97 | A cleaner whose fetched record is the one its filter selected never deletes a server refreshed after the cutoff, whatever commits in between. |
| History.StampCoversRefresh | internal/persistence/redis/repositories/servers/servers.go:446-461 | If no record is stamped before its refresh, the time in the update index is never before the refresh time of the stored record. |
| History.CleanerDeletesFreshAfterSplitRead | internal/persistence/redis/repositories/servers/servers.go:209-234 | A concrete history in which an update falls between the two reads of Filter, and the cleaner deletes the fresh record it fetched. |
| StatusSafety.EveryStoredRecordIsSound | internal/core/entities/server/server.go:76-92 | In every run of interleaved use cases, conflict callbacks included, every stored status is coherent (port implies details, details implies info, details and no-details exclude each other, new stands alone, never empty) and advertised info passed validation. |
| StatusSafety.HistoryIsTimely | internal/core/entities/server/server.go:94-96 | In every such run no record is saved with a refresh time in the future. |
| StatusSafety.CleanerIsSafe | internal/cleanup/cleaners/servercleaner/servercleaner.go:48-97 | In every such run a removal by the cleaner of the record its filter selected does not delete a server refreshed after the cutoff, if the address lived on in between. |
| StatusSafety.RemovalsMean | internal/cleanup/cleaners/servercleaner/servercleaner.go:76-90 | In every run a removal answers that the server was spared only if at one moment nothing was stored or, for the cleaner, a newer record refreshed after the cutoff; a removal on request is never refused to a stored server. |
| StatusSafety.RunCleanerDeletesFreshIff | internal/cleanup/cleaners/servercleaner/servercleaner.go:76-90 | Any removal by a cleaner in any such run, whatever it had fetched and whenever: a fresh record is deleted only if its version is not greater than the fetched one's, and while the address lives iff it is the fetched one and that was fresh. |
| StatusSafety.FreshDeletedWasSavedBetween | internal/persistence/redis/repositories/servers/servers.go:209-234 | With the filter at one moment and the fetch at a later one, a fresh server is deleted, while its address lives, only if it was saved between the two. |
| StatusSafety.UseCallKeeps | internal/core/usecases/reportserver/reportserver.go:101-119 | Whatever a use case writes, directly or through its callback, from a sound record is sound. |
| UseCalls.SuccessIsSound | internal/prober/probers/portprober/portprober.go:207-218 | Handling a successful probe of either goal keeps a record sound. |
| UseCalls.FailureIsSound | internal/prober/probers/detailsprober/detailsprober.go:118-122 | Handling a failed probe of either goal keeps a record sound. |
| UseCalls.UseCallsAreSane | internal/core/usecases/probeserver/probeserver.go:87-90 | No conflict callback of a use case changes the address or the version of the record it is given. |
| RecordSafety.RunHas | internal/persistence/redis/repositories/servers/servers.go:83-207 | Any lasting property of records that every call keeps holds of every record stored, held or logged in every run. |
| Store.PutKeepsConsistent | internal/persistence/redis/repositories/servers/servers.go:442-468 | The write transaction keeps records and indices in agreement, whatever the record. |
| Store.DropKeepsConsistent | internal/persistence/redis/repositories/servers/servers.go:192-204 | The removal transaction keeps records and indices in agreement. |
| Store.DecideRaisesVersion | internal/persistence/redis/repositories/servers/servers.go:126-155 | Whatever branch overwrites a stored record gives it a greater version. |
| Store.CardinalityIsScan | internal/persistence/redis/repositories/servers/servers.go:397-420 | A status set of a consistent store is the set of stored records with the bit. |
| Repository.Repository.Save | internal/persistence/redis/repositories/servers/servers.go:433-474 | Bumps the version and updates the hash, both sorted sets and all nine status sets as one transaction. |
| Repository.Repository.TagSets | internal/persistence/redis/repositories/servers/servers.go:464-472 | The loop over the members adds or removes the address in exactly the right sets. |
| Repository.Repository.Add | internal/persistence/redis/repositories/servers/servers.go:83-107 | Saves a new record as it is; of an existing one saves what the callback makes of it, or refuses; no other record changes. |
| Repository.Repository.Update | internal/persistence/redis/repositories/servers/servers.go:126-155 | Replaces a stored record that is not newer; of a newer one saves what the callback makes of it, or keeps it; no other record changes. |
| Repository.Repository.Remove | internal/persistence/redis/repositories/servers/servers.go:167-207 | Deletes from the hash and every index iff a record is stored that is not newer or that the callback gives up; then the address is gone, and otherwise nothing changes. |
| Repository.Repository.TimestampFilters | internal/persistence/redis/repositories/servers/servers.go:279-338 | The ranges asked for together mean the conjunction of the criteria that are set. |
| Repository.Repository.StatusFilters | internal/persistence/redis/repositories/servers/servers.go:340-373 | The wanted sets mean all wanted bits, the unwanted ones no excluded bit. |
| Repository.Repository.FilterKeys | internal/persistence/redis/repositories/servers/servers.go:236-277 | The keys, without duplicates, are exactly the addresses that match the plain predicate. |
| Repository.Repository.Filter | internal/persistence/redis/repositories/servers/servers.go:209-234 | On a quiescent store: the matching records, each once. |
| Repository.Repository.CountByStatus | internal/persistence/redis/repositories/servers/servers.go:397-420 | For each status the number of stored records that carry it. |
| Repository.FilterMeansInstants | internal/persistence/redis/repositories/servers/servers.go:279-338 | Under any monotone rounding of scores, a match is never at or after an exclusive upper bound, a record at or after inclusive lower bounds always matches them, and where no instant is confused with a bound the filter is the plain predicate on instants. |
| Instants.FilterAfterRun | internal/persistence/redis/repositories/servers/servers.go:209-234 | On the quiet store at the end of any run, with the instants at which that run last saved each record: Filter returns nothing saved or refreshed at or after an upper bound, misses nothing when there are only lower bounds, and is exactly the plain predicate on instants where rounding confuses none with a bound. |
| Instants.SavesAreKnown | internal/persistence/redis/repositories/servers/servers.go:446-461 | In every reachable state the update index holds, for exactly the stored records, the rounded instant of their last save. |
| Repository.WithBits | internal/core/entities/server/server.go:64-66 | A status contains all wanted bits iff it contains each of them. |
| Repository.NoBits | internal/core/entities/server/server.go:68-70 | A status contains one of the bits iff some single bit is in both. |
| Entities.Bits | internal/core/entities/discovery/status/status.go:79-90 | The shifting loop yields exactly the members contained in the status, in order, and stops. |
| Slice.Intersection | pkg/slice/slice.go:30-60 | The values that occur in every slice, each once, computed by counting. |
| Slice.Difference | pkg/slice/slice.go:62-82 | The values of the base, in order, that occur in no other slice. |
| Probes.Queue.Enqueue | internal/persistence/redis/repositories/probes/probes.go:50-85 | One new item under an unused id, scored at the earliest time of the order or at the present time if it has none, or nothing when it would expire before it is ready. |
| Probes.Queue.Pop | internal/persistence/redis/repositories/probes/probes.go:150-200 | The first ready items, at most as many as asked for, leave the queue and the item store together. |
| Probes.Queue.PopMany | internal/persistence/redis/repositories/probes/probes.go:121-148 | Refines popping one at a time: the shortest prefix of the ready queue that holds the wanted number of unexpired probes, or all of it, is consumed; a probe is given out only from a ready item whose deadline has not passed, no such item goes without being given out, and the others are counted. |
| Probes.TakenIsShortest | internal/persistence/redis/repositories/probes/probes.go:121-148 | The prefix consumed is the shortest with that many live probes. |
| Probes.TakenSplits | internal/persistence/redis/repositories/probes/probes.go:121-148 | Consuming in batches and consuming one by one come to the same. |
| Probes.ReadyIsPrefix | internal/persistence/redis/repositories/probes/probes.go:150-166 | In an ordered queue the ready members are exactly those at the head. |
| Probes.Queue.Count | internal/persistence/redis/repositories/probes/probes.go:202-208 | The cardinality of the sorted set is the number of stored items. |
| Orders.PlacedAdds | internal/persistence/redis/repositories/probes/probes.go:50-85 | What enqueueing some orders adds to the queue: each worthwhile order its probe and deadline under a new id of its own, at its earliest time or now, and nothing else. |
| ProbeProtocol.RunKeeps | internal/persistence/redis/repositories/probes/probes.go:50-200 | The bookkeeping invariant of many consumers holds in every state of every run. |
| ProbeProtocol.DeliveredAtMostOnce | internal/persistence/redis/repositories/probes/probes.go:168-198 | Each item is delivered to at most one consumer, at most once, as it was enqueued and not before it was ready. |
| ProbeProtocol.ItemsAreConserved | internal/persistence/redis/repositories/probes/probes.go:121-200 | At every moment each item ever enqueued is in exactly one place: waiting, in one consumer's hand, delivered, or dropped after it expired; queue members and item keys are the same ids. |
| ProbeProtocol.DropsAreCounted | internal/persistence/redis/repositories/probes/probes.go:137-143 | The expired count that a consumer reports is the number of items it dropped. |
| ProbeProtocol.EndsShortIff | internal/persistence/redis/repositories/probes/probes.go:129-136 | In every run a call returns less than it was asked for iff no probe was ready at its range read, or every key it had read was taken by other consumers before it could pop. |
| ProbeProtocol.PopMoves | internal/persistence/redis/repositories/probes/probes.go:168-198 | The pop transaction hands over exactly the keys that were still there. |
| ProbeTimes.NothingRunsEarly | internal/persistence/redis/repositories/probes/probes.go:66-75 | In every run an item stays in the queue until its earliest time, and while it is there it is among the ready ones iff it has none or that time has come. |
| ProbeTimes.LeftInTime | internal/persistence/redis/repositories/probes/probes.go:137-143 | Whatever was delivered still lasted at the moment it was given out, and whatever was dropped had passed its deadline then. |
| ProbeTimes.NeverTooMany | internal/persistence/redis/repositories/probes/probes.go:121-148 | However other consumers interfere, a call never returns more probes than it was asked for. |
| Discovery.RetriesAreBacked | internal/core/usecases/probeserver/probeserver.go:112-160 | In every reachable state a server marked for a port or details retry has a probe of that goal, queued or in flight, that never expires. |
| Discovery.RunsAreBounded | internal/core/entities/probe/probe.go:48-54 | Retries stay within the limit, equal the executions so far, and no submission is executed more than once plus once per allowed retry. |
| Discovery.QuietRunsDrain | internal/core/usecases/probeserver/probeserver.go:112-160 | Without new submissions the number of executions and expiry drops is bounded by the work left, which each of them lowers. |
| Discovery.QuietStepShrinks | internal/core/usecases/probeserver/probeserver.go:62-160 | No quiet step raises the work left; every execution and every drop lowers it strictly. |
| Discovery.CanDrain | internal/core/usecases/probeserver/probeserver.go:62-160 | From every reachable state time, pops and executions alone can empty the system. |
| Discovery.NothingFliesEarly | internal/core/usecases/probeserver/probeserver.go:112-130 | In every run whatever is being executed has waited for its earliest time. |
| Discovery.PopMeans | internal/persistence/redis/repositories/probes/probes.go:121-148 | A pop runs a task whose time has come if its deadline has not passed, and drops it if it has. |
| Overtaken.LateKeepsBackedIff | internal/core/usecases/probeserver/probeserver.go:62-182 | Any update made with a record that may no longer be the stored one, for any world and any record in hand: it keeps every retry mark backed iff the server is gone, or the record written over the stored one has its marks covered, or the stored one is newer and the callback marks nothing uncovered. |
| Overtaken.LateMarkKeepsBackedIff | internal/core/usecases/reportserver/reportserver.go:172-183 | The second write of a report, and the first of a submission, coming late: retry marks stay backed iff the server is gone, or a permanent port probe for it is outstanding and, if an unrelated record is replaced by one marked for a details retry, a permanent details probe too. |
| Overtaken.FastProbeStrandsRetry | internal/core/usecases/reportserver/reportserver.go:172-183 | If the queued probe succeeds before that write, the server ends with its port known and a port retry pending that nothing serves: the callback declines only when both bits are set. |
| Overtaken.LateRetryWaitsIff | internal/core/usecases/probeserver/probeserver.go:130-150 | The second write of a retry, coming late: the record waits for the retry iff the stored one was not newer; otherwise it is the stored one handled as failed, although the probe is queued again. |
| Overtaken.LateRetryKeepsBackedIff | internal/core/usecases/probeserver/probeserver.go:130-150 | That write leaves every retry mark backed iff the stored record was newer, or permanent probes for the goal and for every retry mark of the record in hand are outstanding. |
| TwoWrites.MoveKeepsIff | internal/core/usecases/addserver/addserver.go:144-173 | One move of the system with submissions, reports and retries taken apart into their two writes: every retry mark stays backed, up to the probes that marked submissions still owe, iff the move's late or failed write is covered. |
| TwoWrites.RunStaysSettledIff | internal/core/usecases/reportserver/reportserver.go:156-186 | In every run of any number of clients between their two writes: all states are backed, up to what is owed, iff each late or failed write is covered at its moment. |
| TwoWrites.SubmissionsStayBacked | internal/core/usecases/addserver/addserver.go:144-173 | In every run of submissions taken apart and other use cases whole, every retry mark has its permanent probe or a submission that has yet to queue it; once no submission is under way, its probe. |
| TwoWrites.BetweenWritesBackedIff | internal/core/usecases/addserver/addserver.go:150-162 | Between the two writes of a submission the marks are all backed iff the server has gone or an earlier permanent port probe for it is still outstanding. |
| TwoWrites.QueueingSettles | internal/core/usecases/addserver/addserver.go:162-170 | The second write of the only submission under way leaves every retry mark backed, whatever has come between. |
| TwoWrites.SubmitInParts | internal/core/usecases/addserver/addserver.go:144-173 | Undisturbed, the two writes of a submission of a stored server are the whole submission. |
| TwoWrites.CreateInParts | internal/core/usecases/addserver/addserver.go:66-108 | The same for a server nobody has heard of, which is added first. |
| TwoWrites.ReportInParts | internal/core/usecases/reportserver/reportserver.go:82-186 | Undisturbed, the save, the probe and the mark of a report are the whole report. |
| TwoWrites.RetryInParts | internal/core/usecases/probeserver/probeserver.go:112-160 | Undisturbed, the two writes of a retry are the whole execution of the probe. |
| TwoWrites.ResolveIsWhole | internal/core/usecases/probeserver/probeserver.go:84-101 | An outcome handled on the stored record is the whole execution of the probe. |
| Discovery.EffectIsHonest | internal/core/usecases/addserver/addserver.go:144-173 | No use case but the execution of a probe sets a retry mark without queueing a permanent probe for it. |
| Discovery.ProbedBits | internal/core/usecases/probeserver/probeserver.go:62-182 | After an execution the retry mark of the probe's own goal is set only if the probe was queued again; the other mark is not newly set. |
| Outcomes.ProbeOutcome | internal/core/usecases/probeserver/probeserver.go:62-182 | The verdict of an execution says exactly what happened; the stored record is the old one with that outcome handled and nothing else changed, and a retry is queued after its delay exactly when the verdict says so. |
| Outcomes.ReportOutcome | internal/core/usecases/reportserver/reportserver.go:82-186 | A report succeeds iff its server can be made, its instance is valid and its info passes; then the stored record has that info, is refreshed now and listed as a master server, nothing else about it has changed, and one probe of its game port is queued iff the port was neither known nor retried. Otherwise nothing changes. |
| Outcomes.SubmissionVerdict | internal/core/usecases/addserver/addserver.go:53-142 | What a submission is told is true of the record then stored; it is refused without effect iff the server cannot be made; a probe of the game port is queued and the record marked, and nothing else, iff no status forbids it; a new server is stored with the next port as its query port. |
| Outcomes.DiscoverVerdict | internal/core/usecases/addserver/addserver.go:110-173 | Submitting a stored server: each verdict is true of the stored record; the record is marked and a probe of its game port queued iff it has no details, no retry pending and no missing port. |
| Services.ExecuteProbe | internal/core/usecases/probeserver/probeserver.go:62-101 | Not found, success, retry or final failure: verdict, store and queue after the use case. |
| Services.RetryProbe | internal/core/usecases/probeserver/probeserver.go:112-160 | Enqueues the retry before marking the record, with the failure handler as conflict callback, or fails for good at the limit. |
| Services.FailProbe | internal/core/usecases/probeserver/probeserver.go:162-182 | The record with the failure handled. |
| Services.HandlePortSuccess | internal/prober/probers/portprober/portprober.go:207-218 | Details, info, query port and refresh time are the new ones, the status shows the success, and address, version and the bits that success does not decide are as before. |
| Services.HandlePortFailure | internal/prober/probers/portprober/portprober.go:225-229 | Only the status changes: no port, no port retry, not new, and all other bits as before. |
| Services.HandleDetailsSuccess | internal/prober/probers/detailsprober/detailsprober.go:101-111 | Details, info and refresh time are the new ones, the status shows the success, and address, query port, version and the bits that success does not decide are as before. |
| Services.HandleDetailsFailure | internal/prober/probers/detailsprober/detailsprober.go:118-122 | Only the status changes: details missing, no info, details, details retry or port, not new, and all other bits as before. |
| Outcomes.HandlersOnlyDo | internal/prober/probers/portprober/portprober.go:207-229 | A record that meets one of these descriptions is the handled record: they leave no choice. |
| Services.ReportServer | internal/core/usecases/reportserver/reportserver.go:82-154 | Store, instance registry, queue and verdict of a report, with its error paths in order; it succeeds and registers the instance iff the ports are in range, the id has four bytes, the address is usable and the info passes. |
| Services.DiscoverPort | internal/core/usecases/reportserver/reportserver.go:156-186 | Queues a probe, then marks the record, unless the port is known or being retried. |
| Services.SubmitServer | internal/core/usecases/addserver/addserver.go:53-88 | Store, queue and verdict of a submission, with its error paths; the stored record is handed out exactly when the server has been discovered already. |
| Services.GetOrCreateServer | internal/core/usecases/addserver/addserver.go:66-108 | The stored server unchanged, or a new one saved, or nothing when it cannot be made; what is returned is what is then stored. |
| Services.DiscoverServer | internal/core/usecases/addserver/addserver.go:110-173 | Marks the record, then queues a probe, unless its status forbids it. |
| Services.RefreshServers | internal/core/usecases/refreshservers/refreshservers.go:61-95 | Exactly the servers with a port and no details retry, each once, get a details probe of their query port with the deadline, ready at once; nothing else in the queue changes, and their number is returned. |
| Services.ReviveServers | internal/core/usecases/reviveservers/reviveservers.go:76-119 | Exactly the servers active in the scope without port or port retry, each once, are counted, and those whose countdown ends before the deadline get a probe of their game port with the deadline, ready after the countdown. |
| Services.SelectCountdown | internal/core/usecases/reviveservers/reviveservers.go:121-128 | The countdown is the lower bound plus the random number and below the upper bound, or the lower bound when they do not span a range. |
| Services.RenewServer | internal/core/usecases/renewserver/renewserver.go:47-83 | Accepted iff the instance is known, owned by the address and its server stored; then that record's refresh time, version and scores move and nothing else, otherwise nothing changes. |
| Outcomes.RenewOutcome | internal/core/usecases/renewserver/renewserver.go:47-83 | The same of the effect of a renewal, indices included: putting a record back under its status leaves every status set as it was. |
| Services.RemoveServer | internal/core/usecases/removeserver/removeserver.go:52-81 | Accepted iff the server is stored and the instance is known and owned by its address; then the server is gone from the records and every index, the instance is gone, and all others are untouched, otherwise nothing changes. |
| Outcomes.RemoveOutcome | internal/core/usecases/removeserver/removeserver.go:52-121 | The same of the effect of a removal. |
| Services.CleanServers | internal/cleanup/cleaners/servercleaner/servercleaner.go:48-97 | On a quiescent store a pass removes exactly the servers not updated since the cutoff, and counts them. |
| Cipher.StreamRoundTrip | pkg/gamespy/crypt/state.go:67-125 | Decrypting an encrypted stream gives it back and leaves both ends in the same state. |
| Cipher.Lockstep | pkg/gamespy/crypt/state.go:74-125 | Byte by byte, decryption inverts encryption and the two states stay equal. |
| Cipher.StartIsPermutation | pkg/gamespy/crypt/state.go:12-35 | After key setup the deck is a permutation of 0 to 255. |
| Cipher.AdvanceKeepsPermutation | pkg/gamespy/crypt/state.go:81-90 | The four-way rotation keeps the deck a permutation, also when its positions coincide. |
| Cipher.AdvanceMoves | pkg/gamespy/crypt/state.go:81-90 | Card by card on the deck before and after, whichever positions coincide: where each card goes, how rotor and ratchet move, and by which card the avalanche grows. |
| Cipher.AdvanceIsRing | pkg/gamespy/crypt/state.go:81-90 | Where the four positions differ, they exchange their cards in a ring and all other cards stay. |
| Cipher.StreamKeepsPermutation | pkg/gamespy/crypt/state.go:67-125 | The deck is still a permutation after any number of encrypted or decrypted bytes. |
| Cipher.FirstRound | pkg/gamespy/crypt/state.go:47-64 | The rejection loop ends within twelve rounds at the first proposal that respects the limit. |
| Cipher.Shuffle | pkg/gamespy/crypt/state.go:37-65 | The card chosen is at most the limit. |
| Cipher.ShuffleDraws | pkg/gamespy/crypt/state.go:37-65 | The draw told round by round: each sum follows from the last by the card it points to and the next key byte, plus eight after the last one, and the card is the first masked sum within the limit, the twelfth being brought below it. |
| Cipher.StartDeals | pkg/gamespy/crypt/state.go:12-35 | The key setup told step by step: every position from the top down is exchanged with the card drawn for it, and five indices are read off the result. |
| Cipher.MaskIsTight | pkg/gamespy/crypt/state.go:43-46 | The mask is all ones, covers the limit and is less than twice the limit. |
| Cipher.NoOverflow | pkg/gamespy/crypt/state.go:44-46 | Doubling the mask never overflows a byte. |
| Cipher.CipherState.Setup | pkg/gamespy/crypt/state.go:12-35 | The in-place key setup reaches the specified state. |
| Cipher.CipherState.ShuffleCards | pkg/gamespy/crypt/state.go:37-65 | The loop over a masked running sum computes the specified card, sum and key position. |
| Cipher.CipherState.EncryptByte | pkg/gamespy/crypt/state.go:74-99 | Five array writes through aliasing indices amount to the specified step; told card by card on the deck, with the two cards that mask the byte. |
| Cipher.CipherState.DecryptByte | pkg/gamespy/crypt/state.go:108-125 | The same for decryption. |
| Cipher.CipherState.Encrypt | pkg/gamespy/crypt/state.go:67-72 | Encrypts the buffer in place. |
| Cipher.CipherState.Decrypt | pkg/gamespy/crypt/state.go:101-106 | Decrypts the buffer in place. |
| Crypt.PacketRoundTrip | pkg/gamespy/crypt/crypt.go:52-92 | For all secrets, challenges, header bytes and data, unpacking a packet gives the data back. |
| Crypt.HeaderAnnounces | pkg/gamespy/crypt/crypt.go:68-84 | The header announces offset 9 and length 14, so the receiver reads the sender's challenge. |
| Crypt.PacketBytes | pkg/gamespy/crypt/crypt.go:52-75 | A packet is 23 header bytes, four of them fixed and the others random bytes masked with secret and challenge, and as many bytes as the data has, encrypted under the key that fourteen rounds stir, each absorbing one key byte and one challenge byte at one place. |
| Crypt.PacketIsOpened | pkg/gamespy/crypt/crypt.go:77-92 | How any packet with room for what it announces is opened: its first byte says where the challenge starts, the byte before the challenge how long it is, the key is stirred with it byte by byte, and the rest is decrypted. |
| Crypt.KeyIsStirred | pkg/gamespy/crypt/crypt.go:64-87 | The derivation round by round: the i-th round absorbs the i-th byte of the challenge into the key byte it picks, and changes no other. |
| Crypt.SenderKey | pkg/gamespy/crypt/crypt.go:64-67 | The sender's loop derives the shared key, with wrapping products. |
| Crypt.ReceiverKey | pkg/gamespy/crypt/crypt.go:83-87 | The receiver's loop over a byte index derives the same key. |
| Crypt.Encrypt | pkg/gamespy/crypt/crypt.go:52-75 | The packet, with the caller's buffer encrypted in place. |
| Crypt.Decrypt | pkg/gamespy/crypt/crypt.go:77-92 | The plain data, with the caller's buffer decrypted in place. |
| Gs1.DeliveryIsReassembled | pkg/gamespy/serverquery/gs1/gs1.go:258-291 | Fragments of one response in any order and with any duplicates: incomplete until all have come, then the pieces in order. |
| Gs1.Gs1RoundTrip | pkg/gamespy/serverquery/gs1/gs1.go:227-353 | Parameters printed, cut anywhere, framed, delivered in any order, reassembled and parsed are the same parameters once every fragment has come. |
| Gs1.AmRoundTrip | pkg/gamespy/serverquery/gs1/gs1.go:184-353 | The same for AdminMod fragments cut at fields with any mix of queryid, final and eof markers; a queryid before the final marker arrives as one more parameter. |
| Gs1.Gs1FrameIsReadIff | pkg/gamespy/serverquery/gs1/gs1.go:163-182 | A GS1 fragment is read with its order, its finality and exactly its piece iff the piece, followed by a backslash, does not begin with a statusresponse field. |
| Gs1.QueryIdsAreRead | pkg/gamespy/serverquery/gs1/gs1.go:149-161 | Any queryid at the end of a fragment: a positive number is the order of a GS1 fragment, another number spoils it, and anything that is no number makes it the first of a vanilla response. |
| Gs1.StatusResponsesAre | pkg/gamespy/serverquery/gs1/gs1.go:137-147 | A statusresponse that counts from zero gives the order that counts from one, and the greatest wraps around. |
| Gs1.VanillaIsComplete | pkg/gamespy/serverquery/gs1/gs1.go:163-173 | Any payload with the vanilla queryid at its end is a complete response by itself, however often it comes, with the marker in it. |
| Gs1.VanillaRoundTrip | pkg/gamespy/serverquery/gs1/gs1.go:163-353 | Printed parameters sent as a vanilla response come back as they were, the queryid among them. |
| Gs1.BadOrdersAreRefused | pkg/gamespy/serverquery/gs1/gs1.go:137-147 | A statusresponse that is no number or negative spoils the fragment. |
| Gs1.PlainIsRefused | pkg/gamespy/serverquery/gs1/gs1.go:227-244 | A text without a backslash is no fragment. |
| Gs1.AmFrameIsRead | pkg/gamespy/serverquery/gs1/gs1.go:184-225 | An AdminMod fragment is read with its order, finality and its piece, whatever its trailer. |
| Gs1.CompleteIsWholeIff | pkg/gamespy/serverquery/gs1/gs1.go:281-283 | For every list of fragments that is taken for complete: all orders up to the final one have come iff none has come beyond it, nor the one order whose increment wraps around. |
| Gs1.GapGoesUnnoticed | pkg/gamespy/serverquery/gs1/gs1.go:281-283 | The other side of CompleteIsWholeIff: two fragments with a gap between their orders pass for a whole response. |
| Gs1.CollectPayload | pkg/gamespy/serverquery/gs1/gs1.go:258-291 | The two loops compute the reassembled reply, whose meaning DeliveryIsReassembled, VanillaIsComplete and CompleteIsWholeIff give. |
| Params.ParsePrinted | pkg/gamespy/serverquery/gs1/gs1.go:338-353 | Printing parameters without backslashes and parsing the text is the identity. |
| Params.FirstByteIsSkipped | pkg/gamespy/serverquery/gs1/gs1.go:371-381 | The first byte of a payload is taken for a backslash, whatever it is. |
| Params.ParseParams | pkg/gamespy/serverquery/gs1/gs1.go:338-353 | The loops yield every two consecutive fields as a parameter. |
| Params.FirstParam | pkg/gamespy/serverquery/gs1/gs1.go:395-413 | A parameter printed in front is the one consumed from the left, the rest untouched. |
| Params.LastParam | pkg/gamespy/serverquery/gs1/gs1.go:415-432 | A parameter printed at the end is the one consumed from the right, the rest untouched. |
| Params.EndsInParam | pkg/gamespy/serverquery/gs1/gs1.go:203-213 | A text that ends in one printed parameter ends in no other, so the marker tests exclude each other. |
| Decimal.AtoiOfItoa | pkg/gamespy/serverquery/gs1/gs1.go:137-161 | Orders printed in decimal are read back within 64 bits. |
| Browsing.RequestRoundTrip | pkg/gamespy/browsing/browsing.go:31-149 | A packed request yields its challenge, its filters and those of its fields that can be queried, or the error that the number of fields or the options call for. |
| Browsing.JoinedFieldsAreRead | pkg/gamespy/browsing/browsing.go:117-130 | Reading joined field names keeps the query fields in order and drops the others. |
| Browsing.NewRequest | pkg/gamespy/browsing/browsing.go:31-58 | The length checks and the parser, with every error. |
| Browsing.AcceptedIff | pkg/gamespy/browsing/browsing.go:31-150 | A request is accepted iff it is laid out as the protocol says - length, nine bytes, two names, challenge, filters, field list and the number 0 or 1 - with one to twenty query fields, and it is what stands in these places. |
| Browsing.AcceptedIsWellFormed | pkg/gamespy/browsing/browsing.go:31-150 | An accepted request has a challenge of eight bytes and one to twenty fields, all of them query fields without a zero byte. |
| Browsing.Parser.Parse | pkg/gamespy/browsing/browsing.go:60-80 | The parse methods in order fill in the request and use up the bytes. |
| Browsing.Parser.ParseFields | pkg/gamespy/browsing/browsing.go:107-135 | Field list, field limit and missing fields. |
| Browsing.Parser.ParseFilters | pkg/gamespy/browsing/browsing.go:94-105 | The filter text, or an error when it is not terminated. |
| Browsing.Parser.ParseChallenge | pkg/gamespy/browsing/browsing.go:82-92 | The eight bytes of the challenge, or an error. |
| Browsing.Parser.ValidateOptionsMask | pkg/gamespy/browsing/browsing.go:137-150 | Exactly four bytes that make 0 or 1. |
| Browsing.PackBrowserRequest | internal/testutils/browsing.go:36-80 | The request with its length in front. |
| Browsing.PackedIsLaidOut | internal/testutils/browsing.go:36-80 | A packed request has that layout, with its own length in front, seven fixed bytes and the game's name twice. |
| ServerList.ServerListRoundTrip | internal/browser/browser.go:145-191 | Unpacking a packed list recovers every server with parameters, in order: a row of host, query port and the value of each declared field, a field taking precedence over an entry of its name. |
| ServerList.AddressIsFoundIff | internal/testutils/browsing.go:93-104 | The host and port of a row are those of the server iff no declared field of that name carries another text. |
| ServerList.AddressIsRecovered | internal/testutils/browsing.go:93-104 | Rows with the same host and port, without fields of those names, are about the same address and port: dotted decimal is injective. |
| ServerList.EncryptedListRoundTrip | internal/testutils/browsing.go:110-130 | The same through the stream cipher, end to end. |
| ServerList.AnswerIsRead | internal/browser/browser.go:106-143 | Whatever request is accepted, its sender learns from the encrypted answer the address, the query port and every requested value of each server that has parameters, in order: no field that can be requested takes the place of an address. |
| ServerList.PackServers | internal/browser/browser.go:145-191 | The nested loops append the client address, declarations, records and terminator. |
| ServerList.PackedBytes | internal/browser/browser.go:145-191 | The packed list byte by byte, with what its readers skip: client address and port, number of fields, fields with two zeros each, a record per server with parameters, and the five bytes of the end. |
| ServerList.UnpackServerList | internal/testutils/browsing.go:82-108 | The nested loops compute the rows, each in a single map, or run off the end exactly where the specification says so. |
| Binutils.ScanString | pkg/binutils/binutils.go:6-13 | The bytes before the first delimiter and those after it, or all and nothing. |
| Binutils.SplitAt | pkg/binutils/binutils.go:6-19 | A delimited string is consumed exactly. |
| Query.QueryRoundTripIff | pkg/gamespy/browsing/query/query.go:34-82 | Filters joined by " and " are read back iff no text value contains " and ". |
| Query.ReprintedIsTheSame | pkg/gamespy/browsing/query/query.go:34-82 | Whatever parses survives printing and parsing again. |
| Query.PiecesOfQuery | pkg/gamespy/browsing/query/query.go:78-82 | A printed query is cut into its filters iff none is ambiguous, and into more pieces otherwise. |
| Query.NewFromString | pkg/gamespy/browsing/query/query.go:34-47 | The loop yields all filters or the first error; no filter at all is an error. |
| Query.FirstErrorCounts | pkg/gamespy/browsing/query/query.go:34-47 | All pieces are good and in order, or the error is that of the first that is not. |
| Filters.FilterRoundTrip | pkg/gamespy/browsing/query/filter/filter.go:191-237 | A printed filter parses to itself. |
| Filters.ParsedIsPrintable | pkg/gamespy/browsing/query/filter/filter.go:159-237 | Every parsed filter has a known field and a value that can be printed back. |
| Filters.Parse | pkg/gamespy/browsing/query/filter/filter.go:191-221 | The stage loop finds name, operator and value, or the error. |
| Filters.FilterMeans | pkg/gamespy/browsing/query/filter/filter.go:159-237 | Name, operator run and value are told apart, and the first thing wrong is reported: the value, the name, then the operator. |
| Filters.NoFilterWithout | pkg/gamespy/browsing/query/filter/filter.go:215-217 | Without an operator, a name or a value the format is invalid. |
| Filters.OperatorsAre | pkg/gamespy/browsing/query/filter/filter.go:164-175 | Exactly four operators are known. |
| Filters.QuotedIsText | pkg/gamespy/browsing/query/filter/filter.go:228-231 | A value in quotes is the text between them, if there is any. |
| Filters.SplitParts | pkg/gamespy/browsing/query/filter/filter.go:192-215 | The loop splits at the first run of operator characters; later ones belong to the value. |

## Left out

- Connection errors, cancelled contexts and undecodable JSON: every Redis command of the model succeeds (in `TwoWrites.dfy` a second write may fail), and encodings are taken to be lossless.
- Back-off sleeps and lease durations: a lock may expire at any step, and any amount of time may pass between steps.
- Filter under concurrency, beyond the history that shows it is no snapshot: its error for a key that vanished between its two reads cannot arise on a quiescent store.
- Discovery.RetriesAreBacked: speaks of use cases run one at a time without errors, because it fails otherwise; `TwoWrites.RunStaysSettledIff` says exactly when for use cases that others come between.
- Discovery.RunsAreBounded: the bounds on retries and the draining of the queue are stated for whole use cases only.
- Services.CleanServers: states the quiescent case; `StatusSafety.CleanerIsSafe` covers interleaved runs.
- Crypt.Decrypt: its precondition is that the announced offset and length lie inside the packet, where the source would panic otherwise.
- The update index of the instances and their periodic clearing.
- Services.ReportServer: whether the address check accepts an IP is a parameter; the check of the port is modelled.
- Network queries, the port prober's choice among responses, and the expansion of parameters into players and objectives.
- Match: evaluating a filter against the info struct by reflection.
- The status string, the filter set's builder methods, peeking into the probe queue, truncation and random choice of slices: no property beyond their bodies.
- HTTP, CLI, metrics, logging, tickers and goroutine wiring.
