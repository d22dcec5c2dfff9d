# Verified model of the support shell

This project models, in Dafny 4.11, the parts of the support shell (`sush`) whose
correctness does not show from reading one function: the replicated record store
and the execution boundary on top of it, the gossip mesh that brings every sled
into one universe, the loop that runs a job, the login tables of the proxy, the
bounded job history, the per-session chain of job IDs, and the codecs that carry
identities and signatures. `dafny verify dfyconfig.toml` checks all of it.

| file | what it models |
|---|---|
| `Locker.dfy` | one record kept in every slot: scanning, judging, storing, repairing; the `Tenant` class |
| `LockerProtocol.dfy` | the same store as a state machine: abandoned writers, failed writes, damage, rollback, restarts |
| `LockerLoads.dfy` | from which states later loads cannot go back |
| `Bytes.dfy`, `EnvelopeCodec.dfy` | the file format of one slot |
| `Boundary.dfy`, `BoundaryProtocol.dfy` | the write-ahead boundary record and the launch queue, alone and over every run of the locker |
| `BoundaryRuns.dfy` | the calls of the boundary store and the launcher as runs of that protocol |
| `Gossip.dfy`, `GossipMesh.dfy` | one gossip manager, and a mesh of them |
| `JobLoop.dfy` | the select loop of a job, its recording, its streaming routine, and the client's end of a stream |
| `JobOutput.dfy` | that loop against what the job wrote: hashed, recorded and delivered output, and its flags, over every run |
| `Lru.dfy`, `SequenceWindow.dfy`, `Logins.dfy` | the proxy's login tables and the window of spent sequence numbers |
| `LoginTimes.dfy` | the lifetimes of challenges and identities over every run of those tables |
| `History.dfy` | job history: three indexes, eviction, listing |
| `Session.dfy` | the chain of job IDs in a session |
| `SigningEncoding.dfy`, `Targets.dfy`, `Rack.dfy` | what is signed; the text and the resolution of targets; each sled's own check |
| `Codephrase.dfy` | 256-bit values as words |
| `Download.dfy`, `OutputDirs.dfy` | parallel download of recorded output; where output is kept |
| `Wrappers.dfy` | optional values and lists without repeats, used throughout |

## How to read it

Code that changes state in place is a class. Each of its methods is proved equal to
a function of the old state, and what the source promises is proved about those
functions. Code where several parties act is a state machine: `Enabled` and `Next`
(or `Step`) over events, `Follows` and `After` (or `Run`) over lists of them, an
invariant kept by every event, and theorems about every run. For the locker,
`StoreIsARun`, `WriterIsARun` and `LoadIsARun` tie the two together: an undisturbed
call of the class is a run of the machine. `BoundaryRuns` does the same for the
boundary store and the launcher.

Every lemma turns automatic induction off: each proof is what its body says and no
more.

Choices the model makes:

- Writing one slot file is atomic, as the source replaces files atomically. A failed
  write may or may not have landed.
- What the source leaves to the world is an event or a parameter: which write
  fails, which select branch is ready, when a task is cancelled, what a signature
  check says, what the clock reads, which nonce is drawn. Timeouts are events.
- `Session` takes hashes as terms, so that two are equal only when they hash the same
  thing. `SigningEncoding` speaks of the bytes before hashing, and `EnvelopeCodec` of
  any 32-byte digest, naming the collision where one would matter.
- A slot may be rolled back to anything it held before. Claims about what loads
  return then ask that a load which settles on a record saw one in a slot that was
  not rolled back; without rollbacks that always holds.
- The locker keeps a log of stores and the position of the last acknowledged one
  beside the state of the source. No field of the source reads them.
- The `faulted` flag of a recorder and the sets `shown`, `minted` and `claimed` of the
  login tables are bookkeeping of the same kind.

Where the code and its documentation differ, the model follows the code:

- The locker documentation (server/src/locker.rs:27-36) gives its rules for a pair
  of slots, where the newer of two records under one nonce is adopted. The code
  takes any number of slots. With three or more, a torn store resolves to the new
  record only if one slot or all of them were written; otherwise the newest number
  has several copies and the load discards (`Locker.TornCommitVerdict`).
- A job whose output file position is lost is ended, as `playback_buffer` asks, but
  output that arrives before it dies is still written where the position was left
  (`JobLoop.LostPositionCorrupts`).

Two properties that look natural are false of the code, and the exact condition is
proved instead. Successive loads of the locker are not monotone
(`LockerProtocol.LoadsMayRegress`): with no load under way, later loads cannot go
behind the k-th store if and only if no slot of ours, no writer that can still write
and no commit at work carries an older record (`LockerLoads.LoadsStayIff`). A
session resumed after a crash agrees with an uninterrupted one if and only if the
pre-crash head is not skipped first (`Session.ResumedAgreesIff`).

## Model

| member | source | states |
|---|---|---|
| Locker.ScanFinds | server/src/locker.rs:486-508 | a scan succeeds exactly when every slot is missing or holds a sealed envelope of ours, and then yields exactly those envelopes |
| Locker.VerdictComesFromASlot | server/src/locker.rs:480-550 | a record that a load returns was read from one of the slots |
| Locker.UniformSlotsAdopt | server/src/locker.rs:509-549 | slots that all hold one record are adopted |
| Locker.PairRules | server/src/locker.rs:27-36 | the documented verdict for every pair of readable slots |
| Locker.NewestIsUnique | server/src/locker.rs:517-528 | at most one envelope is newest under one nonce |
| Locker.TornTest | server/src/locker.rs:517-528 | the code's test (one nonce, one copy of the highest number) is the same as having a unique newest envelope |
| Locker.StoreWithoutFaults | server/src/locker.rs:552-567 | a store with no fault leaves the record in every slot, under a new number |
| Locker.RepairConverges | server/src/locker.rs:509-567 | with every slot claimed and no fault, a load that returns a record leaves it everywhere and the next load adopts it |
| Locker.LoadHearsNumbers | server/src/locker.rs:530-549 | a load with a record reserves exactly the highest of its own number and those of ours in the slots, and one more if it repairs, which it does exactly when the slots are not uniform |
| Locker.StoreOutnumbersLoad | server/src/locker.rs:530-567 | every slot that a store changes after such a load carries its record under a number above everything of ours that the load read |
| Locker.TornCommitVerdict | server/src/locker.rs:509-549 | after a commit that stopped at the k-th of n slots, exactly which k adopt the new record |
| Locker.Tenant.constructor | server/src/locker.rs:415-426 | a tenant starts with nothing reserved or committed |
| Locker.Tenant.Commit | server/src/locker.rs:579-598 | superseded numbers write nothing; otherwise slots are written in order up to the first failure, and the number is committed only after all of them |
| Locker.Tenant.Store | server/src/locker.rs:552-567 | reserves the next number and commits under it |
| Locker.Tenant.ScanSlots | server/src/locker.rs:486-508 | reads slots in order and stops at the first that cannot be trusted |
| Locker.Tenant.Load | server/src/locker.rs:480-550 | the verdict on the slots; without a record nothing changes; with one, every number of ours in the slots is within what is now reserved, and the files and numbers are those after its repair |
| Locker.Weigh | server/src/locker.rs:509-549 | the loop that counts copies decides as the unique-newest rule does |
| LockerProtocol.DecisionIsNewEnough | server/src/locker.rs:509-549 | whatever a trustworthy load decides on is at least as new as the last acknowledged store |
| LockerProtocol.StepKeeps | server/src/locker.rs:480-598 | every event keeps the invariant: numbers within what was reserved, slots and writers no older than the last acknowledgement |
| LockerProtocol.RunKeeps | server/src/locker.rs:480-598 | the invariant holds after every run from a fresh locker |
| LockerProtocol.NoStaleAdoption | server/src/locker.rs:480-598 | over every run of stores, abandoned writers, failed writes, damaged slots, restarts and repairs, no load returns a record older than the last acknowledged store |
| LockerProtocol.NoStaleAdoptionAfterRollback | server/src/locker.rs:509-549 | the same when any slots revert to any earlier content, as long as one present slot did not |
| LockerProtocol.UprightRunsAreTrusted | server/src/locker.rs:480-550 | a run without rollback meets that condition |
| LockerProtocol.RolledBackAloneIsStale | server/src/locker.rs:509-549 | the condition is needed: with the only slot rolled back a load is stale |
| LockerProtocol.RefinesRegister | server/src/locker.rs:461-467 | the store refines a register: stores append, acknowledgements are for the newest, loads read nothing older |
| LockerProtocol.LogMoves | server/src/locker.rs:552-567 | exactly which events append and acknowledge |
| LockerProtocol.GuardMoves | server/src/locker.rs:454-478 | how the lock on `reserved` changes hands |
| LockerProtocol.WriterIsARun | server/src/locker.rs:579-598 | an undisturbed waiting writer, superseded or not, does what `Tenant.Commit` does |
| LockerProtocol.StoreIsARun | server/src/locker.rs:552-567 | `Tenant.Store` is a run of the protocol and acknowledges exactly when it says so |
| LockerProtocol.LoadIsARun | server/src/locker.rs:480-550 | `Tenant.Load` is a run of the protocol with the same files and numbers |
| LockerProtocol.LoadsMayRegress | server/src/locker.rs:588-596 | a run in which a load returns a record that was never acknowledged and the next load an older one |
| LockerLoads.RunStays | server/src/locker.rs:480-598 | if nothing of ours carries a record older than the k-th store, nothing does after any run without rollbacks |
| LockerLoads.BehindIsReturned | server/src/locker.rs:480-598 | if a slot, a writer that can still write or the commit at work carries an older record, some continuation without a new store ends with a load that returns it |
| LockerLoads.LoadsStayIff | server/src/locker.rs:480-598 | with no load under way, no later load returns a record older than the k-th store if and only if nothing carries one |
| LockerLoads.AcknowledgedIsRead | server/src/locker.rs:552-567 | when the last store was acknowledged, every load before the next store returns exactly its record or none |
| EnvelopeCodec.DecodeOfEncode | server/src/locker.rs:137-195 | decoding an encoding yields the parts with over-long baseboard halves clipped to 65535 bytes |
| EnvelopeCodec.PartsRoundTrip | server/src/locker.rs:114-195 | the parts survive exactly when both halves fit a 16-bit length |
| EnvelopeCodec.Layout | server/src/locker.rs:137-170 | the file is the magic, version 1, then nonce, number, part, serial and digest each under its length, in that order, then the record; the digest is over the bytes before it and the record |
| EnvelopeCodec.OnlyEncodingsDecode | server/src/locker.rs:172-195 | bytes decode only if they are the encoding of what they decode to |
| EnvelopeCodec.DigestIdentifiesFile | server/src/locker.rs:130-195 | two decodable files with equal digests differ if and only if they are a collision of the digest |
| EnvelopeCodec.RoundTrip | server/src/locker.rs:137-195 | an envelope decodes to itself exactly when its baseboard fits |
| EnvelopeCodec.DecodeIsExact | server/src/locker.rs:172-195 | a decoded envelope re-encodes to the same bytes exactly when its nonce field is below 2^88 |
| Boundary.BoundaryStore.Load | server/src/locker/boundary.rs:115-129 | memory holds a boundary exactly when the record the locker returned is readable, and then that one |
| Boundary.UpdatedExactly | server/src/locker/boundary.rs:139-176 | an ending is recorded if and only if it is of the recorded job, and that job has no ending or was interrupted and is now stopped |
| Boundary.BoundaryStore.RecordStatus | server/src/locker/boundary.rs:139-176 | an ending of another job, or of a job already ended (unless it was interrupted and this is a stop), changes nothing; otherwise it is stored, and memory changes exactly when the store succeeds |
| Boundary.BoundaryStore.Advance | server/src/locker/boundary.rs:178-184 | memory takes the new boundary exactly when the store succeeds |
| Boundary.Executor.JobStart | server/src/executor.rs:168-204 | when the queue is full the job is refused and its stop token taken back; when it is closed nothing happens |
| Boundary.Executor.JobStop | server/src/executor.rs:206-210 | the token is removed and cancelled, once |
| Boundary.Executor.JobStopped | server/src/executor.rs:212-216 | the token is removed without cancelling |
| Boundary.Executor.Drain | server/src/executor.rs:116-139 | queued jobs are launched in order: boundary first, then spawn, or a refusal |
| Boundary.LaunchAllCommitsLast | server/src/executor.rs:116-139 | every queued job is spawned or refused, and the boundary in memory is the last one spawned |
| Boundary.LaunchAllInOrder | server/src/executor.rs:116-139 | the jobs spawned and the jobs refused are each in queue order, and a job is spawned if and only if its own boundary was stored at its turn |
| BoundaryProtocol.RunKeeps | server/src/executor.rs:116-139 | the boundary invariant over every run of the locker under it |
| BoundaryProtocol.WriteAhead | server/src/executor.rs:116-139 | any boundary that a trustworthy load reads after any run names a job at or after every job spawned, in launch order |
| BoundaryProtocol.MemoryIsAcknowledged | server/src/locker/boundary.rs:139-184 | the copy in memory is the last acknowledged record, and names a job at or after every spawned one |
| BoundaryProtocol.SpawnNeedsAcknowledgement | server/src/executor.rs:116-139 | a job is spawned only by the acknowledgement of its own boundary |
| BoundaryProtocol.StatusOverLife | server/src/locker/boundary.rs:139-176 | until a restart clears it, the copy in memory only moves to later launches, and within one its status only moves from none to an ending or from interrupted to stopped |
| BoundaryProtocol.EndingsAreTheirOwn | server/src/locker/boundary.rs:139-176 | over every run with any crashes, an ending in the record or in memory is that of the very job the boundary names |
| BoundaryProtocol.Reachable | server/src/locker/boundary.rs:115-184 | every run keeps the stores and the copy in memory in succession to the acknowledged record |
| BoundaryProtocol.StatusAcrossLives | server/src/locker/boundary.rs:139-184 | over every run with any crashes, the acknowledged record only moves to later launches, and within one its status only moves from none to an ending or from interrupted to stopped |
| BoundaryProtocol.LoadedStatusMovesOn | server/src/locker/boundary.rs:115-129 | what a load reads after any run with any crashes is about a launch no spawned job follows, no earlier than the acknowledged one, and if it is that one its status has only moved on |
| BoundaryRuns.RecordIsARun | server/src/locker/boundary.rs:139-176 | recording an ending is a run of the protocol with the same record and memory |
| BoundaryRuns.LaunchIsARun | server/src/executor.rs:116-139 | one turn of the launcher is a run of the protocol that spawns exactly when the turn does |
| BoundaryRuns.DrainIsARun | server/src/executor.rs:116-139 | draining a queue is a run of the protocol with the same record, memory and number of jobs spawned |
| BoundaryRuns.LoadIsARun | server/src/locker/boundary.rs:115-129 | the load at startup is a run of the protocol with the same record and memory |
| Gossip.DominationIsATotalOrder | server/src/gossip.rs:172-184 | domination is a strict total order on universes, so two peers never both yield |
| Gossip.LargerUniverseWins | server/src/gossip.rs:172-184 | the universe with more events outranks the other, the lower network on a tie, and a session finds us dominated exactly when the remote one outranks ours |
| Gossip.LinkAbsentOnlyDials | server/src/gossip.rs:399-418 | dialing adds exactly the wanted lower-addressed peers with neither link nor dial, and changes nothing else |
| Gossip.PruneForgetsUnwanted | server/src/gossip.rs:420-439 | of links, dials and debts exactly those of wanted peers are kept, each as it was |
| Gossip.DialSettles | server/src/gossip.rs:318-334 | a dial that is not the current one changes nothing; the current one is forgotten, and its link pays the debt by migrating or is driven in our universe, leaving other links alone |
| Gossip.MigrationSettles | server/src/gossip.rs:480-521 | a migration ends with no debt left if it joined, otherwise with all of them, and every wanted lower-addressed peer linked or dialed |
| Gossip.Manager.DialAbsent | server/src/gossip.rs:399-418 | the dialing loop |
| Gossip.Manager.PeersChanged | server/src/gossip.rs:420-439 | links, dials and debts of unwanted peers go, and absent ones are dialed |
| Gossip.Manager.StartDriver | server/src/gossip.rs:451-462 | a new driver takes over a peer's link under a new id; the old one may still report |
| Gossip.Manager.Linked | server/src/gossip.rs:441-449 | a new link pays a debt by migrating, or is driven |
| Gossip.Manager.Joined | server/src/gossip.rs:480-521 | a join that succeeds adopts the universe, forgives every debt and is published |
| Gossip.Manager.DriverDone | server/src/gossip.rs:335-361 | only a current driver's mismatch records a debt |
| Gossip.Manager.DialDone | server/src/gossip.rs:318-334 | a dial that was forgotten or replaced changes nothing; otherwise its link is used or its failure forgotten |
| GossipMesh.RunKeeps | server/src/gossip.rs:298-522 | over every run each peer's debts and drivers are honest and its universe only rises |
| GossipMesh.EveryDebtOutranks | server/src/gossip.rs:335-361 | a recorded debt points at a peer whose universe strictly outranks ours |
| GossipMesh.StaleReportsRecordNothing | server/src/gossip.rs:335-361 | a report of a driver born in another universe, stopped or not, changes neither debts nor links |
| GossipMesh.MigrationsAreBounded | server/src/gossip.rs:480-521 | n peers migrate at most n(n-1)/2 times in any run |
| GossipMesh.TopStays | server/src/gossip.rs:172-184 | the highest-ranked universe keeps its founder and stays the highest |
| GossipMesh.TopIsLargest | server/src/gossip.rs:172-184 | the highest-ranked universe of a mesh is the one with the most events, and among those the lowest network |
| GossipMesh.QuietMeansConverged | server/src/gossip.rs:298-522 | a connected mesh without mismatch is wholly in the highest-ranked initial universe |
| GossipMesh.SilenceMeansConverged | server/src/gossip.rs:524-573 | a mesh connected by running drivers of which none could report a mismatch is wholly in that universe |
| GossipMesh.CanMigrate | server/src/gossip.rs:441-521 | an outranked peer can always still migrate into the universe that outranks it, with every other peer where it is |
| GossipMesh.ConvergenceStaysReachable | server/src/gossip.rs:298-522 | any run can be extended to one that converges to that universe, which is the one that began with the most events |
| JobLoop.StepConserves | server/src/job.rs:157-413 | every branch keeps hashed output equal to what was sent, then in the channel, then pending |
| JobLoop.SentIsPrefix | server/src/job.rs:177-262 | in every run the consumer has been sent a prefix of the hashed output, in whole chunks |
| JobLoop.NothingFollowsADrop | server/src/job.rs:411-413 | once a byte is missing, nothing is added to the line in any continuation |
| JobLoop.FinishedStreamIsWhole | server/src/job.rs:157-161 | a stream that finishes with its consumer present is delivered whole |
| JobLoop.LengthDecides | client/src/commands.rs:1606-1624 | a client that received messages in order holds the exact output if and only if its byte count is the reported length |
| JobLoop.WriteAppendsIff | server/src/job.rs:187-192 | a write appends exactly when the position is at the end of the file |
| JobLoop.StepRecords | server/src/job.rs:177-219 | every branch keeps files exact, recording bounded and the limit error right |
| JobLoop.RunRecords | server/src/job.rs:447-452 | in every run, absent file errors, each file is its hashed bytes with the position at the end; recording stops within one read buffer of the limit; the job fails for its limit exactly when a stream went over |
| JobLoop.PlaybackIsSuffix | server/src/job.rs:519-533 | playback returns the last bytes and leaves the position at the end |
| JobLoop.LostPositionCorrupts | server/src/job.rs:284-297 | from any exact record, after a playback that failed and was not restored, and over any continuation without another file error or playback, the record is exact if and only if nothing more was recorded or the position was at the end |
| JobOutput.HashedIsProduced | server/src/job.rs:177-219 | in every run, what is hashed of a streamed output is everything read from it, and of a recorded stream everything up to and including the chunk that goes over the limit |
| JobOutput.RecordedIsProduced | server/src/job.rs:184-219 | absent file errors each file holds exactly that part of what the job wrote, and the job fails for its limit if and only if it wrote more on a recorded stream |
| JobOutput.ClientHoldsProduced | client/src/commands.rs:1606-1624 | a client that received messages in order holds a prefix of what the job wrote, and all of it if and only if its byte count is the reported length |
| JobOutput.FinishedDeliversProduced | server/src/job.rs:157-161 | a stream that finishes with its consumer present delivers everything the job wrote |
| JobOutput.FlushOffersTheLast | server/src/job.rs:411-413 | leaving the loop with a chunk in hand and room for it loses nothing |
| JobOutput.FlagsTellTheRun | server/src/job.rs:157-409 | in every run the flags say exactly whether the job died, was told to stop and why, had its stop noticed, had a consumer attach, and how often it was killed, at most three times |
| JobOutput.EndsTellTheRun | server/src/job.rs:167-176 | in every run each end-of-output flag is set if and only if that stream ended, and the loop is left if and only if an exit branch was taken or a recorded job's output ended |
| JobLoop.Output.Record | server/src/job.rs:187-219 | one chunk hashed and written, with its failure and limit |
| JobLoop.Output.PlayLast | server/src/job.rs:519-533 | the seek and read of a playback |
| JobLoop.Job.constructor | server/src/job.rs:126-156 | the state a job starts in |
| JobLoop.Job.ReadChunk | server/src/job.rs:177-219 | the read branch for a chunk, as the step of the state machine that `JobOutput` proves hashes and keeps it |
| JobLoop.Job.EndOfOutput | server/src/job.rs:169-176 | the end of all output ends a recorded job and lets a streamed one linger |
| JobLoop.Job.EndStream | server/src/io.rs:152-166 | output ends when both streams have |
| JobLoop.Job.ReplayTo | server/src/job.rs:284-297 | playback to a new client, with its restore |
| JobLoop.Job.SelectOutput | server/src/job.rs:167-300 | the branches that read output or move it on |
| JobLoop.Job.SelectControl | server/src/job.rs:348-407 | the branches that stop the job or leave the loop |
| JobLoop.Job.FlushPending | server/src/job.rs:411-413 | a chunk still pending is offered once |
| JobLoop.Job.WindUp | server/src/job.rs:411-455 | what follows the loop |
| JobLoop.Job.SendChunk | server/src/job.rs:468-480 | a send that fails ends the routine and stops the job |
| JobLoop.Job.Forward | server/src/job.rs:467-480 | a chunk is taken from the channel, which makes room, and then sent |
| JobLoop.Job.Stream | server/src/job.rs:458-486 | how the streaming routine begins and ends |
| JobLoop.Job.Play | server/src/job.rs:157-409 | any sequence of ready branches is a run of the state machine |
| JobLoop.ReceiveStream | client/src/commands.rs:2474-2497 | the client hashes exactly the chunks up to the first frame or failed write that ends the loop; the file holds what was hashed, or a prefix of it after a failed write |
| SequenceWindow.SpendRefines | common/src/authn.rs:357-375 | a spend on the 256-bit word decides as the set of presented numbers does, and the word then stands for that set with the number added |
| SequenceWindow.SpendSetsBits | common/src/authn.rs:358-374 | after a spend each bit of the word is the old bit of the same number, or stands for the number just spent |
| SequenceWindow.ShlMovesBits | common/src/authn.rs:360-364 | shifting within 256 bits moves each bit up and loses those that pass the top |
| SequenceWindow.SpendsOnce | common/src/authn.rs:338-375 | after any calls a number is accepted if and only if it was never presented and is less than 256 below every number that was |
| SequenceWindow.Tracker.SpendNext | common/src/authn.rs:357-375 | the in-place update, with shifts of 256 and more and number 0 |
| Lru.PutKeeps | proxy/src/login.rs:26-33 | a table never outgrows its bound and gives up only its least recently used entry |
| Lru.OrderIsRecency | proxy/src/login.rs:26-33 | after any operations the entries are in the order of their last use |
| Lru.EvictsUsedLongestAgo | proxy/src/login.rs:26-33 | after any operations, an insertion evicts only an entry last used before every entry kept |
| Logins.LoginTables.constructor | proxy/src/login.rs:98-104 | both tables start empty with their bounds |
| Logins.LoginTables.ClaimNonce | proxy/src/login.rs:153-162 | a nonce is good if and only if it is known and less than its lifetime old, each refusal says which failed, and claiming removes it either way |
| Logins.LoginTables.VerifyLogin | proxy/src/login.rs:142-185 | a login succeeds if and only if it is an initial one with a proof and a known nonce within its lifetime; which error otherwise; the nonce is gone and only success caches the identity |
| Logins.LoginTables.VerifyRequest | proxy/src/login.rs:187-215 | every outcome of a request by identity, age, idleness, signature and number, with what each leaves in the table |
| Logins.LoginTables.RefuseFailure | proxy/src/login.rs:131-140 | a failure mints a challenge, a success does not |
| Logins.RequestKeeps | proxy/src/login.rs:187-215 | a request keeps every cached window in step with what its identity was shown |
| Logins.RunKeeps | proxy/src/login.rs:131-215 | nonces move one way and windows remember, over every run |
| Logins.AtMostOnce | proxy/src/login.rs:131-215 | over every run with any expiry and eviction, a nonce logs in at most once and a (key, nonce, number) is authorized at most once, only after that login |
| Logins.AuthorizedExactlyWhen | proxy/src/login.rs:187-215 | a request is authorized if and only if its identity is cached and unexpired, its signature verifies and its number is new and inside the window |
| LoginTimes.LoginsAreTimely | proxy/src/login.rs:153-162 | over every run, each login was for a nonce minted and then claimed with a proof within its lifetime, by the times of those events |
| LoginTimes.TablesKeepTime | proxy/src/login.rs:172-213 | over every run, a cached identity carries the time of its last login and of its last login or authorized request |
| LoginTimes.AuthorizedInTime | proxy/src/login.rs:48-53 | after any run, a request is authorized if and only if its identity is cached, logged in less than eight hours and was last used less than ten minutes ago, its signature verifies and its number is new and inside the window |
| History.UpdateAgrees | server/src/history.rs:52-77 | an update keeps running, status and causal indexes in agreement |
| History.SetStores | server/src/history.rs:52-78 | after an update the job, if kept, has the given status on that sled and its causal entry; its other sleds and all other jobs kept are as before |
| History.SetEvictsOnlyWhenFull | server/src/history.rs:112-116 | nothing is evicted up to the maximum, and eviction never goes below the low-water mark |
| History.StartedStays | server/src/history.rs:52-78 | a job just started is kept, and running since the time given |
| History.EvictAgrees | server/src/history.rs:112-154 | eviction keeps agreement, spares running and queued jobs with all their entries, and stops only at the low-water mark or when nothing is eligible |
| History.EvictStopsAtLowWater | server/src/history.rs:133-154 | eviction that starts at or above the low-water mark ends there or above |
| History.EvictionOrder | server/src/history.rs:133-149 | jobs without causal entries go first; a job with them goes only if its oldest entry comes before that of every eligible job kept |
| History.RunAgrees | server/src/history.rs:52-154 | after any updates the indexes agree, the last update evicted nothing running or queued, and the size is within its bound unless every job is one of those |
| History.IterListsOnce | server/src/history.rs:158-176 | every retained job is listed exactly once |
| History.IterLocalFirst | server/src/history.rs:159-165 | jobs without causal entries come first, newest time first, ties by ID |
| History.IterNewestRankFirst | server/src/history.rs:166-174 | the other jobs come by their last entry, newest first |
| History.JobHistory.SetJobStatus | server/src/history.rs:52-78 | the update and its eviction, in place |
| History.JobHistory.TransitionJobStatus | server/src/history.rs:82-97 | the update happens exactly when the transition gives a status |
| History.JobHistory.Gc | server/src/history.rs:112-154 | the eviction loop, with its causal set taken once, evicts what the definition does |
| Session.Tracker.JobStarted | common/src/jobs.rs:323-325 | the started job becomes the head |
| Session.Tracker.SkipJob | common/src/jobs.rs:334-343 | only the next job or the head can be burned, and the chain then continues from the burn |
| Session.Tracker.ResumeAt | common/src/jobs.rs:353-355 | the next ID is the stored successor |
| Session.NextIsNew | common/src/jobs.rs:121-128 | from any session, the next ID is never a position already started or skipped |
| Session.NextIdTellsDecisions | common/src/jobs.rs:121-128 | the standing decisions of a session, skips and all, can be read back from its next ID |
| Session.SameIdIffSameDecisions | common/src/jobs.rs:121-128 | two histories of a session give the same next ID if and only if their standing decisions are the same |
| Session.SessionsNeverMeet | common/src/jobs.rs:121-128 | no two sessions ever give the same next ID |
| Session.StandingDecides | common/src/jobs.rs:323-343 | the state of a session is a function of its standing decisions |
| Session.ReplicasConverge | common/src/jobs.rs:327-343 | replicas with the same standing decisions are in the same state |
| Session.LateSkipIsSkip | common/src/jobs.rs:327-343 | running a job and then skipping it leaves what skipping it leaves |
| Session.ResumedAgreesIff | common/src/jobs.rs:345-355 | a resumed session gives the same next ID after any events if and only if the first event to move the chain is not a skip of the pre-crash head |
| SigningEncoding.ChunkedIsInjective | common/src/keys.rs:551-574 | a length-prefixed list of chunks can be read back |
| SigningEncoding.Fields.Hash | common/src/keys.rs:560-563 | the hasher has been fed the chunks so far |
| SigningEncoding.Fields.Field | common/src/keys.rs:565-569 | a field is its label and its value |
| SigningEncoding.JobToBeSigned | common/src/jobs.rs:451-470 | the chunks of a job request, defaults left out |
| SigningEncoding.BoundToBeSigned | common/src/authn.rs:214-227 | the chunks of a bound request |
| SigningEncoding.ResponseToBeSigned | common/src/authn.rs:406-413 | the chunks of a challenge response |
| SigningEncoding.JobChunksAreInjective | common/src/jobs.rs:449-471 | omitted defaults leave job requests distinguishable |
| SigningEncoding.JobFieldsAreLabeled | common/src/jobs.rs:451-470 | each field of a job request is found under its own label, and the two defaults under none |
| SigningEncoding.BoundFieldsAreLabeled | common/src/authn.rs:214-227 | each field of a bound request is found under its own label |
| SigningEncoding.ResponseFieldsAreLabeled | common/src/authn.rs:406-413 | each field of a challenge response is found under its own label |
| SigningEncoding.MaterialIsInjective | common/src/keys.rs:547-574 | no two well-formed signables, of one type or of two, give the same bytes |
| Targets.RoundTrip | common/src/targets.rs:145-196 | a well-formed target prints as text that parses to it |
| Targets.ParsedIsWellFormed | common/src/targets.rs:145-170 | parsing yields well-formed targets only |
| Targets.ShowIsInjective | common/src/targets.rs:172-196 | no two well-formed targets print alike |
| Targets.CommaIsAmbiguous | common/src/targets.rs:172-196 | a baseboard with a comma prints like two |
| Targets.Resolve | common/src/targets.rs:85-105 | the reachable sleds that the target names, or the first unknown cubby |
| Rack.Sled.SetCubbies | server/src/rack.rs:68-76 | a sled learns the least cubby said to hold it, and keeps what it knew if none does |
| Rack.Sled.Check | server/src/rack.rs:49-58 | under any injective map from which the sled could have learned its place, the job runs here exactly when its mode fits and the target read with that map includes this sled; a refusal says whether the place was known |
| Rack.ResolveAgrees | server/src/rack.rs:46-58 | under a shared injective map, resolution returns exactly the reachable sleds whose own check accepts, and names an unknown cubby only if listed and unmapped |
| Rack.AgreeIffInjective | common/src/targets.rs:82-116 | resolution and check agree on all targets if and only if no sled is reported in two cubbies |
| Codephrase.DigitCount | common/src/codephrases.rs:29-33 | a value needs at most k words if and only if it is below 2048^k |
| Codephrase.Index | common/src/codephrases.rs:314-316 | binary search finds exactly the words of the list |
| Codephrase.WordsOfJoin | common/src/codephrases.rs:149-152 | a joined phrase reads as the words it was joined from |
| Codephrase.SpellingIsLiberal | common/src/codephrases.rs:149-152 | case and the choice of separator make no difference to the words of a phrase |
| Codephrase.Display | common/src/codephrases.rs:111-123 | the division loop prints the base-2048 digits |
| Codephrase.Overflows | common/src/codephrases.rs:158-160 | a prefix over 256 bits is over for good |
| Codephrase.FromStr | common/src/codephrases.rs:145-163 | a phrase is accepted if and only if it has at most 24 known words that spell a value below 2^256, and as that value |
| Codephrase.RoundTrip | common/src/codephrases.rs:109-164 | every 256-bit value prints in at most 24 words and parses back |
| Codephrase.TryFromExact | common/src/codephrases.rs:216-230 | the shorter types accept exactly values below 2^88 and 2^44, which are those of at most 8 and 4 words |
| Download.JobOutputChunks | client/src/commands.rs:2331-2363 | the chunks tile [0, len), all of full size but the last |
| Download.TilesPartition | client/src/commands.rs:2339-2361 | every byte is in a chunk and chunks do not overlap |
| Download.RangesAgree | server/src/output.rs:226-248 | an open-ended range is the range to the last index, and the whole output is its whole range, refused above the threshold either way |
| Download.AllServedIff | server/src/output.rs:226-243 | the server accepts every chunk if and only if the output is long enough and the largest chunk is within the threshold |
| Download.ByteStreamToFile | client/src/commands.rs:2366-2391 | a reply in any pieces is written in one run from the start of its range, and accepted if it did not break off and its length is right |
| Download.Fetch | client/src/commands.rs:2345-2356 | a reply is accepted exactly when its chunk is served and arrives whole, and then the file holds that range of the output |
| Download.Assemble | client/src/commands.rs:2276-2286 | replies in any order rebuild the server's bytes, and the download succeeds exactly when every chunk is served and every reply arrives whole |
| OutputDirs.BasesAreRecent | server/src/output.rs:107-126 | after any moves the bases are the five most recent distinct directories of the whole history, newest first |
| OutputDirs.LastMoveIsInForce | server/src/output.rs:97-121 | after any moves the last one gives the base and the limit in force |

## Left out

- The session state machine (server/src/state.rs) and what leans on it (manager.rs, messages.rs): not modelled; `Session` takes from it only that a job is started as the next job.
- Cryptography, certificates, TLS and the verification of signatures: a signature verifies or not, as an event says.
- The rumors and sprockets libraries and the network transport: a link comes up, a session reports a mismatch, a join succeeds or fails; event counts of universes are fixed during a run.
- HTTP, WebSocket and command-line plumbing, display and prompts, and the relay of recorded output to interactive clients.
- Operating-system calls: processes, pseudoterminals, file locks and directory healing are success or failure of a step; signals are counted, not delivered.
- Real time: timeouts and expiry are events or readings of a clock; durations are kept only where the code compares them.
- CBOR and format-version walking (format.rs): a locker record is readable or not; its own encoding is taken as a round trip.
- The literal word list: any 2048 distinct ordered lower-case words.
- Overflow of 64-bit counters: `reserved` in the locker, driver ids, job output lengths and the chunk loop's sums are unbounded numbers.
- Probing the locker, claiming slots and the empty locker's `null` form beyond having no slots.
- Rust's Unicode whitespace in target text: only the ASCII white space is trimmed. A baseboard's own parser is taken to split at the first colon.
- Transitions of job status other than what history and the boundary record: which ones the callers choose.
- Boundary.Executor.Drain: drains one batch of the queue at a time; jobs that arrive while it runs are the next batch.
- GossipMesh.ConvergenceStaysReachable: convergence is shown always reachable, not that a fair scheduler reaches it.
- Rack.ResolveAgrees: the version map and unknown message versions of a rack are not part of this model.
