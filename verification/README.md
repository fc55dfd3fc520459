# Cogs job queue: a verified model

Cogs is a job queue on one Redis instance. Servers are stateless; every move of a job is one
atomic Lua script; leases with deadlines, a reaper, a retry drainer and a scheduler do the
rest, run by whichever server holds a lock with a TTL. Workers hold a lease per job, renew it
by heartbeat, and report with an ack or a failure that names only the job's ID.

The project models this in three layers and proves what the layers above may rely on.

* **Runs.** `Model` gives every script and MULTI block as a function on an abstract database
  (per-queue pending, leased, retry and dead structures, job hashes, idempotency markers,
  schedules, the leader lock). A run is any sequence of such steps with arguments chosen by
  anyone, sampled at any earlier moment: any number of servers, leaders and stale workers, with
  any reply lost. `Legal` runs have a clock that does not go back, IDs that NewID never gave
  before, and arguments sampled no later than the script runs. `Lifecycle`, `Accounting`, `Contents`,
  `Attempts`, `Draining`, `Termination`, `Leases`, `Idempotency` and `Scheduling` prove what
  holds of every run; `Fencing`, `Heartbeat` and `StaleCalls` compare the ID-only protocol with one that
  carries a generation token; `Redelivery` says what a call executed twice does; `Leadership` does the same for the election, command by command.
* **Redis.** `Redis` is the flat keyspace of typed values at string keys, and says when it
  represents a model database. `Scripts` runs each Lua script as its loop of Redis commands on
  that keyspace and proves it has exactly the effect and the reply of the model's function.
  Every command requires its key to hold its own type or nothing, so no script can meet a
  type error.
* **The Go code.** `Storage`, `Loops`, `Cron`, `Api`, `Election` and `Worker` are the methods
  around the scripts: they sample the clock, choose arguments, and run several commands with
  anything happening in between (`Others`). The ghost trace of the store is proved to be a
  legal run whose result the keyspace holds, so the results about runs are results about this
  code; `own` marks the steps of the process itself, so a contract also says what it does not
  do. What the connection does to each call (`Net`), what NewID gives, which reads fail, the
  jitter drawn and how long a handler runs are parameters.

Assumptions, stated where they are used: `MaxRetries >= 0`, an idempotency window of at least
one second, lock TTL of at least one millisecond, heartbeat divisor of at least one,
`DrainLimit >= 1` where progress is claimed, one monotone clock, fresh IDs from NewID, a cron
expression's next time lies ahead of the time it is computed from, and all servers share one
configuration. The service checks none of these at startup. Each call's script runs at most
once: `Net` loses requests and replies but repeats nothing, although store.go leaves the Redis
client's own retries at their default; `Redelivery` says when that matters.

What the proofs turned up:

* The key layout is injective for all strings (`Keys.RenderInjective`). The comment on
  `ValidQueueName` says a name with ':' could collide with another queue's keys; it could not.
  Only the empty name is special: its keys are never discovered (`Loops.EmptyNameUnseen`).
* A deadline reported by a renewal can be cut short by another renewal of the same job whose
  server read its clock earlier and whose script runs later (`Leases.LaggingRenewalRevokes`).
  Nothing else short of an ack or a fail can do it: a promise that is safe until time d stops
  being so exactly by a renewal that writes less than d (`Leases.RenewalShortensIff`,
  `Leases.OthersKeepPromise`), and is safe exactly while the stored score is d or more
  (`Leases.RevocableIff`).
* A worker that keeps its deadlines can still disturb the next holder of a job, through a
  renewal it had in flight when it reported a failure and that runs after the retry time
  (`StaleCalls.LateRenewalExtends`). One that runs before the retry time, or at any time after
  an ack, disturbs nobody (`Heartbeat.HeartbeatsFence`). The missing token matters for a
  renewal exactly when the job is leased in that queue, by a later claim, with another
  deadline (`StaleCalls.RenewalAgreesIff`).
* An SDK worker is never told that its ack came too late. handleAck answers 409 to an ack that
  removed nothing, so that the worker knows its result may be a duplicate, but the SDK sends
  even one job to the batch endpoint, which answers 200 in any case, drops the count in the
  body, and runs OnAck (`Worker.UntoldAck`). An ack answered 200 removed a job exactly when
  the job was leased in that queue as the script ran (`Api.AckRemovesIff`), and so always when
  it ran before its worker's deadline (`Worker.OnTimeAckRemoves`).
* A script call executed twice is harmless exactly when it is not an enqueue whose key is
  empty or no longer live (`Redelivery.RepeatHarmlessIff`): such an enqueue lists its job
  twice, or brings back one that was acked.
* `release` deletes the lock before it clears the flag, so two servers can both believe they
  lead with no delay at all (`Leadership.ReleaseWindow`). A server's belief is true exactly
  when its last success is less than a TTL old and it is not inside its release
  (`Leadership.BeliefTrueIff`); otherwise, and only then, a peer that campaigns at once leads
  beside it, unless some other ID holds the lock (`Leadership.SecondLeaderIff`).
* Renewing at a third of the lock TTL leaves no room for two lost renewals: the third attempt
  comes at the expiry (`Leadership.TwoLostRenewals`).
* `Pass` drops a live schedule when reading its hash fails (`Cron.Scheduler.Pass`), and a
  dropped schedule never fires again (`Scheduling.LiveScheduleDropped`,
  `Scheduling.DroppedForGood`). It drops nothing else that is usable.
* Successive retry delays never shrink only below the cap of twenty attempts
  (`Backoff.NeverShrinksIff`).

## Model

| member | source | states |
|---|---|---|
| `Lifecycle.NoJobLostOrDuplicated` | internal/cogs/store.go:66-204 | in every state of every legal run each ID with a hash is listed exactly once, in its own queue's pending, leased, retry or dead structure, and each listed ID has a hash |
| `Lifecycle.RunEvolves` | internal/cogs/store.go:97-204 | every step moves each single job along one small automaton, or not at all, and renew, ack and fail move exactly the named leased job |
| `Accounting.FifoHistory` | internal/cogs/store.go:78-112 | for each queue the sequence of all pushes (enqueue, fire, reap, retry) is the sequence of all pops followed by what is pending |
| `Accounting.ClaimIsSingles` | internal/cogs/store.go:97-112 | a claim of n leaves the queue and returns the jobs that n claims of one at the same deadline do |
| `Accounting.SoundTotal` | internal/cogs/job.go:11-24 | a job's state is the structure that holds its ID: the four structures of a queue together list as many IDs as there are job hashes that name it |
| `Accounting.JobsConserved` | internal/cogs/store.go:66-204 | over every run jobs created in a queue = pending + leased + retry + dead + acknowledged |
| `Accounting.DeadHistory` | internal/cogs/store.go:152-204 | the dead list of a queue is the sequence of all its jobs whose attempts ran out, by failure or reap, in that order; nothing leaves it |
| `Contents.EnqueuedContent` | internal/cogs/store.go:78-80 | as long as a job exists it holds exactly the payload, queue, key and creation time its enqueue was given |
| `Contents.FiredContent` | internal/cogs/scheduler.go:65-73 | and a fired job the payload of its quad, the queue of its schedule and the time of the pass |
| `Contents.ContentKept` | internal/cogs/store.go:78-204 | no step changes those fields of a job that stays |
| `Attempts.ClaimsMatchAttempts` | internal/cogs/store.go:152-204 | claims of a job = counted attempts + 1 if leased; at most MaxRetries attempts unless dead, exactly one more when dead; never claimed more than MaxRetries + 1 times |
| `Attempts.JobKept` | internal/cogs/store.go:78-204 | while a job exists it keeps its queue and its attempts never go down |
| `Attempts.GoneForever` | internal/cogs/store.go:135-148 | a job that existed and is gone never comes back and is never claimed again |
| `Attempts.AckAtMostOnce` | internal/cogs/store.go:135-148 | the counts returned by acks over a run add up to the number of distinct jobs they removed |
| `Attempts.AckedNeverClaimed` | internal/cogs/store.go:135-148 | an acknowledged job is gone and never claimed in any continuation |
| `Attempts.ClaimsAreMoves` | internal/cogs/store.go:97-148 | each claim of a job is one of its moves, and its removal one more |
| `Attempts.MovesBounded` | internal/cogs/store.go:97-204 | in any run a job makes at most 3 * MaxRetries + 2 moves after its creation |
| `Ranking.DueExact` | internal/cogs/store.go:180-204 | one bounded read returns the min(limit, due) smallest entries by (score, member), distinct and in order, and every due entry left out comes after all of them |
| `Ranking.RangeByScore` | internal/cogs/store.go:185-185 | reading the range entry by entry returns exactly that sequence |
| `Draining.PassesEmpty` | internal/cogs/store.go:180-204 | at a fixed clock ceil(due/limit) passes take every due entry once, in order, and leave exactly the later ones |
| `Draining.ReapSplit` | internal/cogs/store.go:180-204 | two reap passes at one clock equal one with the limits added: same jobs, order, attempts and dead |
| `Draining.RequeueSplit` | internal/cogs/store.go:180-204 | the same for passes over the retry set |
| `Draining.NoStarvation` | internal/cogs/store.go:180-204 | a due lease with n entries ahead of it leaves its place within n / DrainLimit + 1 reap passes, whatever interleaves, as long as every claim and renewal uses a clock sample less than a TTL old |
| `Draining.NoRetryStarvation` | internal/cogs/store.go:180-204 | a due retry with n entries ahead of it becomes pending within n / DrainLimit + 1 retry passes, whatever interleaves, as long as every failure report runs before the retry time it sets |
| `Termination.PoisonTerminates` | internal/cogs/store.go:97-204 | from a moment on with no new jobs in a queue and no renewals of its leases, under any interleaving of claims, acks, fails, reaps, drains and work elsewhere, as many fair rounds as its jobs have moves left leave every one acknowledged or dead |
| `Termination.LoopsMakeRounds` | internal/cogs/loops.go:91-141 | a reap and a retry drain with clocks past the scores at the round's start, and a claim, in any order and with anything around them, make a round fair |
| `Termination.MovesLeft` | internal/cogs/store.go:152-204 | the moves left are at most 3 * MaxRetries + 3 per job of the queue |
| `Leases.NoEarlyRevocation` | internal/cogs/store.go:122-204 | before a reported deadline only an ack or fail of the job ends its lease, whatever clocks reapers pass, unless a renewal with an earlier deadline runs |
| `Leases.LaggingRenewalRevokes` | internal/cogs/store.go:317-327 | a legal run in which a lagging renewal shortens a reported deadline and the job is reaped before it |
| `Leases.RevocableIff` | internal/cogs/store.go:122-204 | among all continuations before time d with no ack or fail of the job and no renewal of it to before d, some ends the lease exactly when its current score is below d |
| `Leases.RenewalShortensIff` | internal/cogs/store.go:122-130 | a renewal makes a lease that was safe until d endable before d exactly when it writes less than d |
| `Leases.OthersKeepPromise` | internal/cogs/store.go:97-204 | no other step but an ack or fail of the job does |
| `Leases.NoEarlyRetry` | internal/cogs/store.go:152-204 | a failed job stays where it is and is not claimed before its retry time, whatever clocks the drains pass |
| `Idempotency.EnqueueDecides` | internal/cogs/store.go:66-83 | an enqueue with a key creates a job exactly when the key's latest creation is a window old; otherwise it answers that job's ID and changes nothing |
| `Idempotency.CreationsApart` | internal/cogs/store.go:66-83 | two creations with the same nonempty key are at least one window apart, across queues and servers |
| `Idempotency.DuplicateAnswered` | internal/cogs/store.go:66-83 | a duplicate within the window gets the first job's ID even after that job was acknowledged |
| `Scheduling.OneJobPerBacklog` | internal/cogs/scheduler.go:54-82 | one script call fires at most one due time of a schedule however late it is or often it is listed, and moves its score past now |
| `Scheduling.OneJobPerFiring` | internal/cogs/scheduler.go:54-82 | a script call fires exactly the schedules that are due, defined and listed, each once, and creates exactly one pending job per firing, with the quad's payload and the schedule's queue, and no other |
| `Scheduling.FiringsMoveOn` | internal/cogs/scheduler.go:65-76 | a fired schedule gets the next run of its quad and the time of the pass in its hash, which keeps everything else; other schedules stay as they are |
| `Scheduling.DefinitionKept` | internal/cogs/scheduler.go:97-120 | over every run a schedule's hash, while it exists, holds the queue, expression, payload and creation time that Create wrote |
| `Scheduling.DuesAreFirings` | internal/cogs/scheduler.go:54-82 | the due times counted over a run are exactly the scores that the schedule had when a call fired it |
| `Scheduling.NeverFiresTwice` | internal/cogs/scheduler.go:54-82 | over every run, with racing passes on stale reads, the due times a schedule fires for strictly increase |
| `Scheduling.SchedulesDefined` | internal/cogs/scheduler.go:97-129 | every member of the schedules set has its hash |
| `Scheduling.DeletedForGood` | internal/cogs/scheduler.go:122-129 | after Delete no pass that read the schedule earlier fires it or recreates its entry or hash |
| `Scheduling.DroppedForGood` | internal/cogs/scheduler.go:177-190 | once a pass drops an entry the schedule never fires again |
| `Scheduling.LiveScheduleDropped` | internal/cogs/scheduler.go:177-181 | a legal run in which a due schedule with its hash loses its entry and keeps its hash |
| `Fencing.FencingForFree` | internal/cogs/store.go:97-204 | when each worker call runs before the deadline of its last claim or renewal, or is a renewal after its worker's own ack, or after its own failure and before the retry time, the ID-only store goes through exactly the states of one that checks generation tokens |
| `Fencing.AcceptedCall` | internal/cogs/store.go:116-166 | every call before its deadline is accepted, comes from the latest claimer, and knows the stored attempt count |
| `Fencing.OneHolder` | internal/cogs/store.go:97-130 | under that timing at most one live handler holds a job |
| `Heartbeat.HeartbeatsFence` | sdk/go/cogsclient/client.go:254-320 | heartbeats every h with delays d (slot wait included) and one lost renewal in a row give that timing when 2h + 2d < TTL, whatever becomes of heartbeats in flight at an ack, or at a failure until its retry time |
| `Heartbeat.DivisorLeavesRoom` | internal/cogs/api.go:241-245 | a divisor of three or more leaves room for delays below a sixth of the TTL |
| `StaleCalls.ReportAgreesIff` | internal/cogs/store.go:132-166 | after a run in time the stores with and without tokens agree on an ack or fail exactly when the job is not leased there or the caller is its latest claimer |
| `StaleCalls.RenewalAgreesIff` | internal/cogs/store.go:116-130 | they agree on one more renewal exactly when the job is not leased there, the caller is its latest claimer, or the renewal writes the deadline that is there |
| `StaleCalls.ReportChangesIff` | internal/cogs/store.go:135-166 | an ack or fail changes the database exactly when the job is leased in that queue |
| `StaleCalls.StaleAckRemovesJob` | internal/cogs/store.go:116-121 | a legal run in which a worker whose lease lapsed acks the job away from its next holder |
| `StaleCalls.PacedRun` | sdk/go/cogsclient/client.go:279-350 | a run on that schedule exists: claim, heartbeat, ack, and a heartbeat that arrives last and finds nothing |
| `StaleCalls.LateRenewalExtends` | sdk/go/cogsclient/client.go:294-318 | a legal run in which a renewal in flight at the worker's own failure report runs after the retry time and extends the next holder's lease |
| `Redelivery.RepeatHarmlessIff` | internal/cogs/store.go:66-204 | a call of a run executed once more, after anything else, lists no job twice and brings none into being or back exactly when it is not an enqueue whose key is empty or no longer live |
| `Redelivery.KeyProtects` | internal/cogs/store.go:66-76 | the enqueue that created a job under a key, run again within the window, changes nothing and answers that job's ID |
| `Redelivery.RepeatCovered` | internal/cogs/store.go:54-204 | every other repeat but that of an AddSchedule is one more step of a legal run or changes nothing; a repeated firing pass fires nothing |
| `Backoff.OverflowFreeIff` | internal/cogs/loops.go:16-26 | for a base >= 0 no attempt number overflows int64 exactly when base < 2^43 ns |
| `Backoff.DelayBounds` | internal/cogs/loops.go:16-26 | the delay lies between half of base * 2^a and all of it, a the attempt clamped to 0..20 |
| `Backoff.DelayMsBounds` | internal/cogs/store.go:348-348 | the same in whole milliseconds, as the retry time uses it, with a 0 below attempt 0 and 20 above 20 |
| `Backoff.DelayNeverShrinks` | internal/cogs/loops.go:16-26 | any draw at a later attempt is at least any draw at an earlier one below the cap |
| `Backoff.NeverShrinksIff` | internal/cogs/loops.go:16-26 | the next attempt's delay is at least this one's for all draws exactly for attempts 0 to 19 |
| `Leadership.OnlyOwnLock` | internal/cogs/store.go:209-222 | a process takes only a free lock, and extends or deletes only a live lock with its own ID |
| `Leadership.PassesByHandover` | internal/cogs/leader.go:74-125 | over every run the lock leaves an ID only by that ID's release, or by a take-over a full TTL after every acquisition and renewal of that ID |
| `Leadership.RenewedIff` | internal/cogs/leader.go:77-91 | a believed leader's renewal succeeds exactly when less than a TTL has passed since its last successful command |
| `Leadership.TwoLeadersExplained` | internal/cogs/leader.go:52-125 | whenever two processes believe they lead, one has gone a TTL without success or is inside its release |
| `Leadership.BeliefTrueIff` | internal/cogs/leader.go:74-125 | a process that believes it leads owns the live lock exactly when its last success is less than a TTL old and it is not inside its release |
| `Leadership.SecondLeaderIff` | internal/cogs/leader.go:74-125 | a peer that campaigns now ends up leading beside a believed leader exactly when that one is inside its release or a TTL without success, and no other ID holds the lock |
| `Leadership.SingleLeader` | internal/cogs/leader.go:52-125 | with renewals in time and release in one step at most one process believes it leads, and the lock names it |
| `Leadership.ReleaseWindow` | internal/cogs/leader.go:107-125 | a run without any delay in which two processes believe they lead, one between its script and its flag |
| `Leadership.TickBelowTtlIff` | internal/cogs/leader.go:53-58 | the renewal tick is below the TTL exactly when the TTL exceeds 100 ms |
| `Leadership.TwoLostRenewals` | internal/cogs/leader.go:53-58 | after two lost renewals the third still comes before the expiry only for TTLs of 300 ms or more not divisible by three nanoseconds, and then by two nanoseconds at most |
| `Keys.RenderInjective` | internal/cogs/job.go:63-72 | no two jobs, queues' structures, markers, schedules or global keys share a key, whatever characters their names contain |
| `Keys.NameRules` | internal/cogs/job.go:76-81 | exactly the names of 1 to 128 characters without ':', blank, tab, line ends and braces are accepted |
| `Keys.QueueFromKey` | internal/cogs/store.go:482-493 | the backward scan returns the part between "queue:" and the last ':', or "" when there is none |
| `Keys.QueueOfKeys` | internal/cogs/store.go:482-493 | that inverts the pending, leased and retry keys of every queue |
| `Redis.Rewrites` | internal/cogs/job.go:53-72 | writing one key changes what exactly one key of the layout means: no script disturbs another queue |
| `Redis.RepresentsOne` | internal/cogs/job.go:53-72 | a keyspace represents one model database only |
| `Scripts.RedisServer.Enqueue` | internal/cogs/store.go:66-83 | SET NX, HSET, LPUSH on the flat keys do the model's enqueue; the reply is the stored ID or the new one |
| `Scripts.RedisServer.Claim` | internal/cogs/store.go:97-112 | the pop-and-lease loop takes the oldest n pending jobs, leases all, and returns them in order with their own payload and attempts |
| `Scripts.RedisServer.Renew` | internal/cogs/store.go:122-130 | rewrites the score of a leased job only, and says whether it did |
| `Scripts.RedisServer.Ack` | internal/cogs/store.go:135-148 | the loop over the arguments removes exactly the listed IDs leased in that queue, with their hashes, and returns how many distinct ones, whatever the order or repeats |
| `Scripts.RedisServer.Fail` | internal/cogs/store.go:152-166 | moves a leased job to retry, or to the dead list when its retries are spent, counting one attempt; -1 and no change when it is not leased |
| `Scripts.RedisServer.Drain` | internal/cogs/store.go:180-204 | the drain loop moves exactly the bounded due prefix, in order, split into requeued and dead by the bumped count |
| `Scripts.RedisServer.FireSchedules` | internal/cogs/scheduler.go:54-82 | the loop over the quads fires each still-due schedule with a hash, quad by quad, and lists those fired with their queues |
| `Scripts.RedisServer.AddSchedule` | internal/cogs/scheduler.go:110-117 | the MULTI block writes hash and entry together |
| `Scripts.RedisServer.DeleteSchedule` | internal/cogs/scheduler.go:122-129 | the MULTI block removes entry and hash together |
| `Scripts.RedisServer.AcquireLock` | internal/cogs/leader.go:94-104 | SET NX with a TTL takes a free or expired lock and no other |
| `Scripts.RedisServer.RenewLock` | internal/cogs/store.go:217-222 | extends the lock only while it is live and holds the caller's ID |
| `Scripts.RedisServer.ReleaseLock` | internal/cogs/store.go:209-214 | deletes the lock only while it is live and holds the caller's ID |
| `Scripts.RedisServer.Scan` | internal/cogs/store.go:459-462 | a page lists every matching key of one slot that exists now, and only matching keys, some perhaps again |
| `Priority.TourFits` | internal/cogs/store.go:275-312 | the calls of one claim never hand out more than the batch |
| `Priority.PriorityOrder` | internal/cogs/store.go:286-312 | a claim takes from a later queue only after each earlier queue was left empty by its own call |
| `Priority.ShortOnlyIfEmpty` | internal/cogs/store.go:286-312 | it falls short of the batch only if every listed queue was left empty by its own call |
| `Priority.DistinctTour` | internal/cogs/store.go:286-312 | with distinct queue names all IDs handed out are distinct, whatever happened between the calls |
| `Storage.Store.Enqueue` | internal/cogs/store.go:248-271 | runs the script once with the sampled time and "null" for an empty payload, and answers what the database at that moment decides; when NewID fails it sends nothing |
| `Storage.Store.Claim` | internal/cogs/store.go:275-312 | clamps the batch, samples one deadline, and collects the answers of one call per queue until full or exhausted; an error hands out nothing |
| `Storage.ClampedIs` | internal/cogs/store.go:276-281 | a batch between one and the limit is granted as asked, any other at the nearer end |
| `Storage.ClaimCollects` | internal/cogs/store.go:275-312 | what a claim that went through hands out: at most the batch, one deadline, each job with the payload, attempts and queue stored when its call ran, out of that queue's pending list and leased to that deadline; short only if every queue was emptied, distinct for distinct queues |
| `Storage.HandedPayload` | internal/cogs/store.go:78-112 | every claim of a job hands out exactly the payload and queue its enqueue was given |
| `Storage.HandedFiring` | internal/cogs/store.go:97-112 | every claim of a fired job hands out the payload of the quad that created it |
| `Storage.Store.Renew` | internal/cogs/store.go:317-327 | answers the deadline sample + TTL exactly when the job is leased as the script runs, else that the lease is gone |
| `Storage.Store.Ack` | internal/cogs/store.go:330-343 | an empty list calls nothing and answers 0; otherwise the number of distinct listed jobs leased in the queue |
| `Storage.Store.Fail` | internal/cogs/store.go:347-364 | schedules the retry at the sample + backoff for the echoed attempt, between half of base * 2^a and all of it, and tells gone, retry and dead apart |
| `Storage.EndingMeans` | internal/cogs/store.go:152-166 | gone: not leased, nothing changed; retry: one attempt more and in the retry set at the given time; dead: one attempt more, beyond the retries, and last in the dead list |
| `Storage.Store.Drain` | internal/cogs/store.go:368-384 | one pass with the sampled clock; reports the requeued and dead IDs in order |
| `Storage.DrainMoves` | internal/cogs/store.go:180-204 | those reported requeued are appended to pending, those reported dead to the dead list, and together they are the due entries, which leave their set; dead are exactly those beyond their retries, in a pass over leases only |
| `Loops.KnownQueues` | internal/cogs/store.go:454-479 | lists every named queue that had pending jobs throughout the scans, or leases throughout, or retries throughout, only queues that had some of these at some moment, and none twice |
| `Loops.DrainPass` | internal/cogs/loops.go:98-141 | a reap pass that meets no error reaps every queue that had leases throughout, a retry pass requeues from every queue that had retries throughout, with a clock no older than the pass |
| `Loops.DrainLoop` | internal/cogs/loops.go:37-53 | n passes without error drain each such set that stayed nonempty at least n times; leading on every tick without faults makes one pass per tick |
| `Loops.LoopRecovers` | internal/cogs/loops.go:91-121 | a lease due when the loop starts, n entries ahead of it, leaves its place while n / DrainLimit + 1 such passes go through, as long as every claim and renewal uses a clock sample less than a TTL old |
| `Loops.LoopRetries` | internal/cogs/loops.go:92-141 | a retry due when the loop starts, n entries ahead of it, becomes pending while n / DrainLimit + 1 such passes go through, as long as every failure report runs before the retry time it sets |
| `Loops.EmptyNameUnseen` | internal/cogs/store.go:454-493 | the keys of a queue named "" give back "", which discovery skips and the HTTP boundary refuses |
| `Cron.Scheduler.Create` | internal/cogs/scheduler.go:97-120 | writes nothing when the expression does not parse or NewID fails; otherwise definition and next run in one step |
| `Cron.Scheduler.Delete` | internal/cogs/scheduler.go:122-129 | runs the removal as one step |
| `Cron.Scheduler.Prepare` | internal/cogs/scheduler.go:175-196 | gives payload and a next run beyond now exactly when the read succeeds, the hash is there and its expression parses, and then drops nothing; otherwise drops the entry |
| `Cron.Scheduler.Pass` | internal/cogs/scheduler.go:162-213 | fires, in one script and with new job IDs, a quad for every schedule due at the read that stayed readable, with the payload of its own hash and the next run after the clock as it was then; drops those it could not read, live or not, and of the others only those that were gone or malformed |
| `Cron.FiredListIs` | internal/cogs/scheduler.go:77-78 | the reply of the script lists the fired schedules in order, each followed by its queue |
| `Api.HandleClaim` | internal/cogs/api.go:208-258 | an empty answer comes only after the clamped wait and from a claim that found every queue empty; jobs end the poll at once; polls are at least 25 ms apart; the interval is TTL / divisor |
| `Api.HandleRenew` | internal/cogs/api.go:273-300 | 200 only if the lease was there as the script ran, 409 only if it was not |
| `Api.HandleAck` | internal/cogs/api.go:328-357 | the same for an ack at the endpoint for one job |
| `Api.HandleAckBatch` | internal/cogs/api.go:312-326 | answers 200 to every delivered call for a valid queue, never 409, with the number of distinct listed jobs leased there as the script ran |
| `Api.AckRemovesIff` | internal/cogs/api.go:312-326 | an ack answered 200 removed exactly the listed jobs leased in that queue; the count, not the status, tells: it is the number of IDs exactly when all were removed, and 0 only when nothing changed |
| `Api.HandleFail` | internal/cogs/api.go:365-392 | the same for a failure report, with the state it led to |
| `Election.Leader.TryAcquire` | internal/cogs/leader.go:74-105 | renews when it believes it leads, campaigns otherwise; an error keeps the belief, an answer makes it what Redis held at that command; the lock and flag follow the election protocol |
| `Election.Leader.Release` | internal/cogs/leader.go:107-125 | clears the flag in every case, and after the script has run the lock is not this process's, whatever others did since |
| `Election.Leader.Run` | internal/cogs/leader.go:52-72 | sends one command at the start and one after each full tick, none before its tick and no others, and ends with the flag cleared and, if it led, the lock given up |
| `Election.HeldIsOwner` | internal/cogs/leader.go:52-125 | a server whose flag is up and whose last success is less than a TTL old is the one Redis names |
| `Worker.Process` | sdk/go/cogsclient/client.go:279-350 | abandons the job exactly when a heartbeat was answered that the lease is gone; otherwise sends exactly one report, an ack on success and else a failure with the attempts handed out; apart from that only renewals, each no earlier than its tick and any of which may still land around the report. The ack names that job alone and removes it, the failure counts one attempt and sends it to retry or dead, both exactly if it was leased; the answer to a failure tells of the lease, an ack is announced whenever it was delivered |
| `Worker.OnSchedule` | sdk/go/cogsclient/client.go:264-296 | with the interval of the claim reply, heartbeat k runs, and its server reads its clock, no earlier than k intervals after the start, as the fencing results ask |
| `Worker.OnTimeAckRemoves` | sdk/go/cogsclient/client.go:343-349 | an ack that runs before its worker's deadline removes the job |
| `Worker.UntoldAck` | sdk/go/cogsclient/client.go:160-170 | a legal run in which a worker renews in time, the lease then lapses and is reaped, the worker's ack is answered 200, announced and changes nothing, and the job is claimed again |
| `Worker.EchoedAttempt` | sdk/go/cogsclient/client.go:338-338 | while the lease of a claim is held the stored attempts are those the claim handed out with the job |
| `Worker.RetryDelaysGrow` | internal/cogs/store.go:347-348 | of two accepted failure reports of a job that both echo the stored attempts, the later puts its retry time at least as far from its clock sample, below the cap |

## Left out

- Redis itself: each script and each MULTI block is one atomic step with the standard meaning of lists, sorted sets, hashes and expiry; durability, failover, script loading and the active expiry of keys are not modelled.
- Scripts.RedisServer.Scan: SCAN walks a fixed number of slots and may repeat keys; which slots a rehash would visit twice is left open, that it skips none is taken from SCAN's guarantee.
- Scripts.RedisServer.Enqueue: hash fields are typed values, so the decimal strings of attempts and times, and a hash with only some fields, appear only as far as HINCRBY on a missing hash creates one.
- Scores are integers: the loss of precision of double scores above 2^53 is not modelled.
- Backoff.DelayBounds: the jitter is any multiple of 2^-54 from one half to one; the rounding of the product in float64 above 2^53 ns is not modelled.
- Storage.Store.Fail: nanoseconds come from milliseconds without int64 wrap-around of that conversion; the wrap-around of the doubling is modelled.
- Cron parsing and Next: a parameter giving the next time or nothing; expressions that parse but have no next time are outside the precondition.
- Cron.Scheduler.Pass: the IDs that NewID gives are a list that may run out, which is NewID failing; crypto/rand is not modelled.
- Worker.Process: the heartbeats that run once the handler has ended are lists of any length, although the goroutine stops as soon as its select picks the closed channel; cancelling the handler's context is not modelled.
- Heartbeat.HeartbeatsFence: the upper bounds on delays are a hypothesis; of the worker's and the server's methods only the bounds from below are proved (Worker.OnSchedule).
- Worker.Run: the claim loop and the slot a job waits for appear only as part of the delay in Heartbeat.HeartbeatsFence.
- Election.Leader.Run: the fallback ID made from the time when NewID fails is not modelled; IDs of processes are distinct.
- Leader gating of the scheduler loop: the same ticking loop as Loops.DrainLoop with Cron.Scheduler.Pass.
- The Go methods change the model's store in place; aliasing of Go slices and the connection pool are not modelled.
- HTTP routing, authentication, JSON, error envelopes, handleEnqueue, the schedule handlers, metrics and logging: no property beyond those of the methods they call.
- Stats, DeadJobs, Job and List: plain reads outside any script, with no claim of a snapshot.
- The Node and Python SDKs, the demo page, the load test and the chaos worker: copies or drivers of the same protocol.
- Exactly-once side effects: the code does not provide them.
