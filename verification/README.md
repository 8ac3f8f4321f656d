# Two concurrent transaction engines, and what their runs guarantee

The repository has two ways to run transfers between accounts. One is **Silo**: transactions read without
locks, lock what they write, validate what they read and install their writes under a new version. The other is
**two-phase locking with replicated group logging**: a worker locks both accounts of each transfer, collects locked
transfers in a buffer, gives the group a global log sequence number, appends it to its own log and ships it to the
followers; notifier threads count acknowledgements, and the one that gets past the quorum applies the group and
unlocks. The second engine keeps its table in an open-addressing **hash index**.

Both engines are modelled as machines that take one access to shared memory at a time. Any number of threads, keys,
followers and requests take part; which thread moves next, what the clients ask for, and when timers fire are
arbitrary. What is proved of these machines holds in every state of every run. The code of the threads themselves is
written as classes with methods whose loops follow the source; between any two shared accesses, all other threads may
run, and each method is proved to take only steps of its machine. So the properties of the runs are properties of
this code.

| files | contents |
|---|---|
| `Serial.dfy`, `Counting.dfy` | serial execution, the reference both engines are compared with; counting in finite sets |
| `Tidword.dfy` | the 64-bit TID word: layout, comparison, choice of the commit TID |
| `SiloProtocol.dfy` | Silo as a step machine |
| `SiloInvariant.dfy`, `SiloSteps.dfy`, `SiloCommit.dfy`, `SiloInstall.dfy`, `SiloRuns.dfy` | its inductive invariant |
| `SiloTheorems.dfy`, `SiloRefusals.dfy`, `SiloTransfer.dfy`, `SiloClients.dfy`, `Amounts.dfy` | what its runs guarantee; why transactions abort; balances, transfers and clients that run nothing else |
| `SiloExample.dfy` | a run of transfers in which money appears |
| `SiloTraces.dfy` | what an executor's own steps and those of the others add up to |
| `SiloExecutor.dfy` | the executor and the epoch leader as code, run while others run |
| `PipelineProtocol.dfy` | the locking and logging pipeline as a step machine |
| `PipelineInvariant.dfy`, `PipelineWorker.dfy`, `PipelineLogging.dfy`, `PipelineNotifier.dfy`, `PipelineCommit.dfy`, `PipelineRuns.dfy` | its inductive invariant |
| `PipelineTheorems.dfy`, `PipelineLocks.dfy`, `PipelineReplay.dfy`, `PipelineRecovery.dfy`, `PipelineDrain.dfy`, `PipelineEmpty.dfy`, `PipelineExample.dfy` | what its runs guarantee |
| `PipelineParts.dfy`, `PipelineThreads.dfy` | queues, task lists, vote counts and logs; the four kinds of threads as code |
| `Probing.dfy`, `Kvs.dfy` | probing with a coprime stride; the key-value store over arrays |

## Where the code differs from its design

- The commit TID is the least valid one except when a 29-bit counter sits at its last value in the loaded epoch: the
  increment wraps without a carry. `Tidwords.CommitTidIsLeast` gives the exact condition, `Tidwords.CommitWordWraps`
  an input that fails.
- Silo's transfer hands a `char *` to a parameter of type `string_view`, so what is written to a balance ends before the
  first zero byte of the new balance, and is the executor's default value when that is the first byte
  (src/silo/transaction.cc:360-361, src/silo/include/silo_op_element.hh:50-59, src/silo/transaction.cc:293-297). The
  model writes these bytes. `Amounts.KeptIff` says exactly when the record holds the new balance afterwards: the balance
  starts with a zero byte and is the default value, or it does not and the old balance has the same bytes from the
  first zero byte on. `Amounts.ZeroByteMakesMoney` is an input that fails: taking 97 away from 97 leaves 48; and
  `SiloExample.MoneyCanAppear` is a run of one transfer, commit included, at the end of which there are 145 instead of
  97. `SiloExecutor.Executor.TransferWork` and the two theorems on money carry this condition;
  `SiloClients.MoneyAccounted` holds without it.
- A balance with no zero byte at all, such as -1 (`Amounts.MinusOneIsNotTerminated`), is not terminated: the view reads on behind it, and the write phase
  copies what it found there into the record and past its end. That is not modelled. The model ends the view with the
  value, so for these balances `Amounts.Faithful` holds in the model only. `Amounts.TerminatedIff` says which they are;
  what is said of faithful views says something of the code where the balances are terminated (`Amounts.Terminated`).
- The locking engine puts the two keys of a request in order without negating the amount, so a request from a higher
  to a lower key is carried out backwards (`Amounts.SwapKeepsEffectIff`, `Amounts.SwapReversesTransfer`). Its other
  properties are stated for the request as normalised; Silo negates the amount and keeps the effect.
- A task is stored after its entry is sent. If the last acknowledgement is counted and looked up before that, nobody
  ever applies the entry and its accounts stay locked. `PipelineExample.TaskCanBeLost` is such a run, and
  `PipelineDrain.LocksDrainIff` and `PipelineEmpty.EmptiesIff` show that this is the only way for locks to stay taken
  and for requests to stay undone.
- The quorum test counts followers only, against half of all servers, so nothing is ever applied with fewer than
  three servers (`PipelineDrain.SmallClusterNeverApplies`).
- `index_update` changes the index and not the table of values, and `update` the other way round, so `read` and
  `index_read` agree after construction and not after an update of either kind.

## Model

| member | source | states |
|---|---|---|
| Tidwords.ObjFromObj | src/silo/include/tuple.hh:6-17 | every 64-bit word is the packing of its five fields: the union loses nothing |
| Tidwords.FromObjObj | src/silo/include/tuple.hh:6-17 | packing the five fields and unpacking them gives them back |
| Tidwords.LessIsLexicographic | src/silo/include/tuple.hh:23-23 | comparing whole words orders by epoch, then tid, and by the flag bits only between equal versions |
| Tidwords.CommitTidIsLeast | src/silo/transaction.cc:263-288 | the word chosen is in the loaded epoch and above every TID read, every TID overwritten and the worker's previous one if and only if no counter at its limit lies in that epoch; and no valid TID is smaller, whatever the flag bits |
| Tidwords.CommitWordOverMaxima | src/silo/transaction.cc:273-288 | the same over the two running maxima that the code keeps; the word is unlocked and latest, and absent only if one of the three words is |
| Tidwords.CommitWordWraps | src/silo/include/tuple.hh:13-14 | after the last tid of an epoch, the next commit TID of the worker is smaller |
| Tidwords.MaxOfIsMaximum | src/silo/transaction.cc:75-75 | the running maximum is one of the words seen and has the largest version among them |
| Silo.SearchRead | src/silo/transaction.cc:146-152 | the position of the first element of the read set with the key, with none of that key before it; -1 exactly when there is none |
| Silo.SearchWrite | src/silo/transaction.cc:154-160 | the same for the write set |
| Silo.SortByKey | src/silo/transaction.cc:192-192 | the write set in the order of its keys |
| Silo.SortPermutes | src/silo/transaction.cc:192-192 | sorting neither loses nor invents an element |
| SiloRuns.NextKeeps | src/silo/transaction.cc:50-303 | the invariant of the protocol is kept by every step of every executor |
| SiloTheorems.SiloSerializable | src/silo/transaction.cc:185-304 | in every run, executing the committed transactions one at a time in the order of their epoch loads gives each the values it read and yields the final table |
| SiloTheorems.SiloRunsPrograms | src/silo/transaction.cc:185-304 | for arbitrary update functions, running the committed programs with nothing interleaved ends in the same table |
| SiloTheorems.ConflictsFollowEpochs | src/silo/transaction.cc:193-239 | write-read, write-write (one commit overwrote the other, directly or by a chain of commits) and read-write conflicts all agree with the serial order and with the epochs; each commit TID has the epoch of its serialization point; the first two raise the TID |
| SiloTheorems.WritersConflict | src/silo/transaction.cc:291-300 | of any two commits that wrote the same key, exactly one has overwritten the other |
| SiloTheorems.CommitTids | src/silo/transaction.cc:269-299 | a worker's commit TIDs strictly increase, and each is the least word in its epoch above the version of every record read, the version of every record overwritten, which is what the last commit before it left there, and every earlier TID of the worker |
| SiloTheorems.ReadsAreExact | src/silo/transaction.cc:102-130 | with values copied byte by byte, a read-set element is exactly the value installed under the (epoch, tid) recorded with it, whichever commit wrote that version |
| SiloTheorems.LockOwnership | src/silo/transaction.cc:162-230 | a lock bit is set exactly when some executor holds the record; no two hold the same one; an executor that is done with an abort or a commit holds none |
| SiloRefusals.NoWaitLocking | src/silo/transaction.cc:50-77 | in every run, a lock attempt aborts the transaction if and only if the word loaded last was locked, and that was so if and only if another executor held the record at that load; an unlocked word takes the lock if the record still has it, and otherwise the attempt goes on with the new word |
| SiloRefusals.RejectedIffStale | src/silo/transaction.cc:216-239 | in every run, the check of a read-set element fails if and only if the record has another version than the one read, or another executor holds it |
| SiloRefusals.AbortHasCause | src/silo/transaction.cc:185-242 | in every run, an executor aborts only at a step before which it loaded the word of a record of its write set that another executor held then, without moving since, or which finds a read-set element stale |
| SiloTraces.LogIsEpochLoads | src/silo/transaction.cc:193-199 | every log entry was added by an epoch load of its executor, with the reads and writes it had then and all records of its write set locked; its place in the log and its epoch are the length of the log and the global epoch of that moment |
| SiloTraces.NextAccessInRange | src/silo/transaction.cc:50-303 | in every run, an executor in the middle of a call can take its next step, unless a counter is at the end of its field |
| SiloTheorems.VersionsRise | src/silo/transaction.cc:291-300 | a step changes a record's version only when it installs the word of a committed transaction, and then upwards; no other step changes a value, so aborts change nothing |
| SiloTheorems.EpochLag | src/silo/silo_util.cc:101-120 | a worker's epoch slot, and a value loaded and not yet stored, stay within one of the global epoch and never go back, although scan and store are not atomic; worker 0 has only the upper bound |
| SiloTransfer.MoneyConserved | src/silo/transaction.cc:342-369 | when every committed transaction of the log is a transfer, which by `Amounts.TransferIff` means that both its writes are faithful, the total of the balances, with what running commits are about to install, is the initial total modulo 2^32 at every step |
| SiloTransfer.LeavesOf | src/silo/transaction.cc:291-300 | a committed transfer leaves on its two accounts exactly the bytes it wrote over the balances it read |
| SiloClients.CommitsAreTransfers | src/silo/transaction.cc:333-369 | when all clients make the calls of `transferWork`, every committed entry is one: it read two balances and left what the string views of the new ones give; it is the transfer asked for if and only if both views are faithful (of balances that are not terminated, in the model only) |
| SiloClients.MoneyAccounted | src/silo/transaction.cc:342-369 | then, with no condition on the bytes, the total is the initial one plus what the committed entries have added, at every step |
| SiloClients.MoneyConserved | src/silo/transaction.cc:342-369 | and when the views of all committed transfers are faithful, the total is the initial one modulo 2^32, at every step (with balances that are not terminated, in the model only) |
| SiloClients.ZeroByteGains | src/silo/transaction.cc:360-361 | an entry that takes 97 out of a balance of 97, with the default value "0", adds 48 to the total |
| SiloExample.MoneyCanAppear | src/silo/transaction.cc:333-369 | a run of one executor that makes the calls of `transferWork` commits such an entry, and accounts that held 97 hold 145 at its end |
| SiloTheorems.WriteIsSerial | src/silo/transaction.cc:291-300 | a write shorter than the record goes over the value that serial execution of the commits before it leaves there |
| SiloTheorems.WriteOverRead | src/silo/transaction.cc:291-300 | a committed transaction that read a record and wrote some of its bytes kept the others as it had read them |
| Amounts.KeptIff | src/silo/transaction.cc:293-297 | the record holds the value meant if and only if that starts with a zero byte and is the default value, or does not and agrees with the old value from its first zero byte on; a value without a zero byte always in the model, whose views end with the value |
| Amounts.CStr | src/silo/transaction.cc:360-361 | the longest prefix without a zero byte: what the string view of a `char *` takes when the value is terminated |
| Amounts.TerminatedIff | src/silo/transaction.cc:360-361 | the view ends inside the value exactly when a byte is zero; any other value is faithful in the model only |
| Amounts.ZeroByteMakesMoney | src/silo/transaction.cc:360-361 | an input on which the value written is not the value meant: 97 less 97 leaves 48 |
| Amounts.TransferIff | src/silo/transaction.cc:351-369 | a committed entry of `transferWork` is the transfer asked for if and only if both of its writes are faithful (of balances that are not terminated, in the model only) |
| Amounts.EncodeDecode | src/silo/transaction.cc:335-338 | every four bytes are the encoding of the amount they share their storage with |
| Amounts.DecodeEncode | src/silo/transaction.cc:335-338 | and every 32-bit amount is what its four bytes decode to |
| Amounts.NormaliseKeepsEffect | src/silo/transaction.cc:342-349 | swapping the keys with the amount negated moves the same money, and doing it again changes nothing |
| Amounts.SwapKeepsEffectIff | src/2pl/twopl.cc:20-26 | swapping the keys alone keeps the effect if and only if nothing is swapped or nothing is moved |
| Amounts.SwapReversesTransfer | src/2pl/twopl.cc:20-26 | a request from account 2 to account 1 that is carried out backwards |
| SiloExecutor.Executor.Begin | src/silo/transaction.cc:33-37 | the status is in flight and the two maxima are zero; nothing else changes |
| SiloExecutor.Executor.SearchReadSet | src/silo/transaction.cc:146-152 | the loop finds what its specification says |
| SiloExecutor.Executor.SearchWriteSet | src/silo/transaction.cc:154-160 | the loop finds what its specification says |
| SiloExecutor.Executor.Read | src/silo/transaction.cc:79-143 | while others run: a key already in a set changes nothing, and otherwise exactly one element for the key is added to the read set; if the record is free and nobody else moves, one round is enough |
| SiloExecutor.Executor.Write | src/silo/transaction.cc:244-261 | a key not in the write set is added with its value, of any length up to that of a record, or the default value for an empty one; a key in it keeps its first value |
| SiloExecutor.Executor.LockWriteSet | src/silo/transaction.cc:50-77 | either the whole write set is locked, or the transaction is aborted and the acquired prefix released; an abort means that another executor held a record of the write set when its word was loaded; if all records are free and nobody else moves, one try each is enough |
| SiloExecutor.Executor.UnlockWriteSet | src/silo/transaction.cc:162-183 | releases the elements before `end`, one by one |
| SiloExecutor.Executor.ValidationPhase | src/silo/transaction.cc:185-242 | the transaction is ready to commit, or it has failed and holds no lock; it fails only because another executor held a record of the write set when its word was loaded, or because a read was stale when it was checked; with nobody else moving, free records and current reads, it is ready to commit |
| SiloExecutor.Executor.WritePhase | src/silo/transaction.cc:263-304 | when no counter is at its limit, one transaction more is in the log of commits, with exactly the reads and writes the executor held, and both sets are empty; otherwise nothing happens |
| SiloExecutor.Executor.Abort | src/silo/transaction.cc:28-31 | both sets are empty again |
| SiloExecutor.Executor.TransferWork | src/silo/transaction.cc:333-369 | a transfer that succeeds is the one transaction that the call commits: over the balances it read it wrote what the string views of the new ones give, and it is the transfer asked for if and only if both views are faithful; a refused one failed for a cause found during the call, was aborted, and leaves both sets empty; it stops only in a spin, or after validation at a counter at its limit; with both accounts free and nobody else moving it succeeds, unless a counter is at its limit; every call it makes is one that `SiloClients` allows a client, so its theorems are about runs of this code |
| SiloExecutor.Executor.MoveAmount | src/silo/transaction.cc:356-368 | the same, with both accounts already read |
| SiloExecutor.Executor.WriteAmounts | src/silo/transaction.cc:358-361 | the write set has, for each account, the bytes that the string view of its new balance gives |
| SiloExecutor.Executor.ChkEpochLoaded | src/silo/silo_util.cc:101-110 | true only after every worker from 1 on has been seen in the epoch loaded first; false only with a worker that is not in the global epoch |
| SiloExecutor.Executor.LeaderWork | src/silo/silo_util.cc:112-120 | when due, the epoch becomes the scanned one plus one, or some worker is not in the global epoch; it stops only when a complete scan has ended at the last epoch; when not due nothing happens |
| Serial.ProgramsReplay | src/silo/transaction.cc:185-304 | serial execution of recorded reads and writes is serial execution of the programs |
| Pipeline.FindTask | src/server/worker.cc:92-99 | the position of the first task with the number |
| PipelineRuns.NextKeeps | src/server/raft.cc:179-395 | the invariant of the pipeline is kept by every step of every producer, worker, log receiver and notifier |
| PipelineRuns.NeverStuck | src/server/raft.cc:179-348 | every worker can always take its next step, and every notifier except one that waits for an acknowledgement |
| PipelineTheorems.LsnOrderIsSerial | src/server/raft.cc:205-227 | at every moment the table is what the entries wrote, executed in the order of their log sequence numbers, and each commit read what that execution puts there, although entries commit out of order |
| PipelineTheorems.ConflictsFollowLsns | src/2pl/twopl.cc:16-57 | of two entries that share a key, the one with the smaller number has read, written and unlocked it before the other has a number |
| PipelineTheorems.AppliedIsDurable | src/server/raft.cc:206-214 | an entry being applied is in the leader's log, and with all earlier entries of its worker on more than half as many followers as there are servers, so every majority of servers has a follower that holds them; its conflict predecessors too |
| PipelineTheorems.LockOwnership | src/2pl/twopl.cc:28-57 | a key is locked exactly when one transfer owns it: between its two locks, in a buffer, or in an entry that has not unlocked it; never two |
| PipelineLocks.FirstLockIff | src/2pl/twopl.cc:28-39 | the lower key is locked if and only if nobody owns it; otherwise another transfer does, and nothing happens |
| PipelineLocks.SecondLockIff | src/2pl/twopl.cc:29-35 | the higher key is locked if and only if nobody owns it, and then the transfer is in the buffer with both keys; otherwise another transfer owns it |
| PipelineLocks.RollbackFrees | src/2pl/twopl.cc:32-35 | after the rollback nobody owns the lower key |
| PipelineTheorems.HeldEntries | src/server/raft.cc:296-344 | an entry that holds locks is being appended, being sent, stored as a task, or with the notifier that loaded it; its transfers share no key |
| PipelineTheorems.PipelineIsExact | src/server/raft.cc:285-346 | a worker's log, pending group, buffer, refused transfer and queue are, in this order, what was enqueued to it: as many transfers, each with the client, the command, the amount and the two keys that were asked for; in the log the lower key comes first; the buffer never overflows |
| PipelineTheorems.FollowersLagBehind | src/server/raft.cc:373-392 | every follower's log for a worker, the entries on their way to it, and the one about to be sent make up the leader's log |
| PipelineTheorems.AcknowledgedOnce | src/server/raft.cc:373-392 | each entry in a follower's log is counted, acknowledged and on its way, or about to be acknowledged, in the order of the log; the follower has voted for exactly those counted |
| PipelineTheorems.LsnsAreDense | src/server/logging.cc:11-32 | numbers increase along each log, never repeat in any, and with those drawn and not yet appended are all numbers below the counter |
| PipelineTheorems.OneApplier | src/server/raft.cc:200-229 | the vote count is the number of followers counted, at most one notifier applies an entry, only past the quorum, and its transfers are announced once and in order, whether acknowledgements come before or after the task is stored |
| PipelineReplay.TableIsReplay | src/2pl/twopl.cc:41-57 | whenever no transfer is half written, the whole table is what executing the transfers written so far one by one makes of the initial table, in the order of the merged logs |
| PipelineReplay.ReadsAreReplay | src/2pl/twopl.cc:46-47 | each of the two balances that a commit read is what a replay of the merged logs, stopped just before its transfer, has put there, however many other entries are half done |
| PipelineReplay.ReadsReplay | src/2pl/twopl.cc:46-47 | so does a replay of any set of entries among which are all that have begun to be applied |
| PipelineReplay.UnlockedIsReplay | src/2pl/twopl.cc:41-57 | at every moment, an account that is not locked holds what a replay of all logs puts there |
| PipelineReplay.UnlockedReplay | src/2pl/twopl.cc:41-57 | so it does with any set of entries among which are all that have begun to be applied |
| PipelineReplay.LoggedIsLogs | src/server/logging.cc:19-32 | the transfers replayed are those of the entries in the workers' logs, and of no others |
| PipelineRecovery.RecoveryGivesReads | src/server/raft.cc:206-214 | whatever majority of the servers is left, an entry that has begun to be applied is in one of their logs, and replaying what is in their logs, in the order of the numbers, gives each of its transfers the two reads it had |
| PipelineRecovery.RecoveryGivesTable | src/server/raft.cc:206-214 | and puts on every unlocked account what the leader's table holds |
| PipelineRecovery.SurvivorsOfWorker | src/server/raft.cc:373-392 | the entries of a worker that some servers still have are those of its longest log among them |
| PipelineRecovery.ConflictsSurvive | src/2pl/twopl.cc:16-57 | of two entries that share a key, the first is in the logs of every majority once the second has a number |
| PipelineReplay.MoneyConserved | src/2pl/twopl.cc:46-52 | at every step, the sum of the table and of what half-written transfers owe is the initial sum |
| PipelineReplay.HalfWritten | src/2pl/twopl.cc:51-52 | a half-written transfer is with a notifier that is about to write the other half |
| PipelineDrain.LocksDrainIff | src/server/raft.cc:293-344 | with at least three servers, from any state of any run, a finite run without new requests frees all locks, even those a worker waits for in its own buffer, if and only if no task is lost |
| PipelineDrain.NoDeadlock | src/server/raft.cc:334-344 | if each task is stored before the last acknowledgement of its entry is counted, all locks can be freed from every state of the run |
| PipelineEmpty.EmptiesIff | src/server/raft.cc:285-346 | with at least three servers, from any state of any run, a finite run without new requests empties every queue, retry slot and buffer, finishes every entry and frees every lock, if and only if no task is lost |
| PipelineEmpty.EverythingIsDone | src/server/raft.cc:285-346 | so it does from every state of a run in which tasks are stored in time |
| PipelineEmpty.ServeOne | src/server/raft.cc:285-346 | from a state with nothing under way, a finite run without new requests leads to another in which the next request of the worker is gone, the refused one before the oldest of the queue, and every other request waits as before |
| PipelineDrain.LostAlong | src/server/raft.cc:206-208 | a lost task stays lost in every continuation of the run |
| PipelineDrain.SmallClusterNeverApplies | src/server/raft.cc:206-206 | with fewer than three servers no entry is ever loaded |
| PipelineExample.TaskCanBeLost | src/server/raft.cc:334-344 | a run with two followers in which both acknowledgements overtake the storing of the task |
| PipelineParts.WorkerInfo.XactEnqueue | src/server/worker.cc:61-66 | the transfer is at the end of the queue |
| PipelineParts.WorkerInfo.XactDequeue | src/server/worker.cc:69-85 | the oldest transfer is taken, and none from an empty queue |
| PipelineParts.WorkerInfo.TaskStore | src/server/worker.cc:105-110 | the task is at the end of the list |
| PipelineParts.WorkerInfo.TaskLoad | src/server/worker.cc:87-103 | the first task with the number is taken out and the rest kept in order; none exactly when there is none |
| PipelineParts.Status.AddVoteCount | src/server/status.cc:130-144 | one vote more for the number, starting from none, and no other count changed |
| PipelineParts.Log.AddEntry | src/server/log.cc:134-142 | appends the entry and changes no other |
| PipelineParts.Log.LastLogIndex | src/server/log.cc:84-86 | -1 for an empty log, otherwise the index of the entry appended last |
| PipelineParts.Log.GetTerm | src/server/log.cc:92-101 | the term of the entry at the index, and -1 where there is none |
| PipelineParts.Log.Match | src/server/log.cc:103-111 | before the first index always, at an entry exactly when it has the term, and past the end exactly for the term -1 |
| PipelineThreads.Cluster.Interfere | src/server/raft.cc:179-395 | other threads take any number of steps, among them the producers of other clients of the same worker; what only this thread touches is unchanged |
| PipelineThreads.OthersKeep | src/server/raft.cc:271-395 | no other thread touches a worker's buffer and log, a receiver's log, or a notifier's place |
| PipelineThreads.WorkerThread.TransferWork | src/2pl/twopl.cc:16-39 | while others run: true with both keys locked and the transfer in the buffer, of the same client, command, amount and keys, the lower key first; or false with no lock kept, and then one of the keys belonged to another transfer when it was tried |
| PipelineThreads.WorkerThread.Iteration | src/server/raft.cc:288-346 | while others run: a refused transfer is tried again first, and none is tried only if the queue is empty too; a transfer with both locks joins the buffer; one waits only if one of its keys belonged to another; and the buffer is logged as one entry, whole, exactly when it is full or on a timeout |
| PipelineThreads.WorkerThread.BufferXact | src/server/raft.cc:298-301 | the buffer array has room for a transfer that has its locks |
| PipelineThreads.WorkerThread.LoggingWork | src/server/logging.cc:19-32 | the group of the buffer is appended to the log under the number drawn |
| PipelineThreads.WorkerThread.GetLogSequenceNumber | src/server/logging.cc:11-17 | the entry has the counter's old value and the whole buffer, which is empty afterwards |
| PipelineThreads.WorkerThread.SendAll | src/server/raft.cc:312-336 | the entry is in the log of every follower or on its way there |
| PipelineThreads.WorkerThread.StoreTask | src/server/raft.cc:338-344 | the task is stored and the worker is back at the top of its loop |
| PipelineThreads.ProducerThread.Produce | src/server/raft.cc:452-457 | transfer i of a client command is enqueued for its client under its command, after transfer i - 1, whatever the producers of other clients enqueue to the same worker in between |
| PipelineThreads.ProducerThread.EnqueueOne | src/server/raft.cc:452-457 | exactly the transfer is added to what the worker has been asked for |
| PipelineThreads.ReceiverThread.Iteration | src/server/raft.cc:373-392 | an entry received is in the follower's log before it is acknowledged; nothing happens only when nothing has been sent |
| PipelineThreads.NotifierThread.CountAck | src/server/raft.cc:201-206 | the oldest acknowledgement is counted once, and the notifier goes on exactly when the count is past half the cluster |
| PipelineThreads.NotifierThread.LoadTask | src/server/raft.cc:207-209 | a task exactly when there is one with the number asked for, for the one notifier that comes first |
| PipelineThreads.NotifierThread.CommitWork | src/2pl/twopl.cc:41-57 | while others run: the two reads, two writes and two unlocks of the transfer, in this order, and no others |
| PipelineThreads.NotifierThread.Iteration | src/server/raft.cc:200-234 | counts one acknowledgement unless there is none; an entry that the notifier applied is finished: all its transfers announced in order, all its keys released; none is applied only if the count did not reach the quorum or there was no task with the number |
| Probing.FullCycle | src/2pl/kvs.cc:37-43 | with a stride coprime to the number of buckets, every bucket is probed within one cycle |
| Probing.ProbeNext | src/2pl/kvs.cc:40-41 | adding the stride and subtracting once is the next bucket of the cycle |
| KeyValueStore.BuiltStride | src/include/constant.h:33-35 | the stride and the number of buckets that are built in are coprime |
| KeyValueStore.LookupEndsIff | src/2pl/kvs.cc:186-191 | a lookup meets its key if and only if the key is in the table |
| KeyValueStore.AsMapUpdate | src/2pl/kvs.cc:203-212 | changing the value at one position changes the map at that key only |
| KeyValueStore.KVS.constructor | src/2pl/kvs.cc:25-45 | terminates for any distinct keys that fit; index and table of values both equal the map of the keys to the values |
| KeyValueStore.KVS.FindFree | src/2pl/kvs.cc:38-42 | the first free bucket on the probe path of the key |
| KeyValueStore.KVS.IndexRead | src/2pl/kvs.cc:184-193 | terminates for every key present, with the value that the index maps it to |
| KeyValueStore.KVS.IndexUpdate | src/2pl/kvs.cc:203-212 | the index changes at that key only; the table of values does not |
| KeyValueStore.KVS.Read | src/2pl/kvs.cc:146-155 | the value in the table of values, and 0 for a key that is not there |
| KeyValueStore.KVS.Update | src/2pl/kvs.cc:195-201 | the table of values changes at that key only; the index does not |
| KeyValueStore.KVS.Lock | src/2pl/kvs.cc:121-136 | true exactly when the mutex was free; it is taken afterwards, and no other changes |
| KeyValueStore.KVS.Unlock | src/2pl/kvs.cc:138-144 | that mutex is free and no other changes |

## Left out

- SiloExecutor.Executor.Read: the source spins without bound on a locked or changing record; `patience` bounds the rounds and the call is left in the middle of its loop when it runs out. Nothing is said about how long a reader may starve while others move.
- SiloExecutor.Executor.LockWriteSet: the retry of a lost compare-and-swap is bounded by `patience` in the same way.
- SiloExecutor.Executor.ValidationPhase: stops inside the retry of a lock when `patience` runs out.
- SiloExecutor.Executor.WritePhase: installs nothing when a counter is at the end of its field; runs of the Silo machine stop there and at the last epoch. `Tidwords.CommitTidIsLeast` says exactly what the choice would be.
- SiloExecutor.Executor.TransferWork: ends suspended when `patience` runs out in one of its spins, or at a counter at the end of its field; nothing is said of what it would do after that.
- SiloExecutor.Executor.MoveAmount: ends suspended in the same cases.
- SiloTransfer.MoneyConserved: modulo 2^32, as the balances are 32-bit; and for transfers whose writes are faithful.
- SiloClients.MoneyConserved: modulo 2^32, and for runs whose committed transfers are faithful; with balances that have no zero byte it describes the model only.
- Amounts.CStr: ends with the value when there is no zero byte in it, where the source goes on reading.
- Amounts.KeptIff: for a value without a zero byte it describes the model and not the code, which reads past the value and writes past the record.
- Amounts.TransferIff: in the same way, for balances without a zero byte.
- SiloClients.CommitsAreTransfers: in the same way, for balances without a zero byte.
- PipelineReplay.MoneyConserved: over unbounded integers; overflow of `int` balances is not modelled.
- PipelineThreads.WorkerThread.GetLogSequenceNumber: the counter is unbounded; its narrowing to `int` is not modelled.
- KeyValueStore.KVS.IndexRead: requires a key that is present; for any other the source loops for ever, as `KeyValueStore.LookupEndsIff` shows.
- KeyValueStore.KVS.Unlock: requires a mutex that is held, as the mutexes do; that another thread than the one that took it may release it is assumed.
- Weak memory: all accesses are sequentially consistent.
- Sockets, framing and the dispatch of connections: a connection is a channel that delivers every message once and in order. Crashes, lost connections and restart from old logs are not modelled; nor are terms, elections, commit indices and the client connections that commit messages go to.
- Time: the log timeout and the epoch timer are arbitrary choices; delays are not modelled.
- The benchmark drivers, the statistics, configuration, and the unused parts of the key-value store (memo list, string keys).
