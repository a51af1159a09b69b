# Models of the LazyLLM runtime

The stateful core of LazyLLM, modelled in Dafny with proofs of what that code is there to
guarantee. `dafny verify dfyconfig.toml` checks everything.

| file | what it models |
|---|---|
| `ReadWriteLock.dfy` | the reader/writer lock behind every shared dictionary, as steps of any number of threads |
| `Hooks.dfy` | `hook_execution`: preparing, calling and finalizing hooks, with a trace of every phase |
| `KeyRotation.dfy` | the key pool with its three policies, and requests that rotate through it |
| `TokenRefresh.dfy` | check, lock, recheck and acquire of an expiring token, with a clock and many threads |
| `TokenFile.dfy` | the file of refresh tokens, down to stripping, partitioning and universal newlines |
| `MessageQueue.dfy`, `RedisQueue.dfy` | a family of FIFO queues, and the SQLite table and Redis list that stand for it |
| `Sessions.dfy` | sessions, local scopes, call stacks and threads that copy their starter's context |
| `Once.dfy` | singleton construction and `call_once` under interleaving |
| `ConstructorSearch.dfy` | the search for keyword arguments a C++ constructor accepts |
| `Engine.dfy` | the node table, the listing of what is below a node, and its release |
| `Registry.dfy` | nested dictionaries under dotted, case-insensitive paths |
| `Options.dfy` | the option cursor and the enumeration of combinations |
| `Traceback.dfy`, `Metadata.dfy` | trimming of tracebacks; metadata values between Python and C++ |
| `Sequences.dfy` | filtering, mapping and stable sorting |

Concurrent code is a step system: a state, actions with an enabling condition, and results
about every run. Code that updates an object in place is a class whose methods are proved
against functions on the old state; the laws are lemmas about those functions. What the code
gets from outside (replies of a server, a hook's or constructor's behaviour, random numbers,
the clock, file contents) is a parameter over all its values.

Some promises hold only under a condition; then it is stated exactly, as an if-and-only-if:

- A hook outside warn mode that fails `pre_hook` and then fails its own `finalize`, which the
  inherited `finalize` always does, leaves the hooks started before it unfinalized
  (`Hooks.FinalizedOnce`, `Hooks.LeakExists`).
- A `map_exception` that itself raises keeps every active hook from its on_error, and an invalid
  error mode ends a phase at the first failure under it (`Hooks.WellBracketed`,
  `Hooks.CallReachesAll`).
- A thread that asks for the write lock inside its own read section waits forever; otherwise
  every call returns (`ReadWriteLock.EveryCallReturns`).
- PREFER_LAST_SUCCESS keeps offering failed keys, and does not put a key first again that
  failed once and recovered (`KeyRotation.FailOnceIff`, `KeyRotation.LastSuccessFirst`).
- A refresh token that is not trimmed or has a line break does not survive the token file, nor
  does any but the empty one under a key that is not trimmed, has a line break or has `: ` in it; a line that is an entry of another key touches that key;
  a token that is blank or makes several lines is not forgotten by the next save
  (`TokenFile.RoundTrip`, `TokenFile.OtherKeysUntouched`, `TokenFile.LastSaveWins`).
- On Redis a dequeue with a positive limit takes one message too many or drops the sentinel, one
  with a negative limit other than -2 leaves messages out unless the queue is empty, and `clear`
  drops the sentinel; everything else answers as the queue (`RedisQueues.RefinesExactly`).
- A class of queues whose name ends with a dash and another class name shares queues with it
  (`SqliteQueues.IdsApart`).
- A singleton whose constructor may ask for its own class can be built twice, and a function that
  may call itself through its flag can succeed twice, or fail and leave the flag up
  (`Singletons.OnceExactlyIfNotReentrant`, `CallOnce.RightExactlyIfNotReentrant`).
- A constructor that blames keywords it could not do without is, for some keywords, built with
  fewer of them than it takes (`ConstructorSearch.BuildsLargest`, `ConstructorSearch.DishonestLosesKeywords`).

## Model

| member | source | states |
|---|---|---|
| ReadWriteLock.StepKeepsInv | lazyllm/common/globals.py:19-48 | every step of any thread keeps the invariant: one owner of the mutex, the counter is the number of open read sections, a running writer sees the counter at zero, waiting writers have a reader to wait for or a notification on the way |
| ReadWriteLock.RunKeepsInv | lazyllm/common/globals.py:19-48 | the invariant holds after every run of any number of threads |
| ReadWriteLock.Exclusion | lazyllm/common/globals.py:24-48 | in every reachable state a writer inside its section excludes every counted read section and every other writer, and `_readers` is the sum of the depths the threads are counted with |
| ReadWriteLock.EverySectionCounts | lazyllm/common/globals.py:24-40 | from the actions of a run alone: a thread at rest is counted with as many sections as it has opened and not closed, nested ones included |
| ReadWriteLock.WriterIsAlone | lazyllm/common/globals.py:24-48 | while a thread is writing, every thread at rest has closed as many read sections as it has opened |
| ReadWriteLock.NoLostWakeup | lazyllm/common/globals.py:32-45 | an un-notified waiting writer always has a counted reader, or the reader that reached zero is still about to notify |
| ReadWriteLock.ReadersSeeCommitted | lazyllm/common/globals.py:68-113 | while any read section is open the dictionary is what the last completed write section left |
| ReadWriteLock.ReadersSeeLastWrite | lazyllm/common/globals.py:68-113 | while a read section is open the contents are those of the last change made, or the first ones, and no write section is open |
| ReadWriteLock.SnapshotStable | lazyllm/common/globals.py:68-113 | the contents do not change while a thread stays inside a read section, whatever the others do |
| ReadWriteLock.DeadlockShape | lazyllm/common/globals.py:24-48 | a state is deadlocked if and only if the mutex is free, every thread that is not idle waits un-notified, and one of those holds a read section of its own |
| ReadWriteLock.DeadlockFree | lazyllm/common/globals.py:24-48 | if no thread asks to write inside its own read section, no reachable state is deadlocked |
| ReadWriteLock.UpgradeNeverSucceeds | lazyllm/common/globals.py:42-45 | a write call inside a read section of the same thread never gets the lock, in any continuation |
| ReadWriteLock.UpgradeDeadlocks | lazyllm/common/globals.py:42-45 | such a call alone is a reachable deadlock, so the condition above is needed |
| ReadWriteLock.FinishingRunsAreBounded | lazyllm/common/globals.py:24-48 | once nothing new is started, every schedule is finite, with an explicit bound |
| ReadWriteLock.AllCallsComplete | lazyllm/common/globals.py:24-48 | and when no step remains every thread is idle: every call has returned |
| ReadWriteLock.DisciplineShows | lazyllm/common/globals.py:24-48 | a run was disciplined if and only if afterwards no thread waits to write inside its own read section |
| ReadWriteLock.EveryCallReturns | lazyllm/common/globals.py:24-48 | every call returns, whatever the schedule, if and only if no client asked to write inside its own read section |
| Hooks.Execution.RunPreHooks | lazyllm/hook.py:168-188 | the pre_hook loop yields the active hooks or the exception, and the exact event trace, of the closed forms the lemmas below speak of |
| Hooks.Execution.RunHooks | lazyllm/hook.py:191-204 | a phase runs in reverse activation order and raises exactly the raise-mode failures; an invalid error mode ends it at the first failure |
| Hooks.Execution.HookedCall | lazyllm/hook.py:219-257 | result and trace of the call on all four exception paths: a mapped exception is raised and handed to every on_error in place of the function's own, the one `map_exception` raises leaves with no on_error, and any other leaves as it is and is what on_error gets; a second call raises and does nothing |
| Hooks.Execution.WithBlock | lazyllm/hook.py:207-265 | result and trace of a whole block: materialize, stable priority sort, pre hooks, body, finalize |
| Hooks.WellBracketed | lazyllm/hook.py:159-265 | once preparation succeeds, the trace of a block, however often it calls `hooked_call`, is the bracket (pre hooks in priority order, the function, one post_hook or on_error per active hook in reverse, one finalize per active hook in reverse) if and only if no hook but the first started fails a phase under an invalid error mode and, with active hooks, `map_exception` does not itself raise |
| Hooks.CallReachesAll | lazyllm/hook.py:219-257 | each active hook gets exactly one post_hook or on_error if and only if `map_exception` does not raise and no hook but the first started fails the phase under an invalid mode |
| Hooks.CallReachesWith | lazyllm/hook.py:219-257 | if no hook but the first started fails the phase under an invalid mode, each active hook gets one post_hook when the function returned, else one on_error with the exception `map_exception` made of the function's, or with the function's own where it is not mapped |
| Hooks.MaterializedInOrder | lazyllm/hook.py:161-165 | the hook objects are made in the order of the list, and the first entry that cannot be made decides the exception |
| Hooks.PriorityOrder | lazyllm/hook.py:166-166 | hooks run by ascending priority, and of one priority in the order they were registered |
| Hooks.PresInOrder | lazyllm/hook.py:168-170 | the pre hooks are called in that order |
| Hooks.PreparationFails | lazyllm/hook.py:171-187 | which exception leaves preparation: the ValueError of an invalid mode, else the failing hook's own finalize failure, else its pre_hook failure |
| Hooks.CleanupInOrder | lazyllm/hook.py:171-184 | and what is finalized then: the failing hook, and after it, in raise mode and if its finalize did not fail, the hooks started before in starting order |
| Hooks.PreparationSucceeds | lazyllm/hook.py:168-188 | otherwise the active hooks are those whose pre_hook succeeded, in running order |
| Hooks.FinalizedOnce | lazyllm/hook.py:168-188 | every started hook is finalized exactly once on every exit path, however often the body calls `hooked_call`, if and only if the block does not leak: with other hooks active, a hook not in warn mode fails both pre_hook and its own finalize (or pre_hook alone under an invalid mode), or one under an invalid mode, not the first started, fails finalize at the end |
| Hooks.LeakExists | lazyllm/hook.py:171-176 | the leaking case: a first hook that is never finalized because the second fails pre_hook and then finalize |
| Hooks.PhaseReachesAll | lazyllm/hook.py:191-204 | a phase reaches every active hook once if and only if no hook but the first started one fails it with an invalid error mode |
| Hooks.PreHookFailure | lazyllm/hook.py:171-184 | a raise-mode hook fails pre_hook and finalizes: nothing later starts, the function is not called, every started hook is finalized exactly once, and the hook's own exception leaves |
| Hooks.OutcomeRefinesBareCall | lazyllm/hook.py:219-257 | for every `map_exception`, the result is that of calling the function and mapping its exception if and only if the function raised or no hook outside warn mode failed post_hook; otherwise it is a `HookPhaseError` with exactly the raise-mode failures, last started first, or the ValueError of an invalid mode |
| Hooks.StrictErrorsAreFailures | lazyllm/hook.py:194-204 | the error list pairs exactly the raise-mode hooks that failed with their exceptions, in phase order |
| Hooks.PrepareNeverCalls | lazyllm/hook.py:159-188 | preparation never runs the function |
| Hooks.SortKeepsDistinctIds | lazyllm/hook.py:166-166 | the priority sort loses and duplicates no hook |
| StableSorting.SortIsStable | lazyllm/hook.py:166-166 | the model of `list.sort(key=…)`: sorted, and elements of equal key stay in order |
| StableSorting.StableSortUnique | lazyllm/hook.py:166-166 | there is only one stable sort, so the model is exactly what Python promises |
| KeyRotation.KeyPool.OrderedKeys | lazyllm/common/auth.py:36-51 | each policy's offer and new state: some permutation of the usable keys, the rotation at an in-range index, or the stable sort by (failed, not last) |
| KeyRotation.Shuffle | lazyllm/common/auth.py:41-41 | an in-place shuffle gives a permutation |
| KeyRotation.Client.TryKey | lazyllm/common/credential_mixin.py:171-181 | one attempt sends the key it set, reports it by the reply, and drops `curr_key` on every way out |
| KeyRotation.Client.Request | lazyllm/common/credential_mixin.py:162-182 | the whole loop, by the first reply that is not an authentication failure: a granted one is returned and its key remembered, another error is raised, the keys before are marked failed; `AllKeysExhaustedError` if and only if every offered key failed; the attempts made, the pool state after, and, if a key was offered, no `curr_key` entry left |
| KeyRotation.OfferedAreCandidates | lazyllm/common/auth.py:36-49 | RANDOM and ROUND_ROBIN offer exactly the keys that have not failed |
| KeyRotation.EachKeyFailsOnce | lazyllm/common/credential_mixin.py:162-182 | under those policies with distinct keys, over any session no key fails authentication twice |
| KeyRotation.FailuresBounded | lazyllm/common/credential_mixin.py:162-182 | so the failures never exceed the number of keys |
| KeyRotation.FailOnceIff | lazyllm/common/credential_mixin.py:162-182 | no key fails twice in any session if and only if the pool is empty, or its keys are distinct and the policy is not PREFER_LAST_SUCCESS |
| KeyRotation.DuplicatesFailTwice | lazyllm/common/auth.py:36-49 | with a repeated key some session rejects it twice |
| KeyRotation.PreferRetriesFailedKeys | lazyllm/common/auth.py:50-51 | PREFER_LAST_SUCCESS offers failed keys again, so they fail again |
| KeyRotation.FirstsWalk | lazyllm/common/auth.py:43-49 | successive ROUND_ROBIN calls with no failure between them put first the keys the index walks through |
| KeyRotation.RoundRobinIsFair | lazyllm/common/auth.py:43-49 | as many such calls as there are usable keys put each first exactly once, in order, wherever earlier calls and failures left the index |
| KeyRotation.OfferGoesRound | lazyllm/common/auth.py:43-49 | a ROUND_ROBIN call goes once round the usable keys from the one the index points at, and moves the index on by one |
| KeyRotation.LastSuccessFirst | lazyllm/common/auth.py:50-51 | PREFER_LAST_SUCCESS starts with the last successful key if and only if it never failed or all keys failed |
| KeyRotation.PeekPreviewsPrefer | lazyllm/common/auth.py:59-68 | for keys without the empty string, `peek` names the first key PREFER_LAST_SUCCESS would try if and only if some key has not failed |
| KeyRotation.PeekFirstUsable | lazyllm/common/auth.py:59-68 | under RANDOM and ROUND_ROBIN `peek` names the first key of the pool that has not failed |
| TokenRefresh.StepKeepsInv | lazyllm/common/credential_mixin.py:108-195 | every step of check, lock, recheck, acquire, store keeps the invariant, with a clock that never goes back |
| TokenRefresh.RunKeepsInv | lazyllm/common/credential_mixin.py:108-195 | so does every run of any number of threads |
| TokenRefresh.GrantsAreStored | lazyllm/common/credential_mixin.py:184-193 | what a run stores is what the server granted: every answer is stored in order, but for one still in hand, each entry holds its grant's token and expiry and its refresh token or else the one before, and entries follow one another from the first credential to the current one |
| TokenRefresh.RefreshTokensSaved | lazyllm/common/credential_mixin.py:194-195 | the refresh tokens handed to the file are those granted, in order, but for one about to be saved |
| TokenRefresh.EveryCallDecided | lazyllm/common/credential_mixin.py:108-195 | every call found a usable credential, stored a new one, failed, or is still undecided |
| TokenRefresh.NoDeadlock | lazyllm/common/credential_mixin.py:108-195 | while a call is open some thread can go on |
| TokenRefresh.AcquisitionsSeparated | lazyllm/common/credential_mixin.py:184-195 | between two acquisitions there is a moment after the first was stored when the token then granted is empty or less than 60 seconds from its expiry |
| TokenRefresh.AcquisitionRate | lazyllm/common/credential_mixin.py:118-122 | with tokens usable for `life` seconds, n + 1 acquisitions take at least n * life, however many threads call |
| TokenRefresh.HitsAreFresh | lazyllm/common/credential_mixin.py:108-122 | a call that returns without acquiring read, inside the call, a token that was non-empty and more than 60 seconds from its expiry |
| TokenRefresh.OneAcquirer | lazyllm/common/credential_mixin.py:184-195 | the server is asked by one thread at a time |
| TokenRefresh.RefreshTokenKept | lazyllm/common/credential_mixin.py:190-195 | a refresh token is never replaced by an empty one (section 6 of RFC 6749 lets the server omit it) |
| TokenFile.TokenStore.LoadToken | lazyllm/common/credential_mixin.py:275-285 | the reading loop returns the value of the first line of the key |
| TokenFile.TokenStore.SaveToken | lazyllm/common/credential_mixin.py:287-307 | the rewriting loop leaves exactly the rewritten lines |
| TokenFile.StripDropsSpaces | lazyllm/common/credential_mixin.py:279-282 | stripping takes white space off both ends and nothing else |
| TokenFile.UniversalNewlines | lazyllm/common/credential_mixin.py:278-278 | a line is read the same whichever of the three line ends it has |
| TokenFile.LinesWhole | lazyllm/common/credential_mixin.py:278-278 | the lines of a text, put together, are the text |
| TokenFile.OtherLinesStay | lazyllm/common/credential_mixin.py:293-305 | every line that is no entry of the key stays, in order, with a line end |
| TokenFile.NewLineEntry | lazyllm/common/credential_mixin.py:280-282 | a written line parses back, through strip and partition, to its key and token |
| TokenFile.ReadBack | lazyllm/common/credential_mixin.py:293-307 | lines written out are read back as the same lines under universal newlines |
| TokenFile.RoundTrip | lazyllm/common/credential_mixin.py:267-307 | for every file, key and token: saving then loading returns the token if and only if it is empty, or is trimmed and on one line and the key can be recorded (trimmed, on one line, without `: `) |
| TokenFile.EntryKeyIsGood | lazyllm/common/credential_mixin.py:279-282 | whatever a line of a file records, it records under such a key |
| TokenFile.BadKeyMakesEntry | lazyllm/tools/fs/supplier/feishu.py:620-621 | a key with `: ` in it, as a configured name can make one, leaves an entry of what stands before |
| TokenFile.SaveEmptyErases | lazyllm/common/credential_mixin.py:296-305 | saving the empty token leaves no entry of the key, whatever the key |
| TokenFile.OtherKeysUntouched | lazyllm/common/credential_mixin.py:287-307 | for every key and token: over all files, saving changes what no other key loads if and only if no line that is written has an entry under another key |
| TokenFile.LaterLinesDecide | lazyllm/common/credential_mixin.py:298-305 | for a key that can be recorded only the lines after the first count |
| TokenFile.ConcatBroken | lazyllm/common/credential_mixin.py:293-307 | a rewritten file is read back piece by piece, each broken at the line breaks of its token |
| TokenFile.LineBreakMakesEntry | lazyllm/common/credential_mixin.py:298-305 | a token with a line break creates an entry for another key |
| TokenFile.LastSaveWins | lazyllm/common/credential_mixin.py:287-307 | for every key and first token: over all files and second tokens, saving twice leaves the same file, character for character, as the second save alone if and only if the first token is not blank and is read back as one line, or, under a key that cannot be recorded, is empty |
| TokenFile.LoadedIsClean | lazyllm/common/credential_mixin.py:275-285 | a loaded token is trimmed and has no line break, whatever the file holds |
| Fifo.Conservation | lazyllm/common/queue.py:86-93 | for the family of FIFO sequences: returned since the last clear, then what is queued, is what was enqueued since then |
| SqliteQueues.SqliteQueue.DoEnqueue | lazyllm/common/queue.py:159-172 | the message becomes the last of its queue, every other queue is as before and (id, position) stays unique |
| SqliteQueues.SqliteQueue.DoDequeue | lazyllm/common/queue.py:174-193 | what is returned followed by what stays is the queue as it was, as many as the limit allows are returned, and every other queue is as before |
| SqliteQueues.SqliteQueue.DoPeek | lazyllm/common/queue.py:195-205 | the first message of the queue, if any |
| SqliteQueues.SqliteQueue.DoSize | lazyllm/common/queue.py:207-214 | the length of the queue |
| SqliteQueues.SqliteQueue.DoClear | lazyllm/common/queue.py:216-223 | the queue is empty and every other as before |
| SqliteQueues.SqliteQueue.PerformAll | lazyllm/common/queue.py:86-93 | any run of these calls answers as the FIFO queues do and goes on holding them |
| SqliteQueues.EnqueueContents | lazyllm/common/queue.py:159-172 | an enqueued message is last of its id and every other id is as before |
| SqliteQueues.SortWithout | lazyllm/common/queue.py:180-191 | deleting the fetched positions leaves the rest in order |
| SqliteQueues.ExecuteKeepsKey | lazyllm/common/queue.py:149-223 | every operation keeps (id, position) unique |
| SqliteQueues.StepRefines | lazyllm/common/queue.py:159-223 | each operation answers as the FIFO of its id and changes no other id |
| SqliteQueues.RunRefines | lazyllm/common/queue.py:159-223 | so does every run, limited dequeues and clears included |
| SqliteQueues.TableConservation | lazyllm/common/queue.py:159-223 | conservation, on the table itself |
| SqliteQueues.IdsApart | lazyllm/common/queue.py:82-93 | two classes of queues are kept apart in all sessions if and only if neither class name ends with a dash and the other |
| SqliteQueues.IdsCollide | lazyllm/common/queue.py:82-84 | otherwise two sessions share a queue |
| RedisQueues.RedisQueue.DoEnqueue | lazyllm/common/queue.py:242-245 | the message joins the queue, or takes the place of a missing sentinel |
| RedisQueues.RedisQueue.DoDequeue | lazyllm/common/queue.py:247-259 | what is handed out and what the list keeps, relative to the queue it held: all of it and the sentinel without a limit; one message more than asked for, or everything and the sentinel, with a positive one; counted from the end with a negative one |
| RedisQueues.RedisQueue.DoSize | lazyllm/common/queue.py:269-273 | the length of the queue, or -1 without a sentinel |
| RedisQueues.RedisQueue.PerformAll | lazyllm/common/queue.py:242-273 | any run of plain calls under ids with sentinels answers as the FIFO queues do |
| RedisQueues.PlainRunRefines | lazyllm/common/queue.py:242-273 | with the sentinel in place, runs of enqueue, unlimited dequeue, peek and size answer as the FIFO queues, and so as the table, and keep the sentinel |
| RedisQueues.LimitedDequeue | lazyllm/common/queue.py:250-253 | a dequeue with a positive limit answers as a FIFO if and only if there are no more messages than that, and keeps a sentinel place if and only if there are |
| RedisQueues.RefinesExactly | lazyllm/common/queue.py:242-278 | an operation under an id with its sentinel answers as the FIFO queue and keeps the sentinel if and only if it is not `clear` and, if it is a dequeue, has no limit, the limit -2, or another negative one and an empty queue |
| RedisQueues.LostSentinel | lazyllm/common/queue.py:247-273 | without the sentinel an enqueued message is invisible to size and peek |
| RedisQueues.ClearLosesSentinel | lazyllm/common/queue.py:275-278 | clear removes the sentinel, so one enqueue later the sizes differ |
| ConstructorSearch.Prune | lazyllm/cpp.py:62-73 | the loop ends, having dropped the named keywords one by one |
| ConstructorSearch.Search | lazyllm/cpp.py:80-91 | the subset phase returns the first subset not rejected in enumeration order, or the last rejection, within the number of subsets |
| ConstructorSearch.Instantiate | lazyllm/cpp.py:59-91 | the two phases together |
| ConstructorSearch.CombinationsSound | lazyllm/cpp.py:81-81 | every selection of a size has that many different keywords of the given ones |
| ConstructorSearch.CombinationsComplete | lazyllm/cpp.py:81-81 | every subset is selected under its size |
| ConstructorSearch.LargerFirst | lazyllm/cpp.py:80-81 | a larger subset is tried before a smaller one |
| ConstructorSearch.AttemptsBounded | lazyllm/cpp.py:80-87 | the subsets are 2^n |
| ConstructorSearch.SearchIsExhaustive | lazyllm/cpp.py:80-91 | the subset phase fails if and only if every subset is rejected; what it builds is accepted and no larger subset is |
| ConstructorSearch.RefusedExactly | lazyllm/cpp.py:59-91 | the whole search fails with a rejection if and only if every subset is rejected |
| ConstructorSearch.EndsAsACall | lazyllm/cpp.py:59-91 | what leaves the search is what a call came to: the exception of a crashing one, the object of an accepted one, or the rejection of the call without keywords |
| ConstructorSearch.PruneKeepsAccepted | lazyllm/cpp.py:62-73 | with an honest constructor pruning drops no keyword of an accepted subset |
| ConstructorSearch.BuildsLargest | lazyllm/cpp.py:59-91 | for every constructor: whichever of the keywords it is given, it is built with a largest accepted subset, if and only if it blames only keywords it could do without, that is, when dropping keywords leads to a call it accepts, every accepted subset has one as large without the blamed keyword |
| ConstructorSearch.HonestBuildsLargest | lazyllm/cpp.py:59-91 | a corollary: so it is with a constructor that only names keywords no accepted subset has |
| ConstructorSearch.DishonestLosesKeywords | lazyllm/cpp.py:62-73 | a constructor that names others is built with fewer keywords than it would take |
| Engine.SubitemsOccur | lazyllm/engine/node.py:6-40 | `subitems` lists exactly the ids that occur, as ids or in node descriptions and at any depth of nested lists, in the arguments it names |
| Engine.FailsOnLongWalk | lazyllm/engine/engine.py:132-139 | the recursive listing exceeds a depth if and only if a walk along subitems has that many steps |
| Engine.ListingTerminates | lazyllm/engine/engine.py:132-139 | it succeeds at some depth if and only if nothing at or below the node is below itself, and then within one level more than there are nodes |
| Engine.ListingIsExact | lazyllm/engine/engine.py:132-139 | it lists exactly the ids reached along subitems of registered nodes |
| Engine.ReleasesCompose | lazyllm/engine/lightengine.py:48-55 | releasing several nodes one after the other, each over the table the last left, is releasing them together |
| Engine.LockedDict.SetItem | lazyllm/engine/engine.py:39-41 | a default entry is never replaced |
| Engine.LockedDict.Pop | lazyllm/engine/engine.py:55-57 | a default entry is never removed |
| Engine.LightEngine.BuildNode | lazyllm/engine/lightengine.py:44-46 | a node is built once per id and then returned from the table |
| Engine.LightEngine.ReleaseNode | lazyllm/engine/lightengine.py:48-55 | removes exactly the given nodes and everything below them in the original table, that is reached along ids that occur in their arguments, never `__start__` or `__end__`, keeps all others unchanged; on a RecursionError exactly the nodes before have been released |
| Registry.ComponentsAtLastDot | lazyllm/common/registry.py:36-38 | splitting at the last dot cuts off the last name |
| Registry.LowerEqual | lazyllm/common/registry.py:34-42 | two paths are lowered to the same if and only if they differ in the case of letters only |
| Registry.FindByWalk | lazyllm/common/registry.py:41-46 | what a path is looked up to at the first of its names that is not a group: a KeyError if it is missing, what it names if it is the last, an error of its own otherwise |
| Registry.GetIsFind | lazyllm/common/registry.py:41-46 | lookup, which splits at first dots and lowers every part again, follows the names of the lowered path |
| Registry.LazyDicts.SetItem | lazyllm/common/registry.py:33-39 | storing, which splits at the last dot, is storing the last name in the dictionary the other names lead to, errors included |
| Registry.StoreSucceeds | lazyllm/common/registry.py:33-39 | a store succeeds if and only if its group exists and the last name is not `default`; otherwise nothing changes |
| Registry.StoreFails | lazyllm/common/registry.py:33-39 | and how it fails: as looking its group up does, with an error of its own where there is no group, or for the name `default` |
| Registry.FindAfterStore | lazyllm/common/registry.py:33-46 | after a store its path finds the value, longer paths continue in it, all others find what they found |
| Registry.StoreThenLookup | lazyllm/common/registry.py:33-46 | the same for paths as strings that may differ in the case of letters |
| Registry.StoreKeepsTree | lazyllm/common/registry.py:33-39 | storing a class or a new group keeps every group on one path only |
| Registry.RegisteredIsFound | lazyllm/common/registry.py:33-46 | the law after any sequence of registrations from the empty registry |
| Options.Cursor.Next | lazyllm/common/option.py:33-42 | the cursor stays in range with the object at its place; past the end it goes back and stops |
| Options.Cursor.Iterate | lazyllm/common/option.py:7-42 | an iteration visits every object once in order, wherever the cursor was |
| Options.EnumerationIsExact | lazyllm/common/option.py:59-70 | the enumeration yields exactly the complete choices, appended suboptions included |
| Options.ChoiceByQueue | lazyllm/common/option.py:62-69 | a complete choice takes one element of each list in turn, the lists queueing up in the order they were given and then in the order choices brought them |
| Options.OptionsEnumerated | lazyllm/common/option.py:59-70 | for lists without repetitions: every choice exactly once, in depth-first order |
| Options.StuckEnumerating | lazyllm/common/option.py:62-69 | generators nest deeper than a bound if and only if that many choices can be made with more still to choose |
| Options.CartesianProduct | lazyllm/common/option.py:59-70 | without suboptions it ends, is the Cartesian product, and counts the product of the lengths |
| Singletons.StepKeepsInv | lazyllm/common/common.py:494-503 | every step of double-checked construction keeps the invariant, with nested constructors of other classes and failing ones |
| Singletons.ConstructedOnce | lazyllm/common/common.py:494-503 | in every interleaving each class is constructed successfully at most once and every call that returned got that instance |
| Singletons.InstanceStays | lazyllm/common/common.py:494-503 | a stored instance stays |
| Singletons.NoDeadlock | lazyllm/common/common.py:494-503 | while a call is open some thread can go on |
| Singletons.FastPath | lazyllm/common/common.py:496-501 | a call for a class that has its instance never waits for the lock and returns that instance |
| Singletons.EveryCallAnswered | lazyllm/common/common.py:496-501 | every call was answered, was left with its constructor's exception, or is open; what was built is what constructors returned, in order |
| Singletons.ReentrantConstructsTwice | lazyllm/common/common.py:499-502 | a constructor that asks for its own class gets it constructed twice, and the nested call returns an instance that is replaced |
| Singletons.OnceExactlyIfNotReentrant | lazyllm/common/common.py:494-503 | from any state in which a constructor runs, every class stays constructed once in every continuation if and only if constructors may not ask for their own class |
| CallOnce.StepKeepsInv | lazyllm/common/common.py:313-358 | every step of `call_once` and `reset` under the re-entrant lock keeps the invariant, as long as the function does not call `call_once` on its own flag; it may reset it |
| CallOnce.OnceBetweenResets | lazyllm/common/common.py:345-358 | then the function succeeds at most once between resets |
| CallOnce.SkippedAfterSuccess | lazyllm/common/common.py:345-358 | a call that returns without running it does so after a success no reset has followed; no stored exception is raised again |
| CallOnce.RunsAgain | lazyllm/common/common.py:347-351 | a call that decides runs the function if and only if there is no such success |
| CallOnce.FailureLeavesCallable | lazyllm/common/common.py:353-355 | a failed or interrupted attempt leaves the flag down, and only an `Exception` is stored |
| CallOnce.NoDeadlock | lazyllm/common/common.py:345-358 | while a call is open some thread can go on |
| CallOnce.EveryCallAnswered | lazyllm/common/common.py:329-358 | every call ran the function to an end or was skipped, every reset lowered the flag, or they are open |
| CallOnce.NestedSucceedsTwice | lazyllm/common/common.py:318-352 | whenever the function gets to call `call_once` on its own flag it can succeed twice with no reset between |
| CallOnce.RightExactlyIfNotReentrant | lazyllm/common/common.py:313-358 | from any state in which the function runs, the trace keeps these laws in every continuation if and only if the function may not call `call_once` on its own flag |
| CallOnce.NestedFailureStaysUp | lazyllm/common/common.py:347-355 | and if the outer call then fails, the flag stays up over a failed attempt |
| CallOnce.NestedFailureIsRaisedAgain | lazyllm/common/common.py:353-357 | and the next call raises the exception stored then |
| Sessions.ExecKeeps | lazyllm/common/globals.py:159-165 | whatever a block does and raises, a variable that no enclosing block restores holds what it held, or an id made up where there was none |
| Sessions.BlocksRestore | lazyllm/common/globals.py:229-252 | well-nested use of `stack_enter`, `_bind_sid`, `_scope` and threads restores exactly the session id and call stack seen on entry |
| Sessions.EnteredStack | lazyllm/common/globals.py:233-252 | inside `stack_enter` the stack seen is the one before with the module on top |
| Sessions.NewSessionSeparate | lazyllm/common/globals.py:259-263 | a session deep-copied from the defaults shares no object with them or with any session |
| Sessions.ExecSeparate | lazyllm/common/globals.py:259-297 | after any program that stores new objects, no object is shared between two sessions, two keys, or a session and the defaults |
| Sessions.ExecUnchanged | lazyllm/common/globals.py:254-297 | a run changes no session its context does not look at and it does not name: neither its table nor its objects |
| Sessions.OwnedKeys | lazyllm/common/globals.py:326-335 | an owned scope leaves no data under its id, and none but under ids bound by name |
| Sessions.LocalKeys | lazyllm/common/globals.py:326-335 | local data appear only under ids a run starts with or binds by name |
| Sessions.IsolatedThread | lazyllm/common/threading.py:14-24 | a thread with an isolated scope leaves every local session its code does not bind by name exactly as it was, and adds none but those |
| Sessions.ChildSees | lazyllm/common/threading.py:14-24 | a thread starts with its starter's session and call stack, an inheriting one also with the local ones |
| Sessions.FoundInSession | lazyllm/common/globals.py:278-344 | a key of the session in view is found there; one it lacks is not found in `globals`, and in `locals` is what `globals` has |
| Sessions.NewSessionHolds | lazyllm/common/globals.py:259-263 | a new session holds the default attributes: the same plain values, and objects with the same contents |
| Sessions.AssignThenRead | lazyllm/common/globals.py:275-282 | what is stored is read back, and the other keys stay |
| Sessions.AppendThenRead | lazyllm/common/globals.py:278-282 | a change of an object in place is read back after what was there; a missing key is a KeyError |
| Sessions.ClearForgets | lazyllm/common/globals.py:284-285 | after `clear` the session has no data, and its next use makes them anew |
| Sessions.OtherSessionHidesStack | lazyllm/common/globals.py:229-231 | a call stack pushed in one session is not seen in another |
| Sessions.PushThenPop | lazyllm/common/globals.py:233-240 | popping takes off what was pushed; with nothing to see it is an IndexError |
| Sessions.BlocksLetThrough | lazyllm/common/globals.py:159-252 | blocks and joined threads let an exception of their body through and raise none of their own |
| Sessions.NamedScopeKeeps | lazyllm/common/globals.py:326-335 | what is stored inside a scope given by name stays under that name |
| Sessions.InheritedIsShared | lazyllm/common/threading.py:14-24 | what an inheriting thread stores, its starter reads |
| Traceback.TrimTraceback | lazyllm/common/exception.py:22-38 | the two loops give exactly the frames that stay |
| Traceback.KeptInOrder | lazyllm/common/exception.py:22-38 | which are a subsequence in order: the ordinary frames, and the forwarding frames that an ordinary one separates from every forwarding frame before |
| Traceback.TrimTwice | lazyllm/common/exception.py:22-38 | trimming twice is trimming once |
| Traceback.UntrimmedIff | lazyllm/common/exception.py:22-38 | nothing changes if and only if no frame has to go |
| Metadata.StoreItems | csrc/binding/binding_utils.cpp:73-112 | the classification loop and the conversion of a sequence |
| Metadata.FailsExactly | csrc/binding/binding_utils.cpp:55-107 | storing fails if and only if an int does not fit: in an `int`, alone or among ints only, or in a `double`, among numbers of several kinds |
| Metadata.IdentityExactly | csrc/binding/binding_utils.cpp:55-132 | there and back is the identity if and only if the value is None, an int that fits, a float, a string, a dict of strings, or a list of only strings, fitting ints or floats |
| Metadata.LoadThenStore | csrc/binding/binding_utils.cpp:55-132 | back and there is the identity but for empty vectors of numbers |
| Metadata.NormaliseTwice | csrc/binding/binding_utils.cpp:55-132 | normalising twice is normalising once |
| Metadata.Becomes | csrc/binding/binding_utils.cpp:55-132 | what the others become: bools ints, numbers of several kinds floats of the same value, any other mixture strings, anything else its string |
| Metadata.FirstKeyWins | csrc/binding/binding_utils.cpp:61-72 | a dict becomes a table of strings; of keys with the same string the first one counts |

## Left out

- HTTP requests, the OAuth callback server, real SQL and Redis connections, file locks and pickling: the table, the list, the file and the replies are plain data or parameters.
- Fairness and starvation of the lock: a writer may wait for readers forever, and nothing is claimed.
- `keys()`, `values()` and `items()` of the shared dictionary return live views after the lock is released, and `setdefault` takes no lock (`lazyllm/common/globals.py:88-98`): nothing is claimed for either.
- A writer that uses the dictionary again inside its own write section: the mutex is not re-entrant and none of the dictionary's methods does it, so the step system has no such action.
- Hook phases that raise something other than an `Exception`; `register_hooks`, built-in hook providers and the generator form of hooks, which only produce the list the protocol works on; log and exception texts.
- Dynamic pools (`lazyllm/common/credential_mixin.py:140-148`) and several requests of one session at the same time: `KeyRotation` has one pool and requests one after another.
- `_acquire_credential` (`lazyllm/common/credential_mixin.py:197-214`): which grant is used is part of what the token server answers.
- KeyRotation.Shuffle: any permutation may come out; how random it is, is not modelled.
- TokenRefresh.AcquisitionRate: time is a real number and the clock never goes back.
- TokenFile.TokenStore.SaveToken: two processes rewriting the file at once are not modelled.
- SqliteQueues.SqliteQueue.DoDequeue: the statement's selected rows and the deletion are one transaction, as under the file lock.
- ConstructorSearch.Search: the constructor answers the same for the same keywords, and names at most one of them in its message.
- Engine.LightEngine.ReleaseNode: which arguments `subitem_name` picks is given with the node, the ids are not empty (the empty id means stopping every node), `stop` on a node's own function and the lookup of unregistered ids in `engine_resource` are not modelled, and the depth of Python's stack is a parameter.
- Engine.LightEngine.BuildNode: the builder is a parameter; what it registers while building is not modelled.
- Registry.LazyDicts.SetItem: letter case is that of ASCII letters.
- `LazyDict._match` and attribute access, which iterate an unordered set of names.
- Options.OptionsEnumerated: lists are values; one `Option` object used twice in the same enumeration would share its cursor, which is not modelled.
- Sessions.ExecKeeps: sessions are modelled as values threaded through a run, with objects under references; a thread is joined where it is started, and values stored by a program are new objects.
- Sessions.BlocksRestore: a local session id that was not there on entry is made up from a fresh uuid, so nothing is said about it.
- `Locals` and `Globals` over Redis, pickled data, and the session id made from an asyncio task.
- Singletons.ConstructedOnce: constructors that block on something else than this lock.
- CallOnce.OnceBetweenResets: one flag; `once_flag.set` called by clients, `set_exception`, pickling of flags and `once_wrapper` are not modelled.
- Metadata.IdentityExactly: floats are real numbers; NaN, infinities and the rounding of large ints are not modelled, and `str()` of other values is a parameter.
- Sessions.ExecSeparate: a client that stores an object it got from one session in another shares it; programs store new objects only.
- Configuration options, node builders, deployment, web and command line modules, C++ proxies and documentation tooling.
