# Verification model of DDA

DDA (Data Distribution Agent) gives applications publish-subscribe communication
over MQTT, a local store, and a replicated key-value state on top of Raft, whose
remote procedure calls again travel by publish-subscribe. This project models the
parts of it in which state, concurrency or arithmetic decide correctness, and proves
what they promise, for every input and every run.

| module | models |
|---|---|
| `Bytes` | the engine's key order, big-endian indices, the upper bound of a key prefix |
| `PebbleStore` | the store binding over an ordered byte store |
| `RaftLogStore` | the Raft log kept in that store |
| `Membership` | the fan-out of member changes to observers |
| `ConfigurationLog` | the announced members against the configurations in the log |
| `Fsm` | the replicated state and its observers, as values and runs |
| `RaftFsm` | the same state machine as an object with its byte arrays on the heap |
| `Recovery` | log store, state machine and snapshot working together |
| `Routing` | what the router's operations do to the route table and ask of the broker |
| `Router` | the router object with its slices and backing arrays |
| `RouterRuns` | every interleaving of the router's operations |
| `RouterProgress` | the life of a routed channel, and that nothing has to wait for ever |
| `Topics` | the topics of the communication patterns |
| `Correlation` | requests and results among any number of agents |
| `RequestResults` | what registering a request brings about, and what its end does |
| `Services` | retryable errors and the capped exponential backoff |
| `LeaderForwarding` | proposing an input: apply locally, broadcast, respond or stay silent, retry |
| `ProposalOutcomes` | what a result means, which end of an attempt returns and which is tried again |
| `ProposalCopies` | how often one proposal ends up in the log |
| `Streams`, `Wrappers` | channels as logs, sequences without repetition, optional values |

Code that updates fields, arrays or slices is modelled by classes and loops whose
contracts name the new state; what the system promises is then proved of those
states. Concurrency is modelled by step systems: each step is one critical section,
one send or one answer, and a run is any sequence of enabled steps.

## How the pieces connect

* Every method of `RaftFsm.RaftFsm` that a run has a step for ensures that its effect is
  that step of `Fsm.Next`. The streams of a run are the messages really sent: `Valid`
  keeps the two alike, and each method says that the arrays it sends hold the values.
* The methods of `Membership.MembershipObservers` are specified by the predicates of
  which `Membership.Next` consists, those of `Router.Router` by the functions that the
  steps of `RouterRuns` apply: `Router.AddIsStep`, `Router.RemoveIsStep`. What
  `Router.DispatchTargets` lists is what a whole dispatch serves: `Router.DispatchIsRun`.
* What a step does is also stated without the functions that steps are made of:
  `ProposalOutcomes` for proposals, `RequestResults` for requests, `RouterProgress` for
  routed channels.
* `RaftLogStore` is proved against a map from index to log; `Recovery` and
  `ConfigurationLog` use only that map: `ConfigurationLog.StoreLogsIsRun`.
* `Correlation` dispatches in one step: sending, or skipping a channel whose context is
  done, as `RouterRuns.EveryDispatchIsConserved` has it. It finds the router for a result
  by parsing its topic with `Topics.Parse`.
* `LeaderForwarding` lets a proposer act on the responses that the router's own
  `Routing.Matches` lets through to the channel of its attempt. A results channel found
  closed counts as an expired context, which `RouterRuns.ClosedOnlyAfterCancel` proves.

## Assumptions

* Raft is an oracle: success of Apply means that the entry is committed, ErrNotLeader
  that it is not and never will be, and any other error means nothing.
* The MessagePack codec decodes what it encoded. Errors made by formatting have a text.
* The storage engine is an ordered map whose failing calls have no effect. Whether it
  takes a missing end of a range deletion for "unbounded" is the parameter
  `nilEndIsUnbounded`; results that depend on it say so.
* A failing call to the MQTT broker has no effect on subscriptions. The broker hands
  publications to their subscribers, in `Correlation` even to anybody and repeatedly.
* UUIDs are fresh. A node handles each broadcast at most once.
* Observers of state and members read their channels: these are unbounded logs. Only
  the router's channels have a capacity.

## Where the code does not do what it promises

Each of these is kept as the code has it, with an example of the failure or the exact
condition under which the promise is kept.

* Overlapping registrations of member observers lose an observer: the channel is
  registered under the most recent id instead of its own (services/state/raft/store.go:346).
  `Membership.RunAgreesExactlyWhenOrderly`, `Membership.OverlappingAddsLoseAnObserver`.
* The channel of a member observer may be closed while its initialisation is pending
  (services/state/raft/raft.go:336-340). The initialisation then sends on it and registers
  it, so that the next change of the members sends on it too.
  `Membership.RunNeverSendsOnClosedExactly`, `Membership.OrderlyRunNeverSendsOnClosed`,
  `Membership.LateInitialisationSendsOnClosed`.
* Members are announced when a configuration is stored, but not withdrawn when it is
  truncated (services/state/raft/store.go:231-260), which leaves observers with members
  that no stored configuration has. `ConfigurationLog.RunAgreesExactlyWhenHarmless`,
  `ConfigurationLog.TruncationLeavesMembersBehind`.
* Restoring a snapshot tells observers nothing (services/state/raft/fsm.go:138-146), so
  that an observer may stay behind: also one whose replay comes later.
  `Fsm.ConvergesAfterRestoreExactly`, `Fsm.ConvergesAfterReplayExactly`,
  `Fsm.RestoreBeforeReplayMayDiverge`.
* The deferred replay to an observer that is already gone sends on a closed channel,
  unless the state is empty (services/state/raft/fsm.go:52-59).
  `Fsm.RunNeverSendsOnClosedExactly`, `Fsm.ClosingAfterReplayIsSafe`,
  `Fsm.ReplayMaySendOnClosedChannel`.
* A prefix or an index range without an upper bound is deleted only if the engine takes
  a missing end as unbounded. `PebbleStore.PrefixDeletionIsExact`,
  `RaftLogStore.RangeDeletionIsExact`, `RaftLogStore.GreatestIndexMaySurvive`.
* A proposal may be committed more than once: if it is retried after an error that hides
  a commit (services/state/raft/raft.go:271-273), or in one attempt if two nodes that
  handle its broadcast lead one after the other (services/state/raft/raft.go:420-434).
  `ProposalCopies.DuplicatesExactly`, `ProposalCopies.OneUnrefusedTicketIsSingle`,
  `ProposalCopies.RetryMayCommitTwice`, `ProposalCopies.OneAttemptMayCommitTwice`.
  The later copy may undo what another proposal, acknowledged in between, has set.
  `Fsm.DuplicateChangesExactly`, `Fsm.DuplicateUndoesOther`.
* Without a cap, or with too high a one, the doubled backoff delay wraps around to a
  negative one, unless the limit on retries is reached before.
  `Services.DelaysAreExponentialExactly`.

A remark on `handle` (services/com/mqtt5/mqtt5.go:704-705): it would panic on a topic of
fewer than four levels, `Topics.PanicsExactly`, but only a broker that delivers what was
never subscribed could cause that, `Topics.ReceivedTopicsAreRead`.

## Model

| member | source | states |
|---|---|---|
| Bytes.KeyUpperBound | services/store/pebble/pebble.go:308-318 | the increment loop with byte wrap-around returns a bound such that the keys with the prefix are exactly those from the prefix up to the bound |
| Bytes.UpperBound | services/store/pebble/pebble.go:308-318 | there is no bound exactly for an empty or all-255 key |
| Bytes.UpperBoundCharacterisesPrefix | services/store/pebble/pebble.go:226-248 | for all prefixes and keys: has the prefix if and only if in the interval, in lexicographic order |
| Bytes.Uint64RoundTrip | services/state/raft/store.go:304-314 | encoding and decoding an index are inverse, in both directions |
| Bytes.Uint64OrderIsomorphism | services/state/raft/store.go:309-314 | encoded indices are ordered as the indices are |
| PebbleStore.ScanListsRange | services/store/pebble/pebble.go:258-280 | an iteration lists exactly the pairs in range, strictly ascending |
| PebbleStore.VisitsIsUnique | services/store/pebble/pebble.go:268-279 | the callback's stopping rule leaves only one possible sequence of visits |
| PebbleStore.PebbleBinding.GetB | services/store/pebble/pebble.go:97-116 | value of the key, nil if absent, error if closed or failing |
| PebbleStore.PebbleBinding.SetB | services/store/pebble/pebble.go:124-139 | map update, or an error and no change |
| PebbleStore.PebbleBinding.DeleteRangeB | services/store/pebble/pebble.go:205-216 | exactly the keys in [start, end) go, under either meaning of a missing end |
| PebbleStore.PebbleBinding.DeletePrefixB | services/store/pebble/pebble.go:186-197 | exactly the keys with the prefix go, if they can be deleted by a range |
| PebbleStore.PebbleBinding.DeleteAll | services/store/pebble/pebble.go:161-178 | on failure at a step exactly the smaller keys are gone, else all |
| PebbleStore.PebbleBinding.ScanRangeB | services/store/pebble/pebble.go:258-280 | visits a leading segment of the ascending range, all of it unless stopped |
| PebbleStore.PebbleBinding.ScanRangeReverseB | services/store/pebble/pebble.go:283-305 | the same from the last key down |
| PebbleStore.PebbleBinding.ScanPrefixB | services/store/pebble/pebble.go:226-248 | visits a leading segment of exactly the keys with the prefix, ascending |
| PebbleStore.PrefixDeletionIsExact | services/store/pebble/pebble.go:186-197 | prefix deletion is right if and only if the prefix has a bound, none is needed, or nothing has the prefix |
| RaftLogStore.StoreRefinesUpdate | services/state/raft/store.go:231-246 | writing an encoded log refines an update of the map from index to log |
| RaftLogStore.StoreFirstAt | services/state/raft/store.go:231-246 | after storing a list, each index holds its last log of the list, others are unchanged |
| RaftLogStore.DeleteRefinesWithoutRange | services/state/raft/store.go:252-260 | deleting the byte range refines dropping the inclusive index range, or nothing if the range cannot be deleted |
| RaftLogStore.RangeDeletionIsExact | services/state/raft/store.go:252-260 | deleting the byte range drops exactly the inclusive index range if and only if the range ends before the greatest index, or the engine takes a missing end as unbounded, or no index in it is stored |
| RaftLogStore.GreatestIndexMaySurvive | services/state/raft/store.go:254-255 | on any other engine a log at the greatest index survives its deletion |
| RaftLogStore.IndexInRange | services/state/raft/store.go:252-260 | an encoded index is in the byte range exactly when the index is between min and max, also for the greatest max |
| RaftLogStore.ScanEndsAreExtremeIndices | services/state/raft/store.go:173-198 | first and last key of a scan are the least and greatest index |
| RaftLogStore.RaftStore.FirstIndex | services/state/raft/store.go:173-183 | the least stored index, 0 if and only if empty (given index 0 is unused) or failed |
| RaftLogStore.RaftStore.LastIndex | services/state/raft/store.go:188-198 | the greatest stored index, likewise |
| RaftLogStore.RaftStore.GetLog | services/state/raft/store.go:203-212 | the log stored last under the index, or ErrLogNotFound |
| RaftLogStore.RaftStore.StoreLogs | services/state/raft/store.go:231-246 | map update in order; on error exactly a prefix is stored, while the members follow the failing log too |
| RaftLogStore.MembersFollowConfiguration | services/state/raft/store.go:231-246 | those members are the servers of the last configuration among the logs, and unchanged if there is none or nobody observes |
| RaftLogStore.RaftStore.DeleteRange | services/state/raft/store.go:252-260 | removes exactly the inclusive range, or nothing |
| Membership.MembershipObservers.Add | services/state/raft/store.go:145-154 | a new id and an empty channel; nothing is registered yet |
| Membership.MembershipObservers.Remove | services/state/raft/store.go:160-168 | forgets the members with the last observer, and keeps every observer up to date |
| Membership.MembershipObservers.Initialise | services/state/raft/store.go:316-347 | the first observer gets the deduplicated configuration, a late one the known members; registration under the latest id |
| Membership.MembershipObservers.ChangeServers | services/state/raft/store.go:349-376 | every observer gets the same Left and Joined changes, which lead from the members to the servers |
| Membership.DeltaReachesServers | services/state/raft/store.go:356-375 | those changes fold to the deduplicated servers, each of them being news |
| Membership.EveryRunKeepsObserversUpToDate | services/state/raft/store.go:160-376 | in every state of every run no observers means no members, and every registered observer's stream folds to the members, Joined and Left alternating |
| Membership.ConfigurationReachesObservers | services/state/raft/store.go:349-376 | after a configuration entry every registered observer holds exactly its servers |
| Membership.RunAgreesExactlyWhenOrderly | services/state/raft/store.go:145-154 | observers stay registered under their own ids throughout a run if and only if each initialisation runs before the next Add and before its own Remove |
| Membership.OrderlyRunTellsEveryLiveObserver | services/state/raft/store.go:316-376 | in a run of such initialisations every live observer has been told exactly the members, in every state |
| Membership.OverlappingAddsLoseAnObserver | services/state/raft/store.go:343-346 | a run in which that fails, and a live observer misses a member |
| Membership.SendsOnClosedExactly | services/state/raft/store.go:316-376 | a step sends on a closed channel if and only if it initialises one with somebody to announce, or changes the members while one is registered |
| Membership.RunNeverSendsOnClosedExactly | services/state/raft/raft.go:336-340 | so no step of a run does if and only if there is no such step |
| Membership.OrderlyRunNeverSendsOnClosed | services/state/raft/raft.go:336-340 | none does if each initialisation runs before the next Add and before its own Remove |
| Membership.LateInitialisationSendsOnClosed | services/state/raft/store.go:343-346 | a run in which an initialisation after the closing does, and so does the change that adds the next member |
| ConfigurationLog.AgreesExactlyWhenHarmless | services/state/raft/store.go:231-260 | storing, failing to store or deleting keeps the members equal to the servers of the newest stored configuration if and only if a configuration goes above all others and the newest is not dropped, or the servers are the same anyway |
| ConfigurationLog.RunAgreesExactlyWhenHarmless | services/state/raft/store.go:231-260 | over any run of such operations they agree throughout if and only if each operation is so |
| ConfigurationLog.StoreLogsIsRun | services/state/raft/store.go:231-246 | what a call of StoreLogs stores and announces is such a run |
| ConfigurationLog.TruncationLeavesMembersBehind | services/state/raft/store.go:231-260 | a run that stores two configurations and deletes the newer leaves the newer's members |
| Fsm.LastWriterWins | services/state/raft/fsm.go:85-109 | after any log a key holds v if and only if the last effective entry naming it sets v |
| Fsm.ReplicasAgree | services/state/raft/fsm.go:76-109 | state machines that applied the same log are equal, whatever their observers did |
| Fsm.ReplayConvergesExactly | services/state/raft/fsm.go:51-59 | a replay in any key order turns a view into the state if and only if the view has no key of its own |
| Fsm.LateObserverConverges | services/state/raft/fsm.go:45-62 | in every run without Restore since registration the view is a submap of the state before the replay and equals it ever after |
| Fsm.HealedExactlyWhenTouched | services/state/raft/fsm.go:148-152 | a view and a state that differ are brought together by a log if and only if it names every key of difference |
| Fsm.ConvergesAfterRestoreExactly | services/state/raft/fsm.go:138-152 | over whole runs: an observer replayed before the last Restore agrees with the state if and only if the entries since name every key on which its view and the restored state differed |
| Fsm.ConvergesAfterReplayExactly | services/state/raft/fsm.go:51-59 | one replayed after it agrees if and only if the entries since name every key that it had been told of and the state no longer had |
| Fsm.RestoreBeforeReplayMayDiverge | services/state/raft/fsm.go:138-146 | a run in which a replay leaves its observer diverged |
| Fsm.SendsOnClosedExactly | services/state/raft/fsm.go:51-59 | a step sends on a closed channel if and only if it is a replay to one and the state is not empty; an applied entry never does |
| Fsm.RunNeverSendsOnClosedExactly | services/state/raft/raft.go:309-315 | no step of a run sends on a closed channel if and only if every replay to a closed channel runs on an empty state |
| Fsm.ClosingAfterReplayIsSafe | services/state/raft/raft.go:311-315 | owners that close a channel only after its replay never cause it |
| Fsm.ReplayMaySendOnClosedChannel | services/state/raft/raft.go:309-315 | a run in which the binding's order of closing does |
| Fsm.DuplicateChangesExactly | services/state/raft/fsm.go:85-109 | a second copy of an entry changes the final state if and only if the last entry between the copies that names its key has another effect, and none after them names it |
| Fsm.DuplicateUndoesOther | services/state/raft/raft.go:268-292 | Set k a, Set k b and again Set k a leave a: the copy undoes the other proposal |
| RaftFsm.RaftFsm.AddStateChangeObserver | services/state/raft/fsm.go:45-62 | registered first, under a new id, on a channel with no message |
| RaftFsm.RaftFsm.Replay | services/state/raft/fsm.go:51-59 | the messages appended are the whole state as Set inputs, one per key, each in a new array that holds its value |
| RaftFsm.RaftFsm.SendStateChange | services/state/raft/fsm.go:148-163 | exactly the observers get the message, once, each in a new array that holds the value; deletions carry none |
| RaftFsm.RaftFsm.Apply | services/state/raft/fsm.go:85-109 | Set and Delete change the state at their key, are told once to every observer and return no error; the undefined operation does nothing; undecodable data and unknown operations are errors without effect; held arrays stay separate from given ones |
| RaftFsm.CloneInput | services/state/raft/fsm.go:154-163 | the message for an input: a new array with the value for Set, none otherwise |
| RaftFsm.MessagesShareNoArray | services/state/raft/fsm.go:148-163 | no two messages ever sent, on whichever channels, share an array |
| RaftFsm.CloneState | services/state/raft/fsm.go:165-174 | a deep copy in fresh arrays |
| RaftFsm.RaftFsm.Snapshot | services/state/raft/fsm.go:125-131 | the state at this index, sharing no array with the state machine |
| RaftFsm.RaftFsm.Restore | services/state/raft/fsm.go:138-146 | replaces any prior state, or fails without a change |
| RaftFsm.FsmSnapshot.Persist | services/state/raft/fsm.go:187-213 | writes every key with its value |
| RaftFsm.WriteIntoGiven | services/state/raft/fsm.go:154-163 | writing into any array ever given to an observer or a snapshot leaves the state as it is |
| RaftFsm.PersistAfterMoreEntries | services/state/raft/fsm.go:125-131 | a snapshot persisted after any further entries still writes the state at its own index |
| Recovery.RecoverFromSnapshot | services/state/raft/fsm.go:125-146 | store n logs, snapshot after i, delete 1 to i, restore into any state machine and apply the rest: the state is that of applying all n, and the store holds only the rest |
| Recovery.EntriesAreCommands | services/state/raft/fsm.go:85-109 | the entries applied are the decoded commands of the log, each where it stands, and nothing else |
| Recovery.RestoredPlusRestIsAll | services/state/raft/store.go:203-260 | the value-level fact behind it, for any start |
| Routing.WithoutIsRemoval | services/com/api/router.go:210-235 | removing a channel is cutting out its position, order kept |
| Routing.OperationsKeepBrokerAgreement | services/com/api/router.go:120-142 | under every outcome of the broker calls the subscribed topics are the routed and the leaked ones; only a failing clean-up leaks |
| Routing.CallsKeepSubscriptions | services/com/api/router.go:120-235 | the calls made bring about that set; subscribe only for an unrouted topic, unsubscribe only when no channel is left |
| Routing.CallsOfOperations | services/com/api/router.go:120-136 | a registration publishes once unless it cannot subscribe, subscribes before that if the topic has no route, and unsubscribes if publishing fails then; a removal unsubscribes exactly the last channel |
| Routing.AddedTable | services/com/api/router.go:120-141 | the channel comes last in its topic's list unless subscribing or publishing fails; no other list changes |
| Routing.RemovedTable | services/com/api/router.go:206-238 | the channel is cut out of its topic's list; the topic goes with its last channel if that can be unsubscribed |
| Router.Append | services/com/api/router.go:124-124 | appending in place or after growing gives the longer list |
| Router.ShiftOut | services/com/api/router.go:210-221 | the shifting loop removes exactly the one channel, keeps the order, clears the free slot, and touches nothing beyond |
| Router.Router.GetTopics | services/com/api/router.go:79-95 | every routed topic once |
| Router.Router.Add | services/com/api/router.go:107-143 | accepted exactly if publishing and any subscribing succeed; then the new channel is appended to its topic's list, else no list changes; backing arrays stay apart |
| Router.Router.CallBroker | services/com/api/router.go:120-136 | the calls, in order, up to the first failure and its undoing |
| Router.Router.DispatchTargets | services/com/api/router.go:165-204 | all channels of the topic with the same correlation id, the empty one included, no others, in order |
| Router.Router.Remove | services/com/api/router.go:206-238 | cuts the channel out of its list, closes it if it was there, which no closed channel is, and keeps the topic if it cannot be unsubscribed |
| Router.AddIsStep | services/com/api/router.go:107-143 | what Add does to the table is the step of the interleaving model, under any naming of channels: the name is appended to its topic's list |
| Router.RemoveIsStep | services/com/api/router.go:206-238 | likewise Remove, and the channel is closed when it was in the table |
| Router.DispatchIsRun | services/com/api/router.go:165-204 | a finished dispatch of the interleaving model has sent to, or skipped, exactly what DispatchTargets lists, in that order |
| RouterRuns.DispatchServesMatching | services/com/api/router.go:165-204 | a finished dispatch has served, in order, exactly the channels that were routed when it began and have its correlation id, whatever happened in between |
| RouterRuns.EveryRunIsSafe | services/com/api/router.go:107-238 | in every interleaving no send on a closed channel, no second close, routed channels open and routed once, agreement with the broker |
| RouterRuns.EveryDispatchIsConserved | services/com/api/router.go:165-204 | a routed channel with the same correlation id gets the message exactly once, or is skipped because its context is done; one cancelled before gets nothing, nor does any other; what arrives is the message dispatched |
| RouterRuns.EveryChannelIsFifo | services/com/api/router.go:165-204 | received followed by buffered is the order of sending, within the capacity |
| RouterRuns.DispatchIsFixed | services/com/api/router.go:165-167 | channels and message of a dispatch never change while it holds the lock |
| RouterRuns.ClosedOnlyAfterCancel | services/com/api/router.go:125-127 | a closed channel's context is done |
| RouterProgress.RegisteredUntilRemoved | services/com/api/router.go:118-141 | a registration whose broker calls succeed is appended to its topic's list with its own correlation id, context and capacity, and stays routed and open in every run that does not remove it |
| RouterProgress.RejectedIsNotRegistered | services/com/api/router.go:120-136 | one whose broker calls fail registers nothing |
| RouterProgress.RemovalTakesOnlyItsChannel | services/com/api/router.go:206-238 | a removal takes its channel and no other out of the table, in order, and closes it |
| RouterProgress.CancelledExactly | services/com/api/router.go:170-187 | in every run the contexts that are done are those that were cancelled |
| RouterProgress.ReceiverGetsOldest | services/com/api/router.go:115-118 | a receiver gets the oldest message sent to it and not yet received |
| RouterProgress.DispatchCanFinish | services/com/api/router.go:165-204 | from every reachable state a dispatch can finish by its own steps and those of receivers, without any cancellation |
| RouterProgress.CancelledCanBeRemoved | services/com/api/router.go:125-127 | from every reachable state a channel whose context is done can get removed |
| Topics.PrintedTopicIsRead | services/com/mqtt5/mqtt5.go:699-714 | every built topic is parsed back to its scope, level and type, also with any response id appended |
| Topics.TopicsAreSpelled | services/com/mqtt5/mqtt5.go:550-573 | the text of every plain, shared and response topic |
| Topics.ReadExactly | services/com/mqtt5/mqtt5.go:704-740 | which texts of the levels are read as which scope, level and type; an empty scope is the default one |
| Topics.TopicIsInjective | services/com/mqtt5/mqtt5.go:550-560 | topics differ whenever cluster, scope, level or type do |
| Topics.ResponseTopicIsInjective | services/com/mqtt5/mqtt5.go:571-573 | so do response topics, also in the id, and none is a plain topic |
| Topics.SharedSubscriptionNamesTopic | services/com/mqtt5/mqtt5.go:555-558 | a shared subscription is for the topic behind its two extra levels |
| Topics.ReceivedTopicsAreRead | services/com/mqtt5/mqtt5.go:610-640 | whatever matches a filter that the binding subscribes is read as of its scope, level and type, so never makes the handler panic |
| Topics.PanicsExactly | services/com/mqtt5/mqtt5.go:704-705 | the handler indexes out of range if and only if the topic has fewer than three slashes |
| Topics.JoinOfSplit | services/com/mqtt5/mqtt5.go:704-704 | splitting loses nothing |
| Correlation.ResultReachesItsCall | services/com/mqtt5/mqtt5.go:726-740 | a dispatch of a result goes once to its request's channel if that is registered with this agent and its context not done, to no other, and cannot happen while the request is being registered |
| Correlation.EveryResultIsCorrelated | services/com/mqtt5/mqtt5.go:226-277 | that holds in every run of any number of agents, and no delivery ever went astray |
| Correlation.RegisterKeepsTables | services/com/api/router.go:108-141 | registering under the lock that publishing took makes the call registered and appends its channel to the list of its topic, so each live channel is routed once, under its own topic and router |
| RequestResults.RegisteredCallGetsItsResults | services/com/mqtt5/mqtt5.go:242-258 | in every run that publishes a request and registers its results channel without ending the call, the request is out and each of its results that the agent dispatches is delivered to that channel once |
| RequestResults.RequestCanBeAnswered | services/com/mqtt5/mqtt5.go:226-277 | from every reachable state a request can be published, registered, handled, answered and its result delivered |
| RequestResults.EndedCallGetsNothing | services/com/api/router.go:170-187 | after a call was cancelled, removed or not published nothing is delivered to it |
| Services.RetryWithBackoff | services/services.go:93-123 | counts 1, 2, 3, ...; stops at the first result that is not retryable; at most Max + 1 calls, then a retryable error; which error is returned; every delay |
| Services.DelaysAreExponentialExactly | services/services.go:105-121 | every delay the loop can make is min(Cap, Base * 2^i) if and only if no base up to the cap overflows int64 when doubled, or Max ends the retries before |
| Services.DelaysNeverShrink | services/services.go:105-121 | with 2 * Cap in range delays never shrink, and the base stays within max(Base, 2 * Cap) |
| LeaderForwarding.ResponseMeaning | services/state/raft/transport.go:647-672 | the proposer reads success exactly of success, a retryable error exactly of a leader's error, and gets no response exactly for all other errors |
| ProposalOutcomes.NilMeansCommitted | services/state/raft/raft.go:252-297 | in every run a proposal that returned nil is committed and was applied without error |
| ProposalOutcomes.ActsOnOwnResponse | services/state/raft/transport.go:362-400 | a response acted on answers the current attempt and comes from another node that handled it |
| ProposalOutcomes.NotLeaderStaysSilent | services/state/raft/transport.go:647-660 | a node that saw ErrNotLeader never responds, then or later |
| ProposalOutcomes.LocalOutcome | services/state/raft/raft.go:268-292 | in every reachable state: the state machine's answer is returned, ErrNotLeader makes the command be broadcast, any other error is tried again |
| ProposalOutcomes.FailedForwardingOutcome | services/state/raft/raft.go:275-284 | an attempt without response is tried again if its error is retryable or its own deadline, and returned otherwise |
| ProposalOutcomes.ReceivedOutcome | services/state/raft/transport.go:382-400 | what becomes of a response, by its fields |
| ProposalOutcomes.ForwardedOutcome | services/state/raft/raft.go:420-434 | in every run: Apply and Barrier succeeding at the node that responded returns nil, the state machine's error is returned, an error of the leader is tried again, and after any other error there is no response |
| ProposalOutcomes.UndecodableOutcome | services/state/raft/transport.go:552-557 | a request that a node cannot decode makes the proposal fail with that error |
| ProposalOutcomes.CancelledOutcome | services/services.go:110-116 | a proposal waiting to be tried again returns its context's error |
| ProposalOutcomes.NonLeaderNeverResponds | services/state/raft/transport.go:647-660 | a node that is told that it is not the leader, or is closed, never responds to that broadcast |
| ProposalOutcomes.SettledStaysOut | services/state/raft/raft.go:271-274 | what Raft dropped or refused with ErrNotLeader is never committed |
| ProposalOutcomes.LocalProposalReturns | services/state/raft/raft.go:268-292 | from every reachable state a proposal at the leader can be committed once and return the state machine's answer |
| ProposalOutcomes.ForwardedProposalReturns | services/state/raft/raft.go:268-292 | likewise one at another node, through its broadcast and the leader's response |
| ProposalCopies.CopiesAreBounded | services/state/raft/raft.go:268-292 | committed entries are attributed one to one to attempts and nodes that handed them to Raft, so copies are bounded by attempts times the nodes that can commit one |
| ProposalCopies.DuplicatesExactly | services/state/raft/raft.go:268-292 | in every reachable state a second copy can come about without Raft being handed more if and only if two tickets of the proposal are committed or unsettled |
| ProposalCopies.OneUnrefusedTicketIsSingle | services/state/raft/raft.go:271-274 | with ErrNotLeader for every ticket but one there is, and stays, at most one copy |
| ProposalCopies.RetryMayCommitTwice | services/state/raft/raft.go:271-273 | on any set of nodes: a run in which a retried proposal is committed twice and returns nil |
| ProposalCopies.OneAttemptMayCommitTwice | services/state/raft/raft.go:420-434 | on any set of three or more nodes: a run in which one attempt is committed twice |

## Left out

- The Raft algorithm, the Pebble engine, the MQTT client and broker, and the gRPC runtime: libraries, see the assumptions.
- Liveness, beyond that a proposal, a request or a dispatch can always be completed; clocks and timers: a timeout is a step that may happen at any time.
- Adding and removing Raft servers by leader forwarding: the same exchange with another request; node-targeted calls, the heartbeat path and the stable store.
- The fields and channels of the Raft transport and binding (shutdown flags, consumer channels, response channels): an exchange is functions on the values sent and steps of a system, so update in place is not captured there; a shut-down transport is a forwarding that fails.
- The binding's mutex in `ProposeInput` and in the handler of forwarded requests: the model allows more interleavings than it does.
- Shared subscriptions in the router: route keys do not record the share name, so subscribed topics are those of unshared filters; restoring subscriptions on reconnect.
- The id that AddStateChangeObserver returns is read after the lock is released; registrations are serialised by the binding, and the model returns the id of the registration.
- Restore assigns the state without the lock; Raft does not call it concurrently with Apply.
- Opening, closing, configuration, certificates, the gRPC and gRPC-Web services.
- Services.RetryWithBackoff: runs without a retry limit in which every call asks for a retry and the context never ends do not end; the contract is about the others.
- Services.IsRetryable: in the code any error type may say it is retryable; the only one that does is the wrapper modelled here.
- Fsm.ReplicasAgree: about runs without Restore; `Recovery.RecoverFromSnapshot` covers restoring.
- Router.Append: how far a backing array grows is left open.
- ConfigurationLog.RunAgreesExactlyWhenHarmless: about stores and deletions while somebody observes; the first observer's initialisation takes the members from Raft itself.
- Correlation.EveryResultIsCorrelated: handlers of requests are not routed; any agent may handle any request.
- ProposalOutcomes.NilMeansCommitted: the state machine's error response is taken to survive transmission; the code says that it never occurs.
