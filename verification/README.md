# A verified model of InfraKit's state machines and reconcilers

InfraKit reconciles declared specifications with running infrastructure. This project models, in Dafny, the parts of
it whose correctness depends on many operations together, and proves what every run of them keeps.

- **The state machine engine** (`pkg/fsm`). A `Set` serialises adds, deletes, signals, clock ticks and reads over many
  instances, with an index by state, a deadline heap with back pointers, visit limits and flap detection.
  `DeadlineQueue` and `FsmSet` are classes that change the same fields as the code does. Each handler is proved to be
  one step of the transition system in `FsmRuns`, whose theorems are about every run of every specification that
  `Define` accepts; `FsmWitnesses` has the runs that show which promises fail. `Heap` holds the order arguments for the
  sift operations of `container/heap`, `FlapHistory` the oscillation count, `Fifo` the growing ring buffer.
- **The group controller** (`pkg/controller/group`). `GroupOrder` is the destroy order, `Scaler` the removal choice,
  the limit on operations in flight and overlapping converges. `GroupWorld` is a group that the scaler and the outside
  change between any two actions of the updater. Creating and labelling take several steps, so that both may carry older
  settings, and a label may overwrite a newer one. `RollingUpdate` is the update loop and its wait.
- **The pool controller** (`pkg/controller/pool`): its transition table, and the throttling of Provision and Destroy
  when the states of the members are read one after another while they change.
- **The resource controller** (`pkg/controller/resource`): destroy ordered by dependencies through one-shot channels.
- **Metadata updates** (`pkg/plugin/metadata`): interleaved `Changes` and `Commit` with a fingerprint as check.
- **L4 routes** (`pkg/controller/ingress`) and **JSON pointers** (`pkg/types/path.go`).

Plugins, clocks, the order in which Go visits a map and the interleaving of goroutines are parameters (`Env`, `ending`,
`fails`, `Change`, sequences of steps), and every statement is for all of them. Loops that wait for the outside take a
finite script of what the outside does; every script is covered, and `StillWaiting` or `Unfinished` mean that the
script ended first.

Where a promise turns out not to hold as stated, the model keeps the code's behaviour and the exact condition is proved:

- `queue.update` and `queue.remove` do nothing at the root of the heap, so an armed deadline can pass without its signal
  (`ARunIsLate`). Postponing the root is exactly what breaks the promise: a signal leaves an ordered queue unordered if
  and only if it does that (`EventDisordersExactly`), runs that never do it are never late
  (`RunsThatKeepTheRootAreNeverLate`), and after the first time, if no transaction is waiting, the clock alone makes an
  instance late (`PostponingMakesLate`).
- Deleting a queued instance zeroes its id but leaves it queued, so its TTL signal goes to id 0, which is the id of the
  first instance added (`ASignalGoesAstray`). Timing holds in every run; a signal goes to its own instance if and only if
  that instance had not been deleted, or has id 0 itself (`EverySignalAddressedExactly`).
- The number of undesired instances can grow after a settings change if a create that read the old settings is under
  way, or a label by someone who read them is about to be put on a desired instance, and only then (`UndesiredCanGrow`).
  Such a label can leave a wait without end (`StaleLabelBlocksTheWait`).
- A pool can have one operation more in flight than its parallelism: throttling can expire while the members are
  counted for a second request (`OneTooMany`). `IssueOverstepsExactly` says when.
- A metadata fingerprint removes the space after a colon, also inside strings. So a commit can overwrite a change it has
  not seen (`UpdateCanBeLost`). Commits are safe in all runs if and only if no run stores two different documents that
  look the same and of which the earlier can be changed (`SafeExactly`); all runs are serial if and only if, of documents
  that look the same, what merges into the earlier merges into the later with the same result (`SerialExactly`).
- Changing only the protocol of an L4 listener removes it, on a balancer that takes a second route on a port
  (`ProtocolChangeRemovesBoth`).

Where comments and code disagree, the code is followed. The comment in `waitUntilQuiesced` says that an unhealthy
instance stops the update at once: the code only counts it as not healthy. The comment in the pool says that a throttled
member goes back to the requested state: it goes to the throttled states.

## Model

| member | source | states |
|---|---|---|
| FsmSpec.Define | pkg/fsm/fsm.go:14-36 | Accepts exactly the lists of states with distinct indices, known targets, actions on existing transitions and limits that raise a transition of the state; a refusal names a defect that is there. |
| FsmSpec.Compile | pkg/fsm/fsm.go:44-111 | Succeeds exactly if every state is sound, and then knows exactly the signals used; an error is justified by a state of the specification. |
| FsmSpec.NextState | pkg/fsm/fsm.go:240-280 | In an accepted specification every transition leads to a known state. |
| FlapHistory.Flaps.Record | pkg/fsm/flap.go:84-98 | Keeps the history empty or strictly alternating between two states; extends it only by the way back. |
| FlapHistory.Flaps.Count | pkg/fsm/flap.go:100-119 | The loop that steps back by two counts the windows that match the pattern. |
| FlapHistory.HistoryIsTheRun | pkg/fsm/flap.go:84-98 | After any transitions the history is the alternating run that is still unbroken, and ends with the last transition. |
| FlapHistory.CountIsHalfTheRun | pkg/fsm/flap.go:100-119 | Counting right after recording the same pair gives half the unbroken run, rounded down, and 0 if the record broke it. |
| Heap.SiftUpOrders | pkg/fsm/queue.go:16-18 | Sifting up restores heap order when only the last entry may be too early. |
| Heap.SiftDownOrders | pkg/fsm/queue.go:20-23 | Sifting down restores heap order when only the top entry may be too late. |
| Heap.FixOrders | pkg/fsm/queue.go:32-36 | Fixing a slot whose deadline changed either way restores heap order. |
| Heap.WithoutOrders | pkg/fsm/queue.go:25-30 | Removing any slot by swapping it with the last one and fixing keeps heap order. |
| Heap.RootIsMin | pkg/fsm/queue.go:67-73 | In a heap-ordered queue no deadline is earlier than the root's. |
| DeadlineQueue.Instance.Update | pkg/fsm/instance.go:77-89 | State, start, deadline and the visit count of the new state change together, the deadline being start plus TTL or 0. |
| DeadlineQueue.Queue.Swap | pkg/fsm/queue.go:45-49 | Exchanges two entries and keeps every back pointer equal to its slot. |
| DeadlineQueue.Queue.Enqueue | pkg/fsm/queue.go:16-18 | Adds exactly the instance, keeps back pointers exact for all instances, and keeps heap order. |
| DeadlineQueue.Queue.PushLast | pkg/fsm/queue.go:51-56 | Appends the instance with its slot as index. |
| DeadlineQueue.Queue.PopLast | pkg/fsm/queue.go:58-65 | Cuts off the last slot and clears its index. |
| DeadlineQueue.Queue.Dequeue | pkg/fsm/queue.go:20-23 | Takes out exactly the root, keeps back pointers exact and keeps heap order. |
| DeadlineQueue.Queue.Remove | pkg/fsm/queue.go:25-30 | Below the root takes out exactly the instance and restores order; at the root, or for an instance that is not queued, does nothing. |
| DeadlineQueue.Queue.Update | pkg/fsm/queue.go:32-36 | Keeps the entries; after one deadline changed, the queue is ordered if and only if the instance is below the root or its deadline is still no later than those under it. |
| DeadlineQueue.Queue.Peek | pkg/fsm/queue.go:67-73 | The root, which is the earliest deadline of an ordered queue. |
| FsmSet.Set.HandleAdd | pkg/fsm/set.go:204-239 | Is the add step of the transition system; fails exactly for unknown initial states, and then still uses up an id. |
| FsmSet.Set.HandleDelete | pkg/fsm/set.go:241-255 | Is the delete step: leaves members and index by state, zeroes the id, leaves the queue as it is. |
| FsmSet.Set.HandleEvent | pkg/fsm/set.go:392-481 | Is the event step, with failed actions, error targets, flap limits that stop the transition, deadlines and visit limits; fails exactly for unknown instances and impossible transitions. |
| FsmSet.Set.ProcessDeadline | pkg/fsm/set.go:310-345 | Enters the state and queues, requeues or leaves the instance as its old and new deadlines demand. |
| FsmSet.Set.ProcessVisitLimit | pkg/fsm/set.go:347-367 | Raises the visit limit's signal exactly when the limit is reached. |
| FsmSet.Set.HandleClockTick | pkg/fsm/set.go:265-308 | Terminates, and is the tick step: takes roots while they are due, raises and disarms. |
| FsmSet.Set.ProcessNext | pkg/fsm/set.go:503-518 | One turn of the transaction loop is one step of the transition system. |
| FsmSet.Drive | pkg/fsm/set.go:492-518 | Whatever comes in, the engine goes through a run of the transition system and its fields show the last view of that run; an index is above -1 exactly for queued instances and is then the slot. |
| FsmRuns.EveryRunKeepsInv | pkg/fsm/set.go:204-481 | Every state of every run of an accepted specification satisfies the whole invariant. |
| FsmRuns.EveryRunIndexesByState | pkg/fsm/set.go:204-255 | In every run members are in known states, the index by state lists exactly the members of each state, and ids are below next. |
| FsmRuns.EveryRunUsesIdsOnce | pkg/fsm/set.go:204-255 | An id names one instance for ever and never returns once it has left. |
| FsmRuns.FiringsAreTheArmed | pkg/fsm/set.go:279-304 | A tick fires exactly once for each instance it takes that has a positive deadline and a state with a TTL. |
| FsmRuns.EveryFiringIsSent | pkg/fsm/set.go:370-390 | In an accepted specification each firing puts the TTL's signal on the transactions. |
| FsmRuns.TickTakesExactlyTheDue | pkg/fsm/set.go:265-308 | From an ordered queue a tick takes exactly the entries due by the new time and leaves exactly the later ones. |
| FsmRuns.EveryRunSignalsInTime | pkg/fsm/set.go:279-345 | In every run, whatever the heap order, a TTL signal comes no earlier than the TTL after entering the state and at most once per stay. |
| FsmRuns.EverySignalHasAStep | pkg/fsm/set.go:279-304 | Each signal of a run was raised by one step of it, and stays on record. |
| FsmRuns.EveryRunLosesTheDeleted | pkg/fsm/set.go:241-255 | In every run an instance is no longer a member if and only if a step has deleted it. |
| FsmRuns.EverySignalAddressedExactly | pkg/fsm/set.go:279-304 | In every run a signal goes to the id its instance was given if and only if no earlier step deleted that instance, or the id is 0; otherwise it goes to id 0. |
| FsmRuns.EventDisordersExactly | pkg/fsm/set.go:310-345 | From an ordered queue, a signal leaves it unordered if and only if it postpones the root. |
| FsmRuns.EveryRunFlags | pkg/fsm/set.go:310-345 | The flag for a disordered heap is up if and only if an earlier step gave the root a deadline later than one below it. |
| FsmRuns.RunsThatKeepTheRootAreNeverLate | pkg/fsm/set.go:265-345 | In runs that never postpone the root the queue stays ordered and no armed deadline passes without its signal. |
| FsmWitnesses.EveryRunHasOnlyRootUnarmed | pkg/fsm/queue.go:25-30 | As long as a run has not postponed the root, only the root can be queued without a deadline. |
| FsmWitnesses.LaterRootMakesLate | pkg/fsm/set.go:265-308 | Whenever the root has a later deadline than an armed instance, the clock alone makes that instance late. |
| FsmWitnesses.PostponingMakesLate | pkg/fsm/queue.go:32-36 | Every run that postpones the root for the first time, and has no transaction waiting then, is continued by the clock alone to one with a late instance. |
| FsmWitnesses.ARunIsLate | pkg/fsm/queue.go:32-36 | A run of an accepted specification in which an armed deadline passes without its signal. |
| FsmWitnesses.ASignalGoesAstray | pkg/fsm/set.go:241-304 | A run of an accepted specification in which the signal of one instance goes to another. |
| Fifo.Fifo.Push | pkg/fsm/fifo.go:25-37 | Appends to the contents, also when the ring is full and wrapped around and has to grow. |
| Fifo.Fifo.Pop | pkg/fsm/fifo.go:40-48 | Returns and removes the oldest element, or nothing from an empty queue. |
| Fifo.RunOps | pkg/fsm/fifo.go:3-48 | For any positive size and any operations, the ring buffer behaves as a plain sequence. |
| Fifo.PoppedThenLeftIsPushed | pkg/fsm/fifo.go:25-48 | What was popped followed by what is left is what was pushed, in order. |
| GroupOrder.LessIsStrictWeakOrder | pkg/controller/group/state.go:128-138 | The destroy order is irreflexive and transitive with transitive ties; ties are equal IDs or two selves. |
| GroupOrder.FirstSelfMeansAllSelf | pkg/controller/group/state.go:128-138 | In sorted order self comes last: if the first is self, all are. |
| GroupOrder.SortByID | pkg/controller/group/rollingupdate.go:225 | The sorted list is a permutation in that order. |
| Scaler.FirstAreSurplus | pkg/controller/group/scaler.go:236-247 | The first ones of the sorted listing are those with at least `size` greater IDs: the choice depends on the set of IDs only. |
| Scaler.SurplusLeavesSize | pkg/controller/group/scaler.go:232-247 | Removing the chosen leaves exactly the size, or all if there are fewer. |
| Scaler.ConvergingAgainChoosesTheRest | pkg/controller/group/scaler.go:273-278 | If part of a chosen set is gone, converging on the smaller listing chooses exactly the rest. |
| Scaler.NeverBelowSize | pkg/controller/group/scaler.go:219-279 | Any number of overlapping converges, with destroys and creates taking effect in any order, never takes the group below its size. |
| Scaler.LaunchAll | pkg/controller/group/scaler.go:211-217 | For every interleaving of launches and completions, at most the limit is in flight at any moment and nothing is at the end. |
| Scaler.Converge | pkg/controller/group/scaler.go:219-279 | Destroys exactly the surplus or creates exactly what is missing, each once, within the limit, and waits for all. |
| GroupWorld.ChangesKeepPotential | pkg/controller/group/scaled.go:61-104 | No interleaving of creates, labels, removals and settings read before or after the change raises the number of instances that are undesired or will be by a create or a label under way. |
| GroupWorld.UndesiredNeverGrows | pkg/controller/group/group.go:93-101 | Once settings are changed, with no create under way and no label to come on a desired instance that carry older ones, no interleaving raises the number of undesired instances. |
| GroupWorld.UndesiredCanGrow | pkg/controller/group/scaled.go:54-104 | Some interleaving raises the number if and only if such a create is under way or such a label is to come. |
| GroupWorld.StaleLabelGrows | pkg/controller/group/scaled.go:186-210 | A label put from an older listing with an older hash overwrites a newer label: one desired instance less in a group of the same size. |
| GroupWorld.ThreatsExactly | pkg/controller/group/scaled.go:54-104 | The number at risk exceeds the number undesired exactly where such a create or label is to come. |
| GroupWorld.RemovalLowersPotential | pkg/controller/group/scaled.go:145-149 | Removing an instance that was seen undesired lowers the number by one, whatever happened between seeing and removing. |
| GroupWorld.NormalKeepsSelf | pkg/controller/group/scaled.go:171-182 | Normalising a description does not change whether it is self, and self then always has a logical ID. |
| GroupWorld.Scaled.List | pkg/controller/group/scaled.go:161-184 | Lists every live instance once, normalised. |
| GroupWorld.Scaled.Label | pkg/controller/group/scaled.go:186-210 | Labels the instances found tagged bootstrap in its own listing, with changes in between, also those of others who label; may fail half-way. |
| GroupWorld.Scaled.LabelAndList | pkg/controller/group/scaled.go:213-228 | The listing is that of the world after labelling, with changes before the first listing, between it and the labelling, while labelling, and after; fails exactly when one of the calls made fails. |
| GroupWorld.Scaled.Destroy | pkg/controller/group/scaled.go:121-150 | Drains unless skipped, stops a rolling update on a failed drain, never has the plugin destroy self in a rolling update, and otherwise destroys. |
| RollingUpdate.DesiredAndUndesired | pkg/controller/group/rollingupdate.go:21-40 | Splits the list by config hash, losing and adding nothing. |
| RollingUpdate.UpdatingCount.ExceedsHealthyThreshold | pkg/controller/group/rollingupdate.go:142-183 | Keeps the tally of the current streak and says exactly whether the last poll ends the wait. |
| RollingUpdate.WaitUntilQuiesced | pkg/controller/group/rollingupdate.go:53-133 | Over every trace of polls of a changing group, succeeds exactly at the first poll that ends the wait, and otherwise ends on stop or on a failed listing. |
| RollingUpdate.QuietByCount | pkg/controller/group/rollingupdate.go:147-162 | By count, the wait ends exactly when the last `Count` polls all saw enough healthy updated instances. |
| RollingUpdate.QuietByDuration | pkg/controller/group/rollingupdate.go:164-180 | By duration, it ends exactly when an uninterrupted span of such polls is at least `Duration` long. |
| RollingUpdate.FirstUndesired | pkg/controller/group/rollingupdate.go:211-225 | The next to destroy is the undesired instance that comes first in the destroy order, and is self only if all undesired ones are. |
| RollingUpdate.Roll | pkg/controller/group/rollingupdate.go:200-241 | One round destroys at most one instance, only after the wait has ended quietly and the instance was drained or draining is skipped; it was undesired and is not self; then the number of undesired ones is lower. |
| RollingUpdate.Run | pkg/controller/group/rollingupdate.go:188-244 | Terminates with that number as measure; destroys only undesired instances, none of them self, each after a quiet wait for the desired found first plus those destroyed, at most as many as there were or were to come; succeeds only if the last listing had none or only self, and fails only at a fault. |
| RollingUpdate.AwaitedIsAttainable | pkg/controller/group/rollingupdate.go:195-206 | In a full group of unchanged size with no create or label by older settings to come that makes an instance undesired, what is awaited never exceeds the size less the undesired that remain; and from the world of any wait there is a script, the scaler creating what is missing and healthy polls, whose observations end the wait. |
| RollingUpdate.StaleLabelBlocksTheWait | pkg/controller/group/rollingupdate.go:53-133 | Without that condition: after a label by older settings a full group has nothing missing and no poll sees as many healthy updated instances as were there. |
| RollingUpdate.WaitSucceeds | pkg/controller/group/rollingupdate.go:53-133 | On every script whose observations end quietly the wait succeeds. |
| Pool.TableIsAccepted | pkg/controller/pool/fsm.go:165-329 | For every configuration the pool's table satisfies all that `Define` demands. |
| Pool.Collection.GetCountByState | pkg/controller/internal/collection.go:394-402 | Counts the members read as busy, each at its own moment while others change. |
| Pool.Collection.Handle | pkg/controller/pool/collection.go:349-366 | Issues the operation exactly if it can and no more than the parallelism were counted; at most one above the parallelism is in flight afterwards. |
| Pool.EveryRunWithin | pkg/controller/pool/collection.go:256-273 | In every run at most one above the parallelism is in flight, and never above it unless an operation is issued for a member that was not busy when it was counted. |
| Pool.IssueOverstepsExactly | pkg/controller/pool/collection.go:349-366 | An issue oversteps the parallelism if and only if that many are in flight and the member became busy after it was counted. |
| Pool.WithinExactly | pkg/controller/pool/collection.go:256-273 | A run stays within the parallelism all along if and only if none of its steps meets that condition. |
| Pool.OneTooMany | pkg/controller/pool/collection.go:349-366 | A run with the default parallelism of 1 that has two Provisions in flight, in which only signals of the clock or of other goroutines fall inside a count. |
| ResourceWatch.Watch.Add | pkg/controller/resource/watch.go:25-33 | Registers one more channel under the name. |
| ResourceWatch.Watch.Notify | pkg/controller/resource/watch.go:36-58 | Closes every channel under the name, none of which was closed before, and forgets them. |
| ResourceWatch.ProcessDestroyWatches | pkg/controller/resource/collection.go:779-822 | A key watches exactly the resources that depend on it by an unqualified path. |
| ResourceWatch.Controller.HandleLost | pkg/controller/resource/collection.go:587-602 | Closes exactly the channels that wait for the lost resource. |
| ResourceWatch.Controller.FanIn | pkg/controller/resource/watch.go:64-84 | The merged signal comes exactly when every dependent has been reported lost. |
| ResourceWatch.Controller.HandleDependencyComplete | pkg/controller/resource/collection.go:556-570 | Clears a resource for destroy only when its dependents are gone. |
| ResourceWatch.Controller.HandleDestroy | pkg/controller/resource/collection.go:360-388 | Refuses exactly resources that have dependents and are not cleared. |
| ResourceWatch.Controller.Loop | pkg/controller/resource/collection.go:360-602 | For any inputs the loop does what `HandledAll` says, and a resource is given to the plugin's Destroy only after each dependent has been reported lost; no channel is closed twice. |
| Metadata.AcceptedExactly | pkg/types/any.go:153-164 | With an injective digest, a commit is accepted if and only if the stored document looks the same, normalised, as the one it was computed from. |
| Metadata.SpaceAfterColonIsLost | pkg/types/any.go:157 | Documents that differ in the space after a colon have the same fingerprint. |
| Metadata.Updatable.Changes | pkg/plugin/metadata/updatable.go:53-98 | Proposes the merge with the stored document and its fingerprint, and changes nothing. |
| Metadata.Updatable.Commit | pkg/plugin/metadata/updatable.go:102-135 | Stores the proposal exactly if the fingerprint still matches. |
| Metadata.Serve | pkg/plugin/metadata/lazy.go:55-89 | Calls made one at a time go through a run of the interleaved clients. |
| Metadata.CommitOverwritesItsOriginal | pkg/plugin/metadata/updatable.go:102-135 | An accepted commit overwrites exactly the document it was computed from, if the documents stored in the run that can be changed are told apart. |
| Metadata.EveryRunIsSerial | pkg/plugin/metadata/updatable.go:53-135 | For any interleaving of clients, if what merges into a stored document merges into a later look-alike with the same result, the document is the accepted batches merged one after another in commit order. |
| Metadata.SafeExactly | pkg/plugin/metadata/updatable.go:53-135 | Every accepted commit of every run overwrites the document it was computed from if and only if no run stores two different documents that look the same and of which the earlier can be changed. |
| Metadata.LookAlikesAreUnsafe | pkg/plugin/metadata/updatable.go:102-135 | From any run that stores two such documents, next to each other or not, a run with a commit that overwrites what it has not seen. |
| Metadata.SerialExactly | pkg/plugin/metadata/updatable.go:53-135 | All runs are serial if and only if that holds in all runs. |
| Metadata.DifferentLookAlikesAreNotSerial | pkg/plugin/metadata/updatable.go:102-135 | From any run that stores look-alikes into which a batch merges differently, a run that is not serial. |
| Metadata.RaceIsSerialExactly | pkg/plugin/metadata/updatable.go:53-135 | Two racing clients end serially if and only if the first commit changes what a fingerprint sees, or the second proposal is the same on top of it; and what is stored in either case. |
| Metadata.UpdateCanBeLost | pkg/plugin/metadata/updatable.go:120-132 | A document with two keys, written as AnyValue does, and two clients that change one key each: both commits are accepted and one change is gone. |
| L4.GetRouteOperation | pkg/controller/ingress/l4.go:91-119 | Takes the first route that agrees on port and protocols from the list, and says whether it is the same. |
| L4.Plan | pkg/controller/ingress/l4.go:32-41 | By port: what is created, changed and removed follows from what exists and what is desired there. |
| L4.CreateAll | pkg/controller/ingress/l4.go:52-61 | Publishes all of them, in order, and succeeds exactly if no call fails. |
| L4.ChangeAll | pkg/controller/ingress/l4.go:62-76 | Replaces the route on each changed port and touches no other. |
| L4.RemoveAll | pkg/controller/ingress/l4.go:78-87 | Empties exactly the ports of the routes left over. |
| L4.ConfigureL4 | pkg/controller/ingress/l4.go:17-89 | With distinct ports on each side, succeeds exactly if no call fails, and then leaves exactly the desired routes if and only if protocols agree on shared ports; matching routes are never unpublished; there are no calls if and only if all is as desired. |
| L4.ConfigureTwice | pkg/controller/ingress/l4.go:17-89 | When protocols agree, a second run makes no calls. |
| L4.ProtocolChangeRemovesBoth | pkg/controller/ingress/l4.go:91-119 | Changing the protocol on a port publishes the new route and then removes both. |
| JsonPointer.Rfc6901ToPath | pkg/types/path.go:19-34 | Decodes each part between slashes on its own, in order. |
| JsonPointer.UnescapeInvertsEscape | pkg/types/path.go:26-27 | The two replacements, in this order, invert the escaping of RFC 6901. |
| JsonPointer.EscapeInvertsUnescapeExactly | pkg/types/path.go:26-27 | Escaping again gives back a string if and only if it was well escaped. |
| JsonPointer.OtherOrderExactly | pkg/types/path.go:26-27 | In the other order the replacements invert the escaping of a token if and only if ~1 does not occur in it. |
| JsonPointer.RoundTrip | pkg/types/path.go:19-34 | Every non-empty list of tokens, escaped and joined, decodes to itself with integers in brackets. |
| JsonPointer.LeadingSlashRoundTrip | pkg/types/path.go:19-34 | With a leading slash the tokens come after an empty one. |

## Left out

- Wrap-around of 64-bit ids and overflow of ticks: ids and times are unbounded.
- Channel capacity and blocking, goroutine scheduling and cancellation: queues are unbounded, steps are atomic, and the merged channel of the resource controller is not cancelled.
- Data attached to instances and signals, error reporting and logging: no effect on the state modelled.
- `Spec.SetAction`, `CheckFlapping`, state and signal names: would add only easy members.
- DeadlineQueue.Queue.Enqueue: the instance is not queued yet; the code enqueues no other.
- Scaler.NeverBelowSize: takes new instances to have IDs that no converge has chosen before, and no one else to destroy instances meanwhile.
- Scaler.LaunchAll: takes the limit as unchanged during one converge; nothing in the repository calls `SetMaxParallelNum`.
- GroupWorld.UndesiredCanGrow: a new instance is taken to have an ID that no one who is labelling has listed before.
- RollingUpdate.Run: the settings do not change again during the update, and a config hash is never the word bootstrap.
- RollingUpdate.AwaitedIsAttainable: nothing is claimed during a size reduction, where the scaler may remove updated instances.
- Metadata.EveryRunIsSerial: how changes are merged into a document, JSON and the digest are left open; a client commits what it was given.
- `changeSet` and `types.Put`: part of the open merge.
- L4.ConfigureL4: a balancer is taken to remove everything on a port when it is unpublished, and to accept a second route on an occupied port beside the first.
- L4.ProtocolChangeRemovesBoth: rests on both. The simulator refuses the second route, so that there the update fails; the ibmcloud driver reports success without adding it, so that there the listener is removed too; the mock balancer adds it, but deletes while it ranges over the routes and does not survive removing two.
- ResourceWatch.Controller.FanIn: cancellation is not modelled.
- Metadata.Updatable.Commit: does not model forwarding to another updatable plugin.
- `PlanUpdate`, `scalerUpdatePlan.Run`, the quorum supervisor, `groupContext` and the claim of one update at a time.
- `EvalDepends`, `OrderByDependency` and provisioning dependencies of the resource controller.
- Leadership gating in the manager, RPC, HTTP, discovery, providers and the command line.
