# Steiner gateway: a verified model of its structures and protocols

Steiner is an LLM gateway.  This project models the hand-written logic that its routing and its
cluster behaviour rest on, and proves what that logic is for, over all inputs, all runs and all
interleavings.  `dafny verify dfyconfig.toml` checks everything.

| part | modules |
|---|---|
| prefix-ownership radix tree | `RadixStore`, `RadixFilter`, `RadixMatch`, `RadixEvict`, `Radix`, `RadixRuns`, `RadixAnyRun` |
| leader lease | `Lease`, `LeaseSharp` |
| state mirror, merge and replay | `Mirror`, `MirrorRuns` |
| JSON envelope scanner | `JsonScan`, `JsonGrammar`, `JsonNames` |
| consistent hashing and its cache | `Backends`, `Ring`, `RingCache`, `Candidates` |
| registry and reconciler | `RegistryState`, `Registry`, `RegistryInit`, `Reconcile` |
| slots, queue, prefill/decode attempts | `Slots`, `Queue`, `PdAttempt`, `PdPick`, `PdServe` |
| canary rollout | `Rollout`, `RolloutCluster`, `PickSplit` |
| alert engine and notifier window | `Alerts`, `AlertRuns`, `AlertEvents`, `AlertTraces` |
| shared | `Sums`, `Options` |

How the parts are built:

- **Radix tree.**  `Radix.Tree` is the mutable structure (nodes with `edge`, `children`, `owners`, two counters).
  Beside it stand two ghost values: the *shape* (the tree as a value) and the *model*, a map from (non-empty prefix,
  owner) to the time of the last insert.  Each method is proved to be an exact update of that map; `RadixAnyRun`
  covers arbitrary call sequences and `RadixRuns` says what the map means in terms of the calls made.
- **Protocols** (lease, replay, attempts, slots, queue, rollout) are step relations; the theorems quantify over every
  run.  Messages and replies may be lost at any point; scripts may execute after their caller gave up.
- **JSON.**  `JsonGrammar` has concrete syntax trees of RFC 8259 (sections 2, 4, 5 and 7) with arbitrary white space.
  The theorems are about the scanner run on the printed text of any such tree.
- Code that updates objects or arrays is modelled by classes, arrays and loops, each proved against a function or a
  relation whose own properties are then proved as lemmas.

Where a promise turns out not to hold as stated, the model keeps the code's behaviour and the exact condition is proved:

- **Overlap of two leaders.**  Configuration only requires a lease no shorter than the heartbeat interval.  The bound
  "one operation timeout plus one tick gap" holds in every run if and only if the lease is at least that sum
  (`LeaseSharp.OverlapBoundIff`).  The runs range over arbitrary tick spacing up to the gap; the heartbeat interval is not
  a parameter.  What holds without any condition is `Lease.DoubleLeadershipIsShort`.
- **Containment of owners.**  An insert always keeps that an owner of a prefix owns every shorter prefix
  (`RadixRuns.InsertKeepsContained`), but a later prune may break it.  Every prune keeps it after an insert if and only if
  no branching claim of that owner is later than the insert (`RadixRuns.InsertIsPruneSafe`); stamps taken before the lock
  can violate this (`RadixRuns.UnclockedRunNotNested`).
- **Label comparison.**  `labelsEqual` takes a missing label for an empty one: it decides equality of the label sets
  exactly if the stored set has no empty value (`Reconcile.LabelsEqualIsEquality`).
- **Rows with a weight that is not positive** never count as in sync, because the instance gets the normalised weight
  (`Reconcile.UpsertSyncs`, `Reconcile.UnnormalisedNeverSynced`).
- **Alert keys.**  Alerts are filed under `rule|instance`.  Two pairs with the same key share one state machine: a firing
  can then come before its `for` has elapsed, a resolved without a firing, and two firings within one window.
  `AlertTraces.FiringHeldIff`, `AlertTraces.AnnouncedIff` and `AlertTraces.ApartIff` give the exact conditions, with
  counterexample runs on a clock that never goes back; rule names without a bar suffice for all three, and a `for` no
  shorter than the window suffices for the last.
- **Picking a sub-pool while weights change.**  `PickSplit` loads every weight on its own and holds no lock.  A call that
  overlaps a rollback can sum the old weights and walk the new ones; the walk then falls through to the last sub-pool,
  even if that is the canary just set to zero.  `PickSplit.FallbackIff`, `PickSplit.ZeroPickedIff` and
  `PickSplit.OverlappedPickIff` say exactly when, and `PickSplit.OverlappedPickHappens` that it can happen at every step
  of every rollout.  Calls during which no weight changes follow the weights exactly (`PickSplit.SteadyPick`).
- **Reset of a rollout** publishes after releasing the lock, so its broadcast can be overtaken by that of a rollback, and
  a follower that hears both ends up running while the publisher has failed (`RolloutCluster.LateResetBroadcast`).  After
  the newest broadcast arrives the receiver agrees with a publisher whose state stems from its own last change if and
  only if that change is the one announced, or both are resets (`RolloutCluster.LatestBroadcastConverges`).
- **Reset on any instance.**  A reset needs no leadership, so a follower that was reset can show a view the leader never
  showed (`RolloutCluster.ResetOnFollower`); what always holds is that some instance made it
  (`RolloutCluster.EveryViewWasMade`).
- **Comment against code.**  The comment above `sameInstances` speaks of sets; the code compares position by position,
  and so does the model.  The cache stays transparent, it only misses more often.
- **Lenient scanner.**  A trailing comma is accepted (`JsonGrammar.TrailingCommaAccepted`); the theorems are for
  well-formed texts.

## Model

| member | source | states |
|---|---|---|
| `Radix.CommonLen` | internal/kvcache/radix.go:299-309 | the greatest length up to which both byte strings agree |
| `Radix.Tree.constructor` | internal/kvcache/radix.go:49-64 | an empty tree that denotes the empty map |
| `Radix.Tree.Mark` | internal/kvcache/radix.go:105-118 | one node is stamped; counters and all other nodes stay |
| `Radix.Tree.HangRest` | internal/kvcache/radix.go:92-103 | a key that leaves the tree at a node: the map is stamped on every remaining prefix and nothing else |
| `Radix.Tree.SplitEdge` | internal/kvcache/radix.go:112-122 | the heap change of an edge split is exactly the split of the shape, with both counters right |
| `Radix.Tree.SplitMark` | internal/kvcache/radix.go:112-122 | splitting an edge leaves the map as it was; then the middle node is stamped |
| `Radix.Tree.Branch` | internal/kvcache/radix.go:112-135 | a key that leaves an edge half-way ends with the whole key stamped and nothing else changed |
| `Radix.Tree.Grow` | internal/kvcache/radix.go:89-136 | the walk of Insert: the map afterwards is the old one with every non-empty prefix of the key stamped for the owner |
| `Radix.Tree.Insert` | internal/kvcache/radix.go:76-137 | claim by claim: what is served now or was held before, if later than a time `cut`, and nothing else; afterwards nodes and bytes are within the limits that are set; `cut` is 0 exactly if the grown tree violates neither limit, else the tree that still held generation `cut` violated one; the grown tree has at most two nodes and the key's bytes more |
| `Radix.Tree.Match` | internal/kvcache/radix.go:141-175 | for each owner the greatest n such that the first n bytes of the clipped text are claimed by it; owners of none are missing |
| `Radix.Tree.SweepNode` | internal/kvcache/radix.go:252-280 | the post-order traversal of one subtree: filters owners and unlinks exactly the nodes without a live descendant |
| `Radix.Tree.Unhook` | internal/kvcache/radix.go:266-274 | unlinking a child updates both counters and nothing else |
| `Radix.Tree.Prune` | internal/kvcache/radix.go:178-184 | a claim stays exactly if its time is at least the deadline, with its time; the tree stays well-formed |
| `Radix.Tree.RemoveBackedBy` | internal/kvcache/radix.go:243-262 | a claim stays exactly if it has another owner, with its time |
| `Radix.Tree.OldestOwnerTs` | internal/kvcache/radix.go:223-236 | the least time at or below a node, 0 when there is none |
| `Radix.Tree.EnforceBudget` | internal/kvcache/radix.go:198-220 | terminates with nodes and bytes within the limits that are set; removes exactly all claims up to a cut, nothing exactly if both limits held before, and the tree that still held the last generation violated one |
| `RadixStore.CoverUnique` | internal/kvcache/radix.go:16-21 | in a well-formed tree at most one node covers a prefix |
| `RadixStore.DenotesUnique` | internal/kvcache/radix.go:16-38 | the map a tree denotes is determined by the tree |
| `RadixStore.TouchStep` | internal/kvcache/radix.go:105-111 | stamping a node changes exactly the prefixes on its edge |
| `RadixStore.AddLeafStep` | internal/kvcache/radix.go:92-103 | a new leaf adds exactly the prefixes on its edge |
| `RadixStore.SplitStep` | internal/kvcache/radix.go:112-122 | splitting an edge denotes the same map |
| `RadixStore.SplitBytes` | internal/kvcache/radix.go:112-122 | a split leaves the sum of edge lengths as it was |
| `RadixFilter.FilteredDenotes` | internal/kvcache/radix.go:252-280 | after the traversal the tree denotes exactly the filtered map |
| `RadixFilter.FilteredLeavesOwned` | internal/kvcache/radix.go:252-280 | after the traversal every leaf has an owner |
| `RadixFilter.PruneCompose` | internal/kvcache/radix.go:198-209 | pruning twice with rising deadlines is pruning once with the later one |
| `RadixEvict.SizeNeedsOwners` | internal/kvcache/radix.go:198-209 | a tree that occupies anything holds a claim, so eviction always finds a victim |
| `RadixEvict.GenerationShrinks` | internal/kvcache/radix.go:198-209 | evicting the oldest generation removes at least one claim |
| `RadixMatch.MatchStop` | internal/kvcache/radix.go:154-158 | nothing is owned beyond a byte on which there is no edge to follow |
| `RadixMatch.MatchLeave` | internal/kvcache/radix.go:159-166 | nothing is owned beyond the byte on which the key leaves an edge |
| `RadixRuns.ClaimsAreLastInserts` | internal/kvcache/radix.go:76-137 | over any run a claim is in the map exactly if its last insert survived, with the time of that insert |
| `RadixRuns.MatchIsLongestCommonPrefix` | internal/kvcache/radix.go:141-175 | on the map of a list of serves, the greatest owned prefix length is the longest common prefix with anything the owner served |
| `RadixRuns.InsertKeepsContained` | internal/kvcache/radix.go:76-137 | an insert with any stamp keeps that owners of a prefix own all shorter ones |
| `RadixRuns.NestedIffPrunesContained` | internal/kvcache/radix.go:178-184 | every prune keeps containment if and only if shorter prefixes carry times no earlier |
| `RadixRuns.InsertIsPruneSafe` | internal/kvcache/radix.go:81-83 | after an insert every prune keeps containment if and only if no branching claim of the owner is later |
| `RadixRuns.InsertKeepsNested` | internal/kvcache/radix.go:81-83 | an insert keeps containment with ordered times if and only if no branching claim of the owner is later |
| `RadixRuns.ClockedRunsAreNested` | internal/kvcache/radix.go:81-83 | with times that never go back, ownership is nested over every run |
| `RadixRuns.UnclockedRunNotNested` | internal/kvcache/radix.go:81-83 | a concrete run with stamps out of order that breaks nesting |
| `RadixAnyRun.AnyRun` | internal/kvcache/radix.go:76-280 | any sequence of calls from the empty tree ends with the tree denoting the map of its trace and with nodes and bytes within their limits; inserts that fit the limits together evict nothing |
| `RadixAnyRun.TraceOfInserts` | internal/kvcache/radix.go:76-137 | without evictions the trace of a run of inserts denotes the map of its serves alone |
| `RadixAnyRun.MatchAfterInserts` | internal/kvcache/radix.go:141-175 | after any run of inserts that evicted nothing, and none is evicted when there is room for all, the tree answers for each owner the longest common prefix with anything it served |
| `Lease.Manager.FinishTick` | internal/cluster/cluster.go:222-240 | a reply sets leadership and the renewal time; an error keeps the renewal time and ends leadership exactly if a lease has passed since; both are the steps of the model |
| `Lease.RenewIff` | internal/cluster/cluster.go:71-82 | the renew script wins exactly a lock that is free, run out or one's own, and then holds it for one lease |
| `Lease.ResignHandsOver` | internal/cluster/cluster.go:243-256 | after the holder's resign script the next script of anybody wins; a resign script of somebody else changes nothing |
| `Lease.StepKeepsInv` | internal/cluster/cluster.go:71-82 | every step keeps: a win protects the lock for a whole lease, and wins of different instances are a lease apart |
| `Lease.DoubleLeadershipIsShort` | internal/cluster/cluster.go:212-240 | two believing leaders: their wins are a lease apart and the moment is less than timeout plus gap after the newer win |
| `Lease.OverlapIsShort` | internal/cluster/cluster.go:212-240 | two leaders overlap for less than timeout plus gap, when a lease is at least that long |
| `LeaseSharp.OverlapCanBeLong` | internal/config/config.go:1088-1091 | for every shorter lease some run overlaps for at least timeout plus gap |
| `LeaseSharp.OverlapBoundIff` | internal/config/config.go:1088-1091 | the bound holds in every run if and only if the lease is at least timeout plus gap |
| `Mirror.Observer.ObservePolicy` | internal/cluster/cluster.go:386-400 | a policy is restamped exactly when its content changed |
| `Mirror.Observer.ObserveBackend` | internal/cluster/cluster.go:404-422 | a backend entry is restamped exactly when content or presence changed |
| `Mirror.MergeState` | internal/cluster/cluster.go:527-538 | merging in place keeps the destination's entry unless the source's version is greater |
| `Mirror.MergeFindsNewest` | internal/cluster/cluster.go:527-538 | merging all snapshots finds, for every known key, an entry with the greatest version |
| `Mirror.MergeOrderIndependent` | internal/cluster/cluster.go:527-538 | with equal versions meaning equal content, the order of merging does not matter |
| `Mirror.HeardIsObserve` | internal/cluster/cluster.go:386-422 | what a round does to a key of one instance is one observation, stamped with that instance's own reading |
| `Mirror.MergedContentStable` | internal/cluster/cluster.go:469-505 | a replay round, with any loss and a stamp of its own for each receiver, keeps the merged content of every key |
| `Mirror.RoundKeepsAgreeing` | internal/cluster/cluster.go:469-505 | a round keeps that equal versions mean equal content |
| `MirrorRuns.ContentFixed` | internal/cluster/cluster.go:469-505 | over any number of rounds the merged content never changes again |
| `MirrorRuns.StaysSettled` | internal/cluster/cluster.go:386-422 | an instance that shows the merged content keeps it with the same stamp |
| `MirrorRuns.RestampsAtMostOnce` | internal/cluster/cluster.go:386-422 | each instance restamps each key at most once |
| `MirrorRuns.DeliveredRoundAgrees` | internal/cluster/cluster.go:469-505 | a policy, or a backend entry not older than the window, in a round that reaches everybody: every mirror shows the merged content afterwards |
| `MirrorRuns.OutsideWindowUntouched` | internal/cluster/cluster.go:492-504 | a backend entry older than the window changes no mirror, whatever is heard, and neither does a lost message |
| `MirrorRuns.OneRoundSettles` | internal/cluster/cluster.go:469-505 | one round inside the window that reaches everybody settles the key: every mirror shows the content and no stamp changes for the rest of the run |
| `MirrorRuns.ReplayIsBounded` | internal/cluster/cluster.go:492-504 | a backend entry is replayed a bounded number of times: one window for each instance that lags, plus the window already open |
| `JsonScan.SkipJsonSpace` | internal/proxy/parse.go:131-141 | stops at the first position that is not white space |
| `JsonScan.JumpToQuote` | internal/proxy/parse.go:144-164 | jumping to a quote and counting backslashes backwards is one run of the forward escape automaton |
| `JsonScan.SkipJsonString` | internal/proxy/parse.go:144-164 | equals the forward automaton on every byte string and start |
| `JsonScan.WalkContainer` | internal/proxy/parse.go:173-208 | the loop over the fixed closer array equals the recursive walk with a stack of closers |
| `JsonScan.SkipJsonValue` | internal/proxy/parse.go:166-217 | equals the specification function on every input, malformed ones included |
| `JsonScan.ScanRequestMeta` | internal/proxy/parse.go:60-129 | equals the envelope function on every input; the record logs every decoder call in order |
| `JsonGrammar.StringEnds` | internal/proxy/parse.go:144-164 | at any string of section 7 of RFC 8259 it returns exactly its end |
| `JsonGrammar.ValueEnds` | internal/proxy/parse.go:166-217 | at any value nested at most 64 deep it returns exactly its end |
| `JsonGrammar.ValueTooDeep` | internal/proxy/parse.go:185-196 | every deeper well-formed value is refused |
| `JsonGrammar.EnvelopeScanned` | internal/proxy/parse.go:60-129 | an object text is accepted if and only if its member values nest at most 64 deep and its escaped keys decode, and the decoded spans are exactly the top-level members that select a field, in order |
| `JsonGrammar.HitsArePrintedValues` | internal/proxy/parse.go:82-113 | each decoded span is the text of a top-level member value, never text inside one |
| `JsonGrammar.TrailingCommaAccepted` | internal/proxy/parse.go:66-73 | a comma after the last member is accepted |
| `JsonNames.EnvelopeFields` | internal/proxy/parse.go:82-115 | the spans decoded into Model, Stream, Priority and User are exactly the values of the top-level members whose key is, or decodes to, "model", "stream", "priority" and "user", in the order of the text |
| `JsonNames.AcceptedHasForm` | internal/proxy/parse.go:60-129 | every accepted text, well-formed or not, is an opening brace, members with string, colon, value and separating comma, and a closing brace, with only white space around |
| `JsonNames.WrongCloserRefused` | internal/proxy/parse.go:197-204 | an array closed by a brace or an object closed by a bracket is refused |
| `Ring.SortPoints` | internal/scheduler/ring.go:34-43 | sorted and the same points |
| `Ring.BuildRing` | internal/scheduler/ring.go:34-43 | a sorted ring with exactly the points of every backend of the pool, 64 for each |
| `Ring.Search` | internal/scheduler/ring.go:50-51 | the first position whose hash is not below the key's |
| `Ring.Get` | internal/scheduler/ring.go:46-59 | the owner of the clockwise nearest allowed point; nothing exactly if nobody is allowed |
| `Ring.ChoiceIsClockwise` | internal/scheduler/ring.go:46-59 | the choice owns the least point at or after the key's hash among those allowed, or else the least of all |
| `Ring.DistinctHashesExist` | internal/scheduler/ring.go:27-43 | for every pool whose virtual nodes fit 64 bits there are hashes that meet the assumptions |
| `Ring.ChoiceUnique` | internal/scheduler/ring.go:46-59 | with distinct points the choice does not depend on which sorted ring was built |
| `Ring.SubPoolIsSkipping` | internal/scheduler/scheduler.go:318-325 | lookup on the ring of a sub-pool is lookup on the full ring skipping the others |
| `Ring.FewerIdsSameChoice` | internal/scheduler/scheduler.go:318-325 | taking backends out of service moves only the keys that chose them |
| `Ring.MinimalDisruption` | internal/scheduler/ring.go:34-59 | with distinct points, rebuilding the ring without a backend moves exactly the keys that had chosen it |
| `RingCache.SameInstances` | internal/scheduler/scheduler.go:273-283 | true exactly for equal sequences of instances |
| `RingCache.Scheduler.RingFor` | internal/scheduler/scheduler.go:301-316 | the ring returned is one of the current pool, whatever the signature collides with |
| `RingCache.Scheduler.PickHashStable` | internal/scheduler/scheduler.go:292-326 | the answer is the choice of a freshly built ring and a current candidate |
| `RingCache.AnyCalls` | internal/scheduler/scheduler.go:292-326 | over any sequence of calls and pool replacements every answer is a candidate and a choice of an uncached ring, the only one when the pool's points are distinct |
| `Candidates.Filter` | internal/scheduler/scheduler.go:142-156 | in pool order, exactly the backends that are not excluded, available and below their concurrency limit |
| `Candidates.PickAmong` | internal/scheduler/scheduler.go:142-192 | only a candidate is picked; no candidates, no pick; a single candidate is picked; among several exactly the strategy's choice |
| `Registry.WithoutPool` | internal/backend/registry.go:316-324 | a fresh pool without the instance; the old array is untouched |
| `RegistryState.WithoutConcat` | internal/backend/registry.go:316-324 | removal works element by element, so the rest keeps its order |
| `Registry.WithBackend` | internal/backend/registry.go:328-338 | a fresh pool with the instance once; the old array is untouched |
| `Registry.Registry.RemoveLocked` | internal/backend/registry.go:286-304 | the instance leaves map, list and every pool; nothing else changes |
| `Registry.Registry.UpsertBackend` | internal/backend/registry.go:227-269 | succeeds exactly for a good URL and a non-empty list of existing routes outside PD; member by member, the old instance of the id leaves and the new one enters the list and the pools of its routes; an error leaves everything as it was |
| `Registry.Registry.AddBackend` | internal/backend/registry.go:215-222 | a taken id or a failed check changes nothing |
| `Registry.Registry.RemoveBackend` | internal/backend/registry.go:273-282 | the instance leaves map, list and pools and nobody else moves; an unknown id changes nothing |
| `RegistryState.RemoveKeepsInv` | internal/backend/registry.go:286-304 | removal keeps: map and list agree, pools hold registered instances only, a split route's pool is the union of its sub-pools |
| `RegistryState.UpsertKeepsInv` | internal/backend/registry.go:235-269 | an upsert keeps the same invariant |
| `RegistryInit.Absorb` | internal/backend/registry.go:154-170 | the pool is followed by what is new in the sub-pool, in order; members are the union and no duplicate arises |
| `RegistryInit.NewRegistry` | internal/backend/registry.go:127-181 | the initial registry satisfies the invariant, its list and every pool hold exactly the configured instances in order, or a malformed URL is reported |
| `Reconcile.CompareLabels` | internal/reconcile/reconcile.go:156-166 | the loop decides the lookup-based comparison |
| `Reconcile.LabelsEqualIsEquality` | internal/reconcile/reconcile.go:156-166 | the comparison decides equality against every other set if and only if there are no empty values |
| `Reconcile.PoolHas` | internal/reconcile/reconcile.go:169-176 | membership |
| `Reconcile.BackendSynced` | internal/reconcile/reconcile.go:110-133 | decides the comparison that `Reconcile.SyncedIff` characterises |
| `Reconcile.SyncedIff` | internal/reconcile/reconcile.go:110-166 | true exactly if the instance of the id has the row's configuration, its labels read with missing ones as empty, and sits in the pool of every named route |
| `Reconcile.InForceIsEqual` | internal/reconcile/reconcile.go:110-166 | with no empty label stored, that means exactly the row's configuration |
| `Reconcile.UpsertSyncs` | internal/reconcile/reconcile.go:85-95 | an upserted row is in sync if and only if its weight is positive |
| `Reconcile.UnnormalisedNeverSynced` | internal/backend/backend.go:106-111 | no registry of normalised instances ever matches a row with a weight that is not positive |
| `Reconcile.UpsertKeepsOthers` | internal/reconcile/reconcile.go:85-95 | applying one row puts no other row in or out of sync |
| `Reconcile.ReconcileBackends` | internal/reconcile/reconcile.go:83-105 | every row with existing routes outside PD, a good URL and a positive weight is in force afterwards; its old instance is kept if and only if the row was in force before; exactly the backends in neither rows nor baseline are gone |
| `Reconcile.SecondRoundIsNoOp` | internal/reconcile/reconcile.go:83-105 | a second round changes no pool and no instance |
| `Slots.StepKeepsInv` | internal/backend/backend.go:139-149 | every step keeps: the counter is the number of threads inside, and those entitled to a slot never exceed the limit |
| `Slots.HoldersNeverExceedMax` | internal/backend/backend.go:139-149 | at every step of every interleaving holders stay within MaxConcurrency; the counter is zero exactly when all are idle |
| `Slots.AcquireSucceedsIff` | internal/backend/backend.go:139-146 | an acquire succeeds exactly if its add returned at most MaxConcurrency or there is no limit; else the add is undone |
| `Slots.RoomMeansSlot` | internal/backend/backend.go:139-146 | a thread that adds while fewer than MaxConcurrency are inside ends up holding a slot, whatever the others do |
| `Queue.ClassTable.EnterClass` | internal/queue/queue.go:70-74 | one more in that class, the others unchanged |
| `Queue.ClassTable.LeaveClass` | internal/queue/queue.go:76-82 | one less; a class that reaches zero disappears |
| `Queue.StepKeepsInv` | internal/queue/queue.go:110-146 | every step keeps all counters exact and the entitled calls within the depth |
| `Queue.QueueIsBounded` | internal/queue/queue.go:110-146 | registered waiters <= sum of class depths <= admitted <= maximal depth, at every step |
| `Queue.QueueEndsEmpty` | internal/queue/queue.go:110-146 | when all calls have returned every counter is zero and no class is left |
| `Queue.AdmittedIff` | internal/queue/queue.go:110-118 | a call is admitted exactly if its add returned at most the maximal depth; else the add is undone |
| `PdAttempt.LedgerKept` | internal/proxy/pdproxy.go:151-195 | every step keeps: what the thread or a goroutine still has to release is unreleased, everything else was released once |
| `PdAttempt.NeverReleasedTwice` | internal/proxy/pdproxy.go:298-368 | in every interleaving no acquire is released twice |
| `PdAttempt.EverythingReturned` | internal/proxy/pdproxy.go:151-195 | once the request and its goroutines have exited every acquire was released exactly once and all counters are back |
| `PdAttempt.NewAttemptStartsClean` | internal/proxy/pdproxy.go:97-130 | a new attempt starts only after earlier prefill calls exited or their join timed out, and nothing else is held |
| `PdPick.Group.PickDecode` | internal/pd/pd.go:150-177 | a feasible link of the prefill instance with the least score, or none exactly if no link leads to a known decode instance that may be used |
| `PdPick.Group.BestIsUndominated` | internal/pd/pd.go:165-171 | no feasible link has less load plus congestion than the picked one; one with less load has more congestion and the other way round |
| `PdPick.Group.PickPreferred` | internal/pd/pd.go:124-147 | picks exactly if there is a prefill instance (the sticky one if it may be used, else the scheduler's) with a link to a usable decode instance; the pair is joined by the returned link, neither side is excluded, the decode has the least score |
| `PdServe.FailureExcludes` | internal/proxy/pdproxy.go:117-124 | a failed attempt enlarges exactly one exclude set by exactly one id |
| `PdServe.ServePD` | internal/proxy/pdproxy.go:97-130 | no instance is used again on the side it failed on; the loop gives up only after retries + 1 attempts or when nothing can be picked any more; the failures are as many as the excluded ids |
| `Rollout.WeightsAddUp` | internal/rollout/rollout.go:368-382 | the others get non-negative shares that add up to what the canary leaves |
| `Rollout.OthersProportional` | internal/rollout/rollout.go:368-382 | the others share in proportion to their configured weights, or equally if these are all zero |
| `Rollout.Rollout.ApplyWeights` | internal/rollout/rollout.go:368-382 | sets the canary's weight and everybody else's share of the rest |
| `Rollout.Rollout.StartRollout` | internal/rollout/rollout.go:341-354 | first step and its canary weight, with the interval starting now |
| `Rollout.Rollout.TickOne` | internal/rollout/rollout.go:291-338 | a rollback fails at once; otherwise nothing changes before the interval is over or without the promote verdict; then exactly the next step, or completion after the last; each with its event |
| `Rollout.Rollout.ApplyStep` | internal/rollout/rollout.go:158-191 | phase, step and canary weight of the event, a running step starting its interval now; a step out of range is an error that changes nothing |
| `Rollout.TickPublishes` | internal/rollout/rollout.go:291-338 | a tick changes nothing visible, or publishes the event that describes its new view |
| `Rollout.ApplyFollows` | internal/rollout/rollout.go:158-191 | applying a published event gives the view of its publisher |
| `RolloutCluster.StepKeepsInv` | internal/rollout/rollout.go:158-202 | every step, resets on any instance and late publications included, keeps that a member shows the view of the change its state stems from |
| `RolloutCluster.StartedWeights` | internal/rollout/rollout.go:291-382 | in every run weights are non-negative and add up to 100; the canary's is its step's while running and 0 once failed |
| `RolloutCluster.TicksInRuns` | internal/rollout/rollout.go:291-338 | in every run a rollback takes effect at once whatever promote says, and a promotion needs the verdict and the interval and leads exactly to the next step or to completion |
| `RolloutCluster.PromotionWaits` | internal/rollout/rollout.go:313-332 | a promotion comes at least an interval after whatever last moved the instance: a promotion, a reset or a message |
| `RolloutCluster.EveryViewWasMade` | internal/rollout/rollout.go:158-191 | whatever is lost or reordered, an instance shows the common start or a view some instance made by its own tick or reset |
| `RolloutCluster.FollowerShowsEarlierLeader` | internal/rollout/rollout.go:158-191 | a state that stems from a change of the leader is one the leader showed before or shows now |
| `RolloutCluster.NewestMessageAgrees` | internal/rollout/rollout.go:158-202 | after the newest broadcast arrives the receiver agrees with its publisher if and only if the change the publisher's state stems from has the announced phase and step |
| `RolloutCluster.LatestBroadcastConverges` | internal/rollout/rollout.go:158-202 | if the publisher's state stems from its own change: agreement if and only if that change is announced or both are resets |
| `RolloutCluster.LateResetBroadcast` | internal/rollout/rollout.go:341-354 | a run in which the late broadcast of a reset leaves a follower running while the publisher has failed |
| `RolloutCluster.ResetOnFollower` | internal/rollout/rollout.go:356-364 | a run in which a reset follower runs and the leader never did |
| `PickSplit.Walk` | internal/backend/registry.go:99-105 | with separate readings for subtracting and comparing: the first sub-pool at which the draw is used up and the weight reads positive, else the last one |
| `PickSplit.Pick` | internal/backend/registry.go:87-106 | none exactly if the readings of the sum are all zero; else the walk with the draw scaled by that sum |
| `PickSplit.FallbackIff` | internal/backend/registry.go:99-105 | the walk falls through if and only if the draw exceeds the sum of the weights it reads or that sum is zero |
| `PickSplit.FallbackIffSeparate` | internal/backend/registry.go:99-105 | with separate readings: if and only if the draw lies beyond the last weight that reads positive |
| `PickSplit.ZeroPickedIff` | internal/backend/registry.go:99-105 | a sub-pool whose weight read zero is answered if and only if it is the last one and the walk falls through |
| `PickSplit.SteadyPick` | internal/backend/registry.go:87-106 | when no weight changes during the call: none exactly if all weights are zero, else the sub-pool whose interval holds the draw |
| `PickSplit.SteadyShare` | internal/backend/registry.go:98-104 | in terms of the random number: a sub-pool is answered exactly on an interval as long as its weight divided by the sum |
| `PickSplit.HitsUnique` | internal/backend/registry.go:87-106 | no draw selects two sub-pools |
| `PickSplit.IntervalLength` | internal/backend/registry.go:99-104 | the draws that select a sub-pool form an interval as long as its weight |
| `PickSplit.RolledBackNeverPicked` | internal/rollout/rollout.go:303-312 | in every run a call that overlaps no weight change never answers the canary of a rolled-back rollout |
| `PickSplit.OverlappedPickIff` | internal/rollout/rollout.go:368-382 | a call that sums before a rollback and walks after its first store answers a canary in last place if and only if the draw lies beyond the others or they weigh nothing |
| `PickSplit.OverlappedPickHappens` | internal/rollout/rollout.go:368-382 | at every step of every rollout some draw does that |
| `Alerts.Notifier.DedupeSkip` | internal/alerting/notifier.go:83-103 | whether an event is withheld, and the exact new window table |
| `Alerts.Notifier.Send` | internal/alerting/notifier.go:113-118 | passes exactly the events not withheld |
| `Alerts.Engine.ResetStates` | internal/alerting/rules.go:98-110 | no alert is left |
| `Alerts.Engine.EvalInstance` | internal/alerting/rules.go:151-199 | the exact new alerts, the event handed on and whether it passed; an evaluation error changes nothing; the result is whether the alert fires now |
| `Alerts.Drive` | internal/alerting/rules.go:76-132 | any run of the two objects yields exactly the trace of passed events the theorems speak of |
| `AlertRuns.StateMeans` | internal/alerting/rules.go:151-199 | an alert exists exactly while a stretch of truth is unbroken, dates from its start, and fires exactly if some evaluation in it came `for` after the start |
| `AlertRuns.FiringWasHeld` | internal/alerting/rules.go:183-197 | every firing under a key had truth for at least `for` at every evaluation that gave a value, with no reset between |
| `AlertEvents.FiresIff` | internal/alerting/rules.go:183-197 | an evaluation fires if and only if it is true and the stretch has lasted `for` with no firing yet, or the last firing lies a positive repeat interval back |
| `AlertEvents.ResolvesIff` | internal/alerting/rules.go:173-181 | an evaluation resolves if and only if it is false and ends a stretch that had lasted |
| `AlertRuns.DedupeMeans` | internal/alerting/notifier.go:83-103 | the window table holds exactly the newest unresolved passed firing of each key |
| `AlertRuns.WithheldIff` | internal/alerting/notifier.go:83-103 | a firing is withheld if and only if an unresolved one passed less than a window before |
| `AlertRuns.FiringsAreAWindowApart` | internal/alerting/notifier.go:83-103 | two passed firings without a resolved between them are at least a window apart |
| `AlertTraces.ResolvedFollowsFiring` | internal/alerting/rules.go:173-181 | every resolved passes, and a firing of its key passed since the previous resolved |
| `AlertTraces.RepeatsAreSpaced` | internal/alerting/rules.go:194-197 | within one stretch firings are a positive repeat interval apart |
| `AlertTraces.FiringHeldIff` | internal/alerting/rules.go:162-197 | per rule and instance, firing implies truth for `for` in every run if and only if no colliding key can start or repeat the alert |
| `AlertTraces.AnnouncedIff` | internal/alerting/rules.go:162-181 | per rule and instance, resolved follows a passed firing in every run if and only if no other pair has the same key |
| `AlertTraces.ShownFiringsApart` | internal/alerting/notifier.go:83-103 | per rule and instance with a key of its own, passed firings without a resolved between are a window apart |
| `AlertTraces.LongHoldKeepsApart` | internal/alerting/rules.go:183-197 | with `for` no shorter than the window, passed firings stay a window apart even when other pairs share the key |
| `AlertTraces.ApartIff` | internal/alerting/notifier.go:83-103 | per rule and instance, passed firings without a resolved between are a window apart in every run on one clock if and only if no other pair has the same key or `for` is no shorter than the window |
| `AlertTraces.NoBarMeansAlone` | internal/alerting/rules.go:162 | rule names without a bar never share a key |

## Left out

- HTTP forwarding, SSE streaming, tracing, header copying, deadlines: input and output around the modelled protocols.
- Redis, SQL, Prometheus, the rate limiter and the expression machine: expression results, clocks, random draws and instance states are parameters; Redis is an atomic store.
- Concrete hash values: hash and signature functions are parameters; where the choice has to be unique, the points of the pool are assumed distinct because the sort is not stable.
- Floating-point rounding: weights and scores are reals.
- Key and value decoding: the decoder of escaped keys is a parameter, values are recorded as spans handed to the decoder; configuration loading is out.
- Millisecond truncation of the lease length, and drift between clocks: one clock for all instances.
- Radix.Tree.SweepNode: models `pruneNode` and `removeOwner` by one traversal with a filter, since they differ only in which owners they drop.
- Mirror.MergedContentStable: takes a replay round as one step that reads every snapshot and is observed before the next round starts, with policies and backends in one map with tagged keys; a publish between the snapshot read and the replay, and content that changes back and forth under loss, are outside.
- Registry.Registry.UpsertBackend: keeps the pool pointers of all routes and splits in one map of immutable arrays; the removal hook and URL normalisation are not modelled, a URL is valid or not by a parameter.
- Reconcile.BackendSynced: containment in the named routes only, as in the code; surplus routes are not detected there either.
- RingCache.AnyCalls: pools are value sequences; that a published pool array never changes afterwards is what `Registry.WithoutPool` and `Registry.WithBackend` state.
- AlertTraces.ApartIff: evaluating an alert and sending its event take no time, so both read the same clock value.
- PdAttempt.EverythingReturned: takes `TryAcquire` as one step; its interleavings are the subject of `Slots`.
- Queue.QueueIsBounded: accounting only; a signal can fall between registering and taking the channel, and polling covers that.
- RolloutCluster.NewestMessageAgrees: compares state and weights, because the step index differs at completion between leader and follower; a failed publication is a message that reaches nobody.
- RolloutCluster.StepKeepsInv: takes the stores of one weight change as one step; a reader in between is the subject of `PickSplit.OverlappedPickIff`.
- Candidates.PickAmong: the strategies themselves are a parameter that answers with a position.
- Sample windows of a rollout, webhook queues and retries, duplicate targets, firing counts: they do not influence the modelled state machines.
- Failure counting and ejection (`MarkFailure`, `Available`), weighted and expression strategies, the session store, metrics, admin interface, autoscaler and console: easy or presentational.
