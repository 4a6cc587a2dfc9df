# Dafny model of the state machine library

This project models four parts of the library and proves properties of them for
every input, every run and every interleaving.

**The FIFO scheduler** (`src/scheduler.rs`). `Fifo.dfy` is a step system: every
region that runs under the queue lock, the machine lock, a ticket's lock or a
waiter's lock is one act, each caller has a program counter, and any caller may
act between two acts of another, including one that re-enters its machine from
inside a step. The machine is an arbitrary function from a machine and an event
to a return or a panic. `FifoQueue.dfy` has the locked regions as functions and,
on the ring buffer, as methods of a class. `FifoOrder.dfy`, `FifoTickets.dfy` and
`FifoWakeups.dfy` prove what every act keeps; `FifoTheorems.dfy`,
`FifoAdmission.dfy` and `FifoUnwound.dfy` state what follows for every run.

**Run-to-completion of generated machines** (`macros/src/composite_codegen.rs`,
`macros/src/orthogonal_codegen.rs`, `macros/src/codegen.rs`). The emitted bodies
are modelled over an abstract table, with guards and callbacks that may answer
and fail in any way. `Lifecycle.dfy`, `ExitWalk.dfy` and `Reentry.dfy` cover exits,
entries and the exit-skip tokens; `Stabilize.dfy` the recovering loop of orthogonal
machines with settle sites and `TreeStabilize.dfy` the same loop over a tree;
`TwoLevel.dfy` dispatch, recovery and completion of a machine with one nested child.
`EntryStates.dfy`, `StabilizeRules.dfy`, `TreeRules.dfy` and `TwoLevelRules.dfy` say,
step by step and without the recursion, which row decides and what it leaves.
`LifecycleCode`, `StabilizeCode` and `TwoLevelCode` are class forms with the generated
fields and loops, proved equal to the functions.

**Bounded queues** (`src/utility.rs`). `Ring.dfy` is the two-ended array ring;
`QueuedDispatch.dfy` the dispatcher on top of it, with callbacks that defer and
process as they like, and `QueueOrder.dfy` the order in which it offers events.

**The front end** (`macros/src/parser`, `macros/src/validation.rs` and the table
analysis of the generators). `Guards.dfy` has the guard parser, the printer and
the meaning of the emitted tokens; `Regions.dfy` region discovery; `Tables.dfy`
wildcard expansion, validation and the dispatch of what they let through;
`Trees.dfy`, `Sites.dfy` and `TreeSites.dfy` the tree of composite tables and its
settle sites.

Five places where the code does not do what it is for are stated with their exact
condition, and with an input that shows them:

- A guard with `||` at its root is spliced without parentheses into
  `!handled && dispatch && guard`, so that its later operands are not guarded by
  `handled`. The splice is faithful exactly if the root is not `||`, or no row ran
  before and the policy accepts the row (`Guards.SpliceIsFaithful`,
  `Guards.HandledRowRunsAgain`). The flat lowering is not affected.
- The comments in `src/scheduler.rs` promise `false` only to the caller whose
  event panicked. A completion whose own poll runs another caller's panicking
  event also reports `false`, although its event is still queued and may be
  accepted later (`FifoUnwound.AnswerIsResultUnlessUnwound`,
  `FifoUnwound.UnwoundPollMisreports`).
- The comments on the exit-skip token promise exactly one exit for each entry, of a
  slot and its subtree. A row between two composite states exits and enters no
  child, and a child that moves while an enclosing token is set is not exited with
  its parent. Which rows keep the promise is exact (`Reentry.TidyExactly`); both
  failures have an input (`Reentry.CompositeRowMisreports`,
  `Reentry.MoveUnderTokenMisreports`).
- The comments on `stabilize` say that a settled mark belongs to the occupancy it
  was set in. Completion rows clear no marks, so a child settled in `X`, because a
  callback failed after `X` was entered, keeps its mark when its parent leaves and
  re-enters it (`TreeStabilize.MarksAreExact`, `TreeStabilize.PassMarks`,
  `TreeStabilize.StaleMarkSuppresses`).
- A nested table that only a wildcard row names is in no region, so its settle sites
  are on no region's path (`TreeSites.RegionPathsPartition`,
  `TreeSites.WildcardChildIsUnplaced`).

Conventions: a spec function and the method that computes it have the same name,
the method in a class. `usize` is a natural number with an explicit largest value
where saturation matters. `dafny verify dfyconfig.toml` checks the project.

## Model

| member | source | states |
|---|---|---|
| FifoTheorems.FifoRefinesSequential | src/scheduler.rs:425-498 | In every state of every interleaving the results are those of one sequential run of the accepted events in accept order, the machine is the one that run leaves after the finished events, and every resolved ticket and every answer of a poll says what that run says; panicking events and events after closing are refused |
| FifoTheorems.IdleIsSequential | src/scheduler.rs:465-492 | When nobody drains and nothing is queued, machine, results and `terminated` are exactly those of the sequential run of all accepted events |
| FifoTheorems.EventsConserved | src/scheduler.rs:425-492 | The accept log is the finished events, at most one event in flight, and then the ring in order, also across the hand-off and the stranding branch; the ring never holds more than its capacity |
| FifoTheorems.TicketsConserved | src/scheduler.rs:306-372 | A ticket is unresolved exactly while its event is in the ring or in flight, `Pending` holds it, or the unwinding drainer has it among the stranded ones, and only one of these is ever true |
| FifoTheorems.ResolvedOnce | src/scheduler.rs:284-294 | Whoever resolves a ticket finds it unresolved, and no later step of any caller changes its result |
| FifoTheorems.AcceptedOnce | src/scheduler.rs:425-463 | No completion's event is accepted twice, refused and waiting events are not in the accept order, and the order holds the events that were submitted |
| FifoTheorems.SingleConsumer | src/scheduler.rs:440-482 | `draining` is set exactly while one caller is inside `drain` or unwinding from it, and never two are |
| FifoTheorems.OfferInsideAStepOnlyQueues | src/scheduler.rs:430-446 | An event offered while a step runs, from inside it or not, is only queued or reported full, and it is reported full exactly if as many accepted events as the queue can hold wait behind the one that runs |
| FifoAdmission.RefusedExactly | src/scheduler.rs:426-437 | In every state of every run: an offer is refused exactly if the queue is closed, and then the machine has finished; it finds no room exactly if the queue is open, somebody drains, and the accepted events neither finished nor in flight number the capacity |
| FifoAdmission.OffersAreSettled | src/scheduler.rs:425-463 | What an offer comes to, in every run: refused, it is reported `false`; without room, `try_submit` gets it back, a completion keeps it and a polled one is registered; neither changes machine, accept order or ring. Otherwise it is last in the accept order, and its caller gets its ticket if somebody drains, or else drains itself, beginning with the oldest event that is not finished |
| FifoTheorems.NoDeadlock | src/scheduler.rs:347-372 | Every call can always take its next step: whoever wants the machine lock finds it free |
| FifoTheorems.DrainEnds | src/scheduler.rs:471-492 | Left alone, a draining caller passes at most `Fuel` locked regions, whatever steps return or panic |
| FifoTheorems.ClosingIsPermanent | src/scheduler.rs:347-371 | `terminated` never goes back, and once a step reported terminated or the start failed no step runs and the machine stays as it is |
| FifoTheorems.RestingCell | src/scheduler.rs:347-371 | With nobody draining the cell is closed exactly if the machine has finished, and then its ring is empty, also after a step that panicked into `X` |
| FifoTheorems.NoLostWakeup | src/scheduler.rs:518-573 | A completion whose last poll was pending was woken since, or its waker is in a caller's hand, or it is registered while someone drains or on a drainer's list, or its waker sits in a ticket someone still has to resolve |
| FifoTheorems.RoomIsLive | src/scheduler.rs:430-437 | The waiting list has no duplicates, only completions that wait for room, and is empty while nobody drains |
| FifoTheorems.RunKeepsInv | src/scheduler.rs:395-498 | Every state of every run satisfies the joint invariant on order, tickets, answers, waiting list and wake-ups |
| FifoTheorems.StepKeepsInv | src/scheduler.rs:425-573 | Every locked region of every caller keeps that invariant |
| FifoOrder.ClosedRun | src/scheduler.rs:313-331 | Sequential reference: once closed, every further event is refused and the machine is left alone |
| FifoOrder.OfferOrdered | src/scheduler.rs:425-461 | Each branch of `offer` keeps the accept order, including the one that queues behind events an unwound drainer left |
| FifoOrder.ReleaseOrdered | src/scheduler.rs:347-365 | Handing draining on keeps the order; stranding finishes the rest of the ring as refused |
| FifoUnwound.AnswerIsResultUnlessUnwound | src/scheduler.rs:545-573 | What a completion reports is its event's result in the sequential run of the accept order, except exactly when a poll of that completion was running the drain as a step panicked and the sequential run accepts its event |
| FifoUnwound.RunTells | src/scheduler.rs:545-573 | In every state of every run: a completion's call is unwinding through its poll, or holds or has reported the answer of such a poll, exactly if an earlier poll of it ran a step that panicked |
| FifoUnwound.UnwoundPollMisreports | src/scheduler.rs:545-573 | There is a run in which a completion reports `false` although its event was accepted |
| FifoCell.SharedQueue.Offer | src/scheduler.rs:425-459 | The locked part of `offer` does what the protocol step does, answers full exactly if the queue is open, somebody drains and the ring holds its capacity, and neither `defer` into a checked free slot fails |
| FifoCell.SharedQueue.TakeNext | src/scheduler.rs:474-481 | The locked part of one turn of `drain`: publish `terminated`, take the oldest event and all waiters, or stop draining |
| FifoCell.SharedQueue.HandOff | src/scheduler.rs:352-364 | The locked part of unwinding: draining ends, and a closed queue gives up all its events in order |
| FifoCell.SharedQueue.Forget | src/scheduler.rs:520-525 | Withdrawing a registration removes that waiter and keeps the others in order |
| FifoQueue.Without | src/scheduler.rs:520-525 | What is left of a waiting list: exactly the other waiters, still without duplicates |
| Ring.EventQueue.Defer | src/utility.rs:196-213 | Appends to the sequence the ring stands for, or refuses exactly when it is full or has no capacity |
| Ring.EventQueue.Process | src/utility.rs:220-236 | Puts the event at the head of the sequence, or refuses exactly when full |
| Ring.EventQueue.Pop | src/utility.rs:239-252 | Takes the head of the sequence, `None` exactly when it is empty |
| Ring.EventQueue.Clear | src/utility.rs:254-256 | Empties the sequence; the loop ends |
| Ring.TailIsSlot | src/utility.rs:200-212 | The tail expression of `defer` is (head + len) mod N, and no saturating operation of the ring saturates |
| Ring.EventQueue.SlotIsModular | src/utility.rs:200-206 | The i-th oldest event is in slot (head + i) mod N |
| Ring.EventQueue.Run | src/utility.rs:161-257 | Any run of operations answers, and leaves the ring, like the run on a sequence of at most N events, for every N including 0 |
| Ring.RunsAreFifo | src/utility.rs:196-252 | Used with `defer` and `pop` alone the queue is first in, first out |
| Ring.RunsConserve | src/utility.rs:196-252 | Without `clear` no event is lost or doubled |
| QueuedDispatch.OneRetryEach | src/utility.rs:344-378 | A dispatch that ends leaves the process ring empty; after a state change each event in the deferred ring is offered exactly once, in ring order, and the ring then holds what was deferred since; offers plus events still queued are one plus those queued before and those granted meanwhile; all three counts of the summary, dispatched, handled and transitioned, are the numbers the log shows, capped at the largest `usize` |
| QueuedDispatch.DispatchEnds | src/utility.rs:344-378 | A dispatch ends if every `process` request is paid from a budget that callbacks never raise, however often events are deferred again |
| QueuedDispatch.EchoNeverEnds | src/utility.rs:367-378 | With a callback that processes its own event again, no number of pops is enough |
| QueuedDispatch.MoreFuelSameEnd | src/utility.rs:367-378 | The fuel of the model only decides whether a run is followed to its end, not where it ends |
| QueuedDispatchCode.EventQueues.Dispatch | src/utility.rs:344-365 | The method on the two array rings is the specified dispatch |
| QueuedDispatchCode.EventQueues.RetryDeferred | src/utility.rs:354-362 | One turn for each event deferred when the retries begin |
| QueuedDispatchCode.EventQueues.DrainProcessed | src/utility.rs:367-378 | Runs the process ring until it is empty |
| QueueOrder.DispatchInOrder | src/utility.rs:344-378 | The log of every dispatch that ends: the external event is offered first; from the process ring always the top of a stack on which granted events are put; a deferred event only when that stack is empty, and always the oldest; and the rings hold what the log leaves on stack and line |
| QueueOrder.GrantedExactly | src/utility.rs:196-236 | A request is granted exactly if its own ring has a slot; a refused one changes nothing |
| QueuedDispatchCode.EventQueues.Grant | src/utility.rs:319-330 | Deferring puts the event at the end of one ring, processing at the head of the other, and it is the specified request |
| Lifecycle.OneExitPerEntry | macros/src/composite_codegen.rs:4679-4705 | Over every run of rows with any callbacks failing: a slot's completed exits in its current occupancy number 1 if its token is set and 0 otherwise, no occupancy gets two, and one that a row of its own table ended got exactly one (for entries along with an enclosing state see `Reentry`) |
| Lifecycle.LeaveSound | macros/src/composite_codegen.rs:4518-4526 | When a row gets as far as replacing the state, its slot has exited exactly once, whether now or in an earlier attempt |
| Lifecycle.FreshIsSound | macros/src/composite_codegen.rs:1149-1160 | A new machine satisfies the exit invariant |
| Reentry.EveryReentryHasOneExit | macros/src/composite_codegen.rs:4679-4698 | Each entry gets exactly one exit, for nested slots too: over every run from an initialised machine, whichever callbacks fail, every entry of a slot after its first has exactly one completed exit since the entry before, and no inactive slot is left without its exit, if every row that runs satisfies `Keeps` |
| Reentry.SafeRunKeeps | macros/src/composite_codegen.rs:4518-4577 | `Keeps` holds for every row of a run in which no row goes from a composite state to a composite state and no external row of a nested slot runs while the token of an enclosing slot is set |
| Reentry.TidyExactly | macros/src/composite_codegen.rs:4509-4577 | The exact condition, row by row: a row of an active slot keeps the machine tidy (one exit between entries, nothing inactive without its exit, set tokens covering everything nested) if and only if it satisfies `Keeps`, whether it completes or fails |
| Reentry.RowStrands | macros/src/composite_codegen.rs:4518-4577 | A row that leaves its state while its token is set, or for a composite state, leaves every slot nested there that had not exited inactive without its exit |
| Reentry.InitializedIsTidy | macros/src/composite_codegen.rs:3456-3551 | The initial entry, however far it gets, leaves the machine tidy |
| Reentry.MoveUnderTokenMisreports | macros/src/composite_codegen.rs:4518-4541 | Witness without a row between composite states: a parent row fails after its exits, the child moves under the set token, the parent row succeeds and skips the child's exit; the child is then entered again with no exit since its last entry |
| Reentry.CompositeRowMisreports | macros/src/composite_codegen.rs:4559-4577 | Witness without a fault: after a row between two composite states the first one's child is entered again with no exit between, and the other's child is exited without having been entered |
| ExitWalk.RepeatedWalkIsOneWalk | macros/src/composite_codegen.rs:3591-3673 | However many times a failed exit hook makes recovery repeat an exit walk, the completed exits are those of one walk without faults, once each and in the same order |
| ExitWalk.WalkIsLeafToRoot | macros/src/composite_codegen.rs:3557-3673 | In a tree of scalar nodes of any depth the walk exits the active path from leaf to root |
| ExitWalk.EntryIsRootToLeaf | macros/src/composite_codegen.rs:3456-3551 | Entry runs the path it leads to from root to leaf and clears its tokens |
| ExitWalk.ExitsReverseEntries | macros/src/composite_codegen.rs:3456-3673 | Leaving what was entered completes exactly the reverse of the entries, however often the walk is repeated |
| ExitWalk.RowExitsPath | macros/src/composite_codegen.rs:4518-4574 | What a row's exits add: nothing if its token says they ran, the whole active path when a composite state is left for a plain one, its own slot alone otherwise |
| LifecycleCode.Core.Run | macros/src/composite_codegen.rs:4509-4541 | The emitted row body on state slots and tokens is the specified row |
| LifecycleCode.Core.Leave | macros/src/orthogonal_codegen.rs:1786-1800 | Exits, token and actions of a row before it replaces the state |
| LifecycleCode.Core.ExitAll | macros/src/orthogonal_codegen.rs:1062-1075 | The emitted exit walk over slots skips those whose token is set and sets the tokens of those that exit |
| EntryStates.EnteredStart | macros/src/composite_codegen.rs:3534-3551 | Entering a node, however far it gets: every slot that is entered holds its initial state, or with history the state it was left in; a slot that ends up elsewhere than it was belongs to the node or to the node of an entered slot; and an entry that completes entered the whole of them |
| EntryStates.RowInPhases | macros/src/composite_codegen.rs:4509-4541 | A row runs in phases and stops where a callback fails: exits, actions, replacement, own entry hook, nested entry; no state changes before the actions have succeeded, the token is set from the exits to the replacement, and an internal row changes nothing |
| EntryStates.NestedExitsFirst | macros/src/composite_codegen.rs:4518-4524 | Leaving a composite state for a plain one, the own exit hook runs once all nested exits completed |
| EntryStates.WalkInOrder | macros/src/composite_codegen.rs:3591-3673 | An exit walk takes the slots of a node in order: what is nested in a slot, its exit hook, then its note and token; a set token passes it over |
| EntryStates.EntryInOrder | macros/src/composite_codegen.rs:3456-3551 | An entry takes the slots of a node in order: token and note, its entry hook, then the node in its state |
| LifecycleCode.Core.EnterNode | macros/src/composite_codegen.rs:3525-3551 | The emitted entry is the specified one: states reset unless kept by history, then token, hook and nested entry slot by slot |
| Stabilize.TurnDescends | macros/src/composite_codegen.rs:3079-3134 | Every turn of the recovering loop that goes on lowers the rank sum of the regions, or keeps it and settles one more site: the faulting site was unsettled |
| Stabilize.StableOnReturn | macros/src/composite_codegen.rs:3016-3036 | For any table, cyclic ones included, and any number of turns: on return without error every unsettled region has no enabled completion row for the origin still current; a region is settled exactly if its latest note is a fault recovered without moving it, so it was neither left nor retried since |
| Stabilize.RunIsTurns | macros/src/composite_codegen.rs:3085-3134 | When completion and moving exception rows go down in rank, the loop is a finite sequence of such turns that ends in a return |
| StabilizeRules.CompletionsInTurn | macros/src/orthogonal_codegen.rs:2062-2101 | A completion pass gives every unsettled region its turn, in order, also after others have moved, up to the first that breaks; in each the first row that is not refused, the origin event's before the anonymous ones, decides alone from the context the regions before it left |
| StabilizeRules.EachRecovers | macros/src/orthogonal_codegen.rs:1909-1950 | A walk gives every region its turn with its own exception rows, whether or not another handled the fault; it is handled exactly if some row ran, progress is made exactly if the faulting region's row moved it, and the regions reported as left are exactly those that moved |
| StabilizeRules.TurnExactly | macros/src/composite_codegen.rs:3079-3134 | A turn goes on exactly if a completion ran or a fault was handled; with progress the origin is dropped, without it the faulting region is settled, and marks of regions that were left are gone; an unhandled fault or a failing handler is an error |
| StabilizeRules.OriginSpent | macros/src/composite_codegen.rs:3091-3095 | Over any number of turns the origin event is dropped exactly when a fault was recovered with progress |
| TreeStabilize.StableOnReturn | macros/src/composite_codegen.rs:2346-2397 | The loop over a tree of scalar nodes and region groups, for any table and any number of turns: on return without error no site of an active node has an enabled completion row, except those marked as settled |
| TreeStabilize.MarksOnReturn | macros/src/composite_codegen.rs:3016-3036 | The marks on return are exactly the sites whose latest note is a fault recovered without progress, neither tried again nor left since, if no completion row that ran left a settled site |
| TreeStabilize.PassMarks | macros/src/composite_codegen.rs:1942-1969 | From marks that are right, a completion pass leaves them right, or one of them stale exactly if one of its rows leaves a settled site |
| TreeStabilize.MarksAreExact | macros/src/composite_codegen.rs:3027-3036 | If the `X` states are final (nothing is nested in them, no completion row leaves them, no callback can fail once one was entered) and composite states complete only when terminal, then no completion row ever leaves a settled site, in any run, and the marks are exact |
| TreeStabilize.StaleMarkSuppresses | macros/src/composite_codegen.rs:3033-3036 | Witness: the entry hook of a child's `X` fails and is recovered without progress, the parent leaves the child and comes back, and its mark stays: the loop returns with an enabled completion row in an occupancy that began after the fault |
| TreeStabilize.WithoutItPairIsGated | macros/src/composite_codegen.rs:3027-3036 | With a hook that does not fail, the table of that witness meets the conditions under which the marks are exact |
| TreeRules.FirstNodeCompletes | macros/src/composite_codegen.rs:2386-2397 | In a completion step the first active node, deepest first, with an enabled row of an unsettled site is the only one that runs; all its sites have their turn |
| TreeRules.NodesTakePart | macros/src/composite_codegen.rs:1958-1969 | In a walk every active region group recovers, each region on its own; a scalar node takes part only if nobody has handled the fault; progress is made exactly by a site that moved with the faulting one on its path, and everything on the path of a site that moved is left |
| TreeRules.TurnExactly | macros/src/composite_codegen.rs:3079-3134 | What a turn makes of that, for origin and marks |
| StabilizeCode.Machine.Run | macros/src/composite_codegen.rs:3079-3134 | The emitted loop ends for every choice of guard and action outcomes and computes the specified outcome |
| StabilizeCode.Machine.CompletionPass | macros/src/orthogonal_codegen.rs:2073-2101 | The completion step tries every unsettled region in order and stops at the first fault |
| StabilizeCode.Machine.ExceptionWalk | macros/src/orthogonal_codegen.rs:1909-1950 | Every region recovers on its own; only a move of the faulting region is progress, and regions that moved are recorded |
| StabilizeCode.Machine.ClearExited | macros/src/composite_codegen.rs:3085-3090 | Marks of sites whose occupancy was left are cleared and no others |
| TwoLevel.ChildFirst | macros/src/composite_codegen.rs:680-731 | At most one row runs: the first candidate of the active child's arm that is not turned down decides alone, and only if there is none the parent's arm decides, on the same configuration |
| TwoLevel.HandledTypesAreVisited | macros/src/composite_codegen.rs:303-383 | A static payload type whose non-wildcard event row ran is one that `visit_current_events` reports for the configuration before the dispatch |
| TwoLevel.VisitedTypesHaveCandidates | macros/src/composite_codegen.rs:303-383 | Conversely, a payload type reported because of an event row is that of a candidate in the current arm of the active child or the parent |
| TwoLevel.TurnDescends | macros/src/composite_codegen.rs:3094-3134 | Without settle sites every turn that goes on lowers the parent's rank, or keeps the parent and lowers the child's |
| TwoLevel.StableIsQuiet | macros/src/composite_codegen.rs:662-681 | For any machine, cyclic ones included, and any number of turns: when `stabilize` ends stable, no completion row of the active child or the parent is enabled for the origin still current |
| TwoLevel.RunIsTurns | macros/src/composite_codegen.rs:3094-3134 | When completion and moving exception rows go down in rank, the loop is a finite sequence of such turns that ends in a return |
| TwoLevel.InvalidExactly | macros/src/composite_codegen.rs:680-782 | An event is `InvalidEvent` exactly if all its candidates, of the active child and of the parent, were turned down, and then nothing changed |
| TwoLevel.EventsRunToCompletion | macros/src/composite_codegen.rs:680-782 | For any machine: a processed event whose turns end stable leaves no completion row enabled, for the event itself or for no origin once a fault was recovered |
| TwoLevelCode.Core.Process | macros/src/composite_codegen.rs:758-782 | The emitted body of one event for any machine: dispatch, recovery, then turns of `stabilize`, which are the specified ones, up to a given number |
| TwoLevelCode.Core.Dispatch | macros/src/composite_codegen.rs:728-731 | The emitted child-first dispatch is the specified one |
| TwoLevelCode.Core.Run | macros/src/composite_codegen.rs:3094-3134 | The emitted loop without settle sites ends and computes the specified ending |
| TwoLevelRules.RecoveryInnermost | macros/src/composite_codegen.rs:656-662 | The first exception row of the active child that is not turned down decides alone; if there is none, the parent's first live one does, on the same configuration; the fault is unhandled exactly if all were turned down, and what is reported is whether the row that ran moved |
| TwoLevelRules.ExceptionRowsExactly | macros/src/composite_codegen.rs:4597-4616 | The exception rows of a state are the typed ones, then those for any fault, each in table order |
| TwoLevelRules.CompletionInnermost | macros/src/composite_codegen.rs:662-681 | The completion step likewise: the active child's first live completion row, or without one the parent's |
| TwoLevelRules.CompletionRowsExactly | macros/src/composite_codegen.rs:4738-4805 | The completion rows of a state are those for the origin event, then the anonymous ones; the composite state has none until the child is in `X` |
| TwoLevelRules.ArmExactly | macros/src/composite_codegen.rs:4200-4322 | The candidates of an event are all rows of the state for it, in table order; without any, its first `unexpected` row alone, or else the first for any unexpected event |
| TwoLevelRules.RowExactly | macros/src/composite_codegen.rs:4509-4541 | What the deciding row does: a failing guard or early callback leaves both states, a later failure leaves the move done, and the child starts over, or stays as it was with history, exactly if its parent came into the composite state and the entry hook there did not fail |
| TwoLevelRules.TurnedDownExactly | macros/src/composite_codegen.rs:4542-4546 | A row is turned down by its guard, or, only if it is an event's, by the policy |
| TwoLevelRules.TurnExactly | macros/src/composite_codegen.rs:3094-3134 | A turn goes on exactly if a completion row ran, keeping the origin, or a fault was recovered by a moving row, dropping it; it returns stable exactly if all completion rows were turned down |
| TwoLevelRules.BeginExactly | macros/src/composite_codegen.rs:758-782 | A fault in the dispatch of an event is recovered with no origin left, or is an error |
| TwoLevelCode.Core.Recover | macros/src/composite_codegen.rs:656-661 | The emitted walk is the specified one, innermost first |
| Guards.ParseInvertsPrint | macros/src/parser/transition.rs:195-318 | The guard parser accepts exactly the printed forms of the trees in which both operators associate to the left, conjunction binds tighter and `!` takes one primary, and it reads them back with parentheses and `async` kept |
| Guards.PrintIsInjective | macros/src/parser/transition.rs:209-236 | No token sequence is the printed form of two guards |
| Guards.ReadsBack | macros/src/codegen.rs:1100-1133 | Read under the Rust Reference, section "Expression precedence", the emitted tokens of a parsed guard are that guard's tree |
| Guards.EvalIsTheFormula | macros/src/codegen.rs:1100-1133 | Evaluation calls the guards in the order they are written, each at most once and at least one, and its verdict is the truth of the formula under the answers given |
| Guards.FlatGuardIsTheFormula | macros/src/codegen.rs:1118-1133 | In the flat lowering every accepted guard means the formula that was written |
| Guards.SpliceIsFaithful | macros/src/composite_codegen.rs:4542-4546 | The row condition of the composite and orthogonal lowerings does what it is for exactly if the guard's root is not a disjunction, or no row ran before and the policy accepts the row |
| Guards.UnderEvaluates | macros/src/orthogonal_codegen.rs:1811-1815 | Otherwise the front turns off the first operand of the disjunction alone, and the remaining operands decide |
| Guards.HandledRowRunsAgain | macros/src/composite_codegen.rs:4542-4546 | Witness: with a guard `a` or `b`, and `b` true, a row runs although an earlier one already handled the event |
| Guards.VisitGuards | macros/src/parser/transition.rs:239-260 | The stack loop visits the guards in exact reverse order, up to the first that the visitor refuses |
| GuardParser.Input.ParseOr | macros/src/parser/transition.rs:267-275 | The loop over disjunctions reads what the grammar function reads and leaves the rest of the input |
| GuardParser.Input.ParseAnd | macros/src/parser/transition.rs:277-285 | The loop over conjunctions, likewise |
| GuardParser.Input.ParseNot | macros/src/parser/transition.rs:287-294 | At most one `!` before a primary |
| GuardParser.Input.ParsePrimary | macros/src/parser/transition.rs:296-318 | Parentheses, `async` names and names; leftover tokens in parentheses are an error |
| Regions.Discover | macros/src/orthogonal_codegen.rs:1118-1168 | Region discovery ends; it succeeds exactly if the initial states lie in different connected components and these cover every state, and its regions are then those components in the order of the initial states |
| Regions.BuildAdjacency | macros/src/orthogonal_codegen.rs:1125-1138 | The adjacency lists have an entry for every state of a non-wildcard row and exactly the undirected links of rows that are not internal and do not end in `X` |
| Regions.Search | macros/src/orthogonal_codegen.rs:1141-1158 | The search from one initial state claims exactly its component, or finds that two initial states share one |
| Regions.InitialsInOrder | macros/src/orthogonal_codegen.rs:1119-1124 | The initial states are taken in table order |
| Regions.RunsStayInRegion | macros/src/orthogonal_codegen.rs:1434-1442 | Whatever rows a region runs, its state stays in its region or is `X` |
| Regions.RegionsAreDisjoint | macros/src/orthogonal_codegen.rs:1140-1158 | The regions of one machine have no state in common |
| Tables.Build | macros/src/parser/mod.rs:910-1023 | The transition map is built exactly if every wildcard row reaches some state and no row enters a state with data without an action; it then holds, for every state and trigger, the chosen rows in table order |
| Tables.OneTable | macros/src/parser/mod.rs:963-1012 | Only one map holds what the rows say, so the order in which a hash map visits the states does not matter |
| Tables.WildcardReaches | macros/src/parser/mod.rs:958-1012 | A wildcard row reaches exactly the states with no earlier row for its trigger, and afterwards that trigger is defined in every state |
| Tables.GroupIsChosenRows | macros/src/parser/mod.rs:231-277 | A group is exactly the rows for its state by name, and the wildcard rows with no earlier row, in table order, each with its guard and its own target, or the state itself if it is internal |
| Tables.StatesAreNamed | macros/src/parser/mod.rs:915-933 | The states of a table are the sources of rows that are no wildcards and the targets of rows that are not internal |
| Tables.ExpandWildcard | macros/src/parser/mod.rs:958-1020 | The expansion loop, for any order of the states; it fails if the row reaches none |
| Tables.AddTransition | macros/src/parser/mod.rs:231-300 | Adds one candidate at the end of its group and reports a target with data but no action |
| Tables.EventKeyTellsTriggers | macros/src/parser/mod.rs:216-229 | Two identifiers' key strings are equal exactly if the triggers are the same |
| Tables.Validate | macros/src/validation.rs:215-247 | Validation accepts exactly the maps in which only the last candidate of a group is unguarded |
| Tables.ValidateGroup | macros/src/validation.rs:220-243 | The counting loop over one group |
| Tables.UnguardedWildcardIsAlone | macros/src/validation.rs:215-247 | In an accepted table an unguarded wildcard row that reaches a state is the only row of its group there |
| Tables.DispatchRunsFirst | macros/src/codegen.rs:1088-1143 | Flat dispatch of a group runs the first candidate that the policy accepts and whose guard passes, stops at the first guard that fails, and fails with `TransitionsFailed` only if all were turned down |
| Tables.ClosedGroupAlwaysRuns | macros/src/codegen.rs:1088-1182 | A group that ends unguarded never fails with `TransitionsFailed` while no guard fails and the policy accepts |
| Tables.EveryCandidateCanRun | macros/src/validation.rs:215-247 | Validation is not too weak: every candidate of an accepted group runs for some guard answers |
| Trees.Build | macros/src/composite_codegen.rs:1202-1269 | The queue loop over composite tables ends; it succeeds exactly if, from the root on, every table has one owner, the root has none and all are valid, and then returns the tree of exactly the reachable tables, with depth(child) = depth(parent) + 1 and the root under no node |
| Trees.Examine | macros/src/composite_codegen.rs:1211-1226 | The loop stops at a table only if the tables form no tree |
| Trees.DirectInOrder | macros/src/composite_codegen.rs:1228-1244 | The children of a table are listed in the order of their first mention |
| Trees.RootAsNode | macros/src/composite_codegen.rs:1210-1216 | A table cycle through the root makes the loop meet some table twice |
| TreeSites.Number | macros/src/composite_codegen.rs:3301-3331 | Settle sites are numbered in list order, one for each region that region discovery finds in a node's rows or one for a scalar node, the root last; it fails exactly if an orthogonal node does not split into regions |
| TreeSites.RegionPathsPartition | macros/src/composite_codegen.rs:3365-3386 | From the tables themselves: for the tree built from them, the numbering of its discovered regions and the regions of an orthogonal owner, the region paths of the owner have no site in common and lie in its subtree; they partition the subtree if and only if every child of the owner is mentioned by a row that is no wildcard |
| TreeSites.RootRegionPathsPartition | macros/src/composite_codegen.rs:2254-2263 | For an orthogonal root likewise: its region paths partition all sites exactly under that condition |
| TreeSites.WithoutWildcards | macros/src/composite_codegen.rs:3399-3418 | The condition holds for every owner without wildcard rows, unless a child is called like the terminal state |
| TreeSites.WildcardChildIsUnplaced | macros/src/orthogonal_codegen.rs:1125-1138 | Witness: a table that splits into regions and names a child only in a wildcard row, so that no region has it and its sites are on no path |
| TreeSites.PlacedIfMentioned | macros/src/composite_codegen.rs:3399-3418 | A state is in a discovered region exactly if a row that is no wildcard mentions it, and then in one only |
| Sites.SitesAreOwned | macros/src/composite_codegen.rs:3301-3335 | Every site from 0 to the count belongs to exactly one node or the root, and nothing else does |
| Sites.PathsPartitionSubtree | macros/src/composite_codegen.rs:3365-3386 | For any way to place children in regions, the region paths of an owner have no site in common and lie in its subtree, and they partition it exactly if every child is placed |
| Sites.IsDescendant | macros/src/composite_codegen.rs:3388-3397 | The walk up the parents ends and finds exactly what is nested in a node |
| Sites.DescendantRegion | macros/src/composite_codegen.rs:3399-3418 | The walk up the parents ends and finds the region that holds the top of a node's branch |

## Left out

- Locks and wakers of the operating system: a locked region is one step, a waker is an opaque value that does not panic, and taking a waker under its lock and calling it are two steps. `std::thread::panicking()` is taken to mean that this drain's step panicked.
- Read-only queries (`inspect`) as acts of the scheduler; they only delay whoever waits for the machine lock.
- Fairness of the scheduler: a woken waiter may be overtaken, and after a panic that leaves the machine open queued events wait for the next caller.
- The check that the capacity of the FIFO scheduler is a power of two; the theorems hold for every positive capacity.
- `Waiter::update` keeps an equivalent waker instead of storing the new one; the model stores the latest.
- `InlineScheduler`, policies and loggers beyond the choice of candidates, diagrams, benchmarks, and the pool and hierarchy helpers of `src/utility.rs`: wrappers without state of their own worth an invariant.
- Async lowering, whose pending queue is a stack.
- `drain_deferred` of the synchronous lowering, which need not end; so rows that defer or process events are not part of `Stabilize`, `TreeStabilize` and `TwoLevel`.
- Guards with `||` at their root in `Stabilize`, `TreeStabilize` and `TwoLevel`; `Guards` states exactly what they do.
- Single-row dispatch in scalar trees of three or more levels: each node resets `handled` before its own rows, so the two-level theorem does not extend to them.
- TreeStabilize.StableOnReturn: the loop over a tree is a function only, `StabilizeCode` has its loops for machines without nested nodes; that it ends is shown for those and for two levels, since entering a nested table raises the rank of its state again.
- Lifecycle.OneExitPerEntry: at most one exit for entries along with an enclosing state; when they get exactly one is stated in `Reentry`.
- An exit or entry hook that fails partway is repeated from its start; the model counts completed hooks.
- QueuedDispatch.Dispatch: each drain of the process ring takes a bound on how many events it pops, because a callback may process events forever; `QueuedDispatch.MoreFuelSameEnd` shows that the bound does not change where a run ends.
- TwoLevelCode.Core.Process: follows the loop for a given number of turns, because a machine whose completion rows form a cycle may keep it going; `TwoLevelCode.Core.Run` follows it to its end when rows go down in rank.
- Callbacks of `EventQueues::dispatch` that call `dispatch` again or read the queue lengths.
- Tables.Build: types, spans and lifetimes of rows, the check for one starting state, and conflicts between the data types of one state or event, are not modelled.
- Trees.Build: table names are taken to be distinct, and `validate` is a given answer for each table.
- TreeSites.RegionPathsPartition: the conversion of table names to state names is any function.
- Error payloads, state data, signatures and name collisions of generated code.
- Testing state setters, temporary contexts, and history beyond the retained state.
