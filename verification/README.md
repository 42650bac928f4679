# Loyable: a verified model of the retention platform's engines

This project models the engines behind a multi-tenant customer-retention platform and proves what they
keep over all inputs, all runs and, where the code runs concurrently, all interleavings.

The code that works step by step is modelled as methods over mutable state, and each such method is proved
equal to a function from the old state to the new one; the results about whole runs are lemmas about those
functions. Concurrent code is modelled once more as a machine whose steps are the single database and Redis
commands, and a lemma ties the two: a job that nobody interrupts does in the machine what the method does.

| file | engine |
|---|---|
| `Graphs.dfy`, `CycleDetection.dfy` | paths, cycles, the stack search, the white/grey/black search |
| `Workflows.dfy`, `Compiler.dfy`, `Traversal.dfy` | the automation compiler and its breadth-first traversal |
| `Meaning.dfy` | what compilation computes: exact actions, shortest paths, bounded delays, exact warnings |
| `Payload.dfy` | which graphs compile, and what types and fields the compiled actions carry, read off the drawing |
| `Outcomes.dfy` | what a condition's outcome says about the customer, and a run about those it selects |
| `Preservation.dfy` | exactly when the compiled list means what the drawn graph means, under all outcomes of the conditions |
| `Customers.dfy`, `Counterexamples.dfy` | the same for all customer records; graphs and customers for whom it fails |
| `Lifecycle.dfy` | create / update / activate / pause / delete, and execution for a customer |
| `Dispatch.dfy`, `QuotaRace.dfy`, `QuotaSerial.dfy` | the message worker: gates, quota, billing resets; W workers interleaved |
| `Consent.dfy` | exactly which messages reach the gateway, read off flags, rows and keys |
| `Ledger.dfy`, `LedgerRace.dfy` | the points ledger, its cached balance, lost updates by automation awards |
| `Coupons.dfy` | coupon redemption under row locks |
| `PosIngest.dfy` | point-of-sale deliveries with duplicates and crashes |
| `Segments.dfy`, `SegmentRules.dfy`, `Tiers.dfy` | the nightly segment refresh and when it puts a customer in each class, tier evaluation |
| `Campaigns.dfy` | chunked campaign launch and the staggered bulk enqueue |
| `Suspension.dfy`, `Tokens.dfy` | the cached tenant check, refresh-token rotation |
| `Utils.dfy` | optional values, and a fact about maps |

Conventions: tables are maps or sequences of rows, money is integer pence, time is integer milliseconds, a
hash is an ideal injective function, and secrets and row ids never repeat. A gateway call, a database
answer that leaves a choice (ties in an ordering, which matching row is found) and a throwing write are
parameters, so every result holds for all of them.

## Where the code differs from what is written about it

The model follows the code.

- Conditions are tagged `yes` or `no` by the compiler (automation-compiler.ts:514) but the evaluator never
  reads the tag (automation-compiler.ts:644-658), and the traversal keeps the first path into a node where
  paths merge (automation-compiler.ts:466-467). When neither matters is settled twice.
  - For customers: `Customers.ServedIffFits` holds for every accepted graph. All customers are served as drawn
    if and only if the compiled list fits each set of drawn conditions that some customer meets exactly. When
    the conditions are independent (each such set can be met, as when they test different fields by values that
    can be met and failed, `Customers.DifferentFieldsAreIndependent`) the condition can be read from the graph:
    every walkable path to an action has the compiled delay and passes the compiled conditions by their `yes`
    sides, and an entry compiled from a path that contradicts itself is covered by the other paths
    (`Customers.ServedIffMergeSafe`); in a tree, no `no` edge within reach leads on to an action
    (`Customers.TreeServedIffNoNegativeEdge`). `Counterexamples.NobodyNotices` shows why independence is needed.
  - Under all outcomes, that is for every assignment of true and false to the conditions, the same conditions are
    exact without that hypothesis (`Preservation.MeaningPreservedIffMergeSafe` and its corollaries).

  So a split whose two sides merge before an action loses customers (`Customers.TakerIsPassedOver`), and
  `Counterexamples` names two graphs and the customers who are served wrongly.
- The quota comment promises no race because DECR is atomic (messaging-worker.ts:182). The value compared is
  read by an earlier GET. The promise holds exactly for one worker or an empty quota
  (`QuotaRace.NegativeIffTwoWorkers`); with two workers the key reaches -1, which later jobs read as
  "unlimited" (`QuotaRace.RaceToUnlimited`).
- A failed send is said never to burn quota. `Dispatch.LostIff` says exactly when a unit is burnt: when the
  in-flight write throws (messaging-worker.ts:206-209), or the write that records an accepted send.
- Point-of-sale ingestion is described as exactly once (webhook-pos.ts:445). It is at most once; a transaction
  has its one visit if and only if the delivery that made its log row did not stop before the visit
  (`PosIngest.OwnerDecides`), and `PosIngest.RedeliveryFindsNoVisit` is a run in which it did.
- Deleting a workflow only pauses it; it can be activated again (`Lifecycle.DeletedCanBeActivated`).
- Tier evaluation is documented to look for a higher tier; it installs any tier other than the present one,
  so it can demote (`Tiers.DemotedIff`, `Tiers.DemotionHappens`). The schema calls the spend threshold an
  alternative to the visit threshold (prisma-schema.txt:377); the code wants both, and the two readings choose
  the same tier exactly when every half-met tier stands below one met in full (`Tiers.BothIsEitherIff`).
- A suspension is said to block at once (super-admin.ts:207-209). It does if and only if no request stands
  between its table read and its cache fill (`Suspension.ImmediateIffNoneBetween`);
  `Suspension.SuspensionIsNotImmediate` is a run that lets a newcomer in.

## Model

| member | source | states |
|---|---|---|
| Graphs.BuildAdjacency | automation-compiler.ts:567-578 | The map built by the loop gives, for every node, exactly its outgoing edges in stored order, and has no entry for other ids. |
| Graphs.GetReachableNodeIds | automation-compiler.ts:583-595 | The stack search, which may meet a node several times, terminates and returns exactly the nodes some path leads to. |
| CycleDetection.CycleDetector.Dfs | automation-compiler.ts:608-618 | One exploration terminates on shrinking white nodes, never turns a black node back, keeps "grey is the current call chain, black is fully explored" until the first error, and leaves its node black if there is none. |
| CycleDetection.DetectCycles | automation-compiler.ts:598-625 | An error is reported if and only if the graph has a cycle, in spite of the early return that leaves nodes grey; the first error names an edge on a genuine cycle. |
| CycleDetection.MeetsGrey | automation-compiler.ts:611-614 | Until the first error, an edge into a grey node lies on a cycle. |
| CycleDetection.NoCycleThrough | automation-compiler.ts:608-622 | No node finished in postorder lies on a cycle. |
| CycleDetection.AllBlackIsAcyclic | automation-compiler.ts:620-624 | If every node ends black the graph has no cycle. |
| Compiler.TraverseGraph | automation-compiler.ts:448-527 | The queue loop terminates, also on cyclic graphs, emits what the recursive specification of the traversal says and visits what that specification says. |
| Compiler.ValidateStructure | automation-compiler.ts:303-343 | No errors if and only if there is a node, exactly one trigger, an action, no dangling edge and no cycle; otherwise every wrong count, every dangling endpoint and every self-loop is reported, and nothing else before cycles are looked for. |
| Compiler.ValidateNodes | automation-compiler.ts:243-248 | One complaint for each node that fails its check, none for any other. |
| Compiler.CompileGraph | automation-compiler.ts:205-296 | Succeeds exactly on graphs that pass every structural and every per-node check and have 1 to 20 reachable actions, with the compiled form; otherwise says which stage failed and why; warns of the nodes out of reach. |
| Compiler.MaxDelay | automation-compiler.ts:274 | The metadata delay bounds every action's delay and is 0 or attained. |
| Traversal.PathsCovered | automation-compiler.ts:460-524 | At every stage, each path from the trigger leads to a node already visited, or queued by a path no longer than it, or some queued path is no longer than it. |
| Traversal.FrontIsShortest | automation-compiler.ts:462-467 | The front of the queue, when not yet visited, was reached by a path of fewest edges. |
| Traversal.Visit | automation-compiler.ts:466-524 | Visiting a node keeps the breadth-first invariant. |
| Traversal.Skip | automation-compiler.ts:462-466 | Dropping a repeated queue entry keeps it. |
| Traversal.RunTraversal | automation-compiler.ts:460-524 | From any stage the rest of the traversal finds every reachable node by a shortest path and emits one action for each action node found. |
| Traversal.TraversalIsExact | automation-compiler.ts:448-527 | The traversal emits exactly the reachable action nodes, each once, numbered 0..n-1, each with the delay and conditions of one shortest path. |
| Meaning.CompilationIsExact | automation-compiler.ts:254-296 | For accepted graphs: the compiled actions are the reachable action nodes, each from a path with fewest edges that repeats no node, and every delay and the metadata maximum are within 525600 minutes per delay node. |
| Payload.AcceptedIff | automation-compiler.ts:205-268 | A graph with unique ids compiles if and only if it has exactly one trigger, no loose edge, no path back to where it started, every node says what it must, and a path from the trigger leads to 1 to 20 of its action nodes. |
| Payload.ActionsAreCounted | automation-compiler.ts:252-268 | The traversal emits as many actions as the drawing has action nodes that a path from the trigger leads to. |
| Payload.TriggerNodeOkIff | automation-compiler.ts:354-373 | What a trigger node must say: a known type, and for three types a field that is there and not undefined, null, false, 0 or empty. |
| Payload.ActionNodeOkIff | automation-compiler.ts:375-409 | What an action node must say, type by type, the seven segments included. |
| Payload.OtherNodeOkIff | automation-compiler.ts:411-433 | What delay and condition nodes must say, 525600 minutes at most; a node of unknown type is never accepted. |
| Payload.CompiledActionsAreDrawn | automation-compiler.ts:493-504 | Every action of a compiled workflow is the action drawn on its node: it has the type drawn there, and its configuration is exactly the fields that type takes from the node, required ones filled in, missing ones defaulted. |
| Payload.CompiledIffReachable | automation-compiler.ts:448-527 | A drawn node has an action in the compiled list if and only if it is an action node and a path from the trigger leads to it. |
| Payload.CompiledTriggerIsDrawn | automation-compiler.ts:533-539 | The compiled trigger has the drawn type and exactly those of the three trigger fields that are set. |
| Payload.CompiledMetadata | automation-compiler.ts:273-293 | The metadata counts nodes and actions, its maximum is the largest delay of an action, and its two flags say whether an action is tagged and whether an edge is a yes or no edge. |
| Meaning.WarningsAreUnvisited | automation-compiler.ts:235-241 | The nodes warned about, found by the stack search, are exactly the non-trigger nodes that the breadth-first traversal, another search, has not visited when its queue runs empty. |
| Meaning.ShortestHasNoRepeats | automation-compiler.ts:462-467 | A path of fewest edges passes no node twice. |
| Meaning.DelayBound | automation-compiler.ts:408-417 | Along a path without repeats the accumulated delay is at most 525600 minutes for each delay node it leaves. |
| Meaning.WalkIsContext | automation-compiler.ts:474-524 | A walker that crosses a condition only as its outcome says follows a route exactly when the outcomes agree with the tags the compiler collects on it, and then takes the delay the compiler collects. |
| Preservation.SelectedIsWalked | automation-compiler.ts:638-659 | Without `no` edges, whatever the evaluator selects, the walk reaches at the same time. |
| Preservation.WalkedIsSelected | automation-compiler.ts:638-659 | When the walkable paths fit, whatever the walk reaches is selected at the same time, whatever the tags. |
| Preservation.MeaningPreservedIffMergeSafe | automation-compiler.ts:448-527 | For every accepted graph, compilation preserves meaning under all outcomes (every assignment of true and false to the conditions) if and only if every trigger-to-action path whose tags do not contradict each other has the compiled delay and passes every compiled condition by its `yes` side, and the paths to an action whose compiled tags do contradict each other cover every choice of conditions that selects it. |
| Preservation.WalkablePathsDecide | automation-compiler.ts:509-524 | When no compiled entry tags a condition both ways, the first half alone is the exact condition under all outcomes. |
| Preservation.DrawnOnceIsConsistent | automation-compiler.ts:509-524 | If no condition is drawn on two nodes, no path's tags contradict each other. |
| Preservation.MeaningPreservedIffPathsAgree | automation-compiler.ts:448-527 | If no condition is drawn on two nodes, splits and merges included, compilation preserves meaning under all outcomes if and only if every trigger-to-action path has the compiled delay and passes every compiled condition by its `yes` side. |
| Preservation.SplitAndMergeIsLost | automation-compiler.ts:466-467 | A walkable path that passes a compiled condition of its action by the `no` side breaks the meaning under some outcomes: the common split whose sides merge again. |
| Preservation.UniquePaths | automation-compiler.ts:466-467 | With at most one edge into each node of an acyclic graph, paths are unique. |
| Preservation.TreePreservedIffNoNegativeEdge | automation-compiler.ts:509-524 | With at most one edge into each node, compilation preserves meaning under all outcomes if and only if no `no` edge of a condition node within reach of the trigger leads on to an action. |
| Preservation.SingleIncomingIsPreserved | automation-compiler.ts:448-527 | With at most one edge into each node and no `no` edge, compilation preserves meaning under all outcomes. |
| Customers.ServedIffFits | automation-service.ts:417-430 | For every accepted graph, whatever its conditions: every customer is served as drawn if and only if, for each set of drawn conditions that some customer meets exactly, the paths taken to an action have the compiled delay, the compiled conditions of those actions are met, and every action whose compiled conditions are met is reached. |
| Customers.TakerIsPassedOver | automation-compiler.ts:466-467 | A customer who takes a path on which a compiled condition of the action is passed by its `no` side reaches the action in the drawing and is left out by the compiled list, whatever the rest of the graph. |
| Customers.CustomersShowAll | automation-compiler.ts:638-659 | With independent conditions, all customers are served as drawn if and only if meaning is preserved under all outcomes. |
| Customers.ServedIffMergeSafe | automation-compiler.ts:448-527 | With independent conditions, every customer is served as drawn if and only if the walkable paths fit and the self-contradicting entries are covered. |
| Customers.ServedIffPathsAgree | automation-compiler.ts:448-527 | With independent conditions, none drawn twice, every customer is served as drawn if and only if every trigger-to-action path has the compiled delay and passes every compiled condition by its `yes` side. |
| Customers.TreeServedIffNoNegativeEdge | automation-compiler.ts:509-524 | With independent conditions and at most one edge into each node, every customer is served as drawn if and only if no `no` edge of a condition node within reach leads on to an action. |
| Customers.SwayableIff | automation-compiler.ts:644-658 | Which conditions some field value meets and some value fails, read from operator and value. |
| Customers.DifferentFieldsAreIndependent | automation-compiler.ts:644-658 | Such conditions on pairwise different fields are independent: a customer is built for every subset of them. |
| Outcomes.EqIff | automation-compiler.ts:648 | `eq` holds exactly of the customers whose own value is the scalar named. |
| Outcomes.EqNamesTheValue | automation-compiler.ts:648 | A customer given the value meets the condition, and two customers who meet it have the same value there. |
| Outcomes.NeqIsNotEq | automation-compiler.ts:649 | `neq` is the complement of `eq`. |
| Outcomes.InIff | automation-compiler.ts:654-655 | `in` holds exactly when some scalar item of the list is the customer's value, `not_in` is its complement on lists, and without a list neither holds. |
| Outcomes.OrderOnNumbers | automation-compiler.ts:650-653 | On numbers exactly one of `lt`, `eq` and `gt` holds, the one that is true of the numbers; `gte` and `lte` are the complements of `lt` and `gt`. |
| Outcomes.HoldsIff | automation-compiler.ts:644-658 | What each operator asks of the customer's own value, values that are no numbers included. |
| Counterexamples.NegativeEdgeInverts | automation-compiler.ts:644-658 | An accepted three-node graph: for a customer with four visits the evaluator selects the action behind the `no` edge, which no walk reaches; for a customer with none the walk reaches it and nothing is selected. |
| Counterexamples.MergeLosesAction | automation-compiler.ts:466-467 | An accepted four-node graph: for a customer with no visits the walk reaches the action after an hour by its second path, and nothing is selected. |
| Counterexamples.NobodyNotices | automation-compiler.ts:644-658 | An accepted tree with a `no` edge on the way to its action in which every customer is served as drawn, because the condition before it compares with a value nobody can meet. |
| Lifecycle.AutomationService.CreateWorkflow | automation-service.ts:72-108 | Stores the compiler's output as a draft, or fails and changes nothing. |
| Lifecycle.AutomationService.UpdateWorkflow | automation-service.ts:119-163 | A new graph is recompiled and goes back to draft; a failing one changes nothing; a rename touches nothing else, and an empty name is no rename. |
| Lifecycle.AutomationService.ActivateWorkflow | automation-service.ts:208-249 | Activates unless missing, active already, invalid or rivalled by an active workflow on the same trigger. |
| Lifecycle.AutomationService.PauseWorkflow | automation-service.ts:255-271 | Pauses unless missing or paused already. |
| Lifecycle.AutomationService.DeleteWorkflow | automation-service.ts:169-197 | Sets the workflow to paused; the row stays. |
| Lifecycle.ApplyConsistent | automation-service.ts:208-249 | Every command keeps: one active workflow per business and trigger, and every row the compiler's output for its own graph. |
| Lifecycle.RunsAreConsistent | automation-service.ts:72-271 | Over any serial run from an empty store, that invariant holds and every compiled form has 1 to 20 actions. |
| Lifecycle.DeletedCanBeActivated | automation-service.ts:181-184 | After a deletion, activation succeeds if and only if no other active workflow has the trigger. |
| Lifecycle.RefusedIff | automation-service.ts:208-271 | Exactly when an activation is refused and by which error, in any table, and exactly when a pause is. |
| Lifecycle.OtherRowsStay | automation-service.ts:72-271 | A command touches at most the row it names, or the one it makes. |
| Lifecycle.ForeignCommandIsIdle | automation-service.ts:72-271 | A command for another business's workflow, or for none, finds nothing and changes nothing. |
| Lifecycle.RenameOnly | automation-service.ts:119-163 | A rename changes the name alone. |
| Lifecycle.PausedAfterwards | automation-service.ts:169-271 | After a pause or a deletion by its owner a workflow is paused and otherwise as it was, as is every other row. |
| Lifecycle.ActiveAfterwardsIff | automation-service.ts:208-249 | After an activation by its owner a workflow is active if and only if it was, or no other active workflow of the business has its trigger. |
| Lifecycle.DrawnIsDraft | automation-service.ts:72-163 | Whatever is created or redrawn is a draft of exactly the graph given; a graph that does not compile changes nothing. |
| Lifecycle.ActiveIffActivated | automation-service.ts:72-271 | Over any run from an empty store a workflow is active if and only if some request activated it and its owner has not paused, deleted or redrawn it since. |
| Lifecycle.SelectedActions | automation-service.ts:417-422 | The actions executed are exactly those whose conditions hold for the customer. |
| Lifecycle.ExecuteWorkflow | automation-service.ts:405-437 | The loop attempts each selected action once, in order; skipped and dispatched counts add up; the run is COMPLETED exactly when some dispatch did not throw. |
| Outcomes.AttemptedIff | automation-service.ts:417-430 | A run attempts an action if and only if the customer's own values are what every condition on it asks. |
| Outcomes.AttemptedHaveTheValues | automation-service.ts:417-422 | A customer for whom an action is attempted has every value its `eq` conditions name. |
| Lifecycle.ExecutionFollowsGraph | automation-service.ts:417-430 | On every accepted graph that meets the exact condition above, executing the compiled workflow for a customer attempts exactly the actions and delays that a walk of the drawn graph with this customer's data reaches. |
| Dispatch.DropIsInert | messaging-worker.ts:489-504 | A message dropped by one of the first six gates costs no quota, is counted and routed nowhere, leaves every other message as it was and closes no gate that was open to another message. |
| Dispatch.MessageWorker.PreFlight | messaging-worker.ts:70-171 | The first gate that fails, in the code's order, decides the status. |
| Dispatch.MessageWorker.ProcessMessageJob | messaging-worker.ts:50-269 | The whole new tenant state of one job for every gateway answer and every throwing write of a message row, the write of a drop included, and exactly when the job is retried. |
| Dispatch.MessageWorker.ChargeAndRoute | messaging-worker.ts:197-268 | The whole new state of the send. The key loses a unit exactly when the message went out or the in-flight write threw; after a rejection or a gateway throw the unit is returned, even if recording the rejection throws. |
| Dispatch.MessageWorker.HandleInvoicePaid | stripe-service.ts:175-248 | Usage is zeroed, the key set to the tier's quota, the pause lifted. |
| Dispatch.MessageWorker.HandleSubscriptionUpdated | stripe-service.ts:254-297 | The tier changes; the key is reset only for an active subscription, and usage is not. |
| Dispatch.MessageWorker.HandleSubscriptionDeleted | stripe-service.ts:299-320 | The tier and the key become those of FREE. |
| Dispatch.StepBalanced | messaging-worker.ts:184-268 | Every event, billing events and throwing writes included, keeps key + used + lost equal to what was granted. |
| Dispatch.RunBalanced | messaging-worker.ts:184-268 | So does every run. |
| Dispatch.QuotaConserved | messaging-worker.ts:184-268 | Over any run of jobs, retries and paid invoices without a throwing write after the decrement: an unlimited key stays -1; a finite one stays at or above 0 and remaining + used is the tier quota. |
| Dispatch.ExhaustedRoutesNothing | messaging-worker.ts:188-194 | From a key of 0 nothing is handed to the gateway until billing writes the key, whatever expires meanwhile. |
| Dispatch.CreationIsFixed | messaging-worker.ts:152-163 | What a message was created with never changes, which the cooldown query relies on. |
| Dispatch.LostIff | messaging-worker.ts:197-241 | A unit is lost exactly when a charged job that passed every gate is cut short by the in-flight write, or by the write that records a message the gateway took. |
| Dispatch.CooldownSpacing | messaging-worker.ts:138-171 | When a promotional message is routed, every other one to that customer that is sent, delivered or read, before the run or in it, was created more than the cooldown then in force ago; if one was routed in the run at most d after its creation, the two sends are more than cooldown - d apart. |
| Dispatch.EveryRouteWasAllowed | messaging-worker.ts:70-194 | Over any run, every message handed to the gateway had passed all seven gates at the moment of some job for it. |
| Consent.VerdictIff | messaging-worker.ts:70-171 | Exactly when each status is the verdict of the six gates, read off the queue, the customer and the other messages: flags by channel, the cooldown in milliseconds, 72 hours by default. |
| Consent.GatewayIff | messaging-worker.ts:70-268 | A job hands its message to the gateway if and only if the message may go out by those rows, the key is not 0 and the in-flight mark is written; then what becomes of the row and the use, for every answer and fault. |
| Consent.KeyIff | messaging-worker.ts:184-254 | Exactly when a job takes a unit from the key. |
| Consent.HeldBackRow | messaging-worker.ts:70-194 | The status of a message that may not go out, and when the queue is paused for it. |
| Consent.ExactlyTheseReachTheGateway | messaging-worker.ts:50-269 | Over any run the messages at the gateway are, in order, exactly those that might go out at their jobs and were marked. |
| Consent.EveryRouteHadConsent | messaging-worker.ts:505-526 | Over any run, a promotional message at the gateway had its customer's flag for its own channel set at a job for it, and no suppressed customer has one. |
| Consent.OtherFlagsDoNotMatter | messaging-worker.ts:505-526 | Changing the flags of the channels a message does not use never changes its verdict. |
| Consent.BillingWritesTheKey | stripe-service.ts:64-70 | What each tier writes to the key, and which billing events do so and reset use and pause. |
| QuotaRace.StepConserves | messaging-worker.ts:184-254 | Each command of each worker keeps key + in flight + leaked + counted charged sends. |
| QuotaRace.StepBounded | messaging-worker.ts:184-199 | Until a negative value is read, pending decrements cannot take the key below 1 - W. |
| QuotaRace.QuotaUnderInterleaving | messaging-worker.ts:184-254 | Under every interleaving of W workers without a reset the sum stays the starting quota, and until a negative value is read the key is at least 1 - W and at most W - 1 messages too many are sent. |
| QuotaRace.NegativeIffTwoWorkers | messaging-worker.ts:182-199 | For every quota and every W, some run takes the key below 0, and some run to -1, if and only if there are two workers and a quota to spend. |
| QuotaRace.AloneStaysNonNegative | messaging-worker.ts:184-199 | A single worker never meets a negative key. |
| QuotaRace.BoundsAreMet | messaging-worker.ts:184-199 | For every W and every quota to spend both bounds are reached: W - 1 messages too many, key 1 - W. |
| QuotaRace.RaceToUnlimited | messaging-worker.ts:197-199 | From every quota to spend, two of any number of workers take the key to -1, after which any number of messages goes out uncharged. |
| QuotaSerial.AloneNet | messaging-worker.ts:184-254 | The net effect on the key and the accounts of the commands of one uninterrupted job. |
| QuotaSerial.SerialJobAgrees | messaging-worker.ts:184-254 | That effect is the one of the serial worker, for every gateway answer and throwing write. |
| Ledger.LoyaltyService.CreditPoints | loyalty-service.ts:51-87 | Appends a row and overwrites the balance together, or changes nothing when the customer is missing or the unique index objects. |
| Ledger.LoyaltyService.DebitPoints | loyalty-service.ts:95-133 | The same for a debit, refused when the balance does not cover it. |
| Ledger.LoyaltyService.ReconcilePointsBalance | loyalty-service.ts:139-161 | The loop's sum is the signed ledger sum; the balance becomes the larger of it and 0. |
| Ledger.LoyaltyService.AccruePointsForVisit | loyalty-service.ts:171-189 | Five points plus one per whole pound are credited and recorded on the visit together, or neither is. |
| Ledger.LoyaltyService.ProcessReferralConversion | loyalty-service.ts:396-465 | Binds the referral, creates the coupon and credits the referrer, or changes nothing. |
| Ledger.LoyaltyService.AwardAutomationPoints | messaging-worker.ts:612-645 | Run alone, an award is a credit under the unique index. |
| Ledger.LedgerRefinement | loyalty-service.ts:51-161 | Over any serial run: cached balance = signed ledger sum, every row's balanceAfter is the prefix sum at that row, no balance is negative, reconcile is a no-op. |
| Ledger.RepeatedKeyChangesNothing | src/app.ts:54-55 | Once the ledger holds a (customer, reason, reference), every later credit, debit, visit accrual, referral or award with that key changes nothing at all, whatever its points and whatever ran in between. |
| Ledger.RunAppends | loyalty-service.ts:68-84 | Ledger rows are only ever appended. |
| Ledger.PostedIff | loyalty-service.ts:51-133 | A posting goes through if and only if the customer exists, no row has its key and a debit is covered; then one row is added and the balance moves by the points, else nothing changes. |
| Ledger.SumIsCreditsLessDebits | loyalty-service.ts:139-161 | The ledger sum is the credits less the debits. |
| Ledger.Earnings | loyalty-service.ts:171-465 | A visit earns 5 points and one per whole pound, recorded on the visit; a referral earns the referrer 100; an award what it says. |
| Ledger.EarnedIff | loyalty-service.ts:171-465 | Exactly when a visit accrual and a referral succeed, in terms of the rows. |
| Ledger.ReconcileIsNoOp | loyalty-service.ts:139-161 | On a book that refines its ledger, reconciling changes nothing. |
| Ledger.ReferralsAreAtomic | loyalty-service.ts:418-454 | Over any run, the customers marked as referred are exactly those with a signup coupon, one each, and each has credited someone else. |
| LedgerRace.LostUpdateAccounting | messaging-worker.ts:618-645 | Under every interleaving of awards with other operations no row is lost, and the gap between cache and ledger moves only by (balance read - balance present) at an award's write and by audits. |
| LedgerRace.DriftlessIffUnchanged | messaging-worker.ts:618-645 | An award's write leaves the gap alone if and only if it finds the balance it had read. |
| LedgerRace.ReconcileRepairs | loyalty-service.ts:139-161 | Reconciling ends with max(0, ledger sum), is idempotent, and closes the gap if and only if the sum is not negative. |
| LedgerRace.TwoAwardsLoseOne | messaging-worker.ts:618-645 | A run of two awards after which the ledger says 20 and the cache 10. |
| Coupons.CouponDesk.RedeemCoupon | loyalty-service.ts:301-364 | Missing, inactive or wrong PIN: nothing changes; otherwise the coupon is used and one log row appended. |
| Coupons.StepKeepsLocks | loyalty-service.ts:313-326 | What a transaction read under its row lock is still what is committed. |
| Coupons.RedeemedOnce | loyalty-service.ts:301-364 | Under every interleaving of cashiers with rollback at any step, each coupon goes ACTIVE to USED at most once, and there is exactly one log row for each that did. |
| Coupons.RedeemedIff | loyalty-service.ts:301-330 | A redemption succeeds if and only if the coupon is there, active and the PIN valid; which error it meets otherwise. |
| Coupons.CountsFollowLogs | loyalty-service.ts:332-350 | Over any run the redemption count of a coupon has grown by the number of its log rows, 1 if it went from ACTIVE to USED and 0 otherwise. |
| Coupons.UsedIsFinal | loyalty-service.ts:332-334 | A coupon that is not active stays as it is for the rest of the run. |
| Coupons.AloneIsRedeemCoupon | loyalty-service.ts:301-364 | The steps of an uninterrupted transaction have the effect of the method. |
| PosIngest.PosWebhook.ProcessTransaction | webhook-pos.ts:211-378 | A whole delivery: one visit, one accrual and both counters, or only a log entry. |
| PosIngest.AtMostOnce | webhook-pos.ts:218-245 | For any stream of deliveries, interleaved and crashing anywhere, each transaction has at most one visit and one accrual. |
| PosIngest.VisitsGoToTheirCustomers | webhook-pos.ts:272-330 | In every reachable state each visit is that of the delivery that made it, for its amount, and belongs to a customer with the phone or the e-mail of that delivery. |
| PosIngest.DeliveredIff | webhook-pos.ts:211-378 | A known transaction and an anonymous delivery only mark the log; any other charges one customer, a new one exactly when nobody shares the identity, with the amount, one visit and 5 points plus one per whole pound. |
| PosIngest.TotalsAtCrashPoints | webhook-pos.ts:283-343 | At every crash point spend is at least the sum of visit amounts and the visit count at most the number of visits; with every delivery finished both are equal and the points are 5 + whole pounds per visit. |
| PosIngest.ExactlyOnceIffPassed | webhook-pos.ts:218-330 | In every reachable state a transaction has exactly one visit if and only if some delivery of it got past the visit step. |
| PosIngest.OwnerDecides | webhook-pos.ts:224-330 | The delivery that made the log row decides: the transaction has its one visit if and only if that delivery did not stop before the visit. |
| PosIngest.KnownHasOwner | webhook-pos.ts:233-269 | In every reachable state each transaction with a log row has a delivery that made it and went on, or ended for want of an identity. |
| PosIngest.StoppedDeliveryIsLost | webhook-pos.ts:224-245 | Once that delivery has stopped before its visit, no redelivery ever creates the visit. |
| PosIngest.RedeliveryFindsNoVisit | webhook-pos.ts:219-245 | A run from the start: the first delivery stops after its log row, the redelivery is dropped as a duplicate, there is no visit. |
| PosIngest.AloneIsDeliver | webhook-pos.ts:211-378 | The steps of an uninterrupted delivery have the effect of the method. |
| Segments.SegmentJob.RefreshSegments | cron-service.ts:120-221 | The cursor loop terminates, visits each active customer once, leaves the table equal to one map of the classifier over it, and appends the changes to the history. |
| Segments.SegmentJob.ApplyChanges | cron-service.ts:194-215 | One row update and one history row per change, in order. |
| Segments.SegmentJob.ClassifyPage | cron-service.ts:163-192 | The updates of a page are the customers whose class differs. |
| Segments.PageIsNext | cron-service.ts:142-160 | The page after a cursor is the next stretch of the active customers, although earlier rows have been rewritten. |
| Segments.PageApplied | cron-service.ts:194-213 | Applying a page's changes extends the reclassified part of the table by that page. |
| Segments.SecondRunIsIdle | cron-service.ts:165-191 | A second run at the same clock changes no row and writes no history. |
| Segments.HistoryIsOfCustomers | cron-service.ts:202-211 | Every history row records the old and new class of a customer whose class changed. |
| Segments.OneRowPerChange | cron-service.ts:189-213 | A customer has one history row if the class changed and none otherwise. |
| SegmentRules.RefreshedClassIff | cron-service.ts:163-187 | For each class, an active customer is in it after the refresh if and only if its rule applies and none before it does, or no rule applies and the customer was in it; read off spend, visits, redemptions, tier and last visit. |
| SegmentRules.OnlyTheClassChanges | cron-service.ts:141-200 | A refresh rewrites nothing but the class, and of active customers only. |
| SegmentRules.EarlierVisitLeavesLostIff | cron-service.ts:173-176 | Moving the last visit of a lost customer back takes the row out of LOST exactly when the earlier visit falls between the two cutoffs, and then the customer had kept LOST for want of a rule. |
| SegmentRules.EarlierVisitCanLeaveLost | cron-service.ts:173-187 | A customer to whom that happens. |
| SegmentRules.LostStaysLost | cron-service.ts:173-174 | A customer not seen inside the lost window is LOST in every later refresh too. |
| Tiers.TierDesk.EvaluateAndUpgradeTier | loyalty-service.ts:207-265 | The new tier, VIP flag and history of one evaluation, and when it reports a change. |
| Tiers.FindIsHighest | loyalty-service.ts:226-230 | The tier found is the highest-ranked one whose thresholds are met; none is found when none is. |
| Tiers.EvaluationIff | loyalty-service.ts:207-256 | After an evaluation the customer holds the best tier whose thresholds are reached, or what was held when none is; the VIP flag is set when that tier is new and the highest of all, and never cleared. |
| Tiers.DemotedIff | loyalty-service.ts:226-243 | An evaluation lowers the rank if and only if the customer qualifies for no tier of the present rank or above but for some tier below. |
| Tiers.DemotionHappens | loyalty-service.ts:226-243 | A customer, a tier table and an edit of it after which an evaluation goes from gold to silver. |
| Tiers.BothIsEitherIff | loyalty-service.ts:226-230 | Requiring both thresholds and requiring either choose the same tier if and only if every tier with exactly one of its two thresholds met stands below a tier met in full. |
| Tiers.TiersOnlyRise | loyalty-service.ts:207-265 | While the tier table is not edited, over any run of visits and evaluations the history lists tiers in strictly rising rank, ending with the tier held. |
| Tiers.HistoryIsBounded | loyalty-service.ts:248-256 | So the history never has more rows than there are tiers. |
| Tiers.EvaluationSettles | loyalty-service.ts:232-234 | A second evaluation in a row changes nothing. |
| Campaigns.RereadIsChunk | campaign-service.ts:259-271 | Whatever the table holds, a re-read returns exactly the new chunk, in every order the database may give ties, if and only if the chunk is inside the window and, among the earlier matching rows, exactly the skipped number precede it, none ties with it, and none follows it unless the chunk fills the page. |
| Campaigns.RereadUnderClock | campaign-service.ts:255-271 | With later chunks created later and re-reads inside the 60 s window, each re-read is its chunk. |
| Campaigns.CampaignService.InsertAndReread | campaign-service.ts:251-290 | One row per record is written chunk by chunk; under an orderly clock and with none waiting, the re-reads return each once. |
| Campaigns.CampaignService.BuildRecords | campaign-service.ts:225-245 | One record per recipient with a number that is not empty; the skipped are counted, and are those with none or an empty one. |
| Campaigns.CampaignService.JobsOf | campaign-service.ts:273-289 | One job per re-read row whose customer is listed with a number that is not empty, to that number, and no other. |
| Campaigns.CampaignService.LaunchCampaign | campaign-service.ts:189-302 | Which guard refuses; nothing changes when refused or nobody is reachable; otherwise rows and status, every queued job for a waiting row of the campaign and to a recipient's own number, never an empty one; skipped is the number of recipients without a number or with an empty one; under an orderly clock each recipient has exactly one job if the number is there and not empty, and none otherwise, and queued + skipped = recipients. |
| Campaigns.RefusedIff | campaign-service.ts:199-216 | Exactly when each guard refuses a launch, and that nothing else does. |
| Campaigns.OneJobEach | campaign-service.ts:225-289 | When the jobs are one per reachable recipient, each recipient has exactly one if its number is there and not empty, and none otherwise. |
| Campaigns.SkippedAreWithoutNumber | campaign-service.ts:225-245 | Those not reachable are the recipients with no number or an empty one. |
| Campaigns.JobsAreToOwnNumbers | campaign-service.ts:273-289 | Every job made from re-read rows is to the number its customer is listed with, which is not empty. |
| Campaigns.CampaignService.EnqueueBulk | messaging-queue.ts:255-283 | The chunked loop queues job k with delay 50 * (k / 500) + 10 * (k mod 500) ms. |
| Campaigns.DelayBound | messaging-queue.ts:265-276 | No delay of n jobs exceeds 50 * floor((n - 1) / 500) + 4990 ms. |
| Campaigns.DelaysAreSpread | messaging-queue.ts:262-276 | Any delay value is shared by at most ceil(n / 500) jobs. |
| Suspension.TenantScope.CheckTenant | tenant-scope-middleware.ts:198-236 | The verdict and the cache after one request. |
| Suspension.TenantScope.SuspendTenant | super-admin.ts:186-209 | The row is inactive and the mark cached; an unknown business changes nothing. |
| Suspension.TenantScope.UnsuspendTenant | super-admin.ts:218-238 | The row is active and the cache entry gone. |
| Suspension.TenantScope.DeleteTenant | super-admin.ts:247-259 | The row and the cache entry are gone. |
| Suspension.CacheIsInvisible | tenant-scope-middleware.ts:198-236 | Over any run of whole requests and commands, expiry and eviction included, the cached decision is the one the table gives. |
| Suspension.VerdictIff | tenant-scope-middleware.ts:198-236 | Which verdict a request gets, read off the table. |
| Suspension.CommandsTakeEffect | super-admin.ts:186-259 | The next request after a suspension is refused, after an unsuspension admitted, after a deletion unknown, and no other business is affected. |
| Suspension.MarkExpires | tenant-scope-middleware.ts:90 | The mark lives for 300 s, and the verdict outlives it. |
| Suspension.AdmissionIsCached | tenant-scope-middleware.ts:198-227 | An admission that was not cached is, for 300 s. |
| Suspension.SuspendedStaysOut | tenant-scope-middleware.ts:421-438 | Once a suspension has finished no request is admitted until an unsuspension, whatever entries expire. |
| Suspension.OnlyEarlierReadsAdmit | tenant-scope-middleware.ts:198-227 | With read and fill as separate steps, after a suspension only requests resting on an earlier table read are admitted, each less than 300 s after that read was cached. |
| Suspension.ImmediateIffNoneBetween | super-admin.ts:191-209 | A finished suspension keeps everyone out from then on if and only if no request stands between its table read and its cache fill. |
| Suspension.SuspensionIsNotImmediate | super-admin.ts:207-209 | A run from the start in which a request that arrives after the suspension has finished is admitted. |
| Suspension.AloneIsCheckTenant | tenant-scope-middleware.ts:198-236 | The steps of an uninterrupted request have the effect of the method. |
| Tokens.TokenStore.IssueTokenPair | token-service.ts:105-126 | A fresh secret is returned and its hash replaces the stored one; an unknown user changes nothing. |
| Tokens.TokenStore.RotateRefreshToken | token-service.ts:148-203 | Each error case, with the session ended only by a wrong secret; otherwise a new pair. |
| Tokens.TokenStore.RevokeAllUserTokens | token-service.ts:216-228 | The stored hash is cleared. |
| Tokens.TokenStore.ResetPasswordWith | auth-service.ts:383-424 | A live link clears the hash and is consumed. |
| Tokens.StoredIffCurrent | token-service.ts:105-228 | Over any run, the stored hash is that of token t if and only if t was handed to the user and nothing later in the history ended that session. |
| Tokens.AcceptedIffCurrent | token-service.ts:148-203 | A token is accepted exactly when it is current in that sense and the user is active. |
| Tokens.AtMostOneAccepted | token-service.ts:120-123 | Two current tokens of a user are the same token. |
| Tokens.HandedOutIsAccepted | token-service.ts:105-203 | The token that a sign-in or a rotation answers with is accepted afterwards for an active user, and no other is. |
| Tokens.RotationAnswers | token-service.ts:148-203 | Exactly when a rotation gives each answer, and that only two of them change an account. |
| Tokens.SupersededIsRefused | token-service.ts:174-189 | A secret already handed out that is not the stored one is never accepted again. |
| Tokens.RotatedOnce | token-service.ts:197-202 | A successful rotation retires the token it was given for good. |
| Tokens.ReplayEndsSession | token-service.ts:176-189 | After a wrong secret every token of the user, the newest too, is refused until the next sign-in. |
| Tokens.ResetEndsSession | auth-service.ts:403-408 | A password reset, and a revocation, end the session the same way. |
| Tokens.LinkIsSingleUse | auth-service.ts:422-423 | A used or expired reset link never changes an account again. |
| Tokens.LinkWorks | auth-service.ts:383-424 | A reset link sent to an active user ends that user's session, nobody else's, and is used up. |

## Left out

- Node ids: the compiler does not check that they are unique, so results about whole graphs (`Meaning`, `Preservation`) take uniqueness as a hypothesis.
- Numbers in node data are reals; NaN, which JSON cannot carry, is absent.
- The order of error messages and their texts, the compile timestamp, run statistics, audit log rows, outbound webhooks and notifications.
- processAutomationJob: the queue's own automation processor evaluates no conditions; execution is modelled on executeWorkflowForCustomer.
- Races between two activations of rivals, and between updates: the lifecycle is serial, as its result is.
- The outside world: the messaging gateway, Stripe, Redis connection failures, e-mail and HTTP are parameters or absent.
- Expiry of the quota key and of the revoked-token list in Redis, access tokens and their signatures.
- Campaign sentCount, A/B variants and layouts; a launch that crashes halfway; a missing campaign.
- The queue library's own rules: job ids that suppress duplicates, back-off, rate limits.
- Branch and cashier fields of visits and coupon logs, contact normalisers, milestone automations.
- Job data carried in the queue is taken to equal the message row it was made from.
- Dispatch.MessageWorker.ProcessMessageJob: the message row a job names exists; a deleted row, whose every update would throw, is not modelled; nor is a read or a Redis command that throws.
- Birthday, analytics and inactivity jobs, portals and user interface.
- Campaigns.RereadUnderClock: assumes that chunks are created at strictly later times and read within the window, which the code does not enforce; Campaigns.RereadIsChunk gives, for each re-read, the exact condition without those assumptions.
- Dispatch.QuotaConserved: leaves out subscription updates, which reset the key but not the usage counter; Dispatch.RunBalanced covers them with an account for the difference.
- Dispatch.CooldownSpacing: an acknowledgement may set any status, so it speaks of messages still sent, delivered or read.
- PosIngest.TotalsAtCrashPoints: the lower bound on spend is for non-negative amounts.
- Ledger.LedgerRefinement: for credits that are not negative.
- Tiers.TiersOnlyRise: for a tier table that is not edited meanwhile.
