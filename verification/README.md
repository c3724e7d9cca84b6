# A verified model of Sieve

Sieve learns a trace from a run of a Kubernetes controller, generates test plans from the trace, and replays the
plans with a test coordinator that fires perturbations when trigger expressions become true. This project models the
parts on which a trustworthy test depends, and proves what they are meant to guarantee:

- **Trigger expressions** (`TriggerExpr`, `TokenStack`, `Parser`, `ParserExact`, `ParserAccepts`, `TriggerGraph`,
  `TriggerSteps`, `TriggerMeaning`, `TriggerRuns`, `TriggerAborts`): from the text `a;b|(c&d)` through tokens, the reversed shunting yard and the
  string-keyed tree builder to the trigger graph and what its propagation means.
- **The coordinator** (`Schedules`, `StateMachine`, `TestPlan`, `PauseProtocol`): the state machine over the actions of a
  plan under every schedule of notifications, timers and asynchronous completions, from the texts of the plan to the
  actions executed, and the pausing of controller reads.
- **Object differences** (`JsonDelta`, `DiffExact`, `Places`, `EventDelta`, `Replay`): diff, canonical form and part-of on
  JSON, in the learner's copying and the coordinator's in-place implementation, and the agreement of learning and replay.
- **Learning** (`LearnServer`, `LearnLog`, `ServerLog`, `AcceptedLogs`, `ReconcileWindows`, `ReconcilerEvents`,
  `EventGraph`): the concurrent learning server, the log it emits, the analyser that parses the log and the event graph
  it builds.
- **Oracle and masks** (`Oracle`, `Masks`, `MaskPatterns`, `MaskLookups`): tainting, the end state, and the memoised
  mask lookup, alone and with concurrent callers.

`dafny verify dfyconfig.toml` checks everything.

## How to read the model

Code that loops or updates in place is a method or a class proved against functions of the old state; code that only
computes is a function. Concurrent code is a transition system whose steps are the accesses to shared state:
`Execute` runs any interleaving, buffered channels are sequences, and a choice that Go or the scheduler makes is an
argument or an unordered pick. Clients behave as Sieve's instrumentation makes them: an after-call follows
its before-call at most once with the id it returned, reads are paired, and a reconciler has one worker. A `log.Fatal`, a failed assertion, a failed lookup or a nil dereference is `None` or
`false`, never a precondition. The state machine works on the progress of its trigger graphs, the sets of nodes to satisfy
and satisfied; `TriggerGraph.Graph` is the object that holds them, and its methods are proved to compute the same.

The main results, each about all inputs or all runs:

1. `ParserAccepts.ProperIff` and `AcceptedIff`: which texts write an expression, for all texts, and which texts are
   accepted, for all in which no operands meet; `ParserExact.ParsesExactly`: to which tree, although a closing parenthesis
   at the end leaves a spurious token; `Parser.ParseRoundTrip` is the round trip.
2. `TriggerRuns.RunMeaning` and `ObserveMeaning`: the propagation in the compiled graph computes the meaning of the
   expression.
3. `TriggerAborts.AbortsIff` and `TriggerRuns.NeverAbortsIffOrsInTail`: exactly which expressions and definitions can
   abort the coordinator.
4. `StateMachine.Machine.Run` and `TestPlan.RunPlan`: what every run keeps, for every schedule, from the texts of a plan.
   Each action runs at the first moment at which the triggers fired satisfy its expression; no trigger that was waiting
   is missed; and where notifications bring one trigger each, an action runs exactly when what the schedule has brought
   since it became current first satisfies its expression (`Schedules.RunIsOnTime`).
5. `PauseProtocol.PauseSafety`: exactly which plans keep paused reads out.
6. `DiffExact.DiffIff`: the difference is the only minimal pair of parts that turns either object into the other.
   `Places.CanonIff` and `PartOfIff`: canonical forms and parts, place by place. `EventDelta.DiffEventInPlace` and
   `GuardLosesNothingIff`, `Replay.ReplayEvent` and `CancelledIff`.
7. `LearnServer.LearnSafety` and `LearnLog.LogIsReport`: no interleaving aborts the server, every log it emits is accepted,
   and its lines are those of the notifications sent, in order. `AcceptedLogs.AcceptedIff`: which logs are accepted.
   `EventGraph.BuildControllerEventGraph`: every accepted log yields a sane graph, whose windows, reads and edges are those
   that the lines of the log call for.
8. `ReconcilerEvents.CompressionWidens`, `Oracle.GenerateControllerRelatedList`, `Oracle.GenerateState`.
9. `Masks.MaskSession`, `MaskPatterns.KeepsServiceIff` and `MaskLookups.LookupsAreExactIff`: when the memoised lookup
   gives what the plain scan gives.

## Where the code does less than it promises

- After one branch of a `|` completes, the other stays to be satisfied; completing it aborts, unless the `|` completes
  the whole expression (`TriggerRuns.LosingBranchAborts`). So does a definition that bears the name of an `&` node, when
  one of its operands is done. `TriggerAborts.AbortsIff` says exactly when the triggers defined can do this.
- Malformed texts are accepted. A text, accepted or not, writes an expression if and only if no two operands meet in it,
  every parenthesis opened is closed, and it has no flaws: no operand is missing and no parenthesis is closed without
  having been opened (`ParserAccepts.ProperIff`). What stands in parentheses right after a complete text is dropped, so
  that `a(b)` means `a` (`ParserExact.JuxtaposedIsDropped`). A malformed text in which no operands meet is accepted if
  and only if its names are distinct, its parentheses are closed, it has exactly one flaw and it ends in an operator or a
  parenthesis (`ParserAccepts.MalformedIff`), as `a;`, `;(a)` and `a)` do; one that ends in a name is never accepted
  (`EndingInName`).
- A read parked on one paused scope passes when that scope is resumed, even if another paused scope covers it
  (`PauseProtocol.ExposedRun`), and a scope that is paused again after its resume holds nobody back, as its channel stays
  closed (`RepausedRun`). `ExposesIff` says what a plan must avoid, and `PauseSafety` that this is exactly it.
- Ids are 32 bits wide: with more than 2^32 events, or reads and writes, a run can emit a log that the analyser refuses
  (`LearnServer.LogBoundIsExact`), and beyond 2^32 ids of any kind a release can be sent to somebody who does not wait
  (`LearnServer.ReleaseBoundIsExact`).
- An event is canonicalised once, under the masks of the first trigger that looks at it; a trigger with the other pair
  of masks sees the right difference of all events if and only if the masks are alike (`EventDelta.GuardLosesNothingIff`).
- A lookup reads the mask table without the lock, and an entry is there before it is filled. Of two concurrent lookups of
  the same new key with masked paths, one can return the entry while the other still fills it, so that its caller sees
  too little until then; nothing else goes wrong (`MaskLookups.LookupsAreExactIff`).
- Looking up a key that contains `*` adds a pattern to the table. This changes what later keys get if and only if some
  pattern matches the key and the key, as a pattern, matches something that pattern does not
  (`MaskPatterns.KeepsServiceIff`). It cannot happen while `*` is the only special character (`StarsKeepService`); with
  character classes it can, for every key that contains `*` (`ClassesKeepServiceIff`).
- The last loop of the log sanity check looks only at the reconciler seen last (sieve_analyzer/analyze.py:58-61); this
  loses nothing, as `ServerLog.ReconcileStatus` shows.

## Model

| member | source | states |
|---|---|---|
| TriggerExpr.ComposedNamePrefix | sieve_server/trigger_graph.go:113-151 | a composed name can be read back from any text it begins, so names never run into each other |
| TriggerExpr.ComposedNameInjective | sieve_server/trigger_graph.go:113-151 | expressions with equal composed names are equal; the string-keyed tables never confuse two subexpressions |
| TriggerExpr.SiblingNamesDisjoint | sieve_server/trigger_graph.go:113-151 | the names in two operands over distinct literals are disjoint |
| TriggerExpr.OwnNameFresh | sieve_server/trigger_graph.go:113-151 | the composed name of an expression is none of those of its parts |
| TriggerExpr.MinimalIsSource | sieve_server/expression.go:15-29 | printing with only the needed parentheses obeys the priorities and denotes the expression |
| TriggerExpr.MinimalIsShortest | sieve_server/expression.go:15-29 | no text of the same expression is shorter than the minimal one |
| TokenStack.Stack.Push | sieve_server/stack.go:23-30 | adds an element on top and keeps the rest, whether or not a popped slot is overwritten |
| TokenStack.Stack.Pop | sieve_server/stack.go:32-36 | removes and returns the top; an empty stack fails |
| TokenStack.Stack.Top | sieve_server/stack.go:19-21 | returns the top; an empty stack fails |
| Parser.ExpressionToInfixTokens | sieve_server/expression.go:31-47 | the tokens of any text, including the trailing empty one |
| Parser.ScanSource | sieve_server/expression.go:31-47 | reading the text of a source leaves exactly its tokens, the last name pending |
| Parser.TokensOfSource | sieve_server/expression.go:31-47 | a text has its own tokens, plus one empty token exactly when it ends in a closing parenthesis |
| Parser.Reverse | sieve_server/expression.go:5-9 | the array is reversed in place |
| Parser.MirrorInPlace | sieve_server/expression.go:75-84 | the array is reversed and its parentheses are swapped, in place |
| Parser.InfixToPostfix | sieve_server/expression.go:49-73 | the loops over the operator stack compute the shunting-yard function, failing only on an unmatched parenthesis |
| Parser.StackHoldsOperators | sieve_server/expression.go:15-29 | the stack holds only operators, so the fatal case of `priority` is never reached |
| Parser.ShuntSource | sieve_server/expression.go:49-73 | shunting the mirrored tokens of a source emits its operands in order and leaves its top-level operators stacked |
| Parser.PostfixOfSource | sieve_server/expression.go:49-73 | the mirrored tokens become the postfix of the expression; the spurious token stays in front of it |
| Parser.InfixToPrefix | sieve_server/expression.go:75-88 | reversing, shunting and reversing again yields the prefix function, with the array updated in place |
| Parser.PrefixExpressionToBinaryTree | sieve_server/trigger_graph.go:113-151 | the loop over a stack of names and a map of nodes computes the tree builder, failing on underflow or an unknown name |
| Parser.BuildExpr | sieve_server/trigger_graph.go:113-151 | building from the prefix of an expression pushes exactly its tree, whatever lies below on the stack |
| Parser.ParseExpression | sieve_server/test_plan.go:631-634 | the whole pipeline from text to tree |
| Parser.ParseSource | sieve_server/test_plan.go:631-634 | every text that obeys the priorities, with any redundant parentheses, is parsed to its tree; no underflow, no clash of names |
| Parser.ParseRoundTrip | sieve_server/test_plan.go:631-634 | printing an expression and parsing the text gives it back |
| ParserExact.ScanShape | sieve_server/expression.go:31-47 | the tokens of a text in which no operands meet are names and operators, in separate places |
| ParserExact.ReadSource | sieve_server/expression.go:15-29 | closed tokens with no operand missing begin with a text that obeys the priorities |
| ParserExact.ShuntKeeps | sieve_server/expression.go:49-73 | the yard neither loses nor invents operands and operators, and holds one parenthesis per open one |
| ParserExact.BuildKeeps | sieve_server/trigger_graph.go:113-151 | the trees on the builder's stack are made of exactly the tokens read |
| ParserExact.PostfixIsUnique | sieve_server/expression.go:49-73 | a postfix expression can be read back from its end |
| ParserExact.ParsesExactly | sieve_server/test_plan.go:631-634 | a text is parsed to the tree of a given well-formed expression, and no operands meet in it, iff it writes that expression |
| ParserExact.JuxtaposedIsDropped | sieve_server/trigger_graph.go:150 | what stands in parentheses after a complete text is dropped without notice |
| ParserAccepts.YardIsSteady | sieve_server/expression.go:49-73 | on the tokens of a text with forgiven flaws the yard never gets stuck, and never outputs an operator before its operands |
| ParserAccepts.ComposedIsNew | sieve_server/trigger_graph.go:133-146 | over distinct names the builder never meets a composed name twice, also for malformed trees |
| ParserAccepts.BuildSucceeds | sieve_server/trigger_graph.go:113-151 | tokens with distinct names whose operators find their operands are built without a clash or an underflow |
| ParserAccepts.AcceptedIff | sieve_server/test_plan.go:631-634 | a text in which no operands meet is accepted iff its names are distinct, what is opened is closed, and its flaws are forgiven |
| ParserAccepts.ProperIff | docs/rfe/decouple_perturbation_policy_and_mechanism/doc.md:122-136 | any text writes an expression iff no operands meet in it, what is opened is closed, and it has no flaws |
| ParserAccepts.MalformedIff | sieve_server/expression.go:45 | a text in which no operands meet is accepted though malformed iff its names are distinct, it is closed, has exactly one flaw and ends in an operator or a parenthesis |
| ParserAccepts.EndingInName | sieve_server/expression.go:45 | an accepted text in which no operands meet and that ends in a name is proper |
| ParserAccepts.TrailingOperatorIsAccepted | sieve_server/expression.go:45 | every complete text over distinct names followed by an operator is accepted though malformed |
| ParserAccepts.LeadingOperatorIsAccepted | sieve_server/expression.go:45 | so is an operator followed by such a text in parentheses |
| TriggerGraph.BinaryTreeToTriggerGraph | sieve_server/trigger_graph.go:203-218 | builds a graph from any tree, failing on an operator without operands; for a well-formed expression it has its nodes, its sources to satisfy, and its sink |
| TriggerGraph.Graph.BinaryTreeToTriggerNode | sieve_server/trigger_graph.go:153-201 | adds nodes for any tree; for a well-formed expression exactly its own, leaving others untouched |
| TriggerGraph.Graph.LinkSequence | sieve_server/trigger_graph.go:155-162 | the left sink gets the right sources as successors, each of which gets it as predecessor |
| TriggerGraph.Graph.LinkComposite | sieve_server/trigger_graph.go:163-190 | a new node after the two sinks |
| TriggerGraph.CompileFrame | sieve_server/trigger_graph.go:153-201 | linking two operands commutes with the nodes already in the table |
| TriggerGraph.Graph.Trigger | sieve_server/trigger_graph.go:49-79 | the new progress, or an abort, as the propagation function gives it for a literal |
| TriggerGraph.Graph.TriggerOrAnd | sieve_server/trigger_graph.go:81-111 | the same for a composite; the mutual recursion terminates on every graph |
| TriggerGraph.Graph.Satisfy | sieve_server/trigger_graph.go:61-79 | marks the node and notifies its successors in order, stopping at an abort |
| TriggerSteps.NodeInContext | sieve_server/trigger_graph.go:153-201 | inside a larger graph a node differs only in the links of its expression's sink and sources |
| TriggerSteps.SuccessorsOfSink | sieve_server/trigger_graph.go:153-201 | the successors of the sink of a part are the enclosing composite or the sources of what follows |
| TriggerSteps.NotifyIsResume | sieve_server/trigger_graph.go:63-78 | notifying the successors of a completed part resumes its context |
| TriggerSteps.FireIsStep | sieve_server/trigger_graph.go:49-111 | propagation through the graph of nodes equals a compositional step on the expression |
| TriggerSteps.FireNonLiteral | sieve_server/trigger_graph.go:49-60 | triggering a name that is not a literal aborts |
| TriggerSteps.Degrees | sieve_server/trigger_graph.go:153-201 | every literal has at most one predecessor, a source none, every composite exactly two |
| TriggerMeaning.PartSplits | sieve_server/trigger_graph.go:44-111 | the progress of an expression is its ready literals, its half-done `&` nodes and its done nodes |
| TriggerMeaning.SinkIsDone | sieve_server/trigger_graph.go:44-47 | the sink of an expression is satisfied iff the expression is done |
| TriggerMeaning.StepIsMeaning | sieve_server/trigger_graph.go:49-111 | a step changes the progress to that of one more fired literal, and aborts exactly when a disjunction is completed twice |
| TriggerRuns.FireMeaning | sieve_server/trigger_graph.go:49-111 | a call succeeds iff the literal is ready and completes no disjunction twice, and what it leads to |
| TriggerRuns.RunMeaning | docs/rfe/decouple_perturbation_policy_and_mechanism/doc.md:122-136 | after any run that has not aborted, what is to satisfy, what is satisfied and whether the graph is full are exactly what the expression means |
| TriggerRuns.AcceptedIsHolds | docs/rfe/decouple_perturbation_policy_and_mechanism/doc.md:122-136 | firing ready literals greedily decides whether a trace satisfies the expression, with `;` as splitting of the trace |
| TriggerRuns.ObserveMeaning | sieve_server/state_machine.go:47-97 | after any events that did not abort, the graph is full iff the events satisfy the expression |
| TriggerRuns.TailRunSucceeds | sieve_server/trigger_graph.go:49-111 | if every disjunction is in tail position, no run that stops when full aborts |
| TriggerRuns.NeverAbortsIffOrsInTail | sieve_server/trigger_graph.go:49-111 | no such run aborts if and only if every disjunction is in tail position |
| TriggerRuns.LosingBranchAborts | sieve_server/trigger_graph.go:86-89 | firing both branches of a disjunction that something follows in sequence aborts |
| TriggerAborts.AbortHasReason | sieve_server/trigger_graph.go:49-111 | a call on something defined aborts a graph that is not full only if the definitions can abort it |
| TriggerAborts.ClashByFails | sieve_server/trigger_graph.go:49-111 | definitions that can abort a graph have a run of calls that does |
| TriggerAborts.AbortsIff | sieve_server/state_machine.go:69-77 | the triggers defined can abort a graph before it is full iff they can satisfy both branches of a disjunction outside tail position, or an operand of a conjunction whose node's name is defined as well, in a place that can be reached |
| TestPlan.MeaningIsWritten | sieve_server/test_plan.go:631-634 | a text in which no operands meet has a meaning iff it writes an expression, and then that one |
| TestPlan.ParseAction | sieve_server/test_plan.go:628-636 | the expression of a text, whose graph is compiled on the way |
| TestPlan.Watch | sieve_server/trigger_graph.go:44-111 | the graph object built from a text, offered events one by one, is fully triggered iff the events satisfy what the text means |
| TestPlan.RunPlan | sieve_server/state_machine.go:109-120 | for every plan and schedule: executed actions are the plan's in order, each run at the first moment at which the triggers fired satisfy the meaning of its text; no waiting trigger is missed, and actions run on time with what the schedule brings; every notifier is released once; an early end needs an action whose own triggers can abort its graph |
| StateMachine.Advance | sieve_server/state_machine.go:75-77 | a call by a trigger that is defined extends the trace of the current graph by one literal, or the definitions can abort the graph |
| StateMachine.FullIsFirst | sieve_server/trigger_graph.go:44-47 | a graph that stops when full is full exactly at the first moment at which its trace satisfies the expression |
| StateMachine.ServedAsHeard | sieve_server/state_machine.go:69-91 | if notifications bring one trigger each, the graph stays where the names heard lead, and becomes full with the first one that makes them satisfy the expression |
| Schedules.HeardIsHistory | sieve_server/state_machine.go:47-107 | what the current action has heard is exactly what the schedule has brought since it became current |
| Schedules.NoneIsMissed | sieve_server/state_machine.go:69-77 | for every schedule: a trigger that was waiting when a notification brought it has fired, unless its action has run |
| Schedules.RunIsOnTime | sieve_server/state_machine.go:69-91 | for every schedule that brings one trigger at a time: an action has run iff its history since it became current satisfies its expression, and with the first trigger that makes it so |
| StateMachine.Machine.constructor | sieve_server/state_machine.go:18-28 | the initial machine keeps every invariant of the runs |
| StateMachine.Machine.SetTimeoutForTimeoutTriggers | sieve_server/state_machine.go:37-45 | starts one timer per timeout trigger to be satisfied, so that none is lost |
| StateMachine.Machine.TimerFires | sieve_server/state_machine.go:30-35 | a timer becomes a queued notification, and no timeout trigger is lost |
| StateMachine.Machine.TakeTimeout | sieve_server/state_machine.go:109-120 | a timeout notification is served from the head of its channel |
| StateMachine.Machine.RunAction | sieve_server/state_machine.go:78-91 | the action of a full graph runs next in plan order; after a synchronous one the next graph starts untouched with its timers, after an asynchronous one nothing is current until it is done |
| StateMachine.Machine.TriggerCurrent | sieve_server/state_machine.go:75-77 | fires one more literal, or aborts, and then only if the triggers of the action can abort its graph |
| StateMachine.Machine.RunWhenFull | sieve_server/state_machine.go:78-94 | runs the action exactly when its graph is full, else starts the timers for what is to be satisfied now |
| StateMachine.Machine.Visit | sieve_server/state_machine.go:75-95 | triggering one name keeps what holds between iterations, and runs the action if the graph is full |
| StateMachine.Machine.IterateToSatisfy | sieve_server/state_machine.go:69-96 | whatever order Go iterates in, all wanted literals present from the start fire, and only wanted ones |
| StateMachine.Machine.ProcessNotification | sieve_server/state_machine.go:47-97 | what the notification brings to the current action is fired if it waits, and nothing else, or the action runs; everything is ignored while an asynchronous action runs; the blocked notifier is released exactly once |
| StateMachine.Machine.Take | sieve_server/state_machine.go:109-120 | each choice of the scheduler has exactly the effect that it may have, with the triggers that it brings |
| StateMachine.Machine.ProcessAsyncDone | sieve_server/state_machine.go:99-107 | completion of an asynchronous action makes the next one current, with its timers |
| StateMachine.Machine.Run | sieve_server/state_machine.go:109-120 | for every schedule: executed actions are a prefix of the plan, in order, once each, when full and at the first moment that satisfies the expression; no trigger that was waiting when a notification brought it is left unfired; with one trigger per notification actions run exactly on time; no timer is lost; every blocked notifier is released exactly once |
| PauseProtocol.ExposesIff | sieve_server/test_coordinator.go:254-306 | when resuming a scope exposes another, in terms a plan author can check |
| PauseProtocol.StaleIsShielded | sieve_server/test_plan.go:350-352 | in a covered plan a scope that is paused again after its resume is shielded by a pause of everything |
| PauseProtocol.InvStep | sieve_server/test_coordinator.go:254-306 | every step keeps parked and reading controllers consistent with the paused scopes |
| PauseProtocol.ExposedRun | sieve_server/test_plan.go:405-416 | a plan that exposes a scope has an interleaving with an in-scope read past its hook |
| PauseProtocol.RepausedRun | sieve_server/test_plan.go:350-352 | a scope paused again without that shield lets a read pass through its closed channel |
| PauseProtocol.PauseSafety | sieve_server/test_plan.go:340-373 | for every plan: no interleaving lets an in-scope read be past its hook between pause and resume, iff no step that is reached exposes a paused scope or pauses an unshielded one again |
| PauseProtocol.UnheldReadFinishes | sieve_server/test_coordinator.go:254-306 | in every interleaving a read inside its hook that no scope to pause covers can finish |
| JsonDelta.SameIffEqual | sieve_common/event_delta.py:6-106 | the difference is empty iff the values are equal |
| JsonDelta.DiffSymmetric | sieve_common/event_delta.py:6-106 | swapping the objects swaps the halves |
| JsonDelta.DiffIsLossless | sieve_common/event_delta.py:6-106 | the previous object and the pair rebuild the current one, for all nested maps and lists |
| JsonDelta.DiffIsReversible | sieve_common/event_delta.py:6-106 | the current object and the pair rebuild the previous one |
| JsonDelta.PartOfReflexive | sieve_common/event_delta.py:178-226 | every value is part of itself |
| JsonDelta.PartOfTransitive | sieve_common/event_delta.py:178-226 | part-of is transitive |
| JsonDelta.HalvesArePartOf | sieve_common/event_delta.py:178-226 | each half of a difference is part of its own object |
| DiffExact.DiffIsMinimal | sieve_common/event_delta.py:6-106 | at every depth, what stands at the same place of both halves differs; equal fields are left out and equal items skipped |
| DiffExact.DifferenceIsUnique | sieve_common/event_delta.py:6-106 | no other pair of parts is minimal and turns either object into the other |
| DiffExact.DiffIff | sieve_common/event_delta.py:6-106 | a pair is the difference iff its halves are parts, minimal, and exchange the two objects for each other |
| Places.PartOfIff | sieve_common/event_delta.py:178-226 | a value is part of another iff the other has all its places that are not skipped, with the same leaf or number of items |
| Places.CanonIff | sieve_common/event_delta.py:109-155 | a value is the canonical form iff it holds the mask at the outermost masked places and where a regex matches, the original leaf elsewhere, and the same keys and numbers of items |
| Places.NothingMatches | sieve_common/event_delta.py:109-113 | no string that a value regex matches is left at any place |
| JsonDelta.CanonIdempotent | sieve_common/event_delta.py:109-155 | canonicalising twice is canonicalising once |
| JsonDelta.CanonMonotone | sieve_common/event_delta.py:109-155 | canonicalisation preserves part-of |
| EventDelta.DiffEventAsMap | sieve_server/event.go:157-203 | the loops over common and missing keys give nothing for equal maps, else the only minimal difference of the two |
| EventDelta.DiffCommonKeys | sieve_common/event_delta.py:62-106 | the loop over the common keys, in any order, collects exactly the differing values |
| EventDelta.DiffEventAsList | sieve_server/event.go:83-155 | the loop over indices computes the list difference, with unequal lengths |
| EventDelta.CanonicalizeEventAsMap | sieve_server/event.go:244-260 | every place of the result is as it should be: masked keys and paths hold the mask, matching strings too, all else is the original |
| EventDelta.CanonicalizeEventAsList | sieve_server/event.go:226-242 | the same for the items of a list, under the wildcard path |
| EventDelta.DiffEvent | sieve_common/event_delta.py:158-175 | the learner's difference of the copies, trimmed and canonicalised as its flags say |
| EventDelta.Event.CanonicalizeEvent | sieve_server/event.go:262-269 | the first call makes an event its canonical form, marked; later calls leave it, whatever mask they bring |
| EventDelta.DiffEventInPlace | sieve_server/event.go:271-278 | however often both events were canonicalised before, under the same or an alike mask, the coordinator's difference is the learner's |
| EventDelta.GuardLosesNothingIff | sieve_server/test_plan.go:147-153 | for two masks: the differences of all events agree iff the masks cover the same keys and items wherever canonicalisation gets to |
| EventDelta.MarkedDiff | sieve_server/event.go:262-278 | the marker leaves no trace in a difference |
| EventDelta.GuardLosesNothing | sieve_server/event.go:262-269 | under the same mask the fields would be the same without the guard |
| EventDelta.NoConflictWithSameForm | sieve_common/event_delta.py:229-239 | an event never conflicts in payload with an object of the same canonical form |
| EventDelta.IsAnyFieldModified | sieve_server/event.go:486-490 | under alike masks, true iff the canonical part is not part of the canonical object |
| EventDelta.PartIsUnmodified | sieve_server/event.go:486-490 | nothing counts as modified while the object contains the part |
| Replay.OccurrenceIsUnique | sieve_common/k8s_event.py:979-992 | among events of one signature the occurrence number identifies the event |
| Replay.ComputeSignatureCounters | sieve_analyzer/event_graph.py:406-436 | each event's counter is the number of events with its signature so far |
| Replay.Trigger.Satisfy | sieve_server/test_plan.go:81-165 | counts the events that match exactly, or by containment at the API server, and fires at the desired occurrence only |
| Replay.Coordinator.Notify | sieve_server/test_coordinator.go:405-423 | compares with the last object seen of the key, and remembers the new one |
| Replay.ReplayEvent | sieve_server/test_coordinator.go:405-423 | replaying the learned events fires the trigger of event i at event i and at no other |
| Replay.ComputeEventCancel | sieve_analyzer/event_graph.py:506-531 | each event but the last is cancelled by exactly the later conflicting ones, the first by all |
| Replay.CancelledIff | sieve_common/k8s_event.py:947-966 | an event after the first is cancelled by a later one iff exactly one of them is a deletion, or neither is and the later object lacks a place that the event changed or has another leaf there |
| Replay.SameFormDoesNotCancel | sieve_common/k8s_event.py:947-966 | an event after the first is not cancelled by one of its kind with the same canonical form |
| LearnServer.CheckOnSend | sieve_server/learn_server.go:247-333 | sending extends, and processing keeps, the sanity check of log and channel together |
| LearnServer.DrawIdInv | sieve_server/learn_server.go:140-148 | an id drawn from a counter is in use nowhere else |
| LearnServer.SendAskInv | sieve_server/learn_server.go:187-195 | a request is in the channel at most once and its sender waits |
| LearnServer.SendAfterInv | sieve_server/learn_server.go:150-154 | an after-notification follows its before-notification, once |
| LearnServer.WorkerStepInv | sieve_server/learn_server.go:156-185 | the handlers of a worker find the channel map as they expect it |
| LearnServer.LogEnd | sieve_server/learn_server.go:270-279 | at the end of a reconcile the count of ongoing ones is positive, and the id is that of its begin |
| LearnServer.InvStep | sieve_server/learn_server.go:140-333 | every step of any caller, worker or the coordinator keeps the invariant |
| LearnServer.LearnSafety | sieve_server/learn_server.go:140-333 | in every interleaving that draws at most 2^32 ids per counter nothing aborts, the log passes the sanity check, reconciles are numbered 0, 1, 2, ..., and a release always finds its waiter |
| LearnLog.LogIsReport | sieve_server/learn_server.go:140-333 | in every interleaving the log has one line per notification sent that has left the channel, in the order of sending, with the id, key, type, function and keys of the call that sent it |
| LearnLog.HearsAreReceived | sieve_server/learn_server.go:310-317 | every hear of the log has the key and type of an event that an informer received, and the id drawn for it |
| LearnServer.DecimalIsNumeral | sieve_server/learn_server.go:265 | the ids of reconciles are numerals that stand for their numbers |
| LearnServer.EndMatchesBegin | sieve_server/learn_server.go:256-279 | the ids at the begin and at the end of a reconcile match |
| LearnServer.LogBoundIsExact | sieve_server/learn_server.go:141 | all runs with up to n events, or up to n reads and writes, leave an acceptable log iff n is at most 2^32 |
| LearnServer.ReleaseBoundIsExact | sieve_server/learn_server.go:141-146 | for each counter: in all runs that draw up to n ids from it every release finds its waiter, iff n is at most 2^32 |
| ServerLog.SanityCheck | sieve_analyzer/analyze.py:20-61 | the pass over the lines accepts exactly the well-paired logs |
| AcceptedLogs.LinePasses | sieve_analyzer/analyze.py:20-61 | after an accepted log one more line is accepted iff it is due |
| AcceptedLogs.AcceptedIff | sieve_analyzer/analyze.py:20-61 | a log is accepted iff every id begins once and ends at most once after that, and every reconciler begins only when idle and ends only what it began |
| ServerLog.ReconcileStatus | sieve_analyzer/analyze.py:43-61 | the status of every reconciler is 0 or 1 |
| ServerLog.AcceptedPrefix | sieve_analyzer/analyze.py:20-61 | prefixes of accepted logs are accepted |
| ServerLog.ParseReceiverEvents | sieve_analyzer/analyze.py:64-89 | an accepted log yields one hear per before-line, in log order, with distinct ids, ending at its own after-line, and every after-line ends one |
| ReconcilerEvents.ParseSound | sieve_analyzer/analyze.py:92-232 | an accepted log is parsed without a failed lookup or assertion, and every event reports its lines |
| ReconcilerEvents.NoOverwrite | sieve_analyzer/analyze.py:92-232 | no event overwrites another |
| ReconcilerEvents.TablesTellNext | sieve_analyzer/analyze.py:195-219 | the tables hold the last begin that counts and the one before it, with compression leaving out a begin since whose predecessor no write has ended |
| ReconcilerEvents.SeenTellsNext | sieve_analyzer/analyze.py:178-231 | the cache reads remembered are those of begun reconcilers since the last line at which no reconcile was left open |
| ReconcilerEvents.WriteTells | sieve_analyzer/analyze.py:109-141 | the window of a write opens with the last begin but one that counts, or with the log; its id is that of the last; its reads are those remembered |
| ReconcilerEvents.SortedIsAccount | sieve_analyzer/analyze.py:92-232 | no line that enters an event is lost, and each event is what its line and the lines before it say |
| ReconcilerEvents.ParseReconcilerEvents | sieve_analyzer/analyze.py:92-232 | an accepted log yields, by line number, one event per line that enters one; each write has the window, reconcile id and cache reads that the lines before it call for |
| ReconcilerEvents.CompressionWidens | sieve_analyzer/analyze.py:92-232 | with and without compression the same events are found, and each window with it contains the one without |
| ReconcilerEvents.CompressionKeepsPairs | sieve_analyzer/analyze.py:235-281 | every hear-write pair found without compression is found with it, before and after the read filter |
| EventGraph.Graph.AddSortedControllerHears | sieve_analyzer/event_graph.py:301-323 | succeeds iff the ids are distinct, keeps the hears in order, and indexes them by key |
| EventGraph.Graph.AddSortedReconcilerEvents | sieve_analyzer/event_graph.py:325-367 | the write and read vertices in order, their indexes by key, and a chain of edges through all events |
| EventGraph.Graph.ReadBeforeWrite | sieve_analyzer/event_graph.py:437-472 | the pass that stops early finds the latest read of the written key in the write's own reconcile; it fails iff a read coincides with the write |
| EventGraph.Graph.GenerateHearWritePairs | sieve_analyzer/analyze.py:298-309 | exactly the pairs that both passes keep |
| EventGraph.Graph.ConnectHearToWrite | sieve_analyzer/event_graph.py:369-387 | succeeds iff the hear starts before the write, and adds the edge |
| EventGraph.Graph.SanityCheck | sieve_analyzer/event_graph.py:228-299 | comparing neighbours decides the sanity of all pairs |
| EventGraph.EventsGiveSaneWrites | sieve_analyzer/event_graph.py:228-299 | the events of an accepted log give increasing, well-formed writes that coincide with no read |
| EventGraph.RelatedIff | sieve_analyzer/analyze.py:235-281 | the two passes keep a pair iff the hear started before the write, was not over before the window opened, and what it is about was read in a remembered cache read |
| EventGraph.BuildControllerEventGraph | sieve_analyzer/analyze.py:337-363 | every accepted log is parsed and its graph built and sane, with exactly its hears and writes, and an edge exactly where a hear may have caused a write by the lines of the log |
| Oracle.TaintEvent | sieve_oracle/checker_common.py:61-75 | one event taints only what is connected, and reports growth exactly |
| Oracle.TaintedIsConnected | sieve_oracle/checker_common.py:58-75 | a sound set that no reference crosses is the set of connected uids |
| Oracle.Taint | sieve_oracle/checker_common.py:58-75 | the loop terminates with exactly the uids connected to a tagged pod |
| Oracle.InsertSorts | sieve_oracle/checker_common.py:82 | inserting a new key keeps the keys in increasing order and adds nothing else |
| Oracle.GenerateControllerRelatedList | sieve_oracle/checker_common.py:40-83 | exactly the keys of the objects connected to a tagged pod through owner references in either direction, in increasing order; fails iff a tagged pod lacks its uid or references |
| Oracle.GenerateState | sieve_oracle/liveness_checker.py:38-54 | the backward scan equals the forward replay, for every log |
| Masks.ScanMasks | sieve_common/k8s_event.py:180-194 | exactly the paths of the entries whose key equals or matches |
| Masks.MaskTable.HandleWildcards | sieve_server/config.go:108-128 | in any order of iteration, plain keys gain exactly the paths of matching patterns and patterns keep their own |
| Masks.GetMergedMask | sieve_server/config.go:71-106 | the merged table serves every plain key with all that applies to it; fails iff a pattern is malformed |
| Masks.MaskTable.GetMaskByResourceKey | sieve_server/config.go:130-156 | from a table in service a plain key gets all that is due to it, and the table stays in service, also after a key with a wildcard that does not stray; one call at a time |
| Masks.LookupIsScan | sieve_analyzer/event_graph.py:197-209 | one memoised lookup of a plain key equals the union of the plain scans |
| Masks.AddedPasses | sieve_server/config.go:139-154 | a pattern added by a lookup passes on only what is due, if it does not stray, whatever was added before |
| Masks.MaskSession | sieve_server/config.go:71-156 | after merging, in any sequence of lookups of keys that do not stray, every plain key gets what the scans give |
| MaskPatterns.KeepsServiceIff | sieve_server/config.go:139-154 | for every lawful matcher: a lookup of k leaves what later plain keys get unchanged iff k has no wildcard or does not stray |
| MaskPatterns.ClassesStray | sieve_server/config.go:142-144 | with character classes every key with a star strays |
| MaskPatterns.ClassesKeepServiceIff | sieve_server/config.go:139-154 | with character classes a lookup leaves later ones unchanged, whatever the masks, iff its key has no star |
| MaskPatterns.GlobComposes | sieve_server/config.go:142-144 | with the star as only special character, what a matched pattern matches is matched |
| MaskPatterns.StarsKeepService | sieve_server/config.go:139-154 | with such patterns no lookup changes later ones |
| MaskLookups.InvStep | sieve_server/config.go:130-156 | every step of every call keeps the table in service but for the entry being filled |
| MaskLookups.RacingRun | sieve_server/config.go:131-139 | an interleaving of two lookups of a new key in which one has returned the entry before anything is in it |
| MaskLookups.LookupsAreExactIff | sieve_server/config.go:130-156 | in all interleavings, and whenever a caller looks at the entry it was given, it sees what is due, iff no two calls ask for the same new key with masked paths |

## Left out

- Trigger nodes refer to each other by name, which identifies them, not by memory address.
- ParserAccepts.AcceptedIff: acceptance is decided only for texts in which no operands meet; of the others some are shown to be accepted, and all to be malformed.
- TestPlan.ParseAction: gives no expression for an accepted malformed text; its graph is built but has no meaning here.
- TestPlan.RunPlan: does not run a plan with such a text, where the source does.
- StateMachine.Machine.constructor: takes well-formed expressions only, for the same reason.
- Which observed triggers a notification satisfies is an input of the state machine; `Replay` models how object triggers decide it for one key and one observation point.
- Schedules.RunIsOnTime: where one notification brings several triggers at once, their order is Go's order of iteration and only `NoneIsMissed` is stated.
- Timeout triggers of the first action before its graph advances: no timer is started for them at start-up (sieve_server/state_machine.go:109-120), so no-lost-timer is stated for every later action and later progress.
- Replay.ReplayEvent: covers added, updated and deleted events; replaced and sync events are counted differently by the two sides.
- LearnServer.LearnSafety: holds up to 2^32 ids per counter, because ids wrap around; the rate limiter is off and the widths of the reconcile counters are not modelled.
- LearnServer: liveness is not stated, only that a pending release finds its waiter; log lines carry parsed fields instead of text.
- EventGraph.BuildControllerEventGraph: the log lines carry no objects, so that the differences of hears and their cancellation are stated apart, in `Replay`, and the differences of writes not at all.
- PauseProtocol: asynchronous actions, pauses after reads and around writes, and deadlock freedom; only safety of pauses before reads.
- TriggerAborts.AbortsIff: speaks of the calls on one graph; that a notification or a timer exists for each call is not stated.
- Nested JSON is a value: the in-place rewriting of inner maps and lists, and aliasing between them, is modelled only for the outermost map of an event.
- Scalars are compared by their own equality; that Python equates `1` and `True` is not modelled. Neither are invalid UTF-8 and JSON number formats.
- Field paths are sequences of keys, not strings joined by `/`; the code notes that joining is ambiguous.
- Regular expressions of value masks are predicates, and glob patterns are an arbitrary matcher, of which `MaskPatterns` models two; ranges, negation and escapes in character classes are not modelled. Patterns with `?` or `[` but no `*`, which the two languages treat differently, are excluded by `Masks.Lawful`.
- Field key masks: the same table with one-element entries.
- Annotated API calls in the analyser, which sets a range on a class that has none; in the learning server they are log lines without content.
- Owner references without a uid, and JSON nulls in metadata.
- MaskLookups.LookupsAreExactIff: starts from a table into which no key with a wildcard has been looked up, and looks up plain keys.
- MaskLookups: reads and writes of a map entry are atomic steps; that Go may abort a process whose goroutines read and write a map at once is not modelled.
- The conversion of objects and masks to API form, the generation of test plans, state comparison and alarms.
- Cluster set-up, instrumentation, RPC, configuration files and all other input and output.
