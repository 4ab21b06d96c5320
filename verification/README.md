# Zynax in Dafny

A model of the parts of Zynax that carry state, and proofs of what they promise: the workflow compiler and its validators,
the interpreter that executes a compiled workflow over a run-scoped data context, the task broker, the JetStream naming
scheme with its subscribers and dead-letter forwarder, the context budget, the model-stream bridge and the conformance
matrix. Pure code is modelled by functions; code that updates state in loops by methods and classes, each proved against a
function or a predicate. What happens at once, or what an outside party decides, is modelled as a state machine whose
invariants hold over every run.

`dafny verify dfyconfig.toml` checks the whole project.

## Modules

- `Text`, `Collections`: dotted names, substring search, decimal digits; sums over a set in any order, insertion sort.
- `References`: the two readers of `$.states.<state>.output.<key>`, one in the compiler and one in the engine adapter.
- `Compiler`, `ManifestParser`, `WorkflowIR`, `Complaints`: YAML to manifest, manifest to graph, graph to the compiled form;
  and which complaints a document is due, read off the document alone.
- `Reachability`, `Validators`: the validators that follow `Build`, and what they mean for the paths of a workflow.
- `DataContext`, `Machine`, `RunProperties`, `CompiledRuns`, `Interpreter`, `Replay`: the data context, runs as sequences of
  configurations, what every run keeps, what runs of compiled workflows keep besides, the interpreter's own loops, which only
  ever extend such a run, and what two executions under the same answers have in common.
- `Environments`, `RunLaws`, `RunHistory`: runs under given answers of executor and publisher; for what reason, and only for
  what reason, a step fails; and what in a run's past decides what it dispatches, chooses and knows.
- `Routing`, `VisitedStates`, `BadNames`: which transitions and states runs can take and visit, against what the validators
  accept; and names `Build` accepts that a run cannot do with.
- `Naming`, `Subscriber`, `DeadLetters`, `ForwarderProtocol`, `Forwarder`: streams, subjects and globs; the delivery loop; what
  a dead-letter copy is; any number of forwarders interleaved with each other and the server; and the forwarder's own loops,
  which only ever extend such a run.
- `Delivery`: from publisher to follower, over any sequence of streams created.
- `Tasks`, `TaskRepo`, `TaskBroker`, `BrokerProtocol`: the task record, the in-memory repository, the service's calls, and any
  number of workers interleaved.
- `ContextBudget`, `ModelStream`, `Bridge`, `ConformanceMatrix`: budget truncation, the model's reply stream, task events, and
  the evidence behind a verdict.

## Where the code and its own words disagree

The model follows the code. Each item names the lemmas that show the difference and that give the condition under which, and
only under which, the promise holds.

- The compiler accepts a bound key with a dot in it; the runtime refuses every reference to such a key, and no other it parses
  with a dot-free state (`References.DottedKeyIsRefusedAtRunTime`), so no run that is to end with such a value succeeds
  (`BadNames.DottedKeyNeverSucceeds`, `BadNames.DottedKeyFails`).
- A terminal output that begins `$.` but not `$.states.` passes `Build` as a literal and fails every run that ends there
  (`CompiledRuns.UnplainIsFatal`, `Replay.ReplaysCanDiffer`). Malformed references are exactly those that are not plain
  (`CompiledRuns.MalformedNeedsUnplain`).
- The guard of a YAML transition is parsed and then dropped: it is stored beside `conditions`, and only `conditions` reach
  the compiled form (`Routing.GuardsAreDropped`). The transition taken is the one the guards ask for, whatever they say,
  only for an event whose first transition has no guard, or that has none (`Routing.GuardsAreRespectedIff`). So a second
  transition that the duplicate-transition validator accepts because a guard "disambiguates" is never taken
  (`Routing.GuardedTransitionIsShadowed`).
- A state whose actions are all asynchronous, or that has none, such as a human-in-the-loop state, leaves along its first
  transition whatever the events are called (`Routing.RejectIsNeverTaken`). What the duplicate-transition validator accepts can
  all be taken only where there is at most one transition, or where there is a synchronous action and every guarded transition
  has its event to itself (`Routing.AcceptedAreTakenIff`). So the states the validators find reachable are not all visited
  (`VisitedStates.ReviewIsNotVisited`).
- `Build` reports a state as unreachable when nothing targets it, which is weaker than reachability from the initial state
  (`Validators.IslandPassesTheBuilder`); the two agree only where every cycle is reached
  (`Validators.BuilderTestIsReachabilityIff`). The orphan validator behind it does check reachability
  (`Validators.OrphanStates`).
- The trapped-cycle detector is documented to accept a cycle with a human-in-the-loop state; it does not look at that
  (`Validators.HumanLoopIsTrap`, `Validators.CycleIsTrapIff`).
- Two states' output keys can be the same store key, only when one id extends the other by `.output`
  (`References.OutputKeysCollideIff`, `BadNames.CollisionBreaksView`). No read ever meets such a key: what the runtime can look
  up is always what was last written for that state and output (`RunProperties.EveryRunsStore`).
- The error of an execution that fails on its data is not fixed by what the executor and the publisher answered: which reference
  it names can depend on map order (`Replay.ReplaysCanDiffer`), exactly where two references fail to resolve or two outputs
  cannot be taken from an object (`Replay.BlameDependsOnMapOrderIff`).
- An event type of four segments derives the same stream name as the longer types it prefixes, but a stream created for
  it first captures none of them (`Naming.PrefixAsEventTypeStrandsTheRest`, `Delivery.PrefixFirstStrandsTheRest`); an event lands
  in the stream of its name only if that was created for its prefix with a verb, or for itself (`Delivery.LandsIff`).
- A retry budget of the largest int32 lets the retry count wrap (`Tasks.RetryBoundKeptIff`).
- Terminal records are meant to be final. Two overlapping read-check-write pairs on one task overwrite one
  (`BrokerProtocol.OverlapOverwrites`, `BrokerProtocol.TerminalCanBeOverwritten`); it stays only if no worker is about to write
  something else there (`BrokerProtocol.TerminalStaysIff`).
- A page token that decodes to a negative offset is not refused: slicing the listing at it is out of range, and that is the one
  such token (`TaskRepo.SliceFailsIff`).
- A conformance leg that plans no scenario passes with nothing observed (`ConformanceMatrix.PassWithoutEvidence`,
  `ConformanceMatrix.PassHasEvidenceIff`), and in a local execution two scenarios that share a step but not a runner share the
  last one's outcome (`ConformanceMatrix.SharedStepHidesFailure`, `ConformanceMatrix.CellTellsOfItsRunnerIff`).

## Model

| member | source | states |
|---|---|---|
| References.ParsedRefSpells | services/workflow-compiler/internal/domain/graph.go:262-279 | a reference the compiler parses is spelled `$.` followed by the store key of the state and key it found, neither empty |
| References.ReadersAgree | services/engine-adapter/internal/domain/datacontext.go:238-247 | for every `$.` reference the runtime reader accepts exactly when the compiler's does with dot-free state and key, and then yields that pair's store key |
| References.DottedKeyIsRefusedAtRunTime | services/workflow-compiler/internal/domain/graph.go:259-279 | a reference to a dot-free state is always parsed by the compiler, and refused by the runtime exactly when the key has a dot |
| References.OutputKeysCollideIff | services/engine-adapter/internal/domain/datacontext.go:230-232 | two different states have a common store key for some named outputs if and only if one id extends the other by `.output` or by `.output.` and more |
| References.SeparateKeysAreInjective | services/engine-adapter/internal/domain/datacontext.go:230-232 | among states no two of which may collide, a store key determines its state and key |
| References.DotFreeIsSeparate | services/engine-adapter/internal/domain/datacontext.go:230-232 | dot-free state ids never collide |
| References.ReadableKeyIsUnambiguous | services/engine-adapter/internal/domain/datacontext.go:230-247 | a store key the runtime can read belongs to one state and key only, whatever ids exist |
| Compiler.IndexDeclaredOutputs | services/workflow-compiler/internal/domain/graph.go:130-143 | the index built action by action, in any order of states, is the set of keys each state's actions publish |
| Compiler.DeclaresIff | services/workflow-compiler/internal/domain/graph.go:130-143 | a key is in a state's index exactly when some action of that state binds it |
| Compiler.ResolveRefIff | services/workflow-compiler/internal/domain/graph.go:186-257 | resolving a reference gives no error exactly when it parses and names an output some action of the named state declares |
| Compiler.UnknownTargetErrors | services/workflow-compiler/internal/domain/graph.go:38-50 | visiting states in any order gives one error per transition to an undefined state, as a multiset |
| Compiler.FindTerminal | services/workflow-compiler/internal/domain/graph.go:52-65 | found exactly when some state is terminal |
| Compiler.CollectTargets | services/workflow-compiler/internal/domain/graph.go:67-75 | the set collected is the initial state and every transition target, no more |
| Compiler.OrphanStateErrors | services/workflow-compiler/internal/domain/graph.go:76-85 | one error per state that is neither initial nor targeted, in any visiting order |
| Compiler.ValidateInputBindings | services/workflow-compiler/internal/domain/graph.go:111-125 | the input-binding errors of every action of every state, as a multiset free of map order |
| Compiler.ValidateWorkflowOutputs | services/workflow-compiler/internal/domain/graph.go:152-181 | one error for outputs off a terminal state, else one per `$.states.` output that does not resolve, free of map order |
| Compiler.Build | services/workflow-compiler/internal/domain/graph.go:26-104 | a graph comes back exactly when the manifest is well formed, and then holds the manifest's states; the error multiset depends on the manifest alone |
| Compiler.BuildAcceptsIff | services/workflow-compiler/internal/domain/graph.go:26-104 | no error is due if and only if initial state and targets are known, a terminal state exists, every other state is targeted, every reference is declared and outputs stand only on terminals |
| Complaints.BuildErrorsAreDue | services/workflow-compiler/internal/domain/graph.go:26-257 | an error is among those of `Build` if and only if the manifest is due it, each kind spelled out: which state, transition, action, key and reference it names, and what is wrong there |
| ManifestParser.SplitInputBindings | services/workflow-compiler/internal/domain/manifest.go:398-416 | every input lands on exactly one side: under the bindings, with its text, exactly if it is a string that begins `$.states.`, else as it is under the literals |
| ManifestParser.ConvertPaths | services/workflow-compiler/internal/domain/manifest.go:324-392 | in any map order the string entries are kept and every other entry gives one error, naming where it stands |
| ManifestParser.ConvertState | services/workflow-compiler/internal/domain/manifest.go:221-316 | a state converts exactly when its type, actions, transitions and outputs are acceptable, and the result is told field by field from the document: kind, timeout, actions and transitions in order, inputs split, string paths kept; otherwise each thing that is not acceptable gives one error |
| ManifestParser.ParseManifest | services/workflow-compiler/internal/domain/manifest.go:132-218 | a manifest is parsed exactly when the decoded document is acceptable, and then has the document's header and initial state and under each name the state read there, field by field; otherwise the errors, as a multiset free of map order, are those of the top level or else of every state |
| Complaints.ParseErrorsAreDue | services/workflow-compiler/internal/domain/manifest.go:132-316 | an error is among those of the parser if and only if the document is due it, each kind spelled out with its place |
| ManifestParser.ParsedManifestShape | services/workflow-compiler/internal/domain/manifest.go:295-316 | in a parsed manifest no transition has conditions and every input binding begins `$.states.` |
| ManifestParser.DataFlow | cmd/zynax/validate/dataflow.go:34-90 | other kinds are skipped; a Workflow is reported on in name order, and not at all exactly when the initial state and every `goto` are defined |
| Complaints.FlowErrorsAreDue | cmd/zynax/validate/dataflow.go:34-90 | the CLI check reports an undefined initial state, or a transition to an undefined state, if and only if the document has it |
| Complaints.FlowErrorsAreOrdered | cmd/zynax/validate/dataflow.go:54-89 | it reports the initial state first, then the states in name order, each state's transitions in their own order |
| ManifestParser.DataFlowChecksTargets | cmd/zynax/validate/dataflow.go:54-89 | on a parsed manifest the CLI check is silent if and only if initial state and targets are known, so everything `Build` accepts passes it |
| WorkflowIR.ToIR | services/workflow-compiler/internal/domain/ir/ir.go:22-75 | compilation succeeds exactly when the workflow has an id and every literal input can be encoded; the result has the graph's states in id order, each told field by field: kind, timeout, outputs, transitions with their conditions, actions with template and bindings |
| WorkflowIR.FindStateMirrors | services/engine-adapter/internal/domain/interpreter.go:396-403 | looking up an id in the compiled form finds the compilation of the graph's state of that id, and fails exactly for unknown ids |
| WorkflowIR.FindStateIsFirst | services/engine-adapter/internal/domain/interpreter.go:396-403 | of several states with one id the lookup finds the first |
| Reachability.ReachableFrom | services/workflow-compiler/internal/domain/validators/structural.go:170-189 | breadth-first search visits exactly the states some path of transitions reaches |
| Reachability.ReverseEdges | services/workflow-compiler/internal/domain/validators/structural.go:138-147 | the reverse adjacency lists contain a state under a target exactly when it targets it |
| Reachability.ProductiveStates | services/workflow-compiler/internal/domain/validators/structural.go:136-167 | the backward search finds exactly the states from which a terminal state can be reached |
| Validators.OrphanStates | services/workflow-compiler/internal/domain/validators/structural.go:34-48 | reports, once each, exactly the states no path from the initial state reaches |
| Validators.CircularTransitionDetector.Dfs | services/workflow-compiler/internal/domain/validators/structural.go:73-119 | one depth-first visit keeps gray = stack = a walk and every report a trap, restores the stack, and finishes what an unproductive state targets before the state, unless something is reported |
| Validators.CircularTransitionDetector.BackEdge | services/workflow-compiler/internal/domain/validators/structural.go:89-115 | an edge back onto the stack from an unproductive state always leaves a report, and what is added is a trapped cycle |
| Validators.CycleIsTrapIff | services/workflow-compiler/internal/domain/validators/structural.go:98-104 | a cycle with one state that cannot reach a terminal state has only such states |
| Validators.DetectTraps | services/workflow-compiler/internal/domain/validators/structural.go:58-132 | something is reported if and only if a cycle of states that cannot reach a terminal state exists, and every report is one |
| Validators.ValidateStructure | services/workflow-compiler/internal/domain/validators/validators.go:23-29 | the three structural validators are silent exactly when a terminal state exists, every state is reachable and nothing is trapped |
| Validators.EveryStateCanFinishIff | services/workflow-compiler/internal/domain/validators/structural.go:50-55 | in a graph with known targets and no trap every state can reach a terminal state if and only if every state without transitions is terminal |
| Validators.ValidatedStatesLeadSomewhereIff | services/workflow-compiler/internal/api/server.go:92-103 | in a built and validated workflow every state lies on a path from the initial to a terminal state if and only if there is no dead end |
| Validators.ReachableIsReached | services/workflow-compiler/internal/domain/graph.go:67-85 | a reachable state passes the builder's test |
| Validators.BuilderTestIsReachabilityIff | services/workflow-compiler/internal/domain/graph.go:67-85 | where everything passes the builder's test, every state is reachable from the initial one if and only if every cycle is |
| Validators.IslandPassesTheBuilder | services/workflow-compiler/internal/domain/graph.go:67-85 | `Build` accepts a workflow with two states that only lead to each other and are unreachable |
| Validators.HumanLoopIsTrap | services/workflow-compiler/internal/domain/validators/structural.go:50-55 | `Build` accepts a workflow, all of it reachable, with a human-in-the-loop state that only leads to itself, and that is a trap |
| Routing.DuplicateTransitions | services/workflow-compiler/internal/domain/validators/semantic.go:198-221 | reports exactly the unguarded transitions that repeat the event of an earlier unguarded one, in order; silent exactly when there is none |
| Routing.GuardsAreDropped | services/workflow-compiler/internal/domain/ir/ir.go:137-151 | in every compiled YAML manifest the transition taken is the first for the event, whatever the guards say and the context holds |
| Routing.CanBeTakenIff | services/engine-adapter/internal/domain/interpreter.go:165-242 | without conditions a transition can be taken, for some result its state can give, exactly when it is the first of the state, or the state has a synchronous action and it is the first for a named event |
| Routing.AllCanBeTakenIff | services/engine-adapter/internal/domain/interpreter.go:165-242 | of a parsed state every transition can be taken if and only if there is at most one, or the state has a synchronous action and no event occurs twice, guarded or not |
| Routing.AcceptedAreTakenIff | services/workflow-compiler/internal/domain/validators/semantic.go:198-221 | of a parsed state the validator accepts every transition can be taken if and only if there is at most one, or the state has a synchronous action and no guarded transition shares its event with another |
| Routing.EveryRunsEvent | services/engine-adapter/internal/domain/interpreter.go:165-223 | at every point of every run, an event to choose by that has a name was given by a synchronous action of the state |
| Routing.EveryRunTakes | services/engine-adapter/internal/domain/interpreter.go:76-103 | every run leaves a state without conditions along a transition that can be taken, the first for its event, and stops there exactly when none is for the event |
| Routing.TakenOnARun | services/engine-adapter/internal/domain/interpreter.go:76-103 | wherever a run comes to a state whose actions bind nothing and whose templates render, each transition that can be taken is the one some continuation is about to take |
| Routing.RejectIsNeverTaken | services/engine-adapter/internal/domain/interpreter.go:165-223 | every run of an accepted workflow that waits for a human to approve or reject, with no action, is approved |
| VisitedStates.EveryRunIsAWay | services/engine-adapter/internal/domain/interpreter.go:59-104 | every run is at a state to which transitions that can be taken lead from the initial state |
| VisitedStates.VisitedIff | services/engine-adapter/internal/domain/interpreter.go:59-104 | where actions bind nothing, some run comes to a state if and only if such transitions lead there |
| VisitedStates.VisitedIsReachable | services/workflow-compiler/internal/domain/validators/structural.go:170-189 | what runs can visit the orphan validator finds reachable |
| VisitedStates.ReviewIsNotVisited | services/workflow-compiler/internal/domain/validators/structural.go:170-189 | but not the reverse: an accepted workflow has a reachable state that no run visits |
| Routing.GuardsAreRespectedIff | services/workflow-compiler/internal/domain/ir/ir.go:137-151 | the compiled form chooses for an event what the guards ask for, for every guard function and context, if and only if no transition is for the event or the first that is has no guard |
| Routing.GuardedTransitionIsShadowed | services/workflow-compiler/internal/domain/validators/semantic.go:203-207 | a second transition for an event after a guarded one passes the validator and can never be taken |
| DataContext.WorkflowDataContext.WriteOutputs | services/engine-adapter/internal/domain/datacontext.go:140-169 | a foreign scope writes nothing; otherwise all bindings are written exactly when the payload decodes to an object from which each path takes a scalar (for an empty payload the object without fields), each under its own key with the text its path takes; a failure leaves a part of them and names a binding at fault with what is wrong on its path, or the payload as received when that is no object |
| DataContext.ExtractIff | services/engine-adapter/internal/domain/datacontext.go:249-298 | told along the path without the code's recursion: a value comes out if and only if every segment but the last is a field holding an object and the last one holds a string, number or boolean written as that text; each error comes out if and only if its own first obstacle stands on the path |
| DataContext.ExtractScalar | services/engine-adapter/internal/domain/datacontext.go:253-274 | the loop over the segments gives that value or that reason |
| DataContext.WorkflowDataContext.ResolveInputs | services/engine-adapter/internal/domain/datacontext.go:180-209 | a foreign scope reads nothing; otherwise all bindings resolve, to the stored values, exactly when each reference can be read and is stored, and a failure names one that cannot |
| DataContext.ReadFailures | services/engine-adapter/internal/domain/datacontext.go:187-208 | reading fails as malformed exactly when the compiler's reader, with dot-free parts, refuses the reference; the only other failure is not found |
| Machine.NeverStuck | services/engine-adapter/internal/domain/interpreter.go:59-104 | a run that has not ended has a next step, whatever executor, guards and publisher do |
| RunProperties.EveryRunsEvents | services/engine-adapter/internal/domain/interpreter.go:77-150 | every run's publish attempts are entered and exited pairs along transitions, then one ending that fits the outcome: completed with exactly the declared output names within bounds, failed, entered alone when the publisher refuses it (`RunLaws.EveryRunHeedsPublisher`), or nothing for a missing state; success exactly when the last is completed |
| RunProperties.EveryRunsWrites | services/engine-adapter/internal/domain/interpreter.go:202-218 | whatever the ids, each write follows the dispatch of an action of its state, under keys that action binds, each with the text found at the end of its path in the answer; under all of them unless the run has failed |
| RunLaws.EveryRunHeedsPublisher | services/engine-adapter/internal/domain/interpreter.go:76-103 | in every run under an environment each entered event but the last was taken by the publisher, and the run ends for the publisher if and only if the last event is an entered one it did not take |
| RunLaws.EveryStepIsExplained | services/engine-adapter/internal/domain/interpreter.go:59-252 | every step fails for a cause that is there, if and only if one is: an unknown state, an entered event refused, a template that cannot be rendered, the executor's error, a reference that fails, an answer that lacks an output, no transition that passes, outputs too large or not encodable; it succeeds only with every output the last value written or the literal |
| RunHistory.EveryVisitDispatches | services/engine-adapter/internal/domain/interpreter.go:169-223 | when a run chooses where to go it has, since it came to the state, dispatched exactly the synchronous actions, once each and in order |
| RunHistory.EveryDispatchIsRendered | services/engine-adapter/internal/domain/interpreter.go:178-206 | each dispatch is of the action due, with the payload its template renders from the context overlaid with the last-written values of its inputs |
| RunHistory.EveryChoiceIsTheLastAnswer | services/engine-adapter/internal/domain/interpreter.go:169-223 | the result a run chooses by is the environment's answer to the last synchronous action of the state, or the empty result if there is none |
| RunHistory.EveryLeaveIsTheFirst | services/engine-adapter/internal/domain/interpreter.go:228-252 | a run leaves along the first transition that is for the event and whose guards all hold |
| RunHistory.EveryRunsContext | services/engine-adapter/internal/domain/interpreter.go:377-393 | at every point of every run the template context holds under each key, `_event` aside, the last text that a result the run left a state with had there, and nothing else |
| RunProperties.EveryRunsStore | services/engine-adapter/internal/domain/interpreter.go:178-218 | in every run, whatever the ids, the store holds under a key the runtime can read exactly what was last written for that state and output, and every dispatch was fed the last-written values of its references; with ids that do not collide the whole store is the last-write view; and what was written are the executed actions' outputs |
| BadNames.CollisionBreaksView | services/engine-adapter/internal/domain/datacontext.go:230-232 | for any two ids that may collide `Build` accepts a workflow with these states that, however compiled, has a run after which the store is not the last-write view |
| BadNames.DottedKeyNeverSucceeds | services/engine-adapter/internal/domain/datacontext.go:238-247 | `Build` accepts a workflow whose result is an output with a dot in its key, and no run of it succeeds |
| BadNames.DottedKeyFails | services/engine-adapter/internal/domain/datacontext.go:238-247 | some run of it gets as far as that reference and fails with it as malformed |
| CompiledRuns.AcceptedRunsAreSafe | services/engine-adapter/internal/domain/interpreter.go:59-104 | no run of a manifest `Build` accepts fails with a missing state, and a malformed reference is one of the manifest's that the runtime cannot read; if it can read all, the one reference failure left is not found |
| CompiledRuns.DotFreeNamesArePlain | services/workflow-compiler/internal/domain/graph.go:166-181 | dot-free state ids and bound keys, and output literals that do not begin `$.`, are enough for that |
| CompiledRuns.MalformedNeedsUnplain | services/engine-adapter/internal/domain/datacontext.go:187-208 | a reference is blamed as malformed exactly when the runtime cannot read it |
| CompiledRuns.UnplainIsFatal | services/engine-adapter/internal/domain/datacontext.go:238-247 | a configuration about to read a reference the runtime cannot read ends in failure on every step, and on some with malformed for that reference |
| CompiledRuns.NotFoundMeansUnwritten | services/engine-adapter/internal/domain/datacontext.go:200-204 | at any point of any run a reference is not found if and only if the runtime can read it and no executed action has written that output |
| Interpreter.EnforceOutputBounds | services/engine-adapter/internal/domain/outputs.go:48-60 | accepts exactly the outputs whose every value is within 65536 bytes and whose total is within 262144; an error names the value, or the exact total |
| Interpreter.FirstFiring | services/engine-adapter/internal/domain/interpreter.go:228-252 | the loop finds the first transition whose event matches and whose guards all hold |
| Interpreter.Execution.CaptureTerminalOutputs | services/engine-adapter/internal/domain/interpreter.go:113-143 | the terminal branch is a step of the run machine ending it with the outcome returned |
| Interpreter.Execution.ExecuteAction | services/engine-adapter/internal/domain/interpreter.go:178-218 | one synchronous action is a step of the run machine under the environment's answer: to the next action with its result, or to a failure with its error |
| Interpreter.Execution.Dispatch | services/engine-adapter/internal/domain/interpreter.go:202-217 | the executor is asked with the rendered payload, and its answer is the step the machine takes: a failure for its error, else what storing it gives |
| Interpreter.Execution.Store | services/engine-adapter/internal/domain/interpreter.go:212-217 | storing an answer's outputs is the machine's step to the next action, or to the failure a bad payload or path gives, with the part written so far |
| Interpreter.Execution.ExecuteActions | services/engine-adapter/internal/domain/interpreter.go:169-223 | the actions extend the run to the choice of a transition for the last result, or to a failure |
| Interpreter.Execution.MergeInto | services/engine-adapter/internal/domain/interpreter.go:377-393 | exactly the payload's string fields other than `_event` join the context |
| Interpreter.Execution.TakeTransition | services/engine-adapter/internal/domain/interpreter.go:92-103 | leaving a state is a step of the run machine to the target, or to a failure |
| Interpreter.Execution.RunState | services/engine-adapter/internal/domain/interpreter.go:76-103 | one turn of the interpreter's loop extends a run of the machine, each step the environment's doing, to the next state or to its end; so what the publisher answers decides as `RunLaws.EveryRunHeedsPublisher` says |
| Interpreter.Execution.Run | services/engine-adapter/internal/domain/interpreter.go:59-104 | the interpreter only extends runs of the machine, each step the given executor's and publisher's doing, so every property of runs is one of it; its result is the run's outcome, a publish error exactly when the publisher refused the last event and that is an entered one, an error's cause stands in the configuration before, and its publish attempts end accordingly |
| Environments.EveryWriteIsAnAnswer | services/engine-adapter/internal/domain/interpreter.go:202-217 | in every execution under an environment what is written is extracted from that environment's answer to the dispatch before it |
| Replay.ReplaysAgree | services/engine-adapter/internal/domain/interpreter.go:59-104 | two executions under the same answers pass through the same configurations; only the last can differ, in what part of a failed write stands and which reference a data failure blames, each only where map order shows in it |
| Replay.BlameDependsOnMapOrderIff | services/engine-adapter/internal/domain/datacontext.go:140-205 | two different outcomes of a step are possible under the same answers if and only if two references about to be read fail, or the answer is an object from which two outputs cannot be taken |
| Replay.StepDependsOnMapOrderIff | services/engine-adapter/internal/domain/datacontext.go:140-205 | two different configurations, the store of an ended run included, if and only if two references fail or the answer is an object from which not all of several outputs can be taken |
| Replay.ReplaysCanDiffer | services/engine-adapter/internal/domain/datacontext.go:187-205 | whatever is answered, `Build` accepts a workflow two of whose executions end with different errors |
| Naming.CapturesIff | libs/zynaxevents/naming.go:25-71 | an event type's stream takes a subject exactly when both have the same prefix, or, for a type of at most four segments, when they are equal |
| Naming.StreamsAreDisjoint | libs/zynaxevents/naming.go:25-71 | if one subject lands in the streams of two event types, both have one prefix and one stream name |
| Naming.StreamNamesAgreeIff | libs/zynaxevents/naming.go:25-71 | two types have one stream name if and only if their prefixes have one length and differ only in letter case and in which of dot, dash and underscore stands where; a name holds no dot, dash or lower-case letter |
| Naming.PrefixAsEventTypeStrandsTheRest | libs/zynaxevents/naming.go:61-71 | the prefix of a longer type, used as an event type, derives the same stream name but subjects that miss the longer type |
| Naming.DlqSubjectIsInjective | libs/zynaxevents/dlq.go:37-39 | dead-letter subjects are equal exactly when the prefixes are |
| Naming.PublishableNeverCapturesDlq | libs/zynaxevents/publish.go:65-67 | no publishable event type's stream takes a dead-letter subject |
| Naming.ReservedWouldCaptureDlq | libs/zynaxevents/publish.go:65-67 | a reserved type of more than four segments would take one, so the check is needed |
| Naming.MatchGlobSegments | libs/zynaxevents/naming.go:100-127 | the matcher ends and accepts exactly when the segments can be cut into consecutive blocks, one per pattern element: one for `*`, any number for `**`, itself for a literal |
| Naming.StreamSubjectFromPattern | libs/zynaxevents/naming.go:136-147 | the loop gives the pattern up to its first wildcard, which becomes `x` |
| Naming.SubscriptionBindsOwnerIff | libs/zynaxevents/subscribe.go:130-150 | everything a pattern matches is owned by the stream the subscription binds to, if and only if no wildcard stands in the first four segments |
| Naming.FilterCoversIff | libs/zynaxevents/naming.go:53-59 | the consumer's filter then covers a matched event exactly when it has more than four segments, or the pattern has at most four |
| Delivery.LandsIff | libs/zynaxevents/publish.go:34-55 | after any sequence of stream creations, a name in use being left alone, an event lands in the stream of its name if and only if the first for that name had a verb and its prefix, or was its own type; no other stream takes it |
| Delivery.PrefixFirstStrandsTheRest | libs/zynaxevents/publish.go:34-55 | a type's prefix used as an event type first strands the type; used second it does no harm |
| Delivery.OfferedIff | libs/zynaxevents/subscribe.go:125-150 | of what a literal-headed pattern matches, the consumer is offered exactly what lands and has a verb if the pattern does |
| Subscriber.SuffixIsSegments | libs/zynaxevents/events.go:92-99 | equality or a dotted suffix is the same as ending in the verb's whole segments |
| Subscriber.IsTerminalEventType | libs/zynaxevents/events.go:92-99 | true exactly for types whose last segments are one of the five terminal verbs |
| Subscriber.Follower.DispatchMsg | libs/zynaxevents/subscribe.go:61-117 | a message is delivered exactly when it decodes, matches, is in scope and is taken; it is settled once; the loop stops on cancellation or behind a terminal event of the run followed |
| Subscriber.MessageIsTreated | libs/zynaxevents/subscribe.go:61-117 | for every message, spelled out: what is delivered, when it is given back, and when the loop ends |
| Subscriber.Follower.Follow | libs/zynaxevents/subscribe.go:157-173 | the loop delivers and settles what the polls made deliver and settle, up to the first that ends it |
| Subscriber.FollowerSeesItsFeed | libs/zynaxevents/subscribe.go:61-173 | what is delivered is always a prefix of the wanted messages in order up to and including the first terminal one, and all of it when nothing outside cuts the loop short |
| Delivery.FollowerSeesWhatIsPublished | libs/zynaxevents/subscribe.go:125-173 | if all that a literal-headed pattern matches lands and passes the filter, an undisturbed follower delivers exactly the published events it asked for, in order, up to the first that concludes its run |
| Subscriber.SettledOnce | libs/zynaxevents/subscribe.go:78-104 | every message taken is settled once; what is acknowledged and wanted is exactly what is delivered; only an undecodable message, or a wanted last one, is given back |
| DeadLetters.MessageIdIsInjective | libs/zynaxevents/dlq_forward.go:332-334 | message ids are equal exactly for the same stream and sequence, colons in stream names notwithstanding |
| DeadLetters.DlqHeader | libs/zynaxevents/dlq_forward.go:338-352 | the copied header, in any map order, is the source's without the reserved entries, overlaid with the forensic ones |
| DeadLetters.HeaderIsUnreserved | libs/zynaxevents/dlq_forward.go:338-352 | no entry of the copied header is reserved, so no source message id survives |
| DeadLetters.OutgoingRescues | libs/zynaxevents/dlq_forward.go:289-352 | the copy has the source's body, the dead-letter subject of its prefix, every header entry of the source that is not reserved unless a forensic one replaces it, and source stream, subject and sequence, consumer and delivery count under the five forensic names, nothing else |
| Forwarder.DLQForwarder.PublishToDLQ | libs/zynaxevents/dlq_forward.go:289-327 | succeeds exactly when a stream listens and one of three attempts is answered before a stop; the copy's id is then in a stream on the source's dead-letter subject, counted as forwarded only if it was not there before, and then what is there has the source's body and headers; in any case streams gained at most that one copy |
| Forwarder.DLQForwarder.Forward | libs/zynaxevents/dlq_forward.go:238-267 | skips exactly a message that is gone or foreign, rescues exactly when fetch, provisioning and publish get through, and then the message is in its dead-letter stream, with body and headers if it was put there now; sources are untouched |
| Forwarder.DLQForwarder.Handle | libs/zynaxevents/dlq_forward.go:199-234 | handling an advisory is a stretch of a run of the interleaved machine that moves one worker only; exactly one of four counters moves by one, and which one is settled by the advisory, the sources and the server's answers; forwarded means a copy with the message's body, its headers and the advisory's trail is now in its stream |
| ForwarderProtocol.EveryInterleaving | libs/zynaxevents/dlq_forward.go:199-334 | under every interleaving of forwarders, replays, provisioning, lost acks, retries and expiring sources: every copy rescues a source message for an advisory about it (body, subject, headers and trail) and has its id, ids are distinct, everything counted as forwarded or deduplicated is in its stream, and a message is forwarded once, before any deduplication |
| ForwarderProtocol.EveryRescueKeepsTheMessage | libs/zynaxevents/dlq_forward.go:238-327 | in every run, for each advisory counted as forwarded or deduplicated, the dead-letter stream of its source holds the body the source had under that sequence |
| ForwarderProtocol.AtMostOneCopy | libs/zynaxevents/dlq_forward.go:302-334 | two entries of a dead-letter stream are one and the same exactly when they are copies of one source message |
| ForwarderProtocol.ForwardersOnlyAdd | libs/zynaxevents/dlq_forward.go:238-327 | no forwarder step changes a source stream or removes or alters a copy |
| ForwarderProtocol.CountersAddUp | libs/zynaxevents/dlq_forward.go:199-219 | over every run each counter, summed over the forwarders, is the number of advisories handled with that outcome |
| Tasks.RetryBoundKeptIff | services/task-broker/internal/domain/service.go:270-295 | acknowledgement keeps the retry count within the budget for every task if and only if the budget is below the largest int32 |
| Tasks.FailureSpendsARetry | services/task-broker/internal/domain/service.go:278-290 | a failure report retries exactly while the count is below the budget, spending one, and otherwise fails the task |
| Tasks.AcknowledgementIs | services/task-broker/internal/domain/service.go:270-295 | field by field: completion stores the result and the time, cancellation the time, failure the error, with a retry if one is left; all else stays |
| Tasks.SelectExpert | services/task-broker/internal/domain/contextslice.go:39-46 | finds the first agent of that name or id, and none exactly when there is none |
| Tasks.BindingIsolates | services/task-broker/internal/domain/contextslice.go:118-136 | a bound payload keeps its expert and every other field, carries exactly the slice the chosen agent declares, and binds to itself again |
| Tasks.PlantedSliceIsDiscarded | services/task-broker/internal/domain/contextslice.go:94-112 | a slice the caller put in the payload makes no difference |
| Tasks.PreparedIs | services/task-broker/internal/domain/contextslice.go:20-136 | a payload that asks for no expert passes as it is; one that does is refused if no agent is called so or the first that is has no readable schema, and otherwise differs only in the slice, which is what that agent declares |
| TaskRepo.MemoryRepo.Update | services/task-broker/internal/infrastructure/memory_repo.go:49-57 | replaces a known task, refuses an unknown one, and never adds a record |
| TaskRepo.MemoryRepo.List | services/task-broker/internal/infrastructure/memory_repo.go:59-121 | returns the requested page of the one listing of matching tasks by creation time and id |
| TaskRepo.ListingIsUnique | services/task-broker/internal/infrastructure/memory_repo.go:80-99 | map order and the sort's choices do not show: there is one such listing |
| TaskRepo.ListingIs | services/task-broker/internal/infrastructure/memory_repo.go:80-99 | a listing holds exactly the tasks stored that each given criterion admits, strictly in order of creation time and then id |
| TaskRepo.PagesAreTheListing | services/task-broker/internal/infrastructure/memory_repo.go:59-137 | following page tokens from the start ends and gives the listing, none skipped or repeated, for every page size |
| TaskRepo.PageIs | services/task-broker/internal/infrastructure/memory_repo.go:59-121 | a page is the listing from its offset on, 50 by default and 500 at most, with a token exactly when more is left |
| TaskRepo.SliceFailsIff | services/task-broker/internal/infrastructure/memory_repo.go:101-137 | slicing goes out of range exactly on a token that decodes to a negative offset, and a token is refused exactly when it does not decode |
| TaskRepo.IssuedTokensGivePages | services/task-broker/internal/infrastructure/memory_repo.go:101-137 | a token the repository has issued gives a page of whatever it holds by then |
| TaskBroker.TaskService.DispatchTask | services/task-broker/internal/domain/service.go:41-89 | succeeds exactly for a well-formed request with an agent whose slice can be bound, saving one pending task created then, with the request's fields and the bound payload and nothing done to it yet, and launching it once on that agent; failure saves and launches nothing |
| TaskBroker.AskIs | services/task-broker/internal/domain/service.go:53-58 | the registry is asked for the request's capability, and for an expert exactly if the payload names that one |
| TaskBroker.TaskService.AcknowledgeTask | services/task-broker/internal/domain/service.go:94-120 | succeeds exactly for a valid report on a known task that is not terminal, and then the record has the report's result, or its error and a retry spent or the failure, at the time of the call; otherwise nothing changes and the error says which of the three it was |
| TaskBroker.TaskService.CancelTask | services/task-broker/internal/domain/service.go:144-162 | succeeds exactly for a known task that is not terminal, and then the record is cancelled at the time of the call and otherwise as it was; else nothing changes and the error says why |
| TaskBroker.TaskService.ExecuteAsync | services/task-broker/internal/domain/service.go:237-268 | on a known task that is not terminal records the launch on that agent and then the executor's answer: completed with its result, or its error with a retry spent or failed for good; else changes nothing |
| TaskBroker.TransformDoes | services/task-broker/internal/domain/service.go:94-295 | what each operation writes over a record, field by field: launch, answer, report and cancellation |
| TaskBroker.TaskService.Relaunch | services/task-broker/internal/domain/service.go:209-221 | asks for the agent of the task's own capability and payload, and launches it exactly when one is found |
| TaskBroker.TaskService.RecoverByStatus | services/task-broker/internal/domain/service.go:184-202 | asks for an agent for every task of the status once, in listing order, launches exactly those that get one, and counts them |
| TaskBroker.TaskService.RecoverInFlight | services/task-broker/internal/domain/service.go:172-182 | tries every pending, dispatched or retrying task exactly once, and launches and counts those that get an agent |
| TaskBroker.InFlightIsNonTerminal | services/task-broker/internal/domain/service.go:172-182 | those three statuses are the tasks that are not terminal |
| BrokerProtocol.EveryInterleaving | services/task-broker/internal/domain/service.go:94-295 | under every interleaving of atomic reads and updates: records keep the saved identity and payload, no update comes from a terminal snapshot or writes pending, and the retry count stays within the budget |
| BrokerProtocol.TasksMoveOn | services/task-broker/internal/domain/service.go:209-295 | between any two points of a run a task keeps its identity, does not return to pending, and would be recovered with the same request |
| BrokerProtocol.TerminalStaysIff | services/task-broker/internal/domain/service.go:110-160 | in every run from a state with a terminal record the record stays as it is, if and only if no worker is about to write another value of it |
| BrokerProtocol.TerminalIsFinal | services/task-broker/internal/domain/service.go:110-160 | with the read-check-write pairs on a task serialised, whatever overlaps on others, its terminal record never changes again |
| BrokerProtocol.RetriesAreBounded | services/task-broker/internal/domain/service.go:270-295 | then a task has been retried exactly as often as its count says, at most its budget, and a failure report on a spent budget fails it |
| BrokerProtocol.OverlapOverwrites | services/task-broker/internal/domain/service.go:110-160 | wherever two workers have both read a task that is not terminal, whatever they are about, the first write stands until the second replaces it by what its own stale snapshot gives |
| BrokerProtocol.TerminalCanBeOverwritten | services/task-broker/internal/domain/service.go:110-160 | a run exists in which a completed task is cancelled |
| BrokerProtocol.CallIsARun | services/task-broker/internal/domain/service.go:94-162 | an acknowledgement or cancellation with nothing in between is a run of one new worker, ending in what the call leaves, the record told field by field |
| BrokerProtocol.ExecutionIsARun | services/task-broker/internal/domain/service.go:237-268 | so is a background execution: a launch, the executor's answer and its settlement, completed with the result given or failed with the error given |
| ContextBudget.EnforceBudget | cmd/zynax/validate/context.go:220-248 | under `error` refuses exactly a total over budget and changes nothing; otherwise the values in declared order are together the last `budget` bytes of what they were, each a tail of itself |
| ContextBudget.ResolveContext | cmd/zynax/validate/context.go:181-214 | no block gives no values; a block succeeds exactly when keys differ, files lie in the directory and can be read and, under `error`, all fits, and errors tell these apart; the values are together the last four bytes per token of everything the files hold, in declared order |
| ContextBudget.ContentsIs | cmd/zynax/validate/context.go:181-214 | a value's files are put together in declared order, with nothing between them |
| ModelStream.StreamChat | agents/adapters/adk/internal/model/ollama.go:155-202 | yields a partial event per non-empty piece up to the closing line and then one closing event that has all of them as its text, or the fault the stream ends with; or the first `limit` of these |
| ModelStream.PiecesAreSpoken | agents/adapters/adk/internal/model/ollama.go:155-202 | the partial texts, none empty, concatenate to the contents of all lines up to the closing one, what that one carries included |
| ModelStream.ReplyIsSaid | agents/adapters/adk/internal/model/ollama.go:155-202 | told of the lines alone: pieces and reply are the contents joined up to the first line that closes or breaks the stream, one piece per line with text in order, and the fault is that line's, or the connection's if no line stops the stream, else none |
| Bridge.CoerceOutput | agents/adapters/adk/internal/adapter/server.go:254-279 | without a schema the reply passes as it is; an object that satisfies the schema is passed through trimmed; else the reply is wrapped under the target key, if there is one and that satisfies the schema; else refused: each exactly then |
| Bridge.CoercedKeepsText | agents/adapters/adk/internal/adapter/server.go:254-270 | an accepted payload decodes to the reply itself or to the reply under the target key |
| Bridge.EveryTraceIsWellShaped | agents/adapters/adk/internal/adapter/server.go:164-205 | for every event stream: progress events, then one terminal event; completed only after some progress and with a payload that satisfies the schema, failed with a message of at most 512 characters |
| Bridge.TraceIs | agents/adapters/adk/internal/adapter/server.go:168-205 | the whole trace, told of the events: the texts before the first failure as progress, then that failure, cut to 512 characters; or a time-out if the request is no longer live; or the last turn's text, shown once if nothing was, completed or refused by the schema |
| Bridge.TaskEventStream.Run | agents/adapters/adk/internal/adapter/server.go:168-205 | the loop sends that trace, or as much of it as sends succeed for, and reports success exactly when all was sent |
| Bridge.StreamedRun | agents/adapters/adk/internal/adapter/server.go:168-205 | for every chunk stream through the bridge the progress payloads concatenate to the contents of its lines up to the closing one; completed if and only if that stream ends without fault, the request is live and that text can be shaped to the schema |
| ConformanceMatrix.BuildScenarioCell | cmd/zynax-ci/check/matrix.go:313-345 | passes exactly on an observed success of a planned scenario in an executed leg, fails exactly on an observed failure, and is excused exactly when declared not to run |
| ConformanceMatrix.CellIs | cmd/zynax-ci/check/matrix.go:313-345 | pass and fail are exactly the words `success` and `failure` recorded for the scenario's own step in an executed leg; planned and excused are what its declaration for the leg says |
| ConformanceMatrix.BuildLegMatrix | cmd/zynax-ci/check/matrix.go:287-309 | green exactly when executed with every cell an observed success or excused, red exactly on an observed failure, complete exactly when everything planned was observed |
| ConformanceMatrix.ColoursAre | cmd/zynax-ci/check/matrix.go:287-309 | seen and green in what the leg states mean the recorded words `success` and `failure`, or the declaration `not_run` |
| ConformanceMatrix.BuildMatrixDoc | cmd/zynax-ci/check/matrix.go:245-283 | passes exactly when every leg is green, fails exactly when one is red; pass implies complete; the enforced verdict is the same over required legs, and its failure implies failure |
| ConformanceMatrix.EnforcementIs | cmd/zynax-ci/check/matrix.go:245-283 | a leg is required exactly when the suite says `required` of it, and unknown when it says nothing |
| ConformanceMatrix.AdvisoryIs | cmd/zynax-ci/check/matrix.go:245-283 | the advisory legs listed are exactly those not required, in order |
| ConformanceMatrix.PassHasEvidenceIff | cmd/zynax-ci/check/matrix.go:311-312 | a passing leg has an observed success if and only if some scenario is planned for it |
| ConformanceMatrix.PassWithoutEvidence | cmd/zynax-ci/check/matrix.go:285-309 | a leg that plans nothing passes with nothing observed |
| ConformanceMatrix.RunLegRunners | cmd/zynax-ci/check/matrix.go:210-234 | starts each runner once, in order of first use, and records under each key the outcome of the last scenario that reports there |
| ConformanceMatrix.LaunchesInOrder | cmd/zynax-ci/check/matrix.go:210-234 | a runner launched before another is used first by an earlier scenario |
| ConformanceMatrix.LastUnderIs | cmd/zynax-ci/check/matrix.go:216-233 | what counts for a key is the runner of the last scenario that reports there |
| ConformanceMatrix.LocalRunPassesIff | cmd/zynax-ci/check/matrix.go:210-345 | if planned scenarios share a key only with a runner, the leg passes exactly when each scenario is excused or has a runner that succeeds |
| ConformanceMatrix.CellTellsOfItsRunnerIff | cmd/zynax-ci/check/matrix.go:210-243 | a cell tells of its own runner, whatever runners do, exactly when the last scenario under its key has that runner |
| ConformanceMatrix.SharedStepHidesFailure | cmd/zynax-ci/check/matrix.go:216-233 | of two scenarios under one step with different runners the first can fail and its cell pass |

## Left out

- Interpreter.Execution.Run: takes the number of loop turns as fuel, because a workflow may loop forever; every prefix of every
  run is covered, but that a run ends is not claimed.
- ManifestParser.ParseManifest: starts from the decoded document, so YAML syntax errors are not modelled; of an error it keeps
  what it is about, not its wording, nor its place in the list, which map order decides.
- VisitedStates.VisitedIff: needs actions that bind nothing, since a reference that is never written, or an output path no answer
  has, can end every run first; `VisitedStates.EveryRunIsAWay` does not.
- Forwarder.DLQForwarder.Handle: at-most-once is claimed within the deduplication window only; a server that forgets an id is
  not modelled.
- TaskBroker.TaskService.RecoverInFlight: the repository does not change while it is walked; pages over a moving filter promise
  nothing.
- TaskBroker.TaskService.ExecuteAsync: nothing else runs between the launch and the settlement; what can run there is the
  subject of `BrokerProtocol`.
- ContextBudget.ResolveContext: which paths lie in the scenario's directory is a parameter.
- Bridge.TaskEventStream.Run: the time stamps of events are not modelled.
- Subscriber.Follower.Follow: redelivery of a message given back, and the consumer's delivery limit, belong to the server.
- ConformanceMatrix.BuildMatrixDoc: the descriptive fields of the document and its notes are not modelled.
- How a JSON number is written out: a number carries its rendered text.
- CEL guards, text templates, JSON and YAML decoding, JSON Schema and base64 page tokens
  are functions given from outside, with only the laws a lemma names.
- Text is a sequence of characters, so lengths are byte lengths only for text whose characters are bytes; upper and lower case
  are those of ASCII.
- Time-outs and cancellation inside an executor call: an executor answers or fails.
- `ExecuteCapability`'s checks that fields are present, agent discovery over gRPC, the task broker's event publication, tracing
  and metrics: calls to other services whose answers are parameters here, or that nothing here depends on.
- The capability, event-name, namespace and `set` validators: regular expressions over single fields.
- The Postgres repository, the agent registry's scheduler, the API gateway, policy and quota gates, the command line, gRPC and
  HTTP handlers.
