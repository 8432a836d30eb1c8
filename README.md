# ContinuITy experimentation utilities in Dafny

A model of the core of the ContinuITy experimentation utilities, a Java
library and experiment suite for running load-test experiments against
ContinuITy, together with proofs about that model. An experiment is a
chain of actions (steps) that pass values to each other through data
holders and record where they are in a naming context. The model covers:

- the experiment actions: conditional aborts (`Abort`), the clock step
  (`Clock`), the context actions (`AppendContext`, `RemoveContext`,
  `RenameCurrentContext`, `ContextChange`), `ResetDataHolder`, the
  polling of JMeter reports (`WaitForJmeterReport`, `FlushJMeterReports`),
  the InfluxDB result export (`GetInfluxResults`), the random Markov chain
  generator (`RandomMarkovChain`) and the test-plan directory naming of
  `JMeterTestplanWriter`;
- the data holders (`SimpleDataHolder`, `SequentialListDataHolder`,
  `CountingDataHolder`, `ProcessingDataHolder`, `NoopDataHolder`) and
  `PathHolder`;
- the JMeter log entities (`JMeterLog`, `JMeterLogEntry`) and the merger of
  JMeter logs with open.XTRACE traces (`OpenXtraceJmeterMerger`);
- the experiment programs: the API evolution generator (`ApiChanger`,
  `MarkovTemplate`, `MarkovTemplateChanger`), `ChangeCounter`, the reading
  of test executions (`Main`, `TestExecution`) and the helpers of the
  modularization experiment (`ModularizationExperiment`);
- the satellite: its `DataBuffer` REST controller and `KnownApplication`.

Each class whose fields the Java code updates is a Dafny `class` with
those fields, and each of its methods is proved against a specification
function on its state; values are datatypes. Java's null is
`Outcomes.Option.None`. An exception, and the two abort signals of
the experiment engine, are the `Failure` of an `Outcomes.Result`. Three
library modules state the Java library behaviour the code relies on:
`Strings` (String.split with a one-character pattern, joining, substring),
`Decimal` (`int` and `long` wrap-around, `Integer.toString`,
`Integer.parseInt`) and `Sequences` (the `List` operations used).

Randomness, clocks, files, HTTP answers and database answers are
parameters of the operations that use them: a random draw is a number
`pick`, and `nextInt(n)` is `pick % n`; the clock readings and the
frontend's answers are sequences of readings; file contents are lists of
lines.

The Context class, AbstractDataHolder, StaticDataHolder,
ModularizationApproach and the annotation DSL classes are not part of
this model. The model assumes what
their callers rely on:

- a context is a stack of segments rendered joined by `-`, and
  `remove(name)` takes away the topmost equal segment;
- an abstract data holder is set by `set` and unset by `invalidate`, and
  reading an unset one raises an inner abort;
- a static holder always holds its constant;
- interfaces, parameters and annotations are plain records compared by
  identity.

Where the Java code does something its authors evidently did not mean,
the model does what the code does. For example, `addToExtractedInputs`
sets a copied extraction's template to the original's response key
(ApiChanger.java:316).

## Model

| member | source | states |
|---|---|---|
| Aborts.AbortIf.Execute | continuity.experimentation.api/src/main/java/org/continuity/experimentation/action/Abort.java:59-63 | the step ends normally when the condition is false and fails with an abort of its own kind, carrying the context and message, when it is true |
| Aborts.AllIf | continuity.experimentation.api/src/main/java/org/continuity/experimentation/action/Abort.java:30-32 | builds a step that aborts the whole experiment under the given condition with the given message |
| Aborts.InnerIf | continuity.experimentation.api/src/main/java/org/continuity/experimentation/action/Abort.java:43-45 | builds a step that aborts only the current inner context under the given condition with the given message |
| Aborts.AbortSeverity | continuity.experimentation.api/src/main/java/org/continuity/experimentation/action/Abort.java:69-93 | both kinds fail exactly when the condition holds; the inner kind raises an inner abort, the other never does |
| Clocks.Clock.Execute | continuity.experimentation.api/src/main/java/org/continuity/experimentation/action/Clock.java:41-58 | writes the present time shifted by the hour, minute and second offsets into the output holder, which is then set |
| Clocks.TakeTime | continuity.experimentation.api/src/main/java/org/continuity/experimentation/action/Clock.java:33-35 | a clock on the given output with all three offsets zero |
| Clocks.TakeTimeShifted | continuity.experimentation.api/src/main/java/org/continuity/experimentation/action/Clock.java:37-39 | a clock on the given output with exactly the given offsets |
| Clocks.TakeTimeStoresNow | continuity.experimentation.api/src/main/java/org/continuity/experimentation/action/Clock.java:33-35 | a clock without offsets stores the present time unchanged, and the holder reads it back |
| Clocks.ClockWithOffsets | continuity.experimentation.api/src/main/java/org/continuity/experimentation/action/Clock.java:41-58 | one hour forward, two minutes back and three seconds forward adds 3,483,000 milliseconds to the present time |
| Contexts.Context.Append | continuity.experimentation.api/src/main/java/org/continuity/experimentation/action/AppendContext.java:29 | pushes the segment on top of the context's segments |
| Contexts.Context.Remove | continuity.experimentation.api/src/main/java/org/continuity/experimentation/action/RemoveContext.java:33 | takes away the topmost segment equal to the name, nothing else; no change when there is none |
| Contexts.Context.constructor | continuity.experimentation.experiment/src/main/java/org/continuity/experimentation/experiment/JMeterDecoding.java:25 | a new context has no segments |
| Contexts.Context.Render | continuity.experimentation.api/src/main/java/org/continuity/experimentation/action/RenameCurrentContext.java:23 | toString joins the segments with "-": empty for no segments, and dash-free segments (the last non-empty when there are several) split back at "-" into themselves |
| ContextActions.Quoted | continuity.experimentation.api/src/main/java/org/continuity/experimentation/action/AppendContext.java:36-38 | the description is the kind, a space and the holder's text in double quotes, and the holder's text can be read back from it |
| ContextActions.AppendContext.constructor | continuity.experimentation.api/src/main/java/org/continuity/experimentation/action/AppendContext.java:18-20 | the action keeps the holder it is given |
| ContextActions.AppendContext.Describe | continuity.experimentation.api/src/main/java/org/continuity/experimentation/action/AppendContext.java:36-38 | the description is "Append", a blank and the holder's text in double quotes, from which the text reads back |
| ContextActions.RemoveContext.constructor | continuity.experimentation.api/src/main/java/org/continuity/experimentation/action/RemoveContext.java:22-24 | the action keeps the holder it is given |
| ContextActions.RemoveContext.Describe | continuity.experimentation.api/src/main/java/org/continuity/experimentation/action/RemoveContext.java:40-42 | the description is "Remove context", a blank and the holder's text in double quotes, from which the text reads back |
| ContextActions.RenameCurrentContext.constructor | continuity.experimentation.api/src/main/java/org/continuity/experimentation/action/RenameCurrentContext.java:12-14 | the action keeps the holder it is given |
| ContextActions.RenameCurrentContext.Describe | continuity.experimentation.api/src/main/java/org/continuity/experimentation/action/RenameCurrentContext.java:34-36 | the description is "Rename current context to", a blank and the holder's text in double quotes, from which the text reads back |
| ContextActions.AppendContext.Execute | continuity.experimentation.api/src/main/java/org/continuity/experimentation/action/AppendContext.java:28-30 | when the holder's read fails the failure propagates and the context is untouched; otherwise exactly the value read (or "null") is pushed |
| ContextActions.RemoveContext.Execute | continuity.experimentation.api/src/main/java/org/continuity/experimentation/action/RemoveContext.java:32-34 | when the holder's read fails the failure propagates and the context is untouched; otherwise the topmost segment equal to the value read is removed |
| ContextActions.CurrentToken | continuity.experimentation.api/src/main/java/org/continuity/experimentation/action/RenameCurrentContext.java:23-24 | the last "-"-separated piece of the rendered context, which holds no dash; an index failure when the split is empty; "" for an empty context |
| ContextActions.RenameCurrentContext.Execute | continuity.experimentation.api/src/main/java/org/continuity/experimentation/action/RenameCurrentContext.java:22-28 | a context whose render splits into nothing fails with no change; otherwise the current token is removed, and then the holder's value is appended, or its failure propagates after the removal |
| ContextActions.RenamePlainLast | continuity.experimentation.api/src/main/java/org/continuity/experimentation/action/RenameCurrentContext.java:22-28 | when the last segment is a plain dash-free word the current token is that segment and the rename replaces exactly it |
| ContextActions.RenameKeepsDashedSegment | continuity.experimentation.api/src/main/java/org/continuity/experimentation/action/RenameCurrentContext.java:23-26 | when the last segment holds a dash only its tail is the current token; when that tail is no segment, the removal changes nothing |
| ContextActions.DashedLastJoin | continuity.experimentation.api/src/main/java/org/continuity/experimentation/action/RenameCurrentContext.java:23 | a last segment head-tail renders the same as the two segments head and tail |
| ContextActions.InitialUploadsToken | continuity.experimentation.experiment/src/main/java/org/continuity/experimentation/experiment/ModularizationExperiment.java:57 | the experiment's context name "1-initial-uploads" has the current token "uploads", whose removal leaves the context untouched |
| ContextActions.ContextChange.OfName | continuity.experimentation.api/src/main/java/org/continuity/experimentation/action/ContextChange.java:18-20 | a fixed name is wrapped in a static holder; no rename is remembered |
| ContextActions.ContextChange.OfHolder | continuity.experimentation.api/src/main/java/org/continuity/experimentation/action/ContextChange.java:22-24 | the holder is kept as given; no rename is remembered |
| ContextActions.ContextChange.Append | continuity.experimentation.api/src/main/java/org/continuity/experimentation/action/ContextChange.java:26-28 | a new append action over this change's holder |
| ContextActions.ContextChange.Remove | continuity.experimentation.api/src/main/java/org/continuity/experimentation/action/ContextChange.java:30-32 | a new remove action over this change's holder |
| ContextActions.ContextChange.Rename | continuity.experimentation.api/src/main/java/org/continuity/experimentation/action/ContextChange.java:34-37 | a new rename action over this change's holder, which becomes the remembered one |
| ContextActions.ContextChange.RenameBack | continuity.experimentation.api/src/main/java/org/continuity/experimentation/action/ContextChange.java:39-45 | the remembered rename action itself; IllegalStateException when none was handed out |
| ContextActions.RenameBackIsLatest | continuity.experimentation.api/src/main/java/org/continuity/experimentation/action/ContextChange.java:34-45 | renameBack fails before any rename, every rename is a distinct action, and renameBack returns the latest |
| ContextActions.AppendRemoveBalanced | continuity.experimentation.experiment/src/main/java/org/continuity/experimentation/experiment/ModularizationExperiment.java:99 | appending and then removing one fixed name leaves the rendered context as it was |
| DataHolders.IsNotSet | continuity.experimentation.api/src/main/java/org/continuity/experimentation/data/IDataHolder.java:43-45 | not set exactly when isSet is false |
| DataHolders.NoopView | continuity.experimentation.api/src/main/java/org/continuity/experimentation/data/NoopDataHolder.java:26-41 | the no-op holder is never set and its get returns null without throwing |
| DataHolders.StaticView | continuity.experimentation.api/src/main/java/org/continuity/experimentation/data/PathHolder.java:22 | a static holder of a value is set and reads exactly that value |
| DataHolders.SimpleHolder.Typed | continuity.experimentation.api/src/main/java/org/continuity/experimentation/data/SimpleDataHolder.java:16-19 | a holder that holds nothing, is unset and has no default |
| DataHolders.SimpleHolder.Initial | continuity.experimentation.api/src/main/java/org/continuity/experimentation/data/SimpleDataHolder.java:26-37 | holds the initial value at once and counts as written; it becomes the default exactly when asked for |
| DataHolders.SimpleHolder.Get | continuity.experimentation.api/src/main/java/org/continuity/experimentation/data/SimpleDataHolder.java:43-45 | reads the value exactly when the holder was written; otherwise an inner abort naming the holder |
| DataHolders.SimpleHolder.IsSet | continuity.experimentation.api/src/main/java/org/continuity/experimentation/data/SimpleDataHolder.java:51-62 | set exactly when get does not throw: from a write until an invalidate that has no default to restore |
| DataHolders.SimpleHolder.Set | continuity.experimentation.api/src/main/java/org/continuity/experimentation/data/SimpleDataHolder.java:51-53 | the value replaces the content and the holder is written; name and default stay |
| DataHolders.SimpleHolder.Invalidate | continuity.experimentation.api/src/main/java/org/continuity/experimentation/data/SimpleDataHolder.java:56-62 | with a default the holder holds it again and stays written; without one it keeps its data but becomes unset |
| DataHolders.NewSimpleWithDefault | continuity.experimentation.api/src/main/java/org/continuity/experimentation/data/SimpleDataHolder.java:26-37 | a null initial value throws NullPointerException; any other gives a written holder of it, with it as default when asked |
| DataHolders.NewSimple | continuity.experimentation.api/src/main/java/org/continuity/experimentation/data/SimpleDataHolder.java:21-23 | the same without a default: the initial value must not be null |
| DataHolders.SimpleLatestWins | continuity.experimentation.api/src/main/java/org/continuity/experimentation/data/SimpleDataHolder.java:51-53 | after two writes the holder reads the later one |
| DataHolders.SimpleDefaultRestored | continuity.experimentation.api/src/main/java/org/continuity/experimentation/data/SimpleDataHolder.java:56-62 | a write after creation with a default is undone by invalidate, which restores the default |
| DataHolders.SimpleNoDefaultUnset | continuity.experimentation.api/src/main/java/org/continuity/experimentation/data/SimpleDataHolder.java:29-33 | created without default, invalidate leaves the holder unset and its read fails |
| DataHolders.SequentialListHolder.constructor | continuity.experimentation.api/src/main/java/org/continuity/experimentation/data/SequentialListDataHolder.java:32-37 | the first item is current and the rest are queued in order |
| DataHolders.SequentialListHolder.Set | continuity.experimentation.api/src/main/java/org/continuity/experimentation/data/SequentialListDataHolder.java:40-42 | the value joins the tail of the queue; the current item stays |
| DataHolders.SequentialListHolder.Get | continuity.experimentation.api/src/main/java/org/continuity/experimentation/data/SequentialListDataHolder.java:45-47 | never throws; returns the current item, null included, which is the first of the items still to come |
| DataHolders.SequentialListHolder.IsSet | continuity.experimentation.api/src/main/java/org/continuity/experimentation/data/SequentialListDataHolder.java:50-52 | set exactly when get returns an item rather than null |
| DataHolders.SequentialListHolder.Size | continuity.experimentation.api/src/main/java/org/continuity/experimentation/data/SequentialListDataHolder.java:82-84 | the number of items still to come after the current one |
| DataHolders.SequentialListHolder.Invalidate | continuity.experimentation.api/src/main/java/org/continuity/experimentation/data/SequentialListDataHolder.java:58-61 | the holder goes back to its original items, the first current again |
| DataHolders.SequentialListHolder.Next | continuity.experimentation.api/src/main/java/org/continuity/experimentation/data/SequentialListDataHolder.java:69-75 | the head of the queue becomes current and leaves the queue; with an empty queue the current item becomes null |
| DataHolders.SequentialFromThree | continuity.experimentation.api/src/main/java/org/continuity/experimentation/data/SequentialListDataHolder.java:32-37 | a holder of three items reads the first and has two still to come |
| DataHolders.SequentialReadOrder | continuity.experimentation.api/src/main/java/org/continuity/experimentation/data/SequentialListDataHolder.java:40-75 | reading and moving on through the holder yields its items in order, then the items set meanwhile; an empty list first reads null |
| DataHolders.SequentialInvalidateResets | continuity.experimentation.api/src/main/java/org/continuity/experimentation/data/SequentialListDataHolder.java:58-61 | after moving on, invalidate makes the first item current again with all the others queued |
| DataHolders.CountingHolder.Of | continuity.experimentation.api/src/main/java/org/continuity/experimentation/data/CountingDataHolder.java:30-32 | the prefix is kept and the counter starts at 1 |
| DataHolders.CountingHolder.Get | continuity.experimentation.api/src/main/java/org/continuity/experimentation/data/CountingDataHolder.java:40-42 | always readable, and the text starts with the prefix and a dash |
| DataHolders.CountingHolder.IsSet | continuity.experimentation.api/src/main/java/org/continuity/experimentation/data/CountingDataHolder.java:45-47 | always set, and get never throws |
| DataHolders.CountingHolder.Set | continuity.experimentation.api/src/main/java/org/continuity/experimentation/data/CountingDataHolder.java:35-37 | a write leaves what get returns as it was |
| DataHolders.CountingHolder.Invalidate | continuity.experimentation.api/src/main/java/org/continuity/experimentation/data/CountingDataHolder.java:50-52 | the counter moves on by one with 32-bit wrap-around |
| DataHolders.CountingAfterInvalidations | continuity.experimentation.api/src/main/java/org/continuity/experimentation/data/CountingDataHolder.java:40-52 | after k invalidations, and a set that does nothing, the holder reads the prefix, a dash and k + 1 wrapped to 32 bits |
| DataHolders.CountingFresh | continuity.experimentation.api/src/main/java/org/continuity/experimentation/data/CountingDataHolder.java:17-42 | a fresh holder reads the prefix followed by -1, and a set leaves it so |
| DataHolders.Processing.Get | continuity.experimentation.api/src/main/java/org/continuity/experimentation/data/ProcessingDataHolder.java:41-43 | the function's image of the input's value; the input's failure when its read fails |
| DataHolders.Processing.Observe | continuity.experimentation.api/src/main/java/org/continuity/experimentation/data/ProcessingDataHolder.java:46-48 | set exactly when the input is set, and reads the processed value |
| DataHolders.ProcessingOf | continuity.experimentation.api/src/main/java/org/continuity/experimentation/data/IDataHolder.java:61-63 | a processing view over this holder with the given function |
| DataHolders.ProcessingReadsLive | continuity.experimentation.api/src/main/java/org/continuity/experimentation/data/ProcessingDataHolder.java:41-43 | a processing holder reads the input's value at the time of the read, not at creation |
| DataHolders.ProcessingOfUnset | continuity.experimentation.api/src/main/java/org/continuity/experimentation/data/ProcessingDataHolder.java:41-48 | over an unset input the processing holder is unset and its read fails with the input's abort |
| PathHolders.Resolve | continuity.experimentation.api/src/main/java/org/continuity/experimentation/data/PathHolder.java:41 | an empty segment leaves the path and an absolute one replaces it; any other is the new path when the path is empty, else it is appended after "/" |
| PathHolders.ResolveRelativeInjective | continuity.experimentation.api/src/main/java/org/continuity/experimentation/data/PathHolder.java:41 | two relative names resolved onto the same path give the same path only when they are the same name |
| PathHolders.ReadAll | continuity.experimentation.api/src/main/java/org/continuity/experimentation/data/PathHolder.java:40-42 | the segments' reads at this moment, one per segment in order |
| PathHolders.ReduceAnd | continuity.experimentation.api/src/main/java/org/continuity/experimentation/data/PathHolder.java:49 | the reduction is true exactly when every segment is set |
| PathHolders.PathHolder.constructor | continuity.experimentation.api/src/main/java/org/continuity/experimentation/data/PathHolder.java:14-19 | a path with no segments |
| PathHolders.PathHolder.ResolveStatic | continuity.experimentation.api/src/main/java/org/continuity/experimentation/data/PathHolder.java:21-24 | appends a segment fixed to the text and returns the same holder |
| PathHolders.PathHolder.ResolveDynamic | continuity.experimentation.api/src/main/java/org/continuity/experimentation/data/PathHolder.java:26-29 | appends the holder itself and returns the same holder |
| PathHolders.PathHolder.Get | continuity.experimentation.api/src/main/java/org/continuity/experimentation/data/PathHolder.java:37-45 | the segments resolved in order onto "."; the first failing read ends it with that failure, and a null value throws NullPointerException |
| PathHolders.PathHolder.IsSet | continuity.experimentation.api/src/main/java/org/continuity/experimentation/data/PathHolder.java:48-50 | NoSuchElementException without segments; otherwise true exactly when every segment is set |
| PathHolders.PathHolder.Set | continuity.experimentation.api/src/main/java/org/continuity/experimentation/data/PathHolder.java:32-34 | does nothing: the segments stay as they are |
| PathHolders.PathHolder.Invalidate | continuity.experimentation.api/src/main/java/org/continuity/experimentation/data/PathHolder.java:53-55 | does nothing: the segments stay as they are |
| PathHolders.ComposeRelative | continuity.experimentation.api/src/main/java/org/continuity/experimentation/data/PathHolder.java:37-45 | relative non-empty segments give the segments joined with "/", after the start and a "/" unless the start is empty |
| PathHolders.ComposeFirstFailure | continuity.experimentation.api/src/main/java/org/continuity/experimentation/data/PathHolder.java:40-42 | when the reads before segment k succeed with values and segment k fails, get fails with that failure |
| PathHolders.EmptyPath | continuity.experimentation.api/src/main/java/org/continuity/experimentation/data/PathHolder.java:37-50 | a new path reads "." while isSet throws |
| PathHolders.ComposeTwo | continuity.experimentation.api/src/main/java/org/continuity/experimentation/data/PathHolder.java:38-44 | two segments are resolved onto "." one after the other |
| PathHolders.PathReadsLive | continuity.experimentation.api/src/main/java/org/continuity/experimentation/data/PathHolder.java:26-45 | a dynamic segment is read at each get, so a later write to its holder shows |
| PathHolders.PathWithUnsetSegment | continuity.experimentation.api/src/main/java/org/continuity/experimentation/data/PathHolder.java:37-50 | one unset segment makes isSet false and get fail with an inner abort |
| PathHolders.PathWithNoopSegment | continuity.experimentation.api/src/main/java/org/continuity/experimentation/data/PathHolder.java:37-50 | a no-op holder as a segment makes isSet false and get throw NullPointerException, for the segment reads null |
| ResetHolders.ResetDataHolder.Execute | continuity.experimentation.api/src/main/java/org/continuity/experimentation/action/ResetDataHolder.java:25-27 | one set of the fixed value: a simple holder then holds it and is written; a sequential-list holder queues it and keeps its current item |
| ResetHolders.ResetSimple | continuity.experimentation.api/src/main/java/org/continuity/experimentation/action/ResetDataHolder.java:25-27 | after a reset a simple holder reads the fixed value, whatever it held before |
| ResetHolders.ResetSequential | continuity.experimentation.api/src/main/java/org/continuity/experimentation/action/ResetDataHolder.java:25-27 | after a reset a sequential-list holder still reads its current item and has the value queued last |
| SatelliteBuffer.KeyFor | continuity.experimentation.satellite/src/main/java/org/continuity/experimentation/satellite/rest/DataBuffer.java:36 | every key starts with the link prefix /buffer/data- and has a number after it |
| SatelliteBuffer.KeyForInjective | continuity.experimentation.satellite/src/main/java/org/continuity/experimentation/satellite/rest/DataBuffer.java:28-36 | distinct counter values give distinct keys |
| SatelliteBuffer.DataBuffer.constructor | continuity.experimentation.satellite/src/main/java/org/continuity/experimentation/satellite/rest/DataBuffer.java:30-32 | the counter starts at 0 with empty storage |
| SatelliteBuffer.DataBuffer.Upload | continuity.experimentation.satellite/src/main/java/org/continuity/experimentation/satellite/rest/DataBuffer.java:35-40 | the counter moves on by one with 32-bit wrap-around, the data is stored under the key of the new counter, and that key is the body; before wrap-around the key is new |
| SatelliteBuffer.DataBuffer.Get | continuity.experimentation.satellite/src/main/java/org/continuity/experimentation/satellite/rest/DataBuffer.java:43-51 | the stored data when the key is present, not found otherwise |
| SatelliteBuffer.DataBuffer.Delete | continuity.experimentation.satellite/src/main/java/org/continuity/experimentation/satellite/rest/DataBuffer.java:54-62 | the removed data when the key was present, not found otherwise; the key is gone afterwards and nothing else changes |
| SatelliteBuffer.UploadKeyIsNew | continuity.experimentation.satellite/src/main/java/org/continuity/experimentation/satellite/rest/DataBuffer.java:36-38 | while every stored key was issued at or below the counter, the next upload's key is not stored yet |
| SatelliteBuffer.StoredKeysHavePrefix | continuity.experimentation.satellite/src/main/java/org/continuity/experimentation/satellite/rest/DataBuffer.java:43-47 | an id without the link prefix is never found |
| SatelliteBuffer.UploadGetDelete | continuity.experimentation.satellite/src/main/java/org/continuity/experimentation/satellite/rest/DataBuffer.java:35-62 | the first upload answers /buffer/data-1, a get and a delete return the data, a second get finds nothing |
| SatelliteBuffer.NoReuseAfterDelete | continuity.experimentation.satellite/src/main/java/org/continuity/experimentation/satellite/rest/DataBuffer.java:36 | a key is not handed out again after its data was deleted |
| KnownApplications.KeyTable | continuity.experimentation.satellite/src/main/java/org/continuity/experimentation/satellite/KnownApplication.java:13-17 | every application is in the table under its key, and every entry is an application filed under its own key |
| KnownApplications.Key | continuity.experimentation.satellite/src/main/java/org/continuity/experimentation/satellite/KnownApplication.java:8-28 | each application's key is a non-empty word without blanks |
| KnownApplications.RestartCommand | continuity.experimentation.satellite/src/main/java/org/continuity/experimentation/satellite/KnownApplication.java:8-35 | every application has a restart command, none of them the UNDEFINED placeholder |
| KnownApplications.GitCheckoutCommand | continuity.experimentation.satellite/src/main/java/org/continuity/experimentation/satellite/KnownApplication.java:8-39 | the checkout command is the UNDEFINED placeholder exactly for the applications other than the Heat Clinic |
| KnownApplications.ForKey | continuity.experimentation.satellite/src/main/java/org/continuity/experimentation/satellite/KnownApplication.java:19-21 | an application found for a key has that key |
| KnownApplications.KeysDistinct | continuity.experimentation.satellite/src/main/java/org/continuity/experimentation/satellite/KnownApplication.java:8-9 | no two applications share a key |
| KnownApplications.ForKeyFindsEach | continuity.experimentation.satellite/src/main/java/org/continuity/experimentation/satellite/KnownApplication.java:19-21 | each application is found by its own key, and a key of no application finds nothing |
| KnownApplications.HeatClinicEntry | continuity.experimentation.satellite/src/main/java/org/continuity/experimentation/satellite/KnownApplication.java:8-9 | "heat-clinic" is the Heat Clinic, with its restart and checkout scripts, and every other application has the checkout command UNDEFINED |
| ChangeCounters.EveryTypeWeighted | continuity.experimentation.experiment/src/main/java/org/continuity/experimentation/experiment/changes/ChangeCounter.java:22-36 | every block type a start prefix names has a weight; a regex extraction weighs 8 |
| ChangeCounters.BlockType | continuity.experimentation.experiment/src/main/java/org/continuity/experimentation/experiment/changes/ChangeCounter.java:61-65 | the type of a line that starts a block always has a weight |
| ChangeCounters.PrefixesExclusive | continuity.experimentation.experiment/src/main/java/org/continuity/experimentation/experiment/changes/ChangeCounter.java:23-28 | no line starts with two different start prefixes |
| ChangeCounters.TypeOfLine | continuity.experimentation.experiment/src/main/java/org/continuity/experimentation/experiment/changes/ChangeCounter.java:61-65 | a line starting with a start prefix has that prefix's type; a line starting with none has no type |
| ChangeCounters.OneMatch | continuity.experimentation.experiment/src/main/java/org/continuity/experimentation/experiment/changes/ChangeCounter.java:61-65 | at most one start prefix matches a line, so each line adds at most one start |
| ChangeCounters.MatchPrefixes | continuity.experimentation.experiment/src/main/java/org/continuity/experimentation/experiment/changes/ChangeCounter.java:61-65 | scanning the prefixes of a line finds nothing exactly when none matches, and otherwise exactly the matching prefix's type at the line's index |
| ChangeCounters.MatchLine | continuity.experimentation.experiment/src/main/java/org/continuity/experimentation/experiment/changes/ChangeCounter.java:61-65 | one line adds its block type at its index when it starts a block, nothing otherwise |
| ChangeCounters.Starts | continuity.experimentation.experiment/src/main/java/org/continuity/experimentation/experiment/changes/ChangeCounter.java:57-68 | the starts name valid line indexes whose lines have those types, in ascending order, and every line that starts a block is among them |
| ChangeCounters.FindStarts | continuity.experimentation.experiment/src/main/java/org/continuity/experimentation/experiment/changes/ChangeCounter.java:57-68 | the scan over all lines collects exactly the starts of the file |
| ChangeCounters.BlockLengths | continuity.experimentation.experiment/src/main/java/org/continuity/experimentation/experiment/changes/ChangeCounter.java:72-80 | one length per start: the distance to the next start, and for the last one the distance to the end of the file |
| ChangeCounters.BlockLengthsCover | continuity.experimentation.experiment/src/main/java/org/continuity/experimentation/experiment/changes/ChangeCounter.java:72-80 | for ascending starts each block is non-empty and the lengths add up to the lines from the first start to the end |
| ChangeCounters.Row | continuity.experimentation.experiment/src/main/java/org/continuity/experimentation/experiment/changes/ChangeCounter.java:85-91 | a row is its eight fields (version, type, ADD, 1, lines, scaled lines, weight, overhead) joined with ";" |
| ChangeCounters.RowReadsBack | continuity.experimentation.experiment/src/main/java/org/continuity/experimentation/experiment/changes/ChangeCounter.java:85-91 | splitting a row at ";" gives its eight fields back, the fields ADD and 1 are third and fourth, and the line count parses back |
| ChangeCounters.Rows | continuity.experimentation.experiment/src/main/java/org/continuity/experimentation/experiment/changes/ChangeCounter.java:70-82 | one row per start |
| ChangeCounters.RowsWith | continuity.experimentation.experiment/src/main/java/org/continuity/experimentation/experiment/changes/ChangeCounter.java:70-82 | one row per start, whatever row function is used |
| ChangeCounters.RowsOf | continuity.experimentation.experiment/src/main/java/org/continuity/experimentation/experiment/changes/ChangeCounter.java:70-82 | fails with an index failure exactly when there are no starts, and otherwise gives the row of each start with its block length |
| ChangeCounters.CountChanges | continuity.experimentation.experiment/src/main/java/org/continuity/experimentation/experiment/changes/ChangeCounter.java:52-83 | fails with an index failure exactly when no line starts a block, and otherwise gives the rows of the file's blocks |
| ChangeCounters.RowsCoverFile | continuity.experimentation.experiment/src/main/java/org/continuity/experimentation/experiment/changes/ChangeCounter.java:52-83 | every counted block is non-empty and together they cover the file from the first start to the end |
| MarkovTemplates.RowIndex | continuity.experimentation.experiment/src/main/java/org/continuity/experimentation/experiment/apichanger/MarkovTemplate.java:20-28 | the first row whose name is the given one, or -1 when no row has it; an empty row met before that makes row.get(0) throw an index failure |
| MarkovTemplates.RowOf | continuity.experimentation.experiment/src/main/java/org/continuity/experimentation/experiment/apichanger/MarkovTemplate.java:20-28 | a row found is a row of the table whose first cell is the name; null only when every row is non-empty and named otherwise; an index failure from the lookup |
| MarkovTemplates.ColumnIndex | continuity.experimentation.experiment/src/main/java/org/continuity/experimentation/experiment/apichanger/MarkovTemplate.java:76-90 | the first header cell holding the name, or -1; a template without rows fails with an index failure |
| MarkovTemplates.Column | continuity.experimentation.experiment/src/main/java/org/continuity/experimentation/experiment/apichanger/MarkovTemplate.java:38-52 | null exactly when the name is no header; otherwise that cell of every row, failing exactly when a row is too short for it |
| MarkovTemplates.RowAdded | continuity.experimentation.experiment/src/main/java/org/continuity/experimentation/experiment/apichanger/MarkovTemplate.java:30-32 | the old rows are kept and the new row comes last |
| MarkovTemplates.RowRemoved | continuity.experimentation.experiment/src/main/java/org/continuity/experimentation/experiment/apichanger/MarkovTemplate.java:34-36 | fails exactly when the row lookup fails; an absent name leaves the table; otherwise exactly the found row is taken out |
| MarkovTemplates.ColumnAdded | continuity.experimentation.experiment/src/main/java/org/continuity/experimentation/experiment/apichanger/MarkovTemplate.java:54-62 | succeeds exactly when the table has rows and the column has a cell for each and fits before the last header cell; then each row gets its cell there |
| MarkovTemplates.ColumnRemoved | continuity.experimentation.experiment/src/main/java/org/continuity/experimentation/experiment/apichanger/MarkovTemplate.java:64-74 | an absent name leaves the table; otherwise the cell at that header position is taken out of every row, failing exactly when there are no rows or a row is too short |
| MarkovTemplates.FittingRows | continuity.experimentation.experiment/src/main/java/org/continuity/experimentation/experiment/apichanger/MarkovTemplate.java:56-61 | the first row, from a given one on, that has no room at the insert position or no cell of the column; all rows before it have both |
| MarkovTemplates.PartlyWidened | continuity.experimentation.experiment/src/main/java/org/continuity/experimentation/experiment/apichanger/MarkovTemplate.java:54-62 | what insertColumn leaves: the rows before the first that does not fit get the column's cell, the later rows stay; no row is added or lost |
| MarkovTemplates.PartlyWidenedWhenFits | continuity.experimentation.experiment/src/main/java/org/continuity/experimentation/experiment/apichanger/MarkovTemplate.java:54-62 | the column fits exactly when the table has rows and every row is reached, and then the partial widening is ColumnAdded |
| MarkovTemplates.ReachingRows | continuity.experimentation.experiment/src/main/java/org/continuity/experimentation/experiment/apichanger/MarkovTemplate.java:69-72 | the first row, from a given one on, too short for the cell index; all rows before it are long enough |
| MarkovTemplates.PartlyNarrowed | continuity.experimentation.experiment/src/main/java/org/continuity/experimentation/experiment/apichanger/MarkovTemplate.java:64-74 | what removeColumn leaves: unchanged for an absent header or a template without rows; otherwise the rows before the first too short lose the cell and the later rows stay |
| MarkovTemplates.PartlyNarrowedWhenReached | continuity.experimentation.experiment/src/main/java/org/continuity/experimentation/experiment/apichanger/MarkovTemplate.java:64-74 | removeColumn succeeds exactly when the table has rows and the name is no header or every row is reached, and then the partial narrowing is ColumnRemoved |
| MarkovTemplates.Lines | continuity.experimentation.experiment/src/main/java/org/continuity/experimentation/experiment/apichanger/MarkovTemplate.java:93 | each row written as its cells joined with ","; an empty row makes the reduction throw NoSuchElementException |
| MarkovTemplates.ReadTable | continuity.experimentation.experiment/src/main/java/org/continuity/experimentation/experiment/apichanger/MarkovTemplate.java:98-106 | one row per line, the line split at "," |
| MarkovTemplates.ReadWritten | continuity.experimentation.experiment/src/main/java/org/continuity/experimentation/experiment/apichanger/MarkovTemplate.java:92-106 | a table whose cells survive splitting is read back unchanged from the lines written for it |
| MarkovTemplates.MarkovTemplate.constructor | continuity.experimentation.experiment/src/main/java/org/continuity/experimentation/experiment/apichanger/MarkovTemplate.java:16-18 | the template holds the rows read from the file's lines |
| MarkovTemplates.MarkovTemplate.GetRow | continuity.experimentation.experiment/src/main/java/org/continuity/experimentation/experiment/apichanger/MarkovTemplate.java:20-28 | the first row with the name, null when there is none, with RowIndex's failure |
| MarkovTemplates.MarkovTemplate.InsertRow | continuity.experimentation.experiment/src/main/java/org/continuity/experimentation/experiment/apichanger/MarkovTemplate.java:30-32 | the rows become RowAdded of the old rows |
| MarkovTemplates.MarkovTemplate.RemoveRow | continuity.experimentation.experiment/src/main/java/org/continuity/experimentation/experiment/apichanger/MarkovTemplate.java:34-36 | on failure the rows stay; otherwise they become RowRemoved of the old rows |
| MarkovTemplates.MarkovTemplate.GetColumnIndex | continuity.experimentation.experiment/src/main/java/org/continuity/experimentation/experiment/apichanger/MarkovTemplate.java:76-90 | the header scan gives ColumnIndex of the rows |
| MarkovTemplates.MarkovTemplate.GetColumn | continuity.experimentation.experiment/src/main/java/org/continuity/experimentation/experiment/apichanger/MarkovTemplate.java:38-52 | the row scan gives Column of the rows |
| MarkovTemplates.MarkovTemplate.InsertColumn | continuity.experimentation.experiment/src/main/java/org/continuity/experimentation/experiment/apichanger/MarkovTemplate.java:54-62 | Done exactly when the column fits, an index failure otherwise; the rows become PartlyWidened of the old rows, which is ColumnAdded on success |
| MarkovTemplates.MarkovTemplate.RemoveColumn | continuity.experimentation.experiment/src/main/java/org/continuity/experimentation/experiment/apichanger/MarkovTemplate.java:64-74 | Done exactly when ColumnRemoved succeeds, an index failure otherwise; the rows become PartlyNarrowed of the old rows, which is ColumnRemoved on success |
| MarkovTemplates.MarkovTemplate.WrittenLines | continuity.experimentation.experiment/src/main/java/org/continuity/experimentation/experiment/apichanger/MarkovTemplate.java:92-96 | succeeds exactly when every row is non-empty, else NoSuchElementException; then one line per row, its cells joined with "," |
| MarkovTemplateChangers.MarkovTemplateChanger.constructor | continuity.experimentation.experiment/src/main/java/org/continuity/experimentation/experiment/apichanger/MarkovTemplateChanger.java:14-16 | the changer works on the given template |
| MarkovTemplateChangers.InterfaceCopied | continuity.experimentation.experiment/src/main/java/org/continuity/experimentation/experiment/apichanger/MarkovTemplateChanger.java:22-32 | the status and rows copyInterface leaves, failures included; one row more exactly when the original's row is found |
| MarkovTemplateChangers.InterfaceRemoved | continuity.experimentation.experiment/src/main/java/org/continuity/experimentation/experiment/apichanger/MarkovTemplateChanger.java:34-37 | the status and rows removeInterface leaves, failures included; one row fewer exactly when the interface's row is found |
| MarkovTemplateChangers.CopyFailureState | continuity.experimentation.experiment/src/main/java/org/continuity/experimentation/experiment/apichanger/MarkovTemplateChanger.java:22-32 | an absent original row fails with no change; a missing column fails with the renamed row added; otherwise Done exactly when the column fits, and then the rows are ColumnAdded |
| MarkovTemplateChangers.RemoveFailureState | continuity.experimentation.experiment/src/main/java/org/continuity/experimentation/experiment/apichanger/MarkovTemplateChanger.java:34-37 | a failing removeRow changes nothing; otherwise the row is gone and Done holds exactly when ColumnRemoved succeeds, whose rows are then the result |
| MarkovTemplateChangers.MarkovTemplateChanger.CopyInterface | continuity.experimentation.experiment/src/main/java/org/continuity/experimentation/experiment/apichanger/MarkovTemplateChanger.java:22-32 | the status and the new rows are InterfaceCopied of the old rows, including the partly changed rows a failure leaves |
| MarkovTemplateChangers.MarkovTemplateChanger.RemoveInterface | continuity.experimentation.experiment/src/main/java/org/continuity/experimentation/experiment/apichanger/MarkovTemplateChanger.java:34-37 | the status and the new rows are InterfaceRemoved of the old rows, including the partly changed rows a failure leaves |
| MarkovTemplateChangers.FirstIndexInserted | continuity.experimentation.experiment/src/main/java/org/continuity/experimentation/experiment/apichanger/MarkovTemplateChanger.java:31 | a fresh id inserted at a position is first found at that position |
| MarkovTemplateChangers.RowIndexUnique | continuity.experimentation.experiment/src/main/java/org/continuity/experimentation/experiment/apichanger/MarkovTemplate.java:20-28 | in a table of non-empty rows where only row k has the name, the lookup finds k |
| MarkovTemplateChangers.FoundRow | continuity.experimentation.experiment/src/main/java/org/continuity/experimentation/experiment/apichanger/MarkovTemplateChanger.java:23 | in a rectangular table the original's row is found, as wide as the header and named by the id |
| MarkovTemplateChangers.ColumnOfRectangular | continuity.experimentation.experiment/src/main/java/org/continuity/experimentation/experiment/apichanger/MarkovTemplateChanger.java:28 | in a rectangular table a header name's column exists at its first header position |
| MarkovTemplateChangers.CopyShape | continuity.experimentation.experiment/src/main/java/org/continuity/experimentation/experiment/apichanger/MarkovTemplateChanger.java:22-32 | copying into a rectangular table succeeds: every row gets the original's cell before the last header cell, the header gets the new id there, and the last row is the original's row renamed to the new id and widened with its own cell |
| MarkovTemplateChangers.RemoveFreshRow | continuity.experimentation.experiment/src/main/java/org/continuity/experimentation/experiment/apichanger/MarkovTemplateChanger.java:35 | removing the fresh id's row takes off exactly the added last row |
| MarkovTemplateChangers.RemoveFreshColumn | continuity.experimentation.experiment/src/main/java/org/continuity/experimentation/experiment/apichanger/MarkovTemplateChanger.java:36 | removing the fresh id's column then gives back the original table |
| MarkovTemplateChangers.CopyThenRemove | continuity.experimentation.experiment/src/main/java/org/continuity/experimentation/experiment/apichanger/MarkovTemplateChanger.java:22-37 | copying an interface to a fresh id and then removing the fresh id restores the template |
| MarkovTemplateChangers.CopyThenRemoveInPlace | continuity.experimentation.experiment/src/main/java/org/continuity/experimentation/experiment/apichanger/MarkovTemplateChanger.java:22-37 | the same round trip on one template object: both steps succeed and the rows are restored |
| JMeterLogs.HeadersMap | continuity.experimentation.api/src/main/java/org/continuity/experimentation/entity/JMeterLog.java:37-48 | the names of the header row are exactly the keys, each mapped to its last position, since a later put overwrites |
| JMeterLogs.ToHeadersMap | continuity.experimentation.api/src/main/java/org/continuity/experimentation/entity/JMeterLog.java:37-48 | the loop of puts builds HeadersMap of the row |
| JMeterLogs.SplitRows | continuity.experimentation.api/src/main/java/org/continuity/experimentation/entity/JMeterLog.java:24 | each line split at tabs, one row per line |
| JMeterLogs.FromCsv | continuity.experimentation.api/src/main/java/org/continuity/experimentation/entity/JMeterLog.java:23-35 | fails with an index failure exactly when there are no lines or the first splits into nothing; a first row starting with timeStamp is the header and every later row an entry over it; otherwise every row is an entry over the default headers |
| JMeterLogs.Entry.GetValue | continuity.experimentation.api/src/main/java/org/continuity/experimentation/entity/JMeterLogEntry.java:21-27 | null for an unknown property, the row's cell at the header position for a known one, an index failure when the row is too short |
| JMeterLogs.Entry.GetIntValue | continuity.experimentation.api/src/main/java/org/continuity/experimentation/entity/JMeterLogEntry.java:29-37 | a failing lookup propagates, a missing value throws IllegalArgumentException, a present one is parsed as an int |
| JMeterLogs.Entry.GetTimestamp | continuity.experimentation.api/src/main/java/org/continuity/experimentation/entity/JMeterLogEntry.java:39-45 | the parse of the timeStamp cell, null when it does not parse; a missing cell makes the parse throw NullPointerException |
| JMeterLogs.HeadersMapAt | continuity.experimentation.api/src/main/java/org/continuity/experimentation/entity/JMeterLog.java:37-48 | a name whose last occurrence in the header row is at k is mapped to k |
| JMeterLogs.DefaultTimeStampAt0 | continuity.experimentation.api/src/main/java/org/continuity/experimentation/entity/JMeterLog.java:14-15 | in the default headers timeStamp is column 0 |
| JMeterLogs.DefaultLabelAt2 | continuity.experimentation.api/src/main/java/org/continuity/experimentation/entity/JMeterLog.java:14-15 | in the default headers label is column 2 |
| JMeterLogs.DefaultThreadNameAt5 | continuity.experimentation.api/src/main/java/org/continuity/experimentation/entity/JMeterLog.java:14-15 | in the default headers threadName is column 5 |
| JMeterLogs.HeaderColumnsRead | continuity.experimentation.api/src/main/java/org/continuity/experimentation/entity/JMeterLog.java:23-35 | with a header row, entry i reads a header name's cell from line i + 1 at the name's last header position |
| TestplanWriters.DirNameInjective | continuity.experimentation.api/src/main/java/org/continuity/experimentation/action/continuity/JMeterTestplanWriter.java:47-51 | different numbers give different wessbas- directories |
| TestplanWriters.GetNewDir | continuity.experimentation.api/src/main/java/org/continuity/experimentation/action/continuity/JMeterTestplanWriter.java:44-55 | the lowest number from 1 up whose directory does not exist yet; a successful `mkdirs` makes that directory and every ancestor exist and nothing else, a failed one changes nothing, and the path is returned either way |
| TestplanWriters.Chain | continuity.experimentation.api/src/main/java/org/continuity/experimentation/action/continuity/JMeterTestplanWriter.java:52 | the directories `mkdirs` makes exist: the path and exactly the prefixes of it that end before a "/" |
| TestplanWriters.RootInChain | continuity.experimentation.api/src/main/java/org/continuity/experimentation/action/continuity/JMeterTestplanWriter.java:52 | a successful `mkdirs` also makes the context directory exist |
| TestplanWriters.LaterNamesDiffer | continuity.experimentation.api/src/main/java/org/continuity/experimentation/action/continuity/JMeterTestplanWriter.java:47-49 | no later probe hits a name already probed, so the probing ends |
| InfluxResults.RunCounter.constructor | continuity.experimentation.api/src/main/java/org/continuity/experimentation/action/inspectit/GetInfluxResults.java:64-65 | the shared run count starts at -1 |
| InfluxResults.RunPath | continuity.experimentation.api/src/main/java/org/continuity/experimentation/action/inspectit/GetInfluxResults.java:79-87 | the path starts with "run#" and the run count and ends with the generated or the reference directory |
| InfluxResults.WindowQuery | continuity.experimentation.api/src/main/java/org/continuity/experimentation/action/inspectit/GetInfluxResults.java:118 | the query names the measurement and the window from the start to the stop time, milliseconds scaled to nanoseconds |
| InfluxResults.WindowInclusive | continuity.experimentation.api/src/main/java/org/continuity/experimentation/action/inspectit/GetInfluxResults.java:118 | a millisecond time is selected exactly when it lies between start and stop, both included |
| InfluxResults.RenderedLines | continuity.experimentation.api/src/main/java/org/continuity/experimentation/action/inspectit/GetInfluxResults.java:124-153 | the header line is the columns joined with ";", followed by one line per value row joined the same way |
| InfluxResults.Text | continuity.experimentation.api/src/main/java/org/continuity/experimentation/action/inspectit/GetInfluxResults.java:137-155 | empty exactly for no lines; otherwise it ends with a newline |
| InfluxResults.TextIsJoin | continuity.experimentation.api/src/main/java/org/continuity/experimentation/action/inspectit/GetInfluxResults.java:137-155 | the text is the lines joined with newlines, with a final newline |
| InfluxResults.TextLines | continuity.experimentation.api/src/main/java/org/continuity/experimentation/action/inspectit/GetInfluxResults.java:137-155 | newline-free lines are read back from the text by splitting at newlines, and the text has one newline per line |
| InfluxResults.RenderingLineCount | continuity.experimentation.api/src/main/java/org/continuity/experimentation/action/inspectit/GetInfluxResults.java:124-155 | with newline-free cells the text splits back into the header and the value rows, one newline each |
| InfluxResults.AppendJoined | continuity.experimentation.api/src/main/java/org/continuity/experimentation/action/inspectit/GetInfluxResults.java:126-135 | the builder loop appends the cells joined with ";" |
| InfluxResults.Render | continuity.experimentation.api/src/main/java/org/continuity/experimentation/action/inspectit/GetInfluxResults.java:124-155 | the builder ends up with the text of RenderedLines of the series |
| InfluxResults.Millis | continuity.experimentation.api/src/main/java/org/continuity/experimentation/action/inspectit/GetInfluxResults.java:118 | a date holder's read as milliseconds: its failure propagates and a null date throws NullPointerException |
| InfluxResults.GetInfluxResults.Results | continuity.experimentation.api/src/main/java/org/continuity/experimentation/action/inspectit/GetInfluxResults.java:117-156 | the start time is read first and its failure wins, then the stop time, then the database answer for the window, rendered |
| InfluxResults.GetInfluxResults.MeasurementResults | continuity.experimentation.api/src/main/java/org/continuity/experimentation/action/inspectit/GetInfluxResults.java:117-156 | the method's steps give Results of the measurement |
| InfluxResults.GetInfluxResults.RecordedSnoc | continuity.experimentation.api/src/main/java/org/continuity/experimentation/action/inspectit/GetInfluxResults.java:89-91 | writing the next measurement's file extends the record of the files written, in order |
| InfluxResults.GetInfluxResults.WriteNext | continuity.experimentation.api/src/main/java/org/continuity/experimentation/action/inspectit/GetInfluxResults.java:89-91 | one measurement file more is written, or the step ends the way Ended describes |
| InfluxResults.GetInfluxResults.Execute | continuity.experimentation.api/src/main/java/org/continuity/experimentation/action/inspectit/GetInfluxResults.java:76-98 | a reference run increments the shared run count first, wrapping as a Java int, a generated one does not; the cpu, memory and businessTransactions files go under the run's path in that order; a failed write ends the step normally and a failed read fails it |
| InfluxResults.CountedRun | continuity.experimentation.api/src/main/java/org/continuity/experimentation/action/inspectit/GetInfluxResults.java:79-87 | the run count after the step is the old one for a generated test and one more, wrapped as a Java int, for a reference test |
| InfluxResults.RunNumbering | continuity.experimentation.api/src/main/java/org/continuity/experimentation/action/inspectit/GetInfluxResults.java:64-87 | a generated test before any reference run uses run -1; reference, generated, reference then count 0, 0, 1 |
| InfluxResults.FirstReferenceRunPath | continuity.experimentation.api/src/main/java/org/continuity/experimentation/action/inspectit/GetInfluxResults.java:86 | the first reference run writes under run#0/referenceLoadtest/ |
| InfluxResults.EarlyGeneratedRunPath | continuity.experimentation.api/src/main/java/org/continuity/experimentation/action/inspectit/GetInfluxResults.java:80 | a generated run before any reference run writes under run#-1/generatedLoadtest/ |
| ReportPolling.WaitWindow | continuity.experimentation.api/src/main/java/org/continuity/experimentation/action/continuity/WaitForJmeterReport.java:40 | twice the expected duration, with long wrap-around, clamped to between 10 and 30 minutes |
| ReportPolling.DefaultWaitIsLongest | continuity.experimentation.api/src/main/java/org/continuity/experimentation/action/continuity/WaitForJmeterReport.java:65-67 | the default expected duration of 30 minutes waits the longest window |
| ReportPolling.WaitWindowClamps | continuity.experimentation.api/src/main/java/org/continuity/experimentation/action/continuity/WaitForJmeterReport.java:40 | durations from 15 minutes up wait 30 minutes, up to 5 minutes wait 10 minutes, and between them twice the duration |
| ReportPolling.WaitForJmeterReport.constructor | continuity.experimentation.api/src/main/java/org/continuity/experimentation/action/continuity/WaitForJmeterReport.java:38-41 | the deadline is the creation time plus the wait window |
| ReportPolling.WaitForJmeterReport.OnDefaultPort | continuity.experimentation.api/src/main/java/org/continuity/experimentation/action/continuity/WaitForJmeterReport.java:53-55 | the same on port 8080 |
| ReportPolling.WaitForJmeterReport.OnHost | continuity.experimentation.api/src/main/java/org/continuity/experimentation/action/continuity/WaitForJmeterReport.java:65-67 | port 8080 and a deadline 30 minutes after creation |
| ReportPolling.WaitForJmeterReport.Execute | continuity.experimentation.api/src/main/java/org/continuity/experimentation/action/continuity/WaitForJmeterReport.java:73-94 | requests are made only while the clock is before the deadline, and stop at the first report; that report is written to jmeter-report.csv in the context directory, and a failed write fails the step with IOException; with no report nothing is written, the step is done and the deadline has passed |
| ReportPolling.WaitAfterDeadline | continuity.experimentation.api/src/main/java/org/continuity/experimentation/action/continuity/WaitForJmeterReport.java:80 | a step run after its deadline makes no request, writes nothing and is done |
| ReportPolling.FlushJMeterReports.constructor | continuity.experimentation.api/src/main/java/org/continuity/experimentation/action/continuity/FlushJMeterReports.java:14-16 | keeps the host and port |
| ReportPolling.FlushJMeterReports.OnDefaultPort | continuity.experimentation.api/src/main/java/org/continuity/experimentation/action/continuity/FlushJMeterReports.java:18-20 | keeps the host, on port 8080 |
| ReportPolling.FlushJMeterReports.Execute | continuity.experimentation.api/src/main/java/org/continuity/experimentation/action/continuity/FlushJMeterReports.java:22-35 | requests reports up to and including the first answer without one; the flush count is the number of reports received |
| Merger.Min | continuity.experimentation.api/src/main/java/org/continuity/experimentation/action/OpenXtraceJmeterMerger.java:119 | the smallest trace time, which is one of them |
| Merger.Max | continuity.experimentation.api/src/main/java/org/continuity/experimentation/action/OpenXtraceJmeterMerger.java:120 | the largest trace time, which is one of them |
| Merger.KeepBetween | continuity.experimentation.api/src/main/java/org/continuity/experimentation/action/OpenXtraceJmeterMerger.java:122 | fails exactly when some entry's time stamp cannot be had, with the failure of the first such entry in log order: the index error of a row too short for the timeStamp cell, or NullPointerException at `after` for a stamp that does not parse; otherwise keeps only entries strictly inside the window |
| Merger.KeepBetweenKeeps | continuity.experimentation.api/src/main/java/org/continuity/experimentation/action/OpenXtraceJmeterMerger.java:122 | an entry is kept exactly when it is in the log with a parsed time stamp strictly inside the window |
| Merger.Threaded | continuity.experimentation.api/src/main/java/org/continuity/experimentation/action/OpenXtraceJmeterMerger.java:165-169 | the kept entries with their thread names, one sample per entry in order; fails exactly when some thread name cannot be read, with the first such failure |
| Merger.ThreadedPrefix | continuity.experimentation.api/src/main/java/org/continuity/experimentation/action/OpenXtraceJmeterMerger.java:164-173 | once an entry's thread name fails, the rest of the log does not change the failure |
| Merger.EmptyRowStopsFilter | continuity.experimentation.api/src/main/java/org/continuity/experimentation/entity/JMeterLogEntry.java:21-45 | under the default layout an entry without cells makes the filter throw an index error |
| Merger.ShortRowKeptThenFails | continuity.experimentation.api/src/main/java/org/continuity/experimentation/action/OpenXtraceJmeterMerger.java:122-169 | an entry in the window whose row ends before its threadName column is kept, and the grouping throws an index error at it |
| Merger.ShortRowStopsGrouping | continuity.experimentation.api/src/main/java/org/continuity/experimentation/entity/JMeterLog.java:14-15 | under the default layout, an entry in the window with fewer than six cells is kept and makes the grouping throw an index error |
| Merger.MatchOutcome | continuity.experimentation.api/src/main/java/org/continuity/experimentation/action/OpenXtraceJmeterMerger.java:136-158 | the label read of a group's first entry throws its failure; a null label throws NullPointerException at `equals`; a read label ends in the NullPointerException of the null result dereferenced at line 128 |
| Merger.OfThreadNonEmpty | continuity.experimentation.api/src/main/java/org/continuity/experimentation/action/OpenXtraceJmeterMerger.java:164-177 | each thread group of the kept entries is non-empty, so it has a first entry |
| Merger.LabelBeyondRowThrows | continuity.experimentation.api/src/main/java/org/continuity/experimentation/action/OpenXtraceJmeterMerger.java:122-158 | an entry in the window whose row ends before its label column is kept with its thread name, and its group's label read throws an index error |
| Merger.ThreeColumnLayout | continuity.experimentation.api/src/main/java/org/continuity/experimentation/entity/JMeterLog.java:27-28 | a header row timeStamp, threadName, label maps the three names to columns 0, 1 and 2 |
| Merger.ThreeColumnHeaderTwoCells | continuity.experimentation.api/src/main/java/org/continuity/experimentation/action/OpenXtraceJmeterMerger.java:122-158 | under that header row, a two-cell entry in the window is kept with its thread name and an unreadable label |
| Merger.FilterToTraces | continuity.experimentation.api/src/main/java/org/continuity/experimentation/action/OpenXtraceJmeterMerger.java:119-122 | no traces throws NoSuchElementException; otherwise the window runs from the earliest to the latest trace, both shifted back one hour |
| Merger.OfThread | continuity.experimentation.api/src/main/java/org/continuity/experimentation/action/OpenXtraceJmeterMerger.java:164-173 | a thread's group holds only that thread's entries, taken from the log |
| Merger.Insert | continuity.experimentation.api/src/main/java/org/continuity/experimentation/action/OpenXtraceJmeterMerger.java:176 | inserting adds exactly the one entry |
| Merger.SortByTime | continuity.experimentation.api/src/main/java/org/continuity/experimentation/action/OpenXtraceJmeterMerger.java:176 | sorting is a permutation of the group |
| Merger.InsertSorted | continuity.experimentation.api/src/main/java/org/continuity/experimentation/action/OpenXtraceJmeterMerger.java:176 | inserting into a time-ordered group keeps it ordered |
| Merger.SortByTimeSorted | continuity.experimentation.api/src/main/java/org/continuity/experimentation/action/OpenXtraceJmeterMerger.java:176 | the sorted group is ordered by time |
| Merger.InsertStable | continuity.experimentation.api/src/main/java/org/continuity/experimentation/action/OpenXtraceJmeterMerger.java:176 | inserting keeps the order of the entries with the same time, the new one first among them |
| Merger.SortByTimeStable | continuity.experimentation.api/src/main/java/org/continuity/experimentation/action/OpenXtraceJmeterMerger.java:176 | entries with equal times keep their log order, as Collections.sort is stable |
| Merger.GroupStep | continuity.experimentation.api/src/main/java/org/continuity/experimentation/action/OpenXtraceJmeterMerger.java:164-173 | one more entry adds its thread and joins the end of its thread's group only |
| Merger.GroupByThread | continuity.experimentation.api/src/main/java/org/continuity/experimentation/action/OpenXtraceJmeterMerger.java:162-173 | throws the failure of the first kept entry whose thread name cannot be read; otherwise one group per thread name of the kept entries, holding that thread's entries in log order |
| Merger.SortGroups | continuity.experimentation.api/src/main/java/org/continuity/experimentation/action/OpenXtraceJmeterMerger.java:175-177 | every group is sorted by time, and no group is added or lost |
| Merger.SplitByThreadAndSort | continuity.experimentation.api/src/main/java/org/continuity/experimentation/action/OpenXtraceJmeterMerger.java:161-180 | the grouping's failure; otherwise one group per thread name, holding that thread's entries sorted by time |
| Merger.OfThreadCount | continuity.experimentation.api/src/main/java/org/continuity/experimentation/action/OpenXtraceJmeterMerger.java:164-173 | a thread's group holds each of its entries as often as the log does |
| Merger.GroupsPartition | continuity.experimentation.api/src/main/java/org/continuity/experimentation/action/OpenXtraceJmeterMerger.java:161-180 | each entry of the log is in its thread's group as often as in the log, and each group is sorted and of one thread |
| Merger.Execute | continuity.experimentation.api/src/main/java/org/continuity/experimentation/action/OpenXtraceJmeterMerger.java:118-158 | the traces holder's failure, then a null (NullPointerException), then no traces (NoSuchElementException) come first; then the log holder's failure or null; then the filter's failure at the first entry without a time stamp; then the grouping's failure at the first kept entry without a thread name; no kept entry ends the step; otherwise the step fails as `MatchOutcome` says for the earliest entry of one of the thread groups |
| RandomMarkovChains.CellAt | continuity.experimentation.api/src/main/java/org/continuity/experimentation/action/continuity/RandomMarkovChain.java:150 | the cell one to the right is parsed as an int; a row too short for it fails with an index failure |
| RandomMarkovChains.RowPrefix | continuity.experimentation.api/src/main/java/org/continuity/experimentation/action/continuity/RandomMarkovChain.java:149-151 | when the first k cells of a row parse, exactly k values |
| RandomMarkovChains.RowPrefixMeaning | continuity.experimentation.api/src/main/java/org/continuity/experimentation/action/continuity/RandomMarkovChain.java:149-151 | the first k cells parse exactly when each does, giving their values in order; otherwise the failure is that of the first cell that fails |
| RandomMarkovChains.RowsPrefix | continuity.experimentation.api/src/main/java/org/continuity/experimentation/action/continuity/RandomMarkovChain.java:148-152 | when the first k transition rows parse, exactly k rows |
| RandomMarkovChains.RowsPrefixMeaning | continuity.experimentation.api/src/main/java/org/continuity/experimentation/action/continuity/RandomMarkovChain.java:148-152 | the first k transition rows parse exactly when each template row 1 to k does, transition row i being template row i + 1 |
| RandomMarkovChains.AllowedTransitions | continuity.experimentation.api/src/main/java/org/continuity/experimentation/action/continuity/RandomMarkovChain.java:145-155 | no template rows fail with an index failure, an empty header with a negative array size; a result has one row fewer than the template |
| RandomMarkovChains.AllowedTransitionsMeaning | continuity.experimentation.api/src/main/java/org/continuity/experimentation/action/continuity/RandomMarkovChain.java:145-155 | the extraction succeeds exactly when every cell of the template below and right of the header parses; then transition i, c is the int in template cell i + 1, c + 1, and every transition row is one shorter than the header |
| RandomMarkovChains.RowPrefixFails | continuity.experimentation.api/src/main/java/org/continuity/experimentation/action/continuity/RandomMarkovChain.java:149-151 | once a cell fails, the rest of the row does not change the failure |
| RandomMarkovChains.RowsPrefixFails | continuity.experimentation.api/src/main/java/org/continuity/experimentation/action/continuity/RandomMarkovChain.java:148-152 | once a row fails, the later rows do not change the failure |
| RandomMarkovChains.RowThinkTime | continuity.experimentation.api/src/main/java/org/continuity/experimentation/action/continuity/RandomMarkovChain.java:107-112 | the transitions from INITIAL (row 1) use think time 0, every other row the average |
| RandomMarkovChains.ExtractAllowedTransitions | continuity.experimentation.api/src/main/java/org/continuity/experimentation/action/continuity/RandomMarkovChain.java:145-155 | the nested loops give AllowedTransitions of the template |
| RandomMarkovChains.CreateBehaviorRow | continuity.experimentation.api/src/main/java/org/continuity/experimentation/action/continuity/RandomMarkovChain.java:119-133 | the request name, then the cells formatted with the think time, and the last, to $, with 0; an empty transition row fails with an index failure |
| RandomMarkovChains.BuildChain | continuity.experimentation.api/src/main/java/org/continuity/experimentation/action/continuity/RandomMarkovChain.java:103-112 | succeeds exactly when the template has at least two rows and two columns, giving the header and then row 1 with think time 0 and the later rows with the average think time |
| RandomMarkovChains.TemplateRead | continuity.experimentation.api/src/main/java/org/continuity/experimentation/action/continuity/RandomMarkovChain.java:135-143 | the path holder's failure propagates, a null path throws NullPointerException, a missing file an IOException; otherwise the file's lines split at "," |
| RandomMarkovChains.RandomMarkovChain.Execute | continuity.experimentation.api/src/main/java/org/continuity/experimentation/action/continuity/RandomMarkovChain.java:99-117 | a failure of reading or extracting the template fails the step with the holder untouched; otherwise the chain is stored in the output holder and, when the folder is writable, written under the first free file name as its comma-joined lines |
| RandomMarkovChains.ChainFileName | continuity.experimentation.api/src/main/java/org/continuity/experimentation/action/continuity/RandomMarkovChain.java:185-190 | every candidate name starts with random-markov-chain and ends with .csv |
| RandomMarkovChains.ChainFileNameInjective | continuity.experimentation.api/src/main/java/org/continuity/experimentation/action/continuity/RandomMarkovChain.java:187-190 | different counters give different file names |
| RandomMarkovChains.NoFirstNumber | continuity.experimentation.api/src/main/java/org/continuity/experimentation/action/continuity/RandomMarkovChain.java:186-190 | the name random-markov-chain-1.csv is never chosen: the counter is increased before its first use |
| RandomMarkovChains.FreeChainFile | continuity.experimentation.api/src/main/java/org/continuity/experimentation/action/continuity/RandomMarkovChain.java:184-191 | the first name in the probe order that does not exist yet, every earlier one existing |
| RandomMarkovChains.LaterFilesDiffer | continuity.experimentation.api/src/main/java/org/continuity/experimentation/action/continuity/RandomMarkovChain.java:189-191 | no later probe hits a name already probed, so the probing ends |
| TestExecutions.WithApproach | continuity.experimentation.experiment/src/main/java/org/continuity/experimentation/experiment/TestExecution.java:15-19 | a modularized execution with the given approach and services |
| TestExecutions.OfFlag | continuity.experimentation.experiment/src/main/java/org/continuity/experimentation/experiment/TestExecution.java:24-28 | an execution with the given flag, no approach and no services |
| TestExecutions.ContextName | continuity.experimentation.experiment/src/main/java/org/continuity/experimentation/experiment/TestExecution.java:42-56 | NullPointerException exactly for a modularized execution without approach; "non-modularized" for an unmodularized one; a modularized one starts with the approach's pretty string |
| TestExecutions.ToContext | continuity.experimentation.experiment/src/main/java/org/continuity/experimentation/experiment/TestExecution.java:42-56 | the builder loop gives ContextName: the approach's pretty name and each service after a dash, or non-modularized |
| TestExecutions.DashedJoin | continuity.experimentation.experiment/src/main/java/org/continuity/experimentation/experiment/TestExecution.java:44-52 | appending a dash and each service in turn is joining the name and the services with dashes |
| TestExecutions.ContextNameJoins | continuity.experimentation.experiment/src/main/java/org/continuity/experimentation/experiment/TestExecution.java:42-52 | a modularized execution's context is its approach's pretty name and its services joined with "-" |
| TestExecutions.ContextNameSplits | continuity.experimentation.experiment/src/main/java/org/continuity/experimentation/experiment/TestExecution.java:42-52 | dash-free names split back at "-" into the approach's pretty name and the services |
| TestExecutions.FlagContexts | continuity.experimentation.experiment/src/main/java/org/continuity/experimentation/experiment/TestExecution.java:42-56 | a non-modularized execution's context is non-modularized; a modularized one without approach throws NullPointerException |
| TestExecutions.ParseRow | continuity.experimentation.experiment/src/main/java/org/continuity/experimentation/experiment/Main.java:59-68 | a row that splits at "," into nothing fails with an index failure, the only way a row fails |
| TestExecutions.ReadRow | continuity.experimentation.experiment/src/main/java/org/continuity/experimentation/experiment/Main.java:59-68 | the method's steps give ParseRow of the row |
| TestExecutions.ParsedRows | continuity.experimentation.experiment/src/main/java/org/continuity/experimentation/experiment/Main.java:58-69 | one outcome per row |
| TestExecutions.ReadTestExecutions | continuity.experimentation.experiment/src/main/java/org/continuity/experimentation/experiment/Main.java:48-72 | the loop over the content's lines gives the outcomes of the rows collected up to the first failure, which is always an index failure; unreadable content counts as empty |
| TestExecutions.ReadAllRows | continuity.experimentation.experiment/src/main/java/org/continuity/experimentation/experiment/Main.java:58-69 | reading succeeds exactly when every row splits into at least one field, and then gives one execution per row, in order |
| TestExecutions.RowRoundTrip | continuity.experimentation.experiment/src/main/java/org/continuity/experimentation/experiment/Main.java:64-68 | a row written as the approach's pretty name and the services with "," reads back as that execution |
| TestExecutions.NonModularizedRow | continuity.experimentation.experiment/src/main/java/org/continuity/experimentation/experiment/Main.java:61-62 | a row starting with non-modularized reads back as the non-modularized execution, whatever follows |
| TestExecutions.SplitHead | continuity.experimentation.experiment/src/main/java/org/continuity/experimentation/experiment/Main.java:59 | a join whose first part is non-empty splits with that part first |
| TestExecutions.DropKeepsNonEmptyHead | continuity.experimentation.experiment/src/main/java/org/continuity/experimentation/experiment/Main.java:59 | dropping trailing empty pieces keeps a non-empty first piece |
| TestExecutions.CommasOnlyRowFails | continuity.experimentation.experiment/src/main/java/org/continuity/experimentation/experiment/Main.java:59 | a row of commas only splits into nothing, so reading its first field fails |
| TestExecutions.UnreadableIsEmpty | continuity.experimentation.experiment/src/main/java/org/continuity/experimentation/experiment/Main.java:50-56 | unreadable and empty content both give one empty row, which reads as an execution with the approach of "" and no services |
| Modularization.ApplicationFiles | continuity.experimentation.experiment/src/main/java/org/continuity/experimentation/experiment/ModularizationExperiment.java:108-110 | at most the listed names, each of the form application-*.yml |
| Modularization.AnnotationFiles | continuity.experimentation.experiment/src/main/java/org/continuity/experimentation/experiment/ModularizationExperiment.java:111-112 | at most the listed names, each of the form annotation-*.yml |
| Modularization.SelectedFiles | continuity.experimentation.experiment/src/main/java/org/continuity/experimentation/experiment/ModularizationExperiment.java:108-112 | the application files are exactly the listed names of the form application-*.yml, the annotation files exactly those of the form annotation-*.yml |
| Modularization.ApplicationNotAnnotation | continuity.experimentation.experiment/src/main/java/org/continuity/experimentation/experiment/ModularizationExperiment.java:109-111 | no file is both an application file and an annotation file |
| Modularization.ExtractTag | continuity.experimentation.experiment/src/main/java/org/continuity/experimentation/experiment/ModularizationExperiment.java:139-143 | the text between the first dash and the last dot; substring throws when there is no dot or the first dash is not before the last dot |
| Modularization.ExtractTagWithoutDot | continuity.experimentation.experiment/src/main/java/org/continuity/experimentation/experiment/ModularizationExperiment.java:142 | a name without a dot throws an index failure |
| Modularization.ExtractTagBetween | continuity.experimentation.experiment/src/main/java/org/continuity/experimentation/experiment/ModularizationExperiment.java:142 | for word-tag.ext with a dash-free, dot-free word and a dot-free extension, the tag between them |
| Modularization.ApplicationFileTag | continuity.experimentation.experiment/src/main/java/org/continuity/experimentation/experiment/ModularizationExperiment.java:139-143 | an application file's tag is what lies between application- and .yml |
| Modularization.AnnotationFileTag | continuity.experimentation.experiment/src/main/java/org/continuity/experimentation/experiment/ModularizationExperiment.java:139-143 | an annotation file's tag is what lies between annotation- and .yml |
| Modularization.ApplicationTagRoundTrip | continuity.experimentation.experiment/src/main/java/org/continuity/experimentation/experiment/ModularizationExperiment.java:109-143 | application-tag.yml is an application file, and its tag reads back as tag |
| Modularization.ServiceKey | continuity.experimentation.experiment/src/main/java/org/continuity/experimentation/experiment/ModularizationExperiment.java:290 | the key is the tag, a dash and the service, and the service reads back from it |
| Modularization.CreateServicesUnderTest | continuity.experimentation.experiment/src/main/java/org/continuity/experimentation/experiment/ModularizationExperiment.java:287-294 | the loop of puts builds ServicesMap of the services |
| Modularization.ServicesMap | continuity.experimentation.experiment/src/main/java/org/continuity/experimentation/experiment/ModularizationExperiment.java:287-294 | at most one entry per listed service, each value a listed service |
| Modularization.ServicesMapEntries | continuity.experimentation.experiment/src/main/java/org/continuity/experimentation/experiment/ModularizationExperiment.java:287-294 | every service is filed under its key, and every entry is a service filed under its own key |
| Modularization.ServicesMapSize | continuity.experimentation.experiment/src/main/java/org/continuity/experimentation/experiment/ModularizationExperiment.java:287-294 | the map has one entry per distinct service |
| Modularization.CreateOrder | continuity.experimentation.experiment/src/main/java/org/continuity/experimentation/experiment/ModularizationExperiment.java:341-356 | the tag, the goal, past sessions mode, and options of the test duration, JMeter, WESSBAS and the ramp-up, without users, modularization or source |
| Modularization.WithNumUsers | continuity.experimentation.experiment/src/main/java/org/continuity/experimentation/experiment/ModularizationExperiment.java:163 | the order's options get the number of users |
| Modularization.OrdersDifferOnlyInGoal | continuity.experimentation.experiment/src/main/java/org/continuity/experimentation/experiment/ModularizationExperiment.java:162-163 | two created orders differ only in their goal, and setting the users changes nothing else |
| Modularization.ReferenceSessionLogsLink | continuity.experimentation.experiment/src/main/java/org/continuity/experimentation/experiment/ModularizationExperiment.java:271 | the reference report's session logs link; the report's read failure propagates and a null report or missing internal artifacts throw NullPointerException |
| Modularization.LoadTestCreationOrder | continuity.experimentation.experiment/src/main/java/org/continuity/experimentation/experiment/ModularizationExperiment.java:251-277 | the test execution is read first, its failure propagating and null throwing NullPointerException; the traces link's failure comes next |
| Modularization.CreatedOrderShape | continuity.experimentation.experiment/src/main/java/org/continuity/experimentation/experiment/ModularizationExperiment.java:251-277 | a created order is a load-test creation order, modularized exactly when the execution is, with its approach and services map, and with the traces link, OPEN_XTRACE and the end date as measurement data |
| Modularization.SessionLogsLinkRule | continuity.experimentation.experiment/src/main/java/org/continuity/experimentation/experiment/ModularizationExperiment.java:269-272 | for SESSION_LOGS the reference report is never read and there is no session logs link; for any other approach the order succeeds exactly when the link can be read, and then carries it |
| Modularization.InitLoadTestCreationOrder | continuity.experimentation.experiment/src/main/java/org/continuity/experimentation/experiment/ModularizationExperiment.java:251-277 | on success the order holder holds LoadTestCreationOrder of the holders' reads; on failure the step fails with the first failure and the order holder is untouched |
| Modularization.AppendSystemRestart | continuity.experimentation.experiment/src/main/java/org/continuity/experimentation/experiment/ModularizationExperiment.java:302-310 | the steps stay and get one delay of 1 ms when the restart is omitted, otherwise four steps ending with the delay between executions |
| Modularization.RestartSteps | continuity.experimentation.experiment/src/main/java/org/continuity/experimentation/experiment/ModularizationExperiment.java:302-310 | the restart steps end with a delay and hold a restart exactly when the restart is not omitted |
| Modularization.SleepTimeAppend | continuity.experimentation.experiment/src/main/java/org/continuity/experimentation/experiment/ModularizationExperiment.java:302-310 | sleep time and restarts of two step lists add up |
| Modularization.RestartStepsEffect | continuity.experimentation.experiment/src/main/java/org/continuity/experimentation/experiment/ModularizationExperiment.java:303-309 | the restart steps restart once and sleep 5 minutes plus the delay, or only sleep 1 ms when omitted |
| Modularization.SystemRestartEffect | continuity.experimentation.experiment/src/main/java/org/continuity/experimentation/experiment/ModularizationExperiment.java:302-310 | appending the restart adds one restart and that sleep time; a restart is followed by a 5-minute delay and a wait of up to 30 minutes for the Sock Shop |
| ApiChangers.ChangeCount | continuity.experimentation.experiment/src/main/java/org/continuity/experimentation/experiment/apichanger/ApiChanger.java:36-40 | a per-version change count drawn as nextInt(5 - 1) + 1 lies in 1..4 |
| ApiChangers.ChangeCounts | continuity.experimentation.experiment/src/main/java/org/continuity/experimentation/experiment/apichanger/ApiChanger.java:82-84 | one change count per draw, in the order drawn |
| ApiChangers.SelectIndex | continuity.experimentation.experiment/src/main/java/org/continuity/experimentation/experiment/apichanger/ApiChanger.java:211-214 | selectRandom yields an index inside a non-empty list and fails with IllegalArgumentException exactly on an empty one |
| ApiChangers.PositionsIn | continuity.experimentation.experiment/src/main/java/org/continuity/experimentation/experiment/apichanger/ApiChanger.java:141-142 | the positions of one interface's parameters that pass the filter, all of them and nothing else |
| ApiChangers.Positions | continuity.experimentation.experiment/src/main/java/org/continuity/experimentation/experiment/apichanger/ApiChanger.java:164-165 | every (interface, parameter) position of the system whose parameter passes the filter, and only those |
| ApiChangers.CloneParameter | continuity.experimentation.experiment/src/main/java/org/continuity/experimentation/experiment/apichanger/ApiChanger.java:236-242 | the clone has the given identity, the name and type of the original and an id different from the original's |
| ApiChangers.ClonedParameters | continuity.experimentation.experiment/src/main/java/org/continuity/experimentation/experiment/apichanger/ApiChanger.java:227-231 | one clone per parameter, in order, with id `<new interface id>_<old id>`, same name and type and consecutive fresh identities |
| ApiChangers.ClonedInterface | continuity.experimentation.experiment/src/main/java/org/continuity/experimentation/experiment/apichanger/ApiChanger.java:216-234 | the clone takes the given identity and has as many parameters as the original, with the identities after it in order |
| ApiChangers.CloneInterfaceRules | continuity.experimentation.experiment/src/main/java/org/continuity/experimentation/experiment/apichanger/ApiChanger.java:216-234 | the clone has id `<id>_CLONE` and path `<path>/clone`, copies every other field, and clones each parameter as `<id>_CLONE_<param id>` with fresh identities above the clone's |
| ApiChangers.ParameterAnnotationsFor | continuity.experimentation.experiment/src/main/java/org/continuity/experimentation/experiment/apichanger/ApiChanger.java:282-289 | a successful annotation clone has one parameter annotation per parameter of the new interface |
| ApiChangers.ParameterAnnotationsForComplete | continuity.experimentation.experiment/src/main/java/org/continuity/experimentation/experiment/apichanger/ApiChanger.java:282-289 | the annotation clone succeeds exactly when every new parameter finds a same-named original parameter with an annotation |
| ApiChangers.ParameterAnnotationsForValues | continuity.experimentation.experiment/src/main/java/org/continuity/experimentation/experiment/apichanger/ApiChanger.java:283-288 | each cloned parameter annotation copies the input and overrides of the annotation of the first same-named original parameter |
| ApiChangers.ParameterAnnotationsForFails | continuity.experimentation.experiment/src/main/java/org/continuity/experimentation/experiment/apichanger/ApiChanger.java:282-289 | once a parameter fails (no same-named original, or no annotation) the whole clone fails with that failure |
| ApiChangers.ParameterAnnotationsStep | continuity.experimentation.experiment/src/main/java/org/continuity/experimentation/experiment/apichanger/ApiChanger.java:282-289 | each loop step either fails with the parameter's failure or appends its annotation |
| ApiChangers.AnnotationClone | continuity.experimentation.experiment/src/main/java/org/continuity/experimentation/experiment/apichanger/ApiChanger.java:274-293 | a successful clone annotates the new interface, keeps the original's overrides and has one parameter annotation per new parameter |
| ApiChangers.Copies | continuity.experimentation.experiment/src/main/java/org/continuity/experimentation/experiment/apichanger/ApiChanger.java:309-318 | one copy per extraction of the original interface, reading the new interface and copying fallback, match number, pattern and response key, with the template set to the response key |
| ApiChangers.InputsWithCopies | continuity.experimentation.experiment/src/main/java/org/continuity/experimentation/experiment/apichanger/ApiChanger.java:303-321 | every input is kept in place; extracted inputs gain copies of their extractions from the original interface |
| ApiChangers.InputsWithout | continuity.experimentation.experiment/src/main/java/org/continuity/experimentation/experiment/apichanger/ApiChanger.java:323-333 | every input is kept in place, with the extractions from the removed interface taken out |
| ApiChangers.PrunedKeepsOthers | continuity.experimentation.experiment/src/main/java/org/continuity/experimentation/experiment/apichanger/ApiChanger.java:328-332 | an extracted input keeps exactly its extractions from other interfaces, in order |
| ApiChangers.AfterAddInterface | continuity.experimentation.experiment/src/main/java/org/continuity/experimentation/experiment/apichanger/ApiChanger.java:124-139 | ADD_INTERFACE: an empty system fails with IllegalArgumentException and no change; otherwise the old interfaces stay and one clone follows them; no identity is reused |
| ApiChangers.AfterAddParameter | continuity.experimentation.experiment/src/main/java/org/continuity/experimentation/experiment/apichanger/ApiChanger.java:140-154 | ADD_PARAMETER: without an included parameter IllegalArgumentException and no change; the number of interfaces stays; no identity is reused |
| ApiChangers.AfterChangeInterfacePath | continuity.experimentation.experiment/src/main/java/org/continuity/experimentation/experiment/apichanger/ApiChanger.java:155-162 | CHANGE_INTERFACE_PATH fails exactly on an empty system; the interfaces stay as many and the next identity stays |
| ApiChangers.AfterChangeParameterName | continuity.experimentation.experiment/src/main/java/org/continuity/experimentation/experiment/apichanger/ApiChanger.java:163-172 | CHANGE_PARAMETER_NAME fails exactly without a candidate parameter; the interfaces stay as many and the next identity stays |
| ApiChangers.AfterRemoveInterface | continuity.experimentation.experiment/src/main/java/org/continuity/experimentation/experiment/apichanger/ApiChanger.java:173-189 | REMOVE_INTERFACE fails exactly when no interface was added; it adds no interface and keeps the next identity |
| ApiChangers.AfterRemoveParameter | continuity.experimentation.experiment/src/main/java/org/continuity/experimentation/experiment/apichanger/ApiChanger.java:190-200 | REMOVE_PARAMETER fails with no change when no parameter was added; the interfaces stay as many, the recorded pairs and the next identity stay |
| ApiChangers.Applied | continuity.experimentation.experiment/src/main/java/org/continuity/experimentation/experiment/apichanger/ApiChanger.java:122-205 | any change type leaves the next fresh identity no lower |
| ApiChangers.AppliedAll | continuity.experimentation.experiment/src/main/java/org/continuity/experimentation/experiment/apichanger/ApiChanger.java:96-109 | a sequence of changes, cut at the first that throws, leaves the next fresh identity no lower |
| ApiChangers.AppliedAllFails | continuity.experimentation.experiment/src/main/java/org/continuity/experimentation/experiment/apichanger/ApiChanger.java:96-109 | an exception in one change ends the run: later changes leave status and state as they were |
| ApiChangers.AppliedAllStep | continuity.experimentation.experiment/src/main/java/org/continuity/experimentation/experiment/apichanger/ApiChanger.java:96-109 | each change of the sequence is applied to the state the previous ones left, unless an earlier one failed |
| ApiChangers.NextGroup | continuity.experimentation.experiment/src/main/java/org/continuity/experimentation/experiment/apichanger/ApiChanger.java:97-104 | when the inner index reaches the version's count another version follows, the changes so far are collected as version 2 + changeIdx and the inner index restarts |
| ApiChangers.CollectedStep | continuity.experimentation.experiment/src/main/java/org/continuity/experimentation/experiment/apichanger/ApiChanger.java:97-98 | each collection point closes a version after exactly the sum of the counts before it |
| ApiChangers.GroupsStep | continuity.experimentation.experiment/src/main/java/org/continuity/experimentation/experiment/apichanger/ApiChanger.java:96-109 | the n-th change is applied in the version whose counts cover position n |
| ApiChangers.NextChange | continuity.experimentation.experiment/src/main/java/org/continuity/experimentation/experiment/apichanger/ApiChanger.java:106-108 | applying a change in the current version advances the inner index and the position by one |
| ApiChangers.LastGroup | continuity.experimentation.experiment/src/main/java/org/continuity/experimentation/experiment/apichanger/ApiChanger.java:86-109 | when all changes are applied the loop is in the last version, so changeNumSequence.get never leaves the list |
| ApiChangers.KeyBound | continuity.experimentation.experiment/src/main/java/org/continuity/experimentation/experiment/apichanger/ApiChanger.java:73-77 | a bound above the identity of every interface and parameter of the system |
| ApiChangers.ParameterKeyBound | continuity.experimentation.experiment/src/main/java/org/continuity/experimentation/experiment/apichanger/ApiChanger.java:73-77 | a bound above the identity of every parameter of a list |
| ApiChangers.CloneAnnotatedKeepsSystem | continuity.experimentation.experiment/src/main/java/org/continuity/experimentation/experiment/apichanger/ApiChanger.java:131-136 | cloning the annotation and extractions of a new interface changes only the annotations and inputs |
| ApiChangers.AddInterfaceAppendsClone | continuity.experimentation.experiment/src/main/java/org/continuity/experimentation/experiment/apichanger/ApiChanger.java:124-139 | ADD_INTERFACE fails on an empty system, otherwise appends the clone to the interfaces and to addedInterfaces; the clone's identities are fresh and the keys stay below the bound |
| ApiChangers.AddParameterRecordsOriginal | continuity.experimentation.experiment/src/main/java/org/continuity/experimentation/experiment/apichanger/ApiChanger.java:140-154 | ADD_PARAMETER fails without an included parameter, otherwise appends the clone to that parameter's interface only, records the original pair and leaves addedInterfaces |
| ApiChangers.AddParameterInterfaces | continuity.experimentation.experiment/src/main/java/org/continuity/experimentation/experiment/apichanger/ApiChanger.java:140-147 | after ADD_PARAMETER the system differs only in the chosen interface, which ends with the clone |
| ApiChangers.ChangeInterfacePathRules | continuity.experimentation.experiment/src/main/java/org/continuity/experimentation/experiment/apichanger/ApiChanger.java:155-162 | CHANGE_INTERFACE_PATH fails on an empty system, otherwise appends `/changed` to one interface's path and changes nothing else |
| ApiChangers.ChangeParameterNameRules | continuity.experimentation.experiment/src/main/java/org/continuity/experimentation/experiment/apichanger/ApiChanger.java:163-172 | CHANGE_PARAMETER_NAME fails without a candidate, otherwise appends `-changed` to the name of one included parameter that is no URL part and changes nothing else |
| ApiChangers.RemoveInterfaceOnlyRecorded | continuity.experimentation.experiment/src/main/java/org/continuity/experimentation/experiment/apichanger/ApiChanger.java:173-189 | REMOVE_INTERFACE fails when nothing was added, otherwise drops the chosen clone from addedInterfaces and keeps addedParameters |
| ApiChangers.RemoveInterfaceKeepsOriginals | continuity.experimentation.experiment/src/main/java/org/continuity/experimentation/experiment/apichanger/ApiChanger.java:173-189 | REMOVE_INTERFACE removes at most one interface, adds none, and keeps every interface not recorded as added |
| ApiChangers.RemoveParameterKeepsRecords | continuity.experimentation.experiment/src/main/java/org/continuity/experimentation/experiment/apichanger/ApiChanger.java:190-200 | REMOVE_PARAMETER fails when no parameter was added, never shrinks addedParameters or addedInterfaces and keeps the number of interfaces |
| ApiChangers.RemoveParameterInterfaces | continuity.experimentation.experiment/src/main/java/org/continuity/experimentation/experiment/apichanger/ApiChanger.java:190-194 | REMOVE_PARAMETER removes the recorded original parameter from its interface and changes no other interface |
| ApiChangers.RemoveAfterAddKeepsClone | continuity.experimentation.experiment/src/main/java/org/continuity/experimentation/experiment/apichanger/ApiChanger.java:140-200 | removing the pair just added removes the original parameter, so the clone stays in the interface |
| ApiChangers.WithoutParameterKeepsOthers | continuity.experimentation.experiment/src/main/java/org/continuity/experimentation/experiment/apichanger/ApiChanger.java:193 | taking one parameter out of an interface keeps every parameter with another identity |
| ApiChangers.WithoutParameterKeysBelow | continuity.experimentation.experiment/src/main/java/org/continuity/experimentation/experiment/apichanger/ApiChanger.java:193 | taking a parameter out keeps all identities below the bound |
| ApiChangers.SubsystemKeysBelow | continuity.experimentation.experiment/src/main/java/org/continuity/experimentation/experiment/apichanger/ApiChanger.java:176-177 | a system made of interfaces of the old one keeps its identities below the bound |
| ApiChangers.ReplacedKeysBelow | continuity.experimentation.experiment/src/main/java/org/continuity/experimentation/experiment/apichanger/ApiChanger.java:147 | replacing one interface by one whose identities are below the new bound keeps all identities below it |
| ApiChangers.AddParameterKeepsKeysBelow | continuity.experimentation.experiment/src/main/java/org/continuity/experimentation/experiment/apichanger/ApiChanger.java:140-154 | ADD_PARAMETER keeps every identity below the next fresh one |
| ApiChangers.ChangeParameterNameKeepsKeysBelow | continuity.experimentation.experiment/src/main/java/org/continuity/experimentation/experiment/apichanger/ApiChanger.java:163-172 | CHANGE_PARAMETER_NAME keeps every identity below the next fresh one |
| ApiChangers.RemoveInterfaceKeepsKeysBelow | continuity.experimentation.experiment/src/main/java/org/continuity/experimentation/experiment/apichanger/ApiChanger.java:173-189 | REMOVE_INTERFACE keeps every identity below the next fresh one |
| ApiChangers.RemoveParameterKeepsKeysBelow | continuity.experimentation.experiment/src/main/java/org/continuity/experimentation/experiment/apichanger/ApiChanger.java:190-200 | REMOVE_PARAMETER keeps every identity below the next fresh one |
| ApiChangers.AppliedKeepsKeysBelow | continuity.experimentation.experiment/src/main/java/org/continuity/experimentation/experiment/apichanger/ApiChanger.java:122-205 | every change type keeps every identity below the next fresh one, so clones never collide with existing elements |
| ApiChangers.AppliedAllKeepsKeysBelow | continuity.experimentation.experiment/src/main/java/org/continuity/experimentation/experiment/apichanger/ApiChanger.java:96-109 | any prefix of a change sequence keeps every identity below the next fresh one |
| ApiChangers.ApiChanger.constructor | continuity.experimentation.experiment/src/main/java/org/continuity/experimentation/experiment/apichanger/ApiChanger.java:73-77 | the changer holds the given system, annotation and excluded patterns, with nothing recorded as added |
| ApiChangers.ApiChanger.IsIncluded | continuity.experimentation.experiment/src/main/java/org/continuity/experimentation/experiment/apichanger/ApiChanger.java:244-252 | false exactly when the id is not null and matches some excluded pattern |
| ApiChangers.ApiChanger.FindAnnotation | continuity.experimentation.experiment/src/main/java/org/continuity/experimentation/experiment/apichanger/ApiChanger.java:254-262 | the index of the first interface annotation whose interface id equals the interface's, or -1 where the source returns null |
| ApiChangers.ApiChanger.FindParameterAnnotation | continuity.experimentation.experiment/src/main/java/org/continuity/experimentation/experiment/apichanger/ApiChanger.java:264-272 | the index of the first parameter annotation whose parameter id equals the parameter's, or -1 where the source returns null |
| ApiChangers.ApiChanger.CloneInterface | continuity.experimentation.experiment/src/main/java/org/continuity/experimentation/experiment/apichanger/ApiChanger.java:216-234 | the loop builds the clone that CloneInterfaceRules describes |
| ApiChangers.ApiChanger.CloneInterfaceAnnotation | continuity.experimentation.experiment/src/main/java/org/continuity/experimentation/experiment/apichanger/ApiChanger.java:274-293 | the loop builds the annotation clone, with its failures, for the new interface |
| ApiChangers.ApiChanger.AddToExtractedInputs | continuity.experimentation.experiment/src/main/java/org/continuity/experimentation/experiment/apichanger/ApiChanger.java:303-321 | only the inputs change: each extracted input gains copies of its extractions from the original interface |
| ApiChangers.ApiChanger.CopyExtractions | continuity.experimentation.experiment/src/main/java/org/continuity/experimentation/experiment/apichanger/ApiChanger.java:308-319 | the inner loop appends one redirected copy per extraction from the original interface |
| ApiChangers.ApiChanger.RemoveFromExtractedInputs | continuity.experimentation.experiment/src/main/java/org/continuity/experimentation/experiment/apichanger/ApiChanger.java:323-333 | only the inputs change: each loses its extractions from the removed interface |
| ApiChangers.ApiChanger.ApplyAddInterface | continuity.experimentation.experiment/src/main/java/org/continuity/experimentation/experiment/apichanger/ApiChanger.java:124-139 | the new state and status are those of ADD_INTERFACE |
| ApiChangers.ApiChanger.ApplyAddParameter | continuity.experimentation.experiment/src/main/java/org/continuity/experimentation/experiment/apichanger/ApiChanger.java:140-154 | the new state and status are those of ADD_PARAMETER, including the half-done state when the annotation lookup throws |
| ApiChangers.ApiChanger.ApplyChangeInterfacePath | continuity.experimentation.experiment/src/main/java/org/continuity/experimentation/experiment/apichanger/ApiChanger.java:155-162 | the new state and status are those of CHANGE_INTERFACE_PATH |
| ApiChangers.ApiChanger.ApplyChangeParameterName | continuity.experimentation.experiment/src/main/java/org/continuity/experimentation/experiment/apichanger/ApiChanger.java:163-172 | the new state and status are those of CHANGE_PARAMETER_NAME |
| ApiChangers.ApiChanger.ApplyRemoveInterface | continuity.experimentation.experiment/src/main/java/org/continuity/experimentation/experiment/apichanger/ApiChanger.java:173-189 | the new state and status are those of REMOVE_INTERFACE |
| ApiChangers.ApiChanger.ApplyRemoveParameter | continuity.experimentation.experiment/src/main/java/org/continuity/experimentation/experiment/apichanger/ApiChanger.java:190-200 | the new state and status are those of REMOVE_PARAMETER |
| ApiChangers.ApiChanger.ApplyChange | continuity.experimentation.experiment/src/main/java/org/continuity/experimentation/experiment/apichanger/ApiChanger.java:122-205 | the change of the given type, with the properties its lemmas state |
| ApiChangers.ApiChanger.ApplyNext | continuity.experimentation.experiment/src/main/java/org/continuity/experimentation/experiment/apichanger/ApiChanger.java:106 | applying the next change extends the applied prefix by one |
| ApiChangers.ApiChanger.BatchStep | continuity.experimentation.experiment/src/main/java/org/continuity/experimentation/experiment/apichanger/ApiChanger.java:96-109 | one loop iteration keeps the batching invariant and extends the applied prefix by one change |
| ApiChangers.ApiChanger.AddChanges | continuity.experimentation.experiment/src/main/java/org/continuity/experimentation/experiment/apichanger/ApiChanger.java:79-110 | the final state is the whole sequence applied in order; on success every change lies in a version, 17 collection points fall between the 18 versions, each after the sum of the counts before it |
| Decimal.Wrap32 | continuity.experimentation.api/src/main/java/org/continuity/experimentation/data/CountingDataHolder.java:50-52 | the Java `int` result of an increment: in range, congruent to the exact value modulo 2^32, and equal to it when no overflow happens |
| Decimal.Wrap32Succ | continuity.experimentation.api/src/main/java/org/continuity/experimentation/data/CountingDataHolder.java:50-52 | wrapping after each increment is the same as wrapping once at the end |
| Decimal.Wrap64 | continuity.experimentation.api/src/main/java/org/continuity/experimentation/action/continuity/WaitForJmeterReport.java:40 | the Java `long` result of the doubling: in range, congruent to the exact value modulo 2^64, and equal to it without overflow |
| Decimal.NatToString | continuity.experimentation.api/src/main/java/org/continuity/experimentation/data/CountingDataHolder.java:40-42 | the decimal digits of the counter, without leading zero, whose value is the number |
| Decimal.ParseInt | continuity.experimentation.api/src/main/java/org/continuity/experimentation/entity/JMeterLogEntry.java:29-37 | Integer.parseInt yields only `int` values; empty text and anything else it refuses fail with NumberFormatException |
| Decimal.ParseIntToString | continuity.experimentation.api/src/main/java/org/continuity/experimentation/entity/JMeterLogEntry.java:29-37 | parsing the decimal text of any `int` gives it back |
| Decimal.ParseIntRejects | continuity.experimentation.api/src/main/java/org/continuity/experimentation/entity/JMeterLogEntry.java:29-37 | text without any digit is refused |
| Strings.Substring | continuity.experimentation.experiment/src/main/java/org/continuity/experimentation/experiment/ModularizationExperiment.java:139-143 | String.substring succeeds exactly for 0 <= begin <= end <= length, giving the characters between, and fails with an index failure otherwise |
| Strings.ReduceJoin | continuity.experimentation.experiment/src/main/java/org/continuity/experimentation/experiment/apichanger/MarkovTemplate.java:93 | the reduce over the cells fails exactly on an empty row and otherwise is the cells joined with the separator |
| Strings.SplitJoin | continuity.experimentation.experiment/src/main/java/org/continuity/experimentation/experiment/apichanger/MarkovTemplate.java:92-106 | splitting at a one-character separator undoes joining with it when no part holds it and the last part is not an empty one Java drops |
| Strings.JoinSplitAll | continuity.experimentation.experiment/src/main/java/org/continuity/experimentation/experiment/apichanger/MarkovTemplate.java:92-106 | joining all the pieces between separators, empty ones included, gives the string back |
| Strings.LastPieceOfJoin | continuity.experimentation.api/src/main/java/org/continuity/experimentation/action/RenameCurrentContext.java:23-24 | the last piece of a split join is the join's last part when that part is not empty and holds no separator |
| Strings.SplitSeparatorsOnly | continuity.experimentation.api/src/main/java/org/continuity/experimentation/action/RenameCurrentContext.java:23-24 | a non-empty string made only of separators splits into no pieces at all |
| Strings.SplitAllCount | continuity.experimentation.experiment/src/main/java/org/continuity/experimentation/experiment/Main.java:59 | a line has one more piece than it has separators |
| Sequences.RemoveFirst | continuity.experimentation.experiment/src/main/java/org/continuity/experimentation/experiment/apichanger/ApiChanger.java:176 | List.remove(Object) takes out the first equal element and nothing else; no change when there is none |

## Left out

- Logging (SLF4J) and `toString` descriptions other than those of the context actions are not modelled; they have no effect on state.
- Concurrency is not modelled: the experiment engine's threads, `ConcurrentHashMap`, the `AtomicInteger` of `DataBuffer` and the concurrent branches an inner abort ends. The DataBuffer requests are served one after another.
- The experiment engine, its builder and the `IExperimentAction` dispatch are not part of this model. A step's reads of other holders are passed to it as their outcomes.
- Floating-point arithmetic and `DecimalFormat` are given as parameters: the cell text of `RandomMarkovChain`, and the scaled lines and overhead of `ChangeCounter`.
- `RandomMarkovChain.create`: the chain values it draws are the `cell` parameter. Saving the chain is modelled as the file name chosen and the lines written; the file system is the map `files` and the flag `writable`.
- `JMeterTestplanWriter.execute`: writing the test-plan bundle is I/O and is left out; only the choice of the new directory (`getNewDir`) is modelled.
- `GetInfluxResults`: the database connection is the `db` parameter. Writing the files is modelled as the file names and texts written. `main` is left out.
- `OpenXtraceJmeterMerger`: `splitBySessionAndSortByTimestamp` (session ids from cookies via the open.XTRACE utilities), `test()` and `main` are left out. `findMatchingTraces` is modelled by what it does before it returns null: the first session, non-empty since every session holds a trace, makes it read the label of the group's first entry, which fails or otherwise leads to the NullPointerException at line 128. This takes the session split, which is left out, to succeed.
- `ChangeCounter.main` is left out: the loop over 20 versions and the file write. `Files.readAllLines` is the `lines` parameter.
- The `main` methods of `ApiChanger` and of the experiments, which only wire objects and read files, are left out.
- `ApiChanger`: the random change sequence (`generateChangeSequence`, the weighted selection of `ApiChangeType`) is an input sequence. `collectChanges` is empty in the source and is modelled as the list of collection points. Regular-expression matching of excluded patterns is the abstract predicate `matches`.
- `ApiChanger`: object identity is a `key` number per interface and parameter, and references in annotations are ids. `equals` on the DSL classes is taken to be identity. The system holds only HTTP interfaces and parameters, so the casts to `HttpInterface` and `HttpParameter` at ApiChanger.java lines 125, 142, 156, 164 and 279 never throw ClassCastException here.
- `WaitForJmeterReport.Execute` requires that the clock readings eventually pass the deadline. `FlushJMeterReports.Execute` requires that some answer has no report; otherwise the Java loop does not end.
- Dates are counts of milliseconds; time zones and calendar arithmetic beyond adding hours, minutes and seconds are not modelled.
- `long` overflow is modelled only where a value is doubled (`WaitForJmeterReport`); other `long` arithmetic is unbounded.
- A holder that another component reads (`Source`) is a constant view, a simple holder or a sequential-list holder. A processing, counting or path holder therefore cannot be the live input of a context change, a path segment or a processing holder, as at ModularizationExperiment.java:116-119 and 216-218; their behaviour on their own is modelled. A holder that a step writes (the output of `Clock`, of `RandomMarkovChain` and of `initLoadTestCreationOrder`) is a simple holder, where the source accepts any `IDataHolder` (Clock.java lines 41-58, RandomMarkovChain.java lines 99-117).
- `GetInfluxResults`: the InfluxQL text of the query is not built; the database is a function of the structured query, its measurement and its window.
- Merger.Execute: the traces holder is read once; the source reads it three times (lines 119, 120 and 125), which differs only for a holder whose reads change between calls.
- Merger.Execute: the thread group that meets `findMatchingTraces` first is any group, as the iteration order of the source's `HashMap` is not modelled; when the groups' first entries differ in whether their label can be read, the model does not say which failure comes.
- TestplanWriters.GetNewDir: a failing `mkdirs` is taken to make nothing; one that makes some ancestors before it fails is not modelled.
- TestExecutions.ParseRow: `ModularizationApproach` is not part of this model; its `fromPrettyString` is taken to give null for a name it does not know rather than throw, which is why an empty split is the only way a row fails.
- `Integer.parseInt` accepts ASCII digits only; the non-ASCII Unicode digits Java also accepts are not modelled.
- Paths are texts of segments; normalisation and `Path.getFileName` beyond the last segment are not modelled.
- `NoopDataHolder` is modelled as a view that never changes; its singleton identity is not modelled.
- `DataBuffer.upload`: the Location URL built from the remote host and port is left out; the body, which is the key, is modelled. After the counter wraps around, a new upload overwrites the entry under a reused key, as the map put does.
- Arrays of the source are sequences where they are only read. Aliasing between holders is not modelled: each holder is its own object.
- `ExperimentProperties` and the configuration files of the modularization experiment are given as parsed values. The HTTP calls to the orchestrator and the satellite are not modelled beyond the orders built.
