# Appender pipeline of the RocketMQ logging back-end, in Dafny

This project models the core of RocketMQ's small in-process logging back-end
(`org.apache.rocketmq.logging.inner`). It covers two parts:

- **The abstract `Appender`.** It has a lifecycle flag (`closed`), a name, a
  layout, the dispatch entry point `doAppend`, and the one-shot error-reporting
  policy (`firstTime`). `doAppend` on a closed appender writes a notice to the
  diagnostic channel and does not touch the sink. `handleError`, in both
  overloads, writes at most one line per instance. The overload that takes an
  exception restores the calling thread's interrupt flag whenever the exception
  is an interruption.
- **`AppenderPipelineImpl`.** It is an ordered collection of appenders with no
  instance repeated. The list may be absent (never created, or torn down), and
  that is different from empty. The pipeline supports add, fan-out, lookup by
  name, lookup by instance, removal by instance, removal of the first name
  match, and close-all teardown.

Files:

- `logging_types.dfy` (module `LoggingTypes`): the values the core only passes
  along. These are the log event, the layout, the exception handed to the error
  handler, the diagnostic lines and their texts, Java's `int` and the error-code
  constants.
- `appender.dfy` (module `Appenders`): class `Appender`, the shared call
  `Journal`, the appender's step functions on an `AppenderState` value, and
  lemmas about any sequence of calls on one instance.
- `pipeline.dfy` (module `Pipelines`): class `AppenderPipelineImpl` with
  `appenderList: Option<seq<Appender>>`. It also holds the sequence functions
  that specify the class (first index, remove-first, filter, add, the journal
  entries of a loop over the list), the two loops, and lemmas
  about them.
- `scenarios.dfy` (module `Scenarios`): client methods that use only the
  contracts. They exercise lookup and removal by name, fan-out and teardown
  order, the one-shot error report, and `doAppend` after `close`.

Modelling decisions:

- A Java reference that may be null becomes `Appender?` for appenders and
  `Option<…>` for strings, exceptions and layouts. Java's string concatenation
  renders a null name as `"null"`, and so does `NameText`.
- `Appender` does not override `equals`. So `Vector.contains` and
  `Vector.removeElement` compare by identity, which is Dafny reference equality.
- The sink-specific `append` and `close` are abstract in the source. Here they
  are stubs that record their effect in fields of the appender: `appended` is
  the events the sink received, and `closeCalls` counts the times `close` ran.
  `diagnostics` is the lines this instance wrote to the process-wide diagnostic
  channel.
- Which appender is called first is observable through a shared `Journal`.
  Every appender is created with the one journal of its process. `DoAppend`
  and `Close` each add one `Entry(appender, call)` to it. The fan-out and the
  teardown are specified by the exact journal entries they add, so the order
  of their calls is part of their contracts. `AppendLoopOnAppenders` and
  `RemoveAllAppenders` take that journal as a ghost parameter, which Java's
  signatures do not have. They require that every registered appender records
  into it.
- The loops of `appendLoopOnAppenders` and `removeAllAppenders` are the
  methods `DoAppendEach` and `CloseEach`, over the list the pipeline holds.
- The calling thread is a `CallingThread` object with one `interrupted` flag.
  Only `HandleErrorWithCause` touches it.
- Java overloads get distinct names. `handleError(String)` is `HandleError`.
  `handleError(String, Exception, int)` is `HandleErrorWithCause`.
  `removeAppender(Appender)` is `RemoveAppender`. `removeAppender(String)` is
  `RemoveAppenderNamed`.
- Each mutating method states its new state as a function of the old one (for
  example `DoAppendStep` or `RemoveFirstNamed`). The lemmas then prove what the
  source promises about those functions.
- Three behaviours of the code that the model keeps:
  - `doAppend` on a closed appender writes its notice on every call, because
    it calls `SysLogger.error` directly and bypasses `handleError` and its
    `firstTime` flag.
  - `removeAllAppenders` catches nothing around `close`, so a failing close
    ends the teardown.
  - `removeAllAppenders` leaves the list null (`None`), and `getAllAppenders`
    then returns null.

## Model

| member | source | states |
|---|---|---|
| `Appenders.Appender.constructor` | logging/src/main/java/org/apache/rocketmq/logging/inner/Appender.java:49-55 | a new appender is open, has `firstTime` set, and has no name and no layout; it records its calls into the journal it is given |
| `Appenders.Appender.SetName` | logging/src/main/java/org/apache/rocketmq/logging/inner/Appender.java:99-101 | `getName` afterwards returns the name just set; nothing else changes |
| `Appenders.Appender.SetLayout` | logging/src/main/java/org/apache/rocketmq/logging/inner/Appender.java:95-97 | `getLayout` afterwards returns the layout just set; nothing else changes |
| `Appenders.Appender.GetName` | logging/src/main/java/org/apache/rocketmq/logging/inner/Appender.java:83-85 | the name currently held: none until `setName`, then the last name set (see `SetName`) |
| `Appenders.Appender.GetLayout` | logging/src/main/java/org/apache/rocketmq/logging/inner/Appender.java:79-81 | the layout currently held: none until `setLayout`, then the last layout set (see `SetLayout`) |
| `Appenders.Appender.Append` | logging/src/main/java/org/apache/rocketmq/logging/inner/Appender.java:63 | stub of the abstract append: the sink has received the event, after all it received before |
| `Appenders.Appender.DoAppend` | logging/src/main/java/org/apache/rocketmq/logging/inner/Appender.java:87-93 | closed: one "Attempted to append to closed appender named […]" line and no write; open: the sink receives the event once and no line is written; `closed` and `firstTime` are unchanged either way; the call is added to the journal |
| `Appenders.Appender.HandleErrorWithCause` | logging/src/main/java/org/apache/rocketmq/logging/inner/Appender.java:111-119 | the thread's interrupt flag is set for an interrupted-I/O or interrupted exception whether or not a line is written; the line `message code:N`, with the exception as cause, is written only while `firstTime` holds, and `firstTime` ends cleared |
| `Appenders.CallingThread.constructor` | logging/src/main/java/org/apache/rocketmq/logging/inner/Appender.java:113 | the thread `Thread.currentThread()` denotes starts with its interrupt flag clear |
| `Appenders.Appender.HandleError` | logging/src/main/java/org/apache/rocketmq/logging/inner/Appender.java:121-126 | the message is written only while `firstTime` holds, and `firstTime` ends cleared |
| `Appenders.Appender.Close` | logging/src/main/java/org/apache/rocketmq/logging/inner/Appender.java:103 | stub of the abstract close: the appender is closed afterwards, the sink's close ran once more, and the call is added to the journal |
| `Appenders.ErrorReportedAtMostOnce` | logging/src/main/java/org/apache/rocketmq/logging/inner/Appender.java:111-126 | over any sequence of calls, the two overloads share one `firstTime` flag: exactly one error line is added if `firstTime` held and some error was handled, none otherwise, and `firstTime` ends cleared exactly when an error was handled |
| `Appenders.AtMostOneReportedError` | logging/src/main/java/org/apache/rocketmq/logging/inner/Appender.java:111-126 | from construction on, an instance writes at most one error line whatever is called on it, and exactly one once any error was handled |
| `Appenders.ClosedIsTerminal` | logging/src/main/java/org/apache/rocketmq/logging/inner/Appender.java:87-93 | once closed, the appender stays closed under any calls, the sink receives nothing more, and every `doAppend` adds its own closed notice |
| `Appenders.AppendedWhileOpen` | logging/src/main/java/org/apache/rocketmq/logging/inner/Appender.java:87-103 | the sink receives exactly the events of the `doAppend` calls made before the first close, in order; the appender ends closed iff it was closed or a close was called |
| `Appenders.InterruptRestored` | logging/src/main/java/org/apache/rocketmq/logging/inner/Appender.java:111-114 | after any calls, the interrupt flag is set iff it was set before or some call handled an interruption; `firstTime` plays no part |
| `LoggingTypes.NatToDecimal` | logging/src/main/java/org/apache/rocketmq/logging/inner/Appender.java:116 | the digits of the error code's magnitude: decimal digits only, no leading zero, and they denote the number itself |
| `LoggingTypes.IntToDecimal` | logging/src/main/java/org/apache/rocketmq/logging/inner/Appender.java:116 | `Integer.toString`: a minus sign exactly for negative codes, followed by digits that denote the magnitude |
| `Pipelines.FirstIndex` | logging/src/main/java/org/apache/rocketmq/logging/inner/Appender.java:263 | the identity lookup `Vector.contains`/`removeElement` rely on: absent iff the instance is not in the list, otherwise the position of its first occurrence |
| `Pipelines.RemoveFirst` | logging/src/main/java/org/apache/rocketmq/logging/inner/Appender.java:263 | `Vector.removeElement`: one entry shorter when the instance is present, the same list when it is not |
| `Pipelines.Without` | logging/src/main/java/org/apache/rocketmq/logging/inner/Appender.java:259-264 | reference filter for removal by instance: the instance is absent afterwards and every other entry is kept |
| `Pipelines.FirstNamed` | logging/src/main/java/org/apache/rocketmq/logging/inner/Appender.java:271-276 | the position of the first appender whose name equals the given one; an unnamed appender never matches; none iff no entry matches |
| `Pipelines.RemoveFirstNamed` | logging/src/main/java/org/apache/rocketmq/logging/inner/Appender.java:266-277 | removal by name takes away exactly one entry when some entry matches and none otherwise |
| `Pipelines.AddedAllDistinct` | logging/src/main/java/org/apache/rocketmq/logging/inner/Appender.java:180-191 | after any sequence of adds the list never holds the same instance twice and holds exactly the non-null appenders offered |
| `Pipelines.AddedAllLength` | logging/src/main/java/org/apache/rocketmq/logging/inner/Appender.java:180-191 | starting without a list, the length after any sequence of adds is the number of distinct non-null appenders offered |
| `Pipelines.AddedAllCreates` | logging/src/main/java/org/apache/rocketmq/logging/inner/Appender.java:181-187 | the list comes into existence exactly when a non-null appender is offered |
| `Pipelines.RemoveFirstOfDistinct` | logging/src/main/java/org/apache/rocketmq/logging/inner/Appender.java:259-264 | on a list without repeats, removing the first occurrence equals filtering out every occurrence, keeps the other entries in order and keeps the list free of repeats |
| `Pipelines.DistinctCardinality` | logging/src/main/java/org/apache/rocketmq/logging/inner/Appender.java:188-190 | a list without repeated instances has as many entries as distinct members |
| `Pipelines.CallsInOrderAt` | logging/src/main/java/org/apache/rocketmq/logging/inner/Appender.java:199-202 | the journal entries of a loop over the list have, at position k, the call on the k-th appender |
| `Pipelines.DoAppendEach` | logging/src/main/java/org/apache/rocketmq/logging/inner/Appender.java:199-202 | the loop adds one `doAppend` entry per element, from index 0 up, and each element undergoes one `doAppend` |
| `Pipelines.CloseEach` | logging/src/main/java/org/apache/rocketmq/logging/inner/Appender.java:250-253 | the loop adds one `close` entry per element, from index 0 up, and each element is closed once |
| `Pipelines.AppenderPipelineImpl.constructor` | logging/src/main/java/org/apache/rocketmq/logging/inner/Appender.java:175-178 | a new pipeline has no list |
| `Pipelines.AppenderPipelineImpl.AddAppender` | logging/src/main/java/org/apache/rocketmq/logging/inner/Appender.java:180-191 | null or an already-present instance leaves the list unchanged; otherwise the appender goes at the end, and the list is created if it was absent; no instance is ever held twice |
| `Pipelines.AppenderPipelineImpl.GetAllAppenders` | logging/src/main/java/org/apache/rocketmq/logging/inner/Appender.java:207-213 | null when the list is absent; otherwise the registered appenders in registration order |
| `Pipelines.AppenderPipelineImpl.AppendLoopOnAppenders` | logging/src/main/java/org/apache/rocketmq/logging/inner/Appender.java:193-205 | returns the list's size (0 without a list); the journal gains exactly one `doAppend` entry per registered appender, in list order; every registered appender undergoes one `doAppend` of the event; the list is unchanged |
| `Pipelines.AppenderPipelineImpl.GetAppender` | logging/src/main/java/org/apache/rocketmq/logging/inner/Appender.java:215-229 | null without a list or for a null name; otherwise the first registered appender with that name, or null when none has it |
| `Pipelines.AppenderPipelineImpl.IsAttached` | logging/src/main/java/org/apache/rocketmq/logging/inner/Appender.java:231-245 | true iff the argument is non-null and that very instance is registered |
| `Pipelines.AppenderPipelineImpl.RemoveAllAppenders` | logging/src/main/java/org/apache/rocketmq/logging/inner/Appender.java:247-257 | the journal gains exactly one `close` entry per registered appender, in list order; each is closed once; then the list is dropped, so `getAllAppenders` reports none |
| `Pipelines.AppenderPipelineImpl.RemoveAppender` | logging/src/main/java/org/apache/rocketmq/logging/inner/Appender.java:259-264 | a null argument or absent list is a no-op; otherwise the instance is no longer attached, the rest keep their order, and no appender is closed or otherwise changed |
| `Pipelines.AppenderPipelineImpl.RemoveAppenderNamed` | logging/src/main/java/org/apache/rocketmq/logging/inner/Appender.java:266-277 | a null name or absent list is a no-op; otherwise only the first entry with that name is removed, later entries with the same name stay, the order is kept, and no appender is closed |
| `Scenarios.RemoveByNameScenario` | logging/src/main/java/org/apache/rocketmq/logging/inner/Appender.java:266-277 | with "file" and "console" registered, lookup finds the console; after removal by name, neither lookup finds it and it was not closed |
| `Scenarios.SharedNameScenario` | logging/src/main/java/org/apache/rocketmq/logging/inner/Appender.java:266-277 | of two appenders sharing a name, removal by that name drops only the first |
| `Scenarios.FanOutScenario` | logging/src/main/java/org/apache/rocketmq/logging/inner/Appender.java:180-205 | A and B added, A offered again and kept once, then C: fan-out returns 3, each sink received the event once, and the journal shows A, B, C in that order |
| `Scenarios.TeardownScenario` | logging/src/main/java/org/apache/rocketmq/logging/inner/Appender.java:247-257 | teardown closes each appender once, the journal shows A, B, C closed in that order, and the list is dropped; a later add recreates it holding only that appender |
| `Scenarios.OneShotErrorScenario` | logging/src/main/java/org/apache/rocketmq/logging/inner/Appender.java:111-126 | three errors on one appender write one line, the first, and the interruption passed with the last one still sets the thread's flag |
| `Scenarios.ClosedAppendScenario` | logging/src/main/java/org/apache/rocketmq/logging/inner/Appender.java:87-93 | after close, two `doAppend` calls write two closed notices, deliver nothing, and leave `firstTime` set; the journal holds the close and then both calls |

## Left out

- `finalize` (closing an unclosed appender when it is garbage-collected): driven by the collector, with no deterministic counterpart.
- `synchronized` on `doAppend`, and the pipeline's reliance on `Vector`'s locking: the model is sequential, and every call is atomic.
- `SysLogger` output and `LINE_SEP`: these are I/O and an environment lookup. A diagnostic line is a value appended to the writing appender's `diagnostics`. Lines are kept per instance, so the interleaving of lines from different appenders on the one shared channel is not modelled.
- `Thread.currentThread().interrupt()`: only its effect on the calling thread's interrupt flag is modelled.
- `activateOptions`: its default body is empty, and concrete sinks override it. There is nothing to model.
- The bodies of the abstract `append` and `close` and of every concrete sink are foreign code. The stubs only record the event or the close. A failure inside a concrete `append` that calls `handleError` is not modelled.
- `Layout` is an abstract class with constant defaults and abstract methods. Here it is a value that the appender stores and nothing reads.
- `getAllAppenders` returns a lazy `Enumeration` over the live vector. Here it returns a snapshot of the sequence, or `None` when the list is null.
- `removeAllAppenders` does not tolerate a failing `close`. The code catches nothing there, so the model has no "continue after a failing close".
- `Pipelines.AppenderPipelineImpl.AppendLoopOnAppenders`: the count it returns is an unbounded `nat`, not a 32-bit `int`. A `Vector` never grows past the `int` range, so the two agree.
- `Appenders.Appender.HandleError`: a null message is not modelled. Messages are non-null strings.
- `Appenders.Appender.HandleErrorWithCause`: a null message is not modelled either. Java's concatenation would render it as `null code:N`.
- `Appenders.Appender.DoAppend`: `doAppend(null)` is not modelled. A `LoggingEvent` value cannot be null.
- `Pipelines.AppenderPipelineImpl.AppendLoopOnAppenders`: an exception thrown by a concrete `append` would leave the loop early, because nothing catches it. The stubs never fail, so the model always completes the fan-out.
- The journal records only `doAppend` and `close` calls. Error handling adds no entry, so the order of error lines relative to other appenders' calls is not modelled.
- `LoggingTypes.Exception` keeps only what `instanceof` tests. The kind groups `InterruptedIOException` with its subclasses. A null exception is `None`.
