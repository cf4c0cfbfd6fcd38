/** The abstract appender: its lifecycle flag, its name and layout, the
    dispatch entry point `DoAppend`, and the one-shot error-reporting policy.
    The sink-specific `Append` and `Close` are stubs that record what a
    concrete sink was asked to do. */
module Appenders {
  import opened LoggingTypes

  /** Everything observable about one appender instance. `appended` is what the
      sink was asked to write, `diagnostics` the lines this instance wrote to the
      diagnostic channel, `closeCalls` how often the sink's `close` ran. */
  datatype AppenderState = AppenderState(
    closed: bool,
    firstTime: bool,
    name: Option<string>,
    layout: Option<Layout>,
    appended: seq<LoggingEvent>,
    diagnostics: seq<Diagnostic>,
    closeCalls: nat)

  /** A freshly constructed appender: open, no error reported yet, no name, no layout. */
  function Initial(): AppenderState
  {
    AppenderState(false, true, None, None, [], [], 0)
  }

  /** `doAppend`: a closed appender writes a notice to the diagnostic channel on
      every call and never reaches the sink; an open one hands the event to the sink. */
  function DoAppendStep(s: AppenderState, e: LoggingEvent): AppenderState
  {
    if s.closed then s.(diagnostics := s.diagnostics + [AppendWhileClosed(ClosedAppendText(s.name))])
    else s.(appended := s.appended + [e])
  }

  /** `handleError(message)`: reports only while `firstTime` holds, then clears it. */
  function HandleErrorStep(s: AppenderState, message: string): AppenderState
  {
    if s.firstTime then s.(diagnostics := s.diagnostics + [ReportedError(message, None)], firstTime := false)
    else s
  }

  /** `handleError(message, e, errorCode)`: the same one-shot policy, with the
      error code in the text and the exception as the cause. */
  function HandleErrorWithCauseStep(s: AppenderState, message: string, e: Option<Exception>, errorCode: int32): AppenderState
  {
    if s.firstTime then s.(diagnostics := s.diagnostics + [ReportedError(CodedErrorText(message, errorCode), e)], firstTime := false)
    else s
  }

  /** The stub of the sink's `close`: the appender becomes closed. */
  function CloseStep(s: AppenderState): AppenderState
  {
    s.(closed := true, closeCalls := s.closeCalls + 1)
  }

  /** The calling thread's interrupt flag after `handleError(message, e, errorCode)`. */
  function InterruptStep(interrupted: bool, e: Option<Exception>): bool
  {
    interrupted || IsInterruption(e)
  }

  /** The calling thread, as far as the error handler touches it. */
  class CallingThread {
    var interrupted: bool

    constructor ()
      ensures !interrupted
    {
      interrupted := false;
    }
  }

  /** One `doAppend` or `close` call received by `target`. */
  datatype Entry = Entry(target: Appender, call: Call)

  /** The one process-wide order in which appenders receive `doAppend` and
      `close` calls. Every appender records into the journal it was created
      with; Dafny has no mutable globals, so the journal is passed in. */
  class Journal {
    var entries: seq<Entry>

    constructor ()
      ensures entries == []
    {
      entries := [];
    }
  }

  class Appender {
    const journal: Journal
    var firstTime: bool
    var layout: Option<Layout>
    var name: Option<string>
    var closed: bool
    // Records kept by the sink stub and the diagnostic channel.
    var appended: seq<LoggingEvent>
    var diagnostics: seq<Diagnostic>
    var closeCalls: nat

    function State(): AppenderState
      reads this
    {
      AppenderState(closed, firstTime, name, layout, appended, diagnostics, closeCalls)
    }

    constructor (journal: Journal)
      ensures State() == Initial()
      ensures this.journal == journal
    {
      this.journal := journal;
      firstTime := true;
      layout := None;
      name := None;
      closed := false;
      appended := [];
      diagnostics := [];
      closeCalls := 0;
    }

    function GetLayout(): (r: Option<Layout>)
      reads this
      ensures r == State().layout
    {
      layout
    }

    function GetName(): (r: Option<string>)
      reads this
      ensures r == State().name
    {
      name
    }

    method SetLayout(l: Option<Layout>)
      modifies this`layout
      ensures GetLayout() == l
      ensures State() == old(State()).(layout := l)
    {
      layout := l;
    }

    method SetName(n: Option<string>)
      modifies this`name
      ensures GetName() == n
      ensures State() == old(State()).(name := n)
    {
      name := n;
    }

    /** Stub of the sink-specific write: records the event. */
    method Append(e: LoggingEvent)
      modifies this`appended
      ensures appended == old(appended) + [e]
    {
      appended := appended + [e];
    }

    /** Stub of the sink-specific close. */
    method Close()
      modifies this`closed, this`closeCalls, journal`entries
      ensures closed
      ensures State() == CloseStep(old(State()))
      ensures journal.entries == old(journal.entries) + [Entry(this, CloseCall)]
    {
      journal.entries := journal.entries + [Entry(this, CloseCall)];
      closed := true;
      closeCalls := closeCalls + 1;
    }

    method DoAppend(e: LoggingEvent)
      modifies this`appended, this`diagnostics, journal`entries
      ensures journal.entries == old(journal.entries) + [Entry(this, DoAppendCall(e))]
      ensures old(closed) ==> appended == old(appended) && diagnostics == old(diagnostics) + [AppendWhileClosed(ClosedAppendText(name))]
      ensures !old(closed) ==> appended == old(appended) + [e] && diagnostics == old(diagnostics)
      ensures State() == DoAppendStep(old(State()), e)
    {
      journal.entries := journal.entries + [Entry(this, DoAppendCall(e))];
      if closed {
        diagnostics := diagnostics + [AppendWhileClosed(ClosedAppendText(name))];
        return;
      }
      Append(e);
    }

    method HandleErrorWithCause(message: string, e: Option<Exception>, errorCode: int32, thread: CallingThread)
      modifies this`firstTime, this`diagnostics, thread`interrupted
      ensures thread.interrupted == InterruptStep(old(thread.interrupted), e)
      ensures !firstTime
      ensures State() == HandleErrorWithCauseStep(old(State()), message, e, errorCode)
    {
      if IsInterruption(e) {
        thread.interrupted := true;
      }
      if firstTime {
        diagnostics := diagnostics + [ReportedError(CodedErrorText(message, errorCode), e)];
        firstTime := false;
      }
    }

    method HandleError(message: string)
      modifies this`firstTime, this`diagnostics
      ensures !firstTime
      ensures State() == HandleErrorStep(old(State()), message)
    {
      if firstTime {
        diagnostics := diagnostics + [ReportedError(message, None)];
        firstTime := false;
      }
    }
  }

  // ---------------------------------------------------------------------------
  // Sequences of calls on one instance, and what any such sequence can do.

  datatype Call =
    | DoAppendCall(event: LoggingEvent)
    | HandleErrorCall(message: string)
    | HandleErrorWithCauseCall(message: string, cause: Option<Exception>, errorCode: int32)
    | CloseCall
    | SetNameCall(newName: Option<string>)
    | SetLayoutCall(newLayout: Option<Layout>)

  function Step(s: AppenderState, c: Call): AppenderState
  {
    match c
    case DoAppendCall(e) => DoAppendStep(s, e)
    case HandleErrorCall(m) => HandleErrorStep(s, m)
    case HandleErrorWithCauseCall(m, e, code) => HandleErrorWithCauseStep(s, m, e, code)
    case CloseCall => CloseStep(s)
    case SetNameCall(n) => s.(name := n)
    case SetLayoutCall(l) => s.(layout := l)
  }

  /** The state after the calls `cs`, in order, starting from `s`. */
  function Run(s: AppenderState, cs: seq<Call>): AppenderState
    decreases |cs|
  {
    if cs == [] then s else Run(Step(s, cs[0]), cs[1..])
  }

  /** The calling thread's interrupt flag after the calls `cs`. */
  function RunInterrupt(interrupted: bool, cs: seq<Call>): bool
    decreases |cs|
  {
    if cs == [] then interrupted
    else RunInterrupt(if cs[0].HandleErrorWithCauseCall? then InterruptStep(interrupted, cs[0].cause) else interrupted, cs[1..])
  }

  predicate IsErrorCall(c: Call)
  {
    c.HandleErrorCall? || c.HandleErrorWithCauseCall?
  }

  predicate HasErrorCall(cs: seq<Call>)
  {
    exists k :: 0 <= k < |cs| && IsErrorCall(cs[k])
  }

  predicate HasCloseCall(cs: seq<Call>)
  {
    exists k :: 0 <= k < |cs| && cs[k].CloseCall?
  }

  predicate IsInterruptingCall(c: Call)
  {
    c.HandleErrorWithCauseCall? && IsInterruption(c.cause)
  }

  /** Number of lines in `ds` written by the error handler. */
  function CountReported(ds: seq<Diagnostic>): nat
    decreases |ds|
  {
    if ds == [] then 0 else CountReported(ds[..|ds| - 1]) + (if ds[|ds| - 1].ReportedError? then 1 else 0)
  }

  /** Number of lines in `ds` that announce an append to a closed appender. */
  function CountClosedNotices(ds: seq<Diagnostic>): nat
    decreases |ds|
  {
    if ds == [] then 0 else CountClosedNotices(ds[..|ds| - 1]) + (if ds[|ds| - 1].AppendWhileClosed? then 1 else 0)
  }

  function CountDoAppends(cs: seq<Call>): nat
    decreases |cs|
  {
    if cs == [] then 0 else (if cs[0].DoAppendCall? then 1 else 0) + CountDoAppends(cs[1..])
  }

  /** Reference definition of what reaches the sink: the events of the
      `doAppend` calls made before the first `close`, none if already closed. */
  function EventsWhileOpen(closed: bool, cs: seq<Call>): seq<LoggingEvent>
    decreases |cs|
  {
    if closed || cs == [] then []
    else if cs[0].CloseCall? then []
    else (if cs[0].DoAppendCall? then [cs[0].event] else []) + EventsWhileOpen(false, cs[1..])
  }

  lemma CountsOfSnoc(ds: seq<Diagnostic>, d: Diagnostic)
    ensures CountReported(ds + [d]) == CountReported(ds) + (if d.ReportedError? then 1 else 0)
    ensures CountClosedNotices(ds + [d]) == CountClosedNotices(ds) + (if d.AppendWhileClosed? then 1 else 0)
  {
    assert (ds + [d])[..|ds + [d]| - 1] == ds;
  }

  /** The one-shot policy over any sequence of calls: exactly one error line is
      added if `firstTime` held and some error was handled, none otherwise, and
      `firstTime` ends cleared exactly when an error was handled. */
  lemma {:induction false} ErrorReportedAtMostOnce(s: AppenderState, cs: seq<Call>)
    ensures CountReported(Run(s, cs).diagnostics) == CountReported(s.diagnostics) + (if s.firstTime && HasErrorCall(cs) then 1 else 0)
    ensures Run(s, cs).firstTime == (s.firstTime && !HasErrorCall(cs))
    decreases |cs|
  {
    if cs != [] {
      ErrorReportedAtMostOnce(Step(s, cs[0]), cs[1..]);
      HasErrorCallCons(cs);
      match cs[0]
      case DoAppendCall(e) =>
        if s.closed { CountsOfSnoc(s.diagnostics, AppendWhileClosed(ClosedAppendText(s.name))); }
      case HandleErrorCall(m) =>
        if s.firstTime { CountsOfSnoc(s.diagnostics, ReportedError(m, None)); }
      case HandleErrorWithCauseCall(m, e, code) =>
        if s.firstTime { CountsOfSnoc(s.diagnostics, ReportedError(CodedErrorText(m, code), e)); }
      case _ =>
    }
  }

  lemma HasErrorCallCons(cs: seq<Call>)
    requires cs != []
    ensures HasErrorCall(cs) == (IsErrorCall(cs[0]) || HasErrorCall(cs[1..]))
  {
    if HasErrorCall(cs[1..]) {
      var k :| 0 <= k < |cs[1..]| && IsErrorCall(cs[1..][k]);
      assert IsErrorCall(cs[k + 1]);
    }
  }

  /** From construction on, an instance writes at most one error line, whatever is called on it. */
  lemma AtMostOneReportedError(cs: seq<Call>)
    ensures CountReported(Run(Initial(), cs).diagnostics) <= 1
    ensures HasErrorCall(cs) ==> CountReported(Run(Initial(), cs).diagnostics) == 1
  {
    ErrorReportedAtMostOnce(Initial(), cs);
  }

  /** Closed is terminal: nothing reaches the sink any more, and every
      `doAppend` writes its own closed-appender notice. */
  lemma {:induction false} ClosedIsTerminal(s: AppenderState, cs: seq<Call>)
    requires s.closed
    ensures Run(s, cs).closed
    ensures Run(s, cs).appended == s.appended
    ensures CountClosedNotices(Run(s, cs).diagnostics) == CountClosedNotices(s.diagnostics) + CountDoAppends(cs)
    decreases |cs|
  {
    if cs != [] {
      ClosedIsTerminal(Step(s, cs[0]), cs[1..]);
      match cs[0]
      case DoAppendCall(e) =>
        CountsOfSnoc(s.diagnostics, AppendWhileClosed(ClosedAppendText(s.name)));
      case HandleErrorCall(m) =>
        if s.firstTime { CountsOfSnoc(s.diagnostics, ReportedError(m, None)); }
      case HandleErrorWithCauseCall(m, e, code) =>
        if s.firstTime { CountsOfSnoc(s.diagnostics, ReportedError(CodedErrorText(m, code), e)); }
      case _ =>
    }
  }

  /** What the sink receives is exactly the events sent before the first close;
      the appender is closed afterwards exactly when it was, or a close was called. */
  lemma {:induction false} AppendedWhileOpen(s: AppenderState, cs: seq<Call>)
    ensures Run(s, cs).appended == s.appended + EventsWhileOpen(s.closed, cs)
    ensures Run(s, cs).closed == (s.closed || HasCloseCall(cs))
    decreases |cs|
  {
    if cs == [] {
    } else if s.closed {
      ClosedIsTerminal(s, cs);
    } else {
      var t := Step(s, cs[0]);
      AppendedWhileOpen(t, cs[1..]);
      if HasCloseCall(cs[1..]) {
        var k :| 0 <= k < |cs[1..]| && cs[1..][k].CloseCall?;
        assert cs[k + 1].CloseCall?;
      }
      if cs[0].CloseCall? {
        ClosedIsTerminal(t, cs[1..]);
      }
    }
  }

  /** The interrupt flag ends set exactly when it was set before or some call
      handled an interruption, whether or not that call wrote a line. */
  lemma {:induction false} InterruptRestored(interrupted: bool, cs: seq<Call>)
    ensures RunInterrupt(interrupted, cs) == (interrupted || exists k :: 0 <= k < |cs| && IsInterruptingCall(cs[k]))
    decreases |cs|
  {
    if cs != [] {
      var flag := if cs[0].HandleErrorWithCauseCall? then InterruptStep(interrupted, cs[0].cause) else interrupted;
      InterruptRestored(flag, cs[1..]);
      if exists k :: 0 <= k < |cs[1..]| && IsInterruptingCall(cs[1..][k]) {
        var k :| 0 <= k < |cs[1..]| && IsInterruptingCall(cs[1..][k]);
        assert IsInterruptingCall(cs[k + 1]);
      }
      if exists k :: 0 <= k < |cs| && IsInterruptingCall(cs[k]) {
        var k :| 0 <= k < |cs| && IsInterruptingCall(cs[k]);
        if k > 0 { assert IsInterruptingCall(cs[1..][k - 1]); }
      }
    }
  }
}
