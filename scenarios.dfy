/** Client code that drives the appender and the pipeline through lookup and
    removal by name, fan-out, teardown, the one-shot error report and appends
    after close, using nothing but the methods' contracts. */
module Scenarios {
  import opened LoggingTypes
  import opened Appenders
  import opened Pipelines

  method NamedAppender(n: string, journal: Journal) returns (a: Appender)
    ensures fresh(a) && a.journal == journal
    ensures a.State() == Initial().(name := Some(n))
  {
    a := new Appender(journal);
    a.SetName(Some(n));
  }

  /** A new pipeline with `x` and then `y` added. */
  method PipelineOf(x: Appender, y: Appender) returns (p: AppenderPipelineImpl)
    requires x != y
    ensures fresh(p) && p.Valid() && p.appenderList == Some([x, y])
  {
    p := new AppenderPipelineImpl();
    p.AddAppender(x);
    assert p.List() == [x];
    p.AddAppender(y);
    assert [x] + [y] == [x, y];
  }

  /** Appenders "file" and "console": `getAppender("console")` finds the console,
      `removeAppender("console")` drops it without closing it, and afterwards
      neither lookup by name nor by instance finds it. */
  method RemoveByNameScenario() returns (console: Appender, found: Appender?, foundAfter: Appender?, attached: bool)
    ensures found == console
    ensures foundAfter == null && !attached
    ensures !console.closed && console.closeCalls == 0
  {
    var journal := new Journal();
    var file := NamedAppender("file", journal);
    console := NamedAppender("console", journal);
    var p := PipelineOf(file, console);
    found := p.GetAppender(Some("console"));
    p.RemoveAppenderNamed(Some("console"));
    assert FirstNamed([file, console], "console") == Some(1);
    assert p.List() == [file];
    foundAfter := p.GetAppender(Some("console"));
    attached := p.IsAttached(console);
  }

  /** Two appenders share a name: removing by that name drops only the first. */
  method SharedNameScenario() returns (first: Appender, second: Appender, remaining: Option<seq<Appender>>)
    ensures first != second
    ensures remaining == Some([second])
  {
    var journal := new Journal();
    first := NamedAppender("dup", journal);
    second := NamedAppender("dup", journal);
    var p := PipelineOf(first, second);
    p.RemoveAppenderNamed(Some("dup"));
    assert FirstNamed([first, second], "dup") == Some(0);
    assert RemoveAt([first, second], 0) == [second];
    remaining := p.GetAllAppenders();
  }

  /** Three fresh appenders sharing a fresh, empty journal. */
  method SharedJournal() returns (journal: Journal, a: Appender, b: Appender, c: Appender)
    ensures fresh(journal) && fresh(a) && fresh(b) && fresh(c)
    ensures a != b && b != c && a != c
    ensures a.journal == journal && b.journal == journal && c.journal == journal
    ensures a.State() == Initial() && b.State() == Initial() && c.State() == Initial()
    ensures journal.entries == []
  {
    journal := new Journal();
    a := new Appender(journal);
    b := new Appender(journal);
    c := new Appender(journal);
  }

  /** A pipeline holding three fresh appenders A, B, C that share a fresh
      journal; A is offered again after B and kept once. */
  method ThreeAppenders() returns (p: AppenderPipelineImpl, a: Appender, b: Appender, c: Appender, journal: Journal)
    ensures fresh(p) && fresh(a) && fresh(b) && fresh(c) && fresh(journal)
    ensures p.Valid() && p.appenderList == Some([a, b, c]) && p.RecordsTo(journal)
    ensures a.State() == Initial() && b.State() == Initial() && c.State() == Initial()
    ensures journal.entries == []
  {
    journal, a, b, c := SharedJournal();
    p := PipelineOf(a, b);
    p.AddAppender(a);
    p.AddAppender(c);
    assert [a, b] + [c] == [a, b, c];
  }

  /** Fan-out over [A, B, C] reaches each once, A first and C last, and returns 3. */
  method FanOutScenario(e: LoggingEvent) returns (a: Appender, b: Appender, c: Appender, count: nat, calls: seq<Entry>)
    ensures count == 3
    ensures a.appended == [e] && b.appended == [e] && c.appended == [e]
    ensures calls == [Entry(a, DoAppendCall(e)), Entry(b, DoAppendCall(e)), Entry(c, DoAppendCall(e))]
  {
    var p, journal;
    p, a, b, c, journal := ThreeAppenders();
    count := p.AppendLoopOnAppenders(e, journal);
    assert a in [a, b, c] && b in [a, b, c] && c in [a, b, c];
    CallsInOrderAt([a, b, c], DoAppendCall(e));
    calls := journal.entries;
  }

  /** Teardown closes each appender once, A first and C last, and drops the
      list; a later add recreates it holding just that appender. */
  method TeardownScenario() returns (a: Appender, b: Appender, c: Appender, calls: seq<Entry>,
                                     afterTeardown: Option<seq<Appender>>, afterReAdd: Option<seq<Appender>>)
    ensures a.closed && b.closed && c.closed
    ensures a.closeCalls == 1 && b.closeCalls == 1 && c.closeCalls == 1
    ensures calls == [Entry(a, CloseCall), Entry(b, CloseCall), Entry(c, CloseCall)]
    ensures afterTeardown == None && afterReAdd == Some([a])
  {
    var p, journal;
    p, a, b, c, journal := ThreeAppenders();
    p.RemoveAllAppenders(journal);
    assert a in [a, b, c] && b in [a, b, c] && c in [a, b, c];
    CallsInOrderAt([a, b, c], CloseCall);
    calls := journal.entries;
    afterTeardown := p.GetAllAppenders();
    p.AddAppender(a);
    assert [] + [a] == [a];
    afterReAdd := p.GetAllAppenders();
  }

  /** Three errors on one appender write one line, the first; the interruption
      passed with the last one still reaches the thread. */
  method OneShotErrorScenario() returns (a: Appender, interrupted: bool)
    ensures a.diagnostics == [ReportedError(CodedErrorText("write failed", CODE_WRITE_FAILURE), None)]
    ensures interrupted
  {
    var journal := new Journal();
    a := new Appender(journal);
    var t := new CallingThread();
    a.HandleErrorWithCause("write failed", None, CODE_WRITE_FAILURE, t);
    a.HandleError("again");
    a.HandleErrorWithCause("flush interrupted", Some(Exception(InterruptedIO, "")), CODE_FLUSH_FAILURE, t);
    interrupted := t.interrupted;
  }

  /** After `close`, each `doAppend` writes its own notice and nothing reaches the sink. */
  method ClosedAppendScenario(e: LoggingEvent) returns (a: Appender, calls: seq<Entry>)
    ensures a.appended == []
    ensures a.diagnostics == [AppendWhileClosed(ClosedAppendText(None)), AppendWhileClosed(ClosedAppendText(None))]
    ensures a.firstTime
    ensures calls == [Entry(a, CloseCall), Entry(a, DoAppendCall(e)), Entry(a, DoAppendCall(e))]
  {
    var journal := new Journal();
    a := new Appender(journal);
    a.Close();
    a.DoAppend(e);
    a.DoAppend(e);
    calls := journal.entries;
  }
}
