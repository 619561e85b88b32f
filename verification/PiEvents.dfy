/**
  The Pi session event pipeline: a JSONL file that another process appends to, a
  durable cursor into it, and the reducer that turns records into execution events.
 */
module PiEvents {
  import opened Wrappers

  type Bytes = seq<int>
  const NEWLINE := 10

  datatype Record =
    | AgentStart
    | TestRun
    | TestFailed
    | Done
    | AgentSettled
    | ModelError
    | MessageEnd(assistant: bool, modelError: bool)
    | AgentEnd(willRetry: bool)
    | AutoRetryStart
    | AutoRetryEnd(succeeded: bool)
    | ToolExecutionStart(runsTests: bool)
    | OtherKnown
    | Unrecognised

  datatype Failure = ModelFailure | HarnessFailure
  datatype Event = AgentStarted | TestsStarted | TestsFailed | ReviewReady | ExecutionFailed(failure: Failure)
  datatype Normalized = Emit(event: Event) | KnownIgnored | Unknown

  datatype TerminalState = Active | Settled | ModelFailed | HarnessFailed

  datatype ReducerState = ReducerState(pendingModelError: bool, retrying: bool, terminal: TerminalState, assistantTurns: nat)

  const FRESH := ReducerState(false, false, Active, 0)

  predicate HasFailed(t: TerminalState) { t.ModelFailed? || t.HarnessFailed? }

  // --------------------------------------------------------------- specification of a step

  function OnModelFailure(s: ReducerState): (ReducerState, Normalized)
  {
    if HasFailed(s.terminal) then (s, KnownIgnored)
    else (ReducerState(false, false, ModelFailed, s.assistantTurns), Emit(ExecutionFailed(ModelFailure)))
  }

  function OnHarnessFailure(s: ReducerState): (ReducerState, Normalized)
  {
    (s.(terminal := HarnessFailed), Emit(ExecutionFailed(HarnessFailure)))
  }

  function OnSettle(s: ReducerState): (ReducerState, Normalized)
  {
    if HasFailed(s.terminal) then (s, KnownIgnored)
    else if s.pendingModelError || s.retrying then OnModelFailure(s)
    else if s.assistantTurns == 0 then OnHarnessFailure(s)
    else if s.terminal.Settled? then (s, KnownIgnored)
    else (s.(terminal := Settled), Emit(ReviewReady))
  }

  function OnRecord(s: ReducerState, r: Record): (ReducerState, Normalized)
  {
    match r
    case AgentStart => (FRESH, Emit(AgentStarted))
    case TestRun => (s, Emit(TestsStarted))
    case TestFailed => (s, Emit(TestsFailed))
    case Done => OnSettle(s)
    case AgentSettled => OnSettle(s)
    case ModelError => OnModelFailure(s)
    case MessageEnd(assistant, modelError) =>
      (if !assistant then s
       else if modelError then s.(pendingModelError := true)
       else s.(pendingModelError := false, assistantTurns := s.assistantTurns + 1), KnownIgnored)
    case AgentEnd(willRetry) =>
      if !willRetry && s.pendingModelError then OnModelFailure(s.(retrying := false))
      else (s.(retrying := willRetry), KnownIgnored)
    case AutoRetryStart => (s.(retrying := true), KnownIgnored)
    case AutoRetryEnd(succeeded) => (s.(retrying := false, pendingModelError := !succeeded), KnownIgnored)
    case ToolExecutionStart(runsTests) => (s, if runsTests then Emit(TestsStarted) else KnownIgnored)
    case OtherKnown => (s, KnownIgnored)
    case Unrecognised => (s, Unknown)
  }

  /** What reaches the reducer: the records of the file, and the exit of the process. */
  datatype Input = Line(record: Record) | Exit

  /** The exit of the process counts only while no terminal record was seen. */
  function Step(s: ReducerState, x: Input): (ReducerState, seq<Event>)
  {
    match x
    case Line(r) =>
      var (t, out) := OnRecord(s, r);
      (t, if out.Emit? then [out.event] else [])
    case Exit => if s.terminal.Active? then (s.(terminal := HarnessFailed), [ExecutionFailed(HarnessFailure)]) else (s, [])
  }

  /** One pass over all inputs. */
  function Run(s: ReducerState, xs: seq<Input>): (ReducerState, seq<Event>)
  {
    if xs == [] then (s, [])
    else
      var n := |xs| - 1;
      var (t, events) := Run(s, xs[..n]);
      var (u, more) := Step(t, xs[n]);
      (u, events + more)
  }

  lemma RunOneMore(s: ReducerState, xs: seq<Input>, x: Input)
    ensures var (t, events) := Run(s, xs);
            Run(s, xs + [x]) == (Step(t, x).0, events + Step(t, x).1)
  {
    assert (xs + [x])[..|xs|] == xs;
  }

  lemma {:induction false} RunAppend(s: ReducerState, xs: seq<Input>, ys: seq<Input>)
    ensures var (t, events) := Run(s, xs);
            Run(s, xs + ys) == (Run(t, ys).0, events + Run(t, ys).1)
    decreases |ys|
  {
    if ys == [] {
      assert xs + ys == xs && Run(s, xs).1 + [] == Run(s, xs).1;
    } else {
      var n := |ys| - 1;
      RunAppend(s, xs, ys[..n]);
      assert xs + ys == xs + ys[..n] + [ys[n]];
      RunOneMore(s, xs + ys[..n], ys[n]);
      var (t, events) := Run(s, xs);
      var (u, more) := Run(t, ys[..n]);
      assert events + more + Step(u, ys[n]).1 == events + (more + Step(u, ys[n]).1);
    }
  }

  // ------------------------------------------------------------- one agent's terminal events

  predicate WithinOneAgent(xs: seq<Input>)
  {
    forall i | 0 <= i < |xs| :: xs[i] != Line(AgentStart)
  }

  function Ready(events: seq<Event>): nat
  {
    if events == [] then 0 else Ready(events[..|events| - 1]) + if events[|events| - 1].ReviewReady? then 1 else 0
  }

  function Failures(events: seq<Event>): nat
  {
    if events == [] then 0 else Failures(events[..|events| - 1]) + if events[|events| - 1].ExecutionFailed? then 1 else 0
  }

  predicate NeverReadyAfterFailure(events: seq<Event>)
  {
    forall i, j | 0 <= i < j < |events| && events[i].ExecutionFailed? :: !events[j].ReviewReady?
  }

  lemma CountOneMore(events: seq<Event>, e: Event)
    ensures Ready(events + [e]) == Ready(events) + if e.ReviewReady? then 1 else 0
    ensures Failures(events + [e]) == Failures(events) + if e.ExecutionFailed? then 1 else 0
    ensures events + [] == events
  {
    assert (events + [e])[..|events|] == events;
  }

  lemma {:induction false} NoneCounted(events: seq<Event>)
    ensures Failures(events) == 0 ==> forall i | 0 <= i < |events| :: !events[i].ExecutionFailed?
  {
    if events != [] {
      var n := |events| - 1;
      NoneCounted(events[..n]);
      assert forall i | 0 <= i < n :: events[..n][i] == events[i];
    }
  }

  /**
    Between two terminal states: at most one ReviewReady and only from Active, at most
    one failure and only if none came before, and no ReviewReady after it.
   */
  predicate OnceEach(s: TerminalState, t: TerminalState, events: seq<Event>)
  {
    && Ready(events) <= (if s.Active? then 1 else 0)
    && Failures(events) <= (if HasFailed(s) then 0 else 1)
    && NeverReadyAfterFailure(events)
    && (t.Active? <==> s.Active? && Ready(events) == 0 && Failures(events) == 0)
    && (HasFailed(t) <==> HasFailed(s) || Failures(events) == 1)
  }

  /** What an input other than a starting agent may emit, and where it leads. */
  predicate StepsTo(t: TerminalState, u: TerminalState, more: seq<Event>)
  {
    if more == [] then u == t
    else
      && |more| == 1
      && match more[0]
         case ReviewReady => t.Active? && u.Settled?
         case ExecutionFailed(_) => !HasFailed(t) && HasFailed(u)
         case _ => u == t
  }

  lemma TerminalStep(t: ReducerState, x: Input)
    requires x != Line(AgentStart)
    ensures var (u, more) := Step(t, x); StepsTo(t.terminal, u.terminal, more)
  {
  }

  lemma OnceEachOneMore(s: TerminalState, t: TerminalState, u: TerminalState, events: seq<Event>, more: seq<Event>)
    requires OnceEach(s, t, events) && StepsTo(t, u, more)
    ensures OnceEach(s, u, events + more)
  {
    if more == [] {
      assert events + more == events;
    } else {
      CountOneMore(events, more[0]);
      NoneCounted(events);
      assert events + more == events + [more[0]];
    }
  }

  /** Whatever state the reducer is in, until the next agent starts. */
  lemma {:induction false} TerminalEventsOnce(s: ReducerState, xs: seq<Input>)
    requires WithinOneAgent(xs)
    ensures var (t, events) := Run(s, xs); OnceEach(s.terminal, t.terminal, events)
    decreases |xs|
  {
    if xs != [] {
      var n := |xs| - 1;
      TerminalEventsOnce(s, xs[..n]);
      var (t, events) := Run(s, xs[..n]);
      var (u, more) := Step(t, xs[n]);
      TerminalStep(t, xs[n]);
      OnceEachOneMore(s.terminal, t.terminal, u.terminal, events, more);
      hide OnceEach, Step, StepsTo;
    }
  }

  // ------------------------------------------------------------ when an agent becomes ready

  /** Assistant messages that were not model errors. */
  function GoodTurns(h: seq<Input>): nat
  {
    if h == [] then 0
    else GoodTurns(h[..|h| - 1]) + if h[|h| - 1] == Line(MessageEnd(true, false)) then 1 else 0
  }

  /** Whether the last assistant message, or the last finished retry after it, was an error. */
  function ErrorPending(h: seq<Input>): bool
  {
    if h == [] then false
    else match h[|h| - 1]
      case Line(MessageEnd(true, modelError)) => modelError
      case Line(AutoRetryEnd(succeeded)) => !succeeded
      case _ => ErrorPending(h[..|h| - 1])
  }

  /** Whether the last word on retrying was that one is coming. */
  function RetryPending(h: seq<Input>): bool
  {
    if h == [] then false
    else match h[|h| - 1]
      case Line(AgentEnd(willRetry)) => willRetry
      case Line(AutoRetryStart) => true
      case Line(AutoRetryEnd(_)) => false
      case _ => RetryPending(h[..|h| - 1])
  }

  /** No failure was emitted. */
  predicate NotFailed(h: seq<Input>)
  {
    Failures(Run(FRESH, h).1) == 0
  }

  predicate NothingTerminal(h: seq<Input>)
  {
    NotFailed(h) && Ready(Run(FRESH, h).1) == 0
  }

  function Digest(h: seq<Input>): ReducerState
  {
    ReducerState(ErrorPending(h), RetryPending(h), if Ready(Run(FRESH, h).1) == 0 then Active else Settled, GoodTurns(h))
  }

  /** While no failure was emitted, the reducer is a digest of the history. */
  lemma {:induction false} ReducerIsDigest(h: seq<Input>)
    requires WithinOneAgent(h)
    ensures NotFailed(h) <==> !HasFailed(Run(FRESH, h).0.terminal)
    ensures NothingTerminal(h) <==> Run(FRESH, h).0.terminal.Active?
    ensures NotFailed(h) ==> Run(FRESH, h).0 == Digest(h)
    decreases |h|
  {
    TerminalEventsOnce(FRESH, h);
    if h != [] {
      var n := |h| - 1;
      TerminalEventsOnce(FRESH, h[..n]);
      ReducerIsDigest(h[..n]);
      TerminalStep(Run(FRESH, h[..n]).0, h[n]);
      DigestOneMore(h);
    }
  }

  /** One more input, with no failure before or after it. */
  lemma DigestOneMore(h: seq<Input>)
    requires h != [] && h[|h| - 1] != Line(AgentStart)
    ensures var g, x := h[..|h| - 1], h[|h| - 1];
            var t := Step(Digest(g), x).0;
            !HasFailed(t.terminal) ==>
              t == ReducerState(ErrorPending(h), RetryPending(h), t.terminal, GoodTurns(h))
  {
    hide Run, Ready;
  }

  /** A record after which the agent has nothing more to do. */
  predicate Settles(x: Input)
  {
    x == Line(Done) || x == Line(AgentSettled)
  }

  /**
    ReviewReady is emitted exactly for a settling record, when nothing terminal was
    emitted before, at least one good turn was seen, and no error or retry is pending.
   */
  lemma ReadyExactlyWhen(h: seq<Input>, x: Input)
    requires WithinOneAgent(h) && x != Line(AgentStart)
    ensures Step(Run(FRESH, h).0, x).1 == [ReviewReady] <==>
      && Settles(x) && NothingTerminal(h) && GoodTurns(h) >= 1 && !ErrorPending(h) && !RetryPending(h)
  {
    ReducerIsDigest(h);
  }

  /**
    A model failure is emitted exactly, before any other failure, for a model error, for a
    settling record while an error or a retry is pending, and for an end of the agent that
    announces no retry of a pending error. A harness failure is emitted exactly, before any
    other failure, for a settling record with nothing pending and no good turn, and for the
    exit of the process when nothing terminal was emitted.
   */
  lemma FailureExactlyWhen(h: seq<Input>, x: Input)
    requires WithinOneAgent(h) && x != Line(AgentStart)
    ensures Step(Run(FRESH, h).0, x).1 == [ExecutionFailed(ModelFailure)] <==>
      && NotFailed(h)
      && (|| x == Line(ModelError)
          || (Settles(x) && (ErrorPending(h) || RetryPending(h)))
          || (x == Line(AgentEnd(false)) && ErrorPending(h)))
    ensures Step(Run(FRESH, h).0, x).1 == [ExecutionFailed(HarnessFailure)] <==>
      || (NotFailed(h) && Settles(x) && !ErrorPending(h) && !RetryPending(h) && GoodTurns(h) == 0)
      || (NothingTerminal(h) && x == Exit)
  {
    ReducerIsDigest(h);
    hide Run;
  }

  /** The other events, from any state: each for its own records, and never two at once. */
  lemma OthersExactlyWhen(s: ReducerState, x: Input)
    ensures |Step(s, x).1| <= 1
    ensures Step(s, x).1 == [AgentStarted] <==> x == Line(AgentStart)
    ensures Step(s, x).1 == [TestsStarted] <==> x == Line(TestRun) || x == Line(ToolExecutionStart(true))
    ensures Step(s, x).1 == [TestsFailed] <==> x == Line(TestFailed)
  {
  }

  /** Whatever came before it, a starting agent begins afresh. */
  lemma AgentsAreIndependent(s: ReducerState, before: seq<Input>, agent: seq<Input>)
    ensures Run(s, before + [Line(AgentStart)] + agent).1 == Run(s, before).1 + [AgentStarted] + Run(FRESH, agent).1
  {
    RunOneMore(s, before, Line(AgentStart));
    RunAppend(s, before + [Line(AgentStart)], agent);
  }

  // -------------------------------------------------------------------------------- lines

  predicate Whole(s: Bytes)
  {
    s == [] || s[|s| - 1] == NEWLINE
  }

  /** The prefix that ends with the last newline. */
  function Complete(s: Bytes): (r: Bytes)
    ensures r <= s && Whole(r) && NEWLINE !in s[|r|..]
  {
    if Whole(s) then s else Complete(s[..|s| - 1])
  }

  /** The non-empty lines, as `split` and `filter` give them. */
  function Lines(s: Bytes): seq<Bytes>
  {
    LinesFrom([], s)
  }

  /** The same, with the part of the first line that was already read. */
  function LinesFrom(open: Bytes, s: Bytes): seq<Bytes>
    decreases |s|
  {
    if s == [] then NonEmpty(open)
    else if s[0] == NEWLINE then NonEmpty(open) + LinesFrom([], s[1..])
    else LinesFrom(open + [s[0]], s[1..])
  }

  function NonEmpty(line: Bytes): seq<Bytes>
  {
    if line == [] then [] else [line]
  }

  /** Cutting just after a newline cuts no line. */
  lemma {:induction false} LinesFromAppend(open: Bytes, a: Bytes, b: Bytes)
    requires Whole(a) && (a == [] ==> open == [])
    ensures LinesFrom(open, a + b) == LinesFrom(open, a) + LinesFrom([], b)
    decreases |a|
  {
    if a == [] {
      assert a + b == b;
    } else {
      assert (a + b)[1..] == a[1..] + b;
      LinesFromAppend(if a[0] == NEWLINE then [] else open + [a[0]], a[1..], b);
    }
  }

  lemma LinesAppend(a: Bytes, b: Bytes)
    requires Whole(a)
    ensures Lines(a + b) == Lines(a) + Lines(b)
  {
    LinesFromAppend([], a, b);
  }

  /** What lies beyond a whole prefix can be completed on its own. */
  lemma {:induction false} CompleteAppend(a: Bytes, b: Bytes)
    requires Whole(a)
    ensures Complete(a + b) == a + Complete(b)
    decreases |b|
  {
    var s := a + b;
    if Whole(b) {
      assert b == [] ==> s == a;
    } else {
      assert s[..|s| - 1] == a + b[..|b| - 1];
      CompleteAppend(a, b[..|b| - 1]);
    }
  }

  function Records(parse: Bytes -> Option<Record>, lines: seq<Bytes>): Option<seq<Record>>
  {
    if lines == [] then Some([])
    else
      var n := |lines| - 1;
      var before :- Records(parse, lines[..n]);
      var last :- parse(lines[n]);
      Some(before + [last])
  }

  /** The records among the inputs, in order. */
  function RecordsIn(xs: seq<Input>): seq<Record>
  {
    if xs == [] then []
    else RecordsIn(xs[..|xs| - 1]) + match xs[|xs| - 1] { case Line(r) => [r] case Exit => [] }
  }

  lemma RecordsInOneMore(xs: seq<Input>, x: Input)
    ensures RecordsIn(xs + [x]) == RecordsIn(xs) + match x { case Line(r) => [r] case Exit => [] }
  {
    assert (xs + [x])[..|xs|] == xs;
  }

  lemma {:induction false} RecordsAppend(parse: Bytes -> Option<Record>, a: seq<Bytes>, b: seq<Bytes>)
    ensures Records(parse, a).Some? && Records(parse, b).Some? ==>
      Records(parse, a + b) == Some(Records(parse, a).value + Records(parse, b).value)
    decreases |b|
  {
    if b == [] {
      assert a + b == a;
      assert Records(parse, a).Some? ==> Records(parse, a).value + [] == Records(parse, a).value;
    } else {
      var n := |b| - 1;
      assert (a + b)[..|a| + n] == a + b[..n];
      RecordsAppend(parse, a, b[..n]);
      if Records(parse, a).Some? && Records(parse, b).Some? {
        var x, y := Records(parse, a).value, Records(parse, b[..n]).value;
        assert x + (y + [parse(b[n]).value]) == x + y + [parse(b[n]).value];
      }
    }
  }

  lemma {:induction false} PrefixParses(parse: Bytes -> Option<Record>, lines: seq<Bytes>, i: nat)
    requires i <= |lines|
    ensures Records(parse, lines).Some? ==> Records(parse, lines[..i]).Some?
    decreases |lines|
  {
    if i == |lines| {
      assert lines[..i] == lines;
    } else {
      var n := |lines| - 1;
      PrefixParses(parse, lines[..n], i);
      assert lines[..n][..i] == lines[..i];
    }
  }

  function AsInputs(records: seq<Record>): seq<Input>
  {
    seq(|records|, i requires 0 <= i < |records| => Line(records[i]))
  }

  lemma {:induction false} RecordsInAppend(xs: seq<Input>, records: seq<Record>)
    ensures RecordsIn(xs + AsInputs(records)) == RecordsIn(xs) + records
    decreases |records|
  {
    if records == [] {
      assert xs + AsInputs(records) == xs;
    } else {
      var n := |records| - 1;
      RecordsInAppend(xs, records[..n]);
      assert xs + AsInputs(records) == xs + AsInputs(records[..n]) + [Line(records[n])];
      RecordsInOneMore(xs + AsInputs(records[..n]), Line(records[n]));
      assert RecordsIn(xs) + records[..n] + [records[n]] == RecordsIn(xs) + records;
    }
  }

  lemma InputsAreRecords(xs: seq<Input>, records: seq<Record>)
    requires xs == AsInputs(RecordsIn(xs))
    ensures xs + AsInputs(records) == AsInputs(RecordsIn(xs + AsInputs(records)))
  {
    RecordsInAppend(xs, records);
    assert AsInputs(RecordsIn(xs) + records) == AsInputs(RecordsIn(xs)) + AsInputs(records);
  }

  lemma NothingToConsume(parse: Bytes -> Option<Record>, xs: seq<Input>, events: seq<Event>, consumed: Bytes)
    ensures Records(parse, Lines([])) == Some([])
    ensures xs + AsInputs([]) == xs && events + [] == events && consumed + [] == consumed
  {
  }

  /** The lines consumed so far and the next complete ones, as records and as inputs. */
  lemma ConsumedOneMore(parse: Bytes -> Option<Record>, consumed: Bytes, complete: Bytes, xs: seq<Input>, exits: seq<Input>)
    requires Whole(consumed) && Whole(complete) && (exits == [] || exits == [Exit])
    requires Records(parse, Lines(consumed)) == Some(RecordsIn(xs)) && Records(parse, Lines(complete)).Some?
    ensures Whole(consumed + complete)
    ensures var more := Records(parse, Lines(complete)).value;
            Records(parse, Lines(consumed + complete)) == Some(RecordsIn(xs + AsInputs(more) + exits))
  {
    hide Lines, Records, RecordsIn;
    LinesAppend(consumed, complete);
    RecordsAppend(parse, Lines(consumed), Lines(complete));
    var more := Records(parse, Lines(complete)).value;
    var ys := xs + AsInputs(more);
    RecordsInAppend(xs, more);
    RecordsInOneMore(ys, Exit);
    assert ys + [] == ys && RecordsIn(ys) + [] == RecordsIn(ys);
  }

  /** Of lines that all parse, the last ones parse. */
  lemma {:induction false} SuffixParses(parse: Bytes -> Option<Record>, a: seq<Bytes>, b: seq<Bytes>)
    ensures Records(parse, a + b).Some? ==> Records(parse, b).Some?
    decreases |b|
  {
    if b != [] {
      var n := |b| - 1;
      assert (a + b)[..|a| + n] == a + b[..n];
      SuffixParses(parse, a, b[..n]);
    }
  }

  // ----------------------------------------------------------------------------- reducer

  /** The reducer as the poll loop mutates it. */
  class Reducer {
    var pendingModelError: bool
    var retrying: bool
    var terminal: TerminalState
    var assistantTurns: nat

    function State(): ReducerState
      reads this
    {
      ReducerState(pendingModelError, retrying, terminal, assistantTurns)
    }

    constructor (s: ReducerState)
      ensures State() == s
    {
      pendingModelError, retrying, terminal, assistantTurns := s.pendingModelError, s.retrying, s.terminal, s.assistantTurns;
    }

    method FailModel() returns (out: Normalized)
      modifies this
      ensures (State(), out) == OnModelFailure(old(State()))
    {
      if HasFailed(terminal) { return KnownIgnored; }
      pendingModelError := false;
      retrying := false;
      terminal := ModelFailed;
      return Emit(ExecutionFailed(ModelFailure));
    }

    method FailHarness() returns (out: Normalized)
      modifies this
      ensures (State(), out) == OnHarnessFailure(old(State()))
    {
      terminal := HarnessFailed;
      return Emit(ExecutionFailed(HarnessFailure));
    }

    method Settle() returns (out: Normalized)
      modifies this
      ensures (State(), out) == OnSettle(old(State()))
    {
      if HasFailed(terminal) { return KnownIgnored; }
      if pendingModelError || retrying {
        out := FailModel();
        return;
      }
      if assistantTurns == 0 {
        out := FailHarness();
        return;
      }
      if terminal == Settled { return KnownIgnored; }
      terminal := Settled;
      return Emit(ReviewReady);
    }

    method Normalize(r: Record) returns (out: Normalized)
      modifies this
      ensures (State(), out) == OnRecord(old(State()), r)
    {
      match r
      case AgentStart =>
        pendingModelError, retrying, terminal, assistantTurns := false, false, Active, 0;
        return Emit(AgentStarted);
      case TestRun => return Emit(TestsStarted);
      case TestFailed => return Emit(TestsFailed);
      case Done => out := Settle();
      case AgentSettled => out := Settle();
      case ModelError => out := FailModel();
      case MessageEnd(assistant, modelError) =>
        if assistant {
          pendingModelError := modelError;
          if !pendingModelError {
            assistantTurns := assistantTurns + 1;
          }
        }
        return KnownIgnored;
      case AgentEnd(willRetry) =>
        retrying := willRetry;
        if !willRetry && pendingModelError {
          out := FailModel();
          return;
        }
        return KnownIgnored;
      case AutoRetryStart =>
        retrying := true;
        return KnownIgnored;
      case AutoRetryEnd(succeeded) =>
        retrying := false;
        pendingModelError := !succeeded;
        return KnownIgnored;
      case ToolExecutionStart(runsTests) => return if runsTests then Emit(TestsStarted) else KnownIgnored;
      case OtherKnown => return KnownIgnored;
      case Unrecognised => return Unknown;
    }
  }

  // ------------------------------------------------------------------------------ cursor

  /** How the write of the cursor ends: it may take effect although the poll then fails or stops. */
  datatype CursorWrite = Saved | NotSaved | SavedUnreported

  /** The event file, the durable cursor, and the history they came from. */
  class Session {
    const parse: Bytes -> Option<Record>
    var file: Bytes
    var offset: nat
    var reducer: ReducerState

    ghost var consumed: Bytes
    ghost var inputs: seq<Input>
    ghost var emitted: seq<Event>

    // The events that polls returned, and how many a failing poll took with it.
    ghost var delivered: seq<Event>
    ghost var lost: nat

    constructor (parse: Bytes -> Option<Record>)
      ensures Inv() && this.parse == parse && file == [] && consumed == [] && inputs == [] && reducer == FRESH && lost == 0
    {
      this.parse := parse;
      file, offset, reducer, consumed, inputs, emitted := [], 0, FRESH, [], [], [];
      delivered, lost := [], 0;
    }

    /**
      The cursor stands after whole lines; the records consumed are exactly those lines,
      once each and in order; and state and events are those of one pass over them. What
      was delivered falls short of that by what was lost.
     */
    ghost predicate Inv()
      reads this
    {
      && offset == |consumed| && Whole(consumed)
      && Records(parse, Lines(consumed)) == Some(RecordsIn(inputs))
      && Run(FRESH, inputs) == (reducer, emitted)
      && |delivered| + lost == |emitted| && (lost == 0 ==> delivered == emitted)
    }

    /** The agent appends bytes, cut anywhere. */
    method Append(bytes: Bytes)
      requires Inv() && consumed <= file
      modifies `file
      ensures Inv() && consumed <= file && file == old(file) + bytes
    {
      hide Lines, Records, Run;
      file := file + bytes;
    }

    /** The line loop, on a reducer in memory. */
    method Reduce(lines: seq<Bytes>, memory: Reducer, ghost xs: seq<Input>, ghost before: seq<Event>)
      returns (events: seq<Event>, ok: bool)
      requires Run(FRESH, xs) == (memory.State(), before)
      modifies memory
      ensures ok <==> Records(parse, lines).Some?
      ensures ok ==> Run(FRESH, xs + AsInputs(Records(parse, lines).value)) == (memory.State(), before + events)
    {
      hide Run, OnRecord;
      events := [];
      assert before + [] == before && xs + AsInputs([]) == xs && lines[..0] == [];
      for i := 0 to |lines|
        invariant Records(parse, lines[..i]).Some?
        invariant Run(FRESH, xs + AsInputs(Records(parse, lines[..i]).value)) == (memory.State(), before + events)
      {
        assert lines[..i + 1][..i] == lines[..i];
        ghost var done := Records(parse, lines[..i]).value;
        var record := parse(lines[i]);
        if record.None? {
          PrefixParses(parse, lines, i + 1);
          return events, false;
        }
        assert xs + AsInputs(done + [record.value]) == xs + AsInputs(done) + [Line(record.value)];
        RunOneMore(FRESH, xs + AsInputs(done), Line(record.value));
        var out := memory.Normalize(record.value);
        if out.Emit? {
          assert before + events + [out.event] == before + (events + [out.event]);
          events := events + [out.event];
        } else {
          assert before + events + [] == before + events;
        }
      }
      assert lines[..|lines|] == lines;
      ok := true;
    }

    /** A process that is gone without a terminal record has failed. */
    method NoteExit(gone: bool, memory: Reducer, ghost xs: seq<Input>, ghost before: seq<Event>)
      returns (more: seq<Event>, ghost exits: seq<Input>)
      requires Run(FRESH, xs) == (memory.State(), before)
      modifies memory
      ensures Run(FRESH, xs + exits) == (memory.State(), before + more)
      ensures exits == if gone && old(memory.terminal).Active? then [Exit] else []
      ensures gone ==> !memory.terminal.Active?
    {
      hide Run;
      more, exits := [], [];
      if gone && memory.terminal.Active? {
        RunOneMore(FRESH, xs, Exit);
        var out := memory.FailHarness();
        more, exits := [out.event], [Exit];
      }
      assert xs + [] == xs && before + [] == before;
    }

    /** What a poll makes of the new complete lines, in memory. */
    method Absorb(complete: Bytes, gone: bool)
      returns (ok: bool, state: ReducerState, events: seq<Event>, ghost exits: seq<Input>)
      requires Inv()
      ensures ok <==> Records(parse, Lines(complete)).Some?
      ensures ok ==> Run(FRESH, inputs + AsInputs(Records(parse, Lines(complete)).value) + exits) == (state, emitted + events)
      ensures exits == [] || (gone && exits == [Exit])
      ensures ok && gone ==> !state.terminal.Active?
    {
      hide Run, Lines, Step, Records, RecordsIn;
      var memory := new Reducer(reducer);
      var first, more;
      first, ok := Reduce(Lines(complete), memory, inputs, emitted);
      if !ok { return false, reducer, [], []; }
      ghost var xs := inputs + AsInputs(Records(parse, Lines(complete)).value);
      more, exits := NoteExit(gone, memory, xs, emitted + first);
      assert emitted + first + more == emitted + (first + more);
      state, events := memory.State(), first + more;
    }

    /** The cursor moves over the lines; their events are returned, or lost. */
    method Move(complete: Bytes, state: ReducerState, events: seq<Event>, ghost exits: seq<Input>, reported: bool)
      requires Inv() && Whole(complete) && Records(parse, Lines(complete)).Some? && (exits == [] || exits == [Exit])
      requires Run(FRESH, inputs + AsInputs(Records(parse, Lines(complete)).value) + exits) == (state, emitted + events)
      modifies `offset, `reducer, `consumed, `inputs, `emitted, `delivered, `lost
      ensures Inv()
      ensures consumed == old(consumed) + complete && reducer == state && emitted == old(emitted) + events
      ensures inputs == old(inputs) + AsInputs(Records(parse, Lines(complete)).value) + exits
      ensures if reported then delivered == old(delivered) + events && lost == old(lost)
              else delivered == old(delivered) && lost == old(lost) + |events|
    {
      hide Run, Lines, Step, Records, RecordsIn;
      ConsumedOneMore(parse, consumed, complete, inputs, exits);
      inputs := inputs + AsInputs(Records(parse, Lines(complete)).value) + exits;
      consumed, offset := consumed + complete, offset + |complete|;
      reducer, emitted := state, emitted + events;
      if reported {
        delivered := delivered + events;
      } else {
        lost := lost + |events|;
      }
    }

    /** There are no new complete lines, and the process is not newly gone. */
    predicate Idle(exited: bool)
      requires offset <= |file|
      reads `file, `offset, `reducer
    {
      Complete(file[offset..]) == [] && !(exited && reducer.terminal.Active?)
    }

    predicate Readable()
      reads this
    {
      offset <= |file| && Records(parse, Lines(Complete(file[offset..]))).Some?
    }

    /** A poll moves the cursor: there is something to consume, and its write takes effect. */
    predicate Advances(exited: bool, write: CursorWrite)
      reads this
    {
      Readable() && !Idle(exited) && !write.NotSaved?
    }

    /**
      `poll_events`. A poll succeeds exactly when the cursor is not past the end of the file,
      every new complete line parses, and the cursor, if it has to move, is saved. It moves
      over all complete lines, and after them the exit of a process that ended without a
      terminal record. When the write takes effect and the poll does not return, the events
      of those lines are lost.
     */
    method Poll(exited: bool, write: CursorWrite) returns (r: Result<seq<Event>, ()>)
      requires Inv()
      modifies `offset, `reducer, `consumed, `inputs, `emitted, `delivered, `lost
      ensures Inv()
      ensures r.Success? <==> old(Readable()) && (old(Idle(exited)) || write.Saved?)
      ensures r.Success? ==> delivered == old(delivered) + r.value && emitted == old(emitted) + r.value && lost == old(lost)
      ensures r.Failure? ==> delivered == old(delivered) && lost == old(lost) + (|emitted| - |old(emitted)|)
      ensures !old(Advances(exited, write)) ==> consumed == old(consumed) && inputs == old(inputs) && emitted == old(emitted)
      ensures old(Advances(exited, write)) ==>
        var complete := Complete(file[old(offset)..]);
        && old(emitted) <= emitted && consumed == old(consumed) + complete
        && (inputs == old(inputs) + AsInputs(Records(parse, Lines(complete)).value)
            || (exited && inputs == old(inputs) + AsInputs(Records(parse, Lines(complete)).value) + [Exit]))
        && (exited && old(reducer).terminal.Active? ==> !reducer.terminal.Active?)
    {
      hide Run, Lines, Complete, Step, Records, RecordsIn;
      if offset > |file| { return Failure(()); }
      var complete := Complete(file[offset..]);
      var gone := exited && reducer.terminal.Active?;
      if complete == [] && !gone {
        NothingToConsume(parse, inputs, emitted, consumed);
        assert delivered + [] == delivered;
        return Success([]);
      }
      var ok, state, events; ghost var exits;
      ok, state, events, exits := Absorb(complete, gone);
      if !ok || write.NotSaved? { return Failure(()); }
      Move(complete, state, events, exits, write.Saved?);
      return if write.Saved? then Success(events) else Failure(());
    }

    /**
      Any interleaving of appends, cut anywhere, and polls before the process exits, whose
      cursor writes may fail: the events up to the cursor are one pass over the complete
      lines consumed, each exactly once; and the polls returned exactly those events if and
      only if no poll with events failed after its cursor was saved.
     */
    method AnyRun(steps: nat)
      requires Inv() && consumed <= file && inputs == AsInputs(RecordsIn(inputs))
      modifies `file, `offset, `reducer, `consumed, `inputs, `emitted, `delivered, `lost
      ensures Inv() && consumed <= file && (offset == 0 || file[offset - 1] == NEWLINE)
      ensures Records(parse, Lines(file[..offset])).Some?
      ensures emitted == Run(FRESH, AsInputs(Records(parse, Lines(file[..offset])).value)).1
      ensures delivered == emitted <==> lost == 0
    {
      hide Run, Lines, Records;
      for i := 0 to steps
        invariant Inv() && consumed <= file && inputs == AsInputs(RecordsIn(inputs))
      {
        hide RecordsIn, Complete;
        var poll: bool, bytes: Bytes, write: CursorWrite := *, *, *;
        if poll {
          var _ := PollRunning(write);
        } else {
          Append(bytes);
        }
      }
      assert file[..offset] == consumed;
    }

    /** A poll of a running process catches up with every complete line, unless its cursor is not saved. */
    method PollRunning(write: CursorWrite) returns (r: Result<seq<Event>, ()>)
      requires Inv() && consumed <= file && inputs == AsInputs(RecordsIn(inputs))
      modifies `offset, `reducer, `consumed, `inputs, `emitted, `delivered, `lost
      ensures Inv() && consumed <= file && inputs == AsInputs(RecordsIn(inputs))
      ensures Records(parse, Lines(Complete(file))).Some? && !write.NotSaved? ==>
        && (write.Saved? ==> r.Success?) && consumed == Complete(file)
        && emitted == Run(FRESH, AsInputs(Records(parse, Lines(Complete(file))).value)).1
    {
      hide Run, Lines, Complete, Step, Records;
      assert file == consumed + file[offset..];
      CompleteAppend(consumed, file[offset..]);
      LinesAppend(consumed, Complete(file[offset..]));
      SuffixParses(parse, Lines(consumed), Lines(Complete(file[offset..])));
      ghost var advances := Advances(false, write);
      r := Poll(false, write);
      if advances {
        InputsAreRecords(old(inputs), Records(parse, Lines(Complete(file[old(offset)..]))).value);
      }
    }
  }

  /**
    An event that no poll returns: the process exits without a record, the first poll saves
    the cursor but reports a failure, and the next one finds nothing left to tell.
   */
  method UnreportedExit(parse: Bytes -> Option<Record>) returns (first: Result<seq<Event>, ()>, again: Result<seq<Event>, ()>)
    ensures first.Failure? && again == Success([])
  {
    var session := new Session(parse);
    NothingToConsume(parse, [], [], []);
    assert Complete([]) == [];
    hide Run, Lines, Complete, Records, RecordsIn;
    first := session.Poll(true, SavedUnreported);
    again := session.Poll(true, Saved);
    assert session.emitted == session.emitted + again.value ==> again.value == [];
  }
}
