/**
  The health monitor of a running execution: wall clock, inactivity and CPU
  saturation limits, with a pause that stops all three clocks.

  Instants are nanoseconds on a monotonic clock.
 */
module Health {
  import opened Wrappers

  type Instant = int

  const SECOND: nat := 1_000_000_000
  const CPU_SATURATION_PERCENT: real := 95.0

  datatype Sample = Sample(cpuPercent: real, ioBytes: Option<nat>)
  datatype FailureClass = Timeout | Inactivity | ResourceViolation
  datatype Assessment =
    | Healthy
    | QuietHealthy(quietSeconds: nat)
    | InactiveWarning(seconds: nat)
    | Failed(failure: FailureClass)

  datatype Limits = Limits(inactivity: nat, wallClock: nat, cpuSaturation: nat)

  /** `duration_since`, which is zero for a later instant. */
  function Since(now: Instant, then_: Instant): (d: nat)
  {
    if now > then_ then now - then_ else 0
  }

  predicate Saturated(sample: Sample)
  {
    sample.cpuPercent > CPU_SATURATION_PERCENT
  }

  // ------------------------------------------------------------------ specification

  datatype Monitor = Monitor(
    startedAt: Instant, lastEventAt: Instant, lastProgressAt: Instant, lastIoBytes: Option<nat>,
    saturatedSince: Option<Instant>, pausedAt: Option<Instant>, warned: bool)

  function Started(at: Instant): Monitor
  {
    Monitor(at, at, at, None, None, None, false)
  }

  predicate Rises(last: Option<nat>, sample: Sample)
  {
    last.Some? && sample.ioBytes.Some? && sample.ioBytes.value > last.value
  }

  function Observe(m: Monitor, now: Instant, sample: Sample): Monitor
  {
    var risen := Rises(m.lastIoBytes, sample);
    m.(lastProgressAt := if risen then now else m.lastProgressAt,
       warned := if risen then false else m.warned,
       lastIoBytes := if sample.ioBytes.Some? then sample.ioBytes else m.lastIoBytes)
  }

  function Later(a: Instant, b: Instant): Instant
  {
    if a < b then b else a
  }

  function SaturatedFrom(m: Monitor, now: Instant, sample: Sample): Option<Instant>
  {
    if !Saturated(sample) then None else if m.saturatedSince.Some? then m.saturatedSince else Some(now)
  }

  function Assessed(limits: Limits, m: Monitor, now: Instant, sample: Sample): (Monitor, Assessment)
  {
    if m.pausedAt.Some? then (m, Healthy)
    else if Since(now, m.startedAt) > limits.wallClock then (m, Failed(Timeout))
    else
      var o := Observe(m, now, sample);
      var silent := Since(now, o.lastEventAt);
      var inactive := Since(now, Later(o.lastEventAt, o.lastProgressAt));
      if inactive > limits.inactivity then (o, Failed(Inactivity))
      else
        var s := o.(saturatedSince := SaturatedFrom(o, now, sample));
        if s.saturatedSince.Some? && Since(now, s.saturatedSince.value) >= limits.cpuSaturation then (s, Failed(ResourceViolation))
        else if !s.warned && inactive >= limits.inactivity / 2 then (s.(warned := true), InactiveWarning(inactive / SECOND))
        else if silent > limits.inactivity then (s, QuietHealthy(silent / SECOND))
        else (s, Healthy)
  }

  function AfterEvent(m: Monitor, at: Instant): Monitor
  {
    m.(lastEventAt := at, warned := false)
  }

  function AfterPause(m: Monitor, at: Instant): Monitor
  {
    if m.pausedAt.Some? then m else m.(pausedAt := Some(at))
  }

  /** All instants of a monitor, moved by the same distance. */
  function Shifted(m: Monitor, d: int): Monitor
  {
    m.(startedAt := m.startedAt + d, lastEventAt := m.lastEventAt + d, lastProgressAt := m.lastProgressAt + d,
       saturatedSince := if m.saturatedSince.Some? then Some(m.saturatedSince.value + d) else None)
  }

  function AfterResume(m: Monitor, at: Instant): Monitor
  {
    if m.pausedAt.None? then m else Shifted(m, Since(at, m.pausedAt.value)).(pausedAt := None)
  }

  // ------------------------------------------------------------------------ monitor

  class HealthMonitor {
    var startedAt: Instant
    var lastEventAt: Instant
    var lastProgressAt: Instant
    var lastIoBytes: Option<nat>
    var saturatedSince: Option<Instant>
    var pausedAt: Option<Instant>
    var warned: bool
    const limits: Limits

    function State(): Monitor
      reads this
    {
      Monitor(startedAt, lastEventAt, lastProgressAt, lastIoBytes, saturatedSince, pausedAt, warned)
    }

    constructor (at: Instant, limits: Limits)
      ensures State() == Started(at) && this.limits == limits
    {
      startedAt, lastEventAt, lastProgressAt := at, at, at;
      lastIoBytes, saturatedSince, pausedAt, warned := None, None, None, false;
      this.limits := limits;
    }

    method RecordEvent(at: Instant)
      modifies this
      ensures State() == AfterEvent(old(State()), at)
    {
      lastEventAt := at;
      warned := false;
    }

    method Pause(at: Instant)
      modifies this
      ensures State() == AfterPause(old(State()), at)
    {
      if pausedAt.None? {
        pausedAt := Some(at);
      }
    }

    method Resume(at: Instant)
      modifies this
      ensures State() == AfterResume(old(State()), at)
    {
      if pausedAt.None? { return; }
      var suspended := Since(at, pausedAt.value);
      pausedAt := None;
      startedAt := startedAt + suspended;
      lastEventAt := lastEventAt + suspended;
      lastProgressAt := lastProgressAt + suspended;
      if saturatedSince.Some? {
        saturatedSince := Some(saturatedSince.value + suspended);
      }
    }

    method Assess(now: Instant, sample: Sample) returns (a: Assessment)
      modifies this
      ensures (State(), a) == Assessed(limits, old(State()), now, sample)
    {
      if pausedAt.Some? { return Healthy; }
      if Since(now, startedAt) > limits.wallClock { return Failed(Timeout); }
      if sample.ioBytes.Some? {
        if lastIoBytes.Some? && sample.ioBytes.value > lastIoBytes.value {
          lastProgressAt := now;
          warned := false;
        }
        lastIoBytes := sample.ioBytes;
      }
      var silentFor := Since(now, lastEventAt);
      var inactiveFor := Since(now, Later(lastEventAt, lastProgressAt));
      if inactiveFor > limits.inactivity { return Failed(Inactivity); }
      if sample.cpuPercent > CPU_SATURATION_PERCENT {
        if saturatedSince.None? {
          saturatedSince := Some(now);
        }
        if Since(now, saturatedSince.value) >= limits.cpuSaturation { return Failed(ResourceViolation); }
      } else {
        saturatedSince := None;
      }
      if !warned && inactiveFor >= limits.inactivity / 2 {
        warned := true;
        return InactiveWarning(inactiveFor / SECOND);
      }
      if silentFor > limits.inactivity { return QuietHealthy(silentFor / SECOND); }
      return Healthy;
    }
  }

  // ------------------------------------------------------------------------- traces

  datatype Op = Event(at: Instant) | Pause(at: Instant) | Resume(at: Instant) | Assess(at: Instant, sample: Sample)

  function Apply(limits: Limits, m: Monitor, op: Op): (Monitor, seq<Assessment>)
  {
    match op
    case Event(at) => (AfterEvent(m, at), [])
    case Pause(at) => (AfterPause(m, at), [])
    case Resume(at) => (AfterResume(m, at), [])
    case Assess(at, sample) => var (n, a) := Assessed(limits, m, at, sample); (n, [a])
  }

  /** The monitor after a trace, and the assessments made outside pauses. */
  function Run(limits: Limits, m: Monitor, ops: seq<Op>): (Monitor, seq<Assessment>)
  {
    if ops == [] then (m, [])
    else
      var n := |ops| - 1;
      var (k, out) := Run(limits, m, ops[..n]);
      var (l, more) := Apply(limits, k, ops[n]);
      (l, out + if k.pausedAt.Some? then [] else more)
  }

  // ------------------------------------------------------------- pauses are transparent

  function At(op: Op, at: Instant): Op
    requires op.Event? || op.Assess?
  {
    match op
    case Event(_) => Event(at)
    case Assess(_, sample) => Assess(at, sample)
  }

  /** Where a trace stands: when it was paused, if it is, and for how long it was before. */
  datatype Clock = Clock(pausedAt: Option<Instant>, lost: nat)

  function Tick(c: Clock, op: Op): Clock
  {
    match op
    case Pause(at) => if c.pausedAt.Some? then c else c.(pausedAt := Some(at))
    case Resume(at) => if c.pausedAt.None? then c else Clock(None, c.lost + Since(at, c.pausedAt.value))
    case _ => c
  }

  function ClockAfter(ops: seq<Op>): Clock
  {
    if ops == [] then Clock(None, 0) else Tick(ClockAfter(ops[..|ops| - 1]), ops[|ops| - 1])
  }

  predicate Kept(c: Clock, op: Op)
  {
    op.Event? || (op.Assess? && c.pausedAt.None?)
  }

  /**
    The trace with its pauses cut out and the clock stopped meanwhile: no pause, no resume,
    no assessment during a pause, and every other operation earlier by the time lost so far.
   */
  function Compressed(ops: seq<Op>): seq<Op>
  {
    if ops == [] then []
    else
      var n := |ops| - 1;
      var op, c := ops[n], ClockAfter(ops[..n]);
      Compressed(ops[..n]) + if Kept(c, op) then [At(op, op.at - c.lost)] else []
  }

  lemma ObserveShifts(m: Monitor, now: Instant, sample: Sample, d: int)
    ensures Observe(Shifted(m, d), now, sample) == Shifted(Observe(m, now - d, sample), d)
  {
  }

  lemma SinceShifts(now: Instant, a: Instant, b: Instant, d: int)
    ensures Since(now, a + d) == Since(now - d, a) && Since(now, Later(a + d, b + d)) == Since(now - d, Later(a, b))
  {
  }

  lemma AssessedShifts(limits: Limits, m: Monitor, now: Instant, sample: Sample, d: int)
    requires m.pausedAt.None?
    ensures var (n, a) := Assessed(limits, m, now - d, sample);
            Assessed(limits, Shifted(m, d), now, sample) == (Shifted(n, d), a) && n.pausedAt.None?
  {
    var o := Observe(m, now - d, sample);
    ObserveShifts(m, now, sample, d);
    assert o.pausedAt.None?;
    hide Observe, Rises;
    SinceShifts(now, m.startedAt, m.startedAt, d);
    SinceShifts(now, o.lastEventAt, o.lastProgressAt, d);
    var t := SaturatedFrom(o, now - d, sample);
    assert SaturatedFrom(Shifted(o, d), now, sample) == if t.Some? then Some(t.value + d) else None;
    hide SaturatedFrom;
    if t.Some? {
      SinceShifts(now, t.value, t.value, d);
    }
    hide Since, Later;
  }

  /** An operation on a monitor whose instants are all later is that operation, made later. */
  lemma ShiftCommutes(limits: Limits, m: Monitor, op: Op, d: int)
    requires m.pausedAt.None? && (op.Event? || op.Assess?)
    ensures var (n, out) := Apply(limits, m, At(op, op.at - d));
            Apply(limits, Shifted(m, d), op) == (Shifted(n, d), out) && n.pausedAt.None?
  {
    hide Assessed;
    if op.Assess? {
      AssessedShifts(limits, m, op.at, op.sample, d);
    }
  }

  /** During a pause an event is still noted, and an assessment does nothing. */
  lemma WhilePaused(limits: Limits, m: Monitor, op: Op, p: Instant)
    requires op.Event? || op.Assess?
    ensures var k := m.(pausedAt := Some(p));
            Apply(limits, k, op).0 == if op.Event? then Apply(limits, m, op).0.(pausedAt := Some(p)) else k
  {
  }

  /** The monitor of a trace, from that of the compressed trace. */
  function Delayed(m: Monitor, c: Clock): Monitor
  {
    Shifted(m, c.lost).(pausedAt := c.pausedAt)
  }

  lemma TransparentStep(limits: Limits, m: Monitor, c: Clock, op: Op)
    requires m.pausedAt.None?
    ensures var (n, out) := if Kept(c, op) then Apply(limits, m, At(op, op.at - c.lost)) else (m, []);
            var (k, more) := Apply(limits, Delayed(m, c), op);
            n.pausedAt.None? && k == Delayed(n, Tick(c, op)) && out == if c.pausedAt.Some? then [] else more
  {
    hide Assessed;
    if op.Event? || op.Assess? {
      ShiftCommutes(limits, m, op, c.lost);
      if c.pausedAt.Some? {
        WhilePaused(limits, Shifted(m, c.lost), op, c.pausedAt.value);
      }
      assert Shifted(m, c.lost).(pausedAt := None) == Shifted(m, c.lost);
    }
  }

  /**
    For every trace: the assessments outside pauses are those of the trace with the pauses
    cut out. An event noted during a pause keeps its distance from the start of the pause.
   */
  lemma {:induction false} PausesAreTransparent(limits: Limits, start: Instant, ops: seq<Op>)
    ensures Run(limits, Started(start), ops).1 == Run(limits, Started(start), Compressed(ops)).1
    ensures var m := Run(limits, Started(start), Compressed(ops)).0;
            m.pausedAt.None? && Run(limits, Started(start), ops).0 == Delayed(m, ClockAfter(ops))
    decreases |ops|
  {
    hide Apply, At, Tick;
    if ops != [] {
      var n := |ops| - 1;
      var op, c, before := ops[n], ClockAfter(ops[..n]), Compressed(ops[..n]);
      PausesAreTransparent(limits, start, ops[..n]);
      var (m, out) := Run(limits, Started(start), before);
      TransparentStep(limits, m, c, op);
      assert Kept(c, op) ==> (before + [At(op, op.at - c.lost)])[..|before|] == before;
      assert before + [] == before && out + [] == out;
    }
  }

  /** An event noted while paused is dated after the resumption, by as long as the pause had lasted. */
  lemma EventDuringPauseIsPostdated(m: Monitor, p: Instant, t: Instant, r: Instant)
    requires m.pausedAt.None? && p <= t <= r
    ensures AfterResume(AfterEvent(AfterPause(m, p), t), r).lastEventAt == r + (t - p)
  {
  }

  // ------------------------------------------------------------- what a failure means

  /** Events and assessments only: a trace whose pauses have been cut out. */
  predicate PauseFree(h: seq<Op>)
  {
    forall i | 0 <= i < |h| :: h[i].Event? || h[i].Assess?
  }

  lemma {:induction false} CompressedIsPauseFree(ops: seq<Op>)
    ensures PauseFree(Compressed(ops))
  {
    if ops != [] {
      CompressedIsPauseFree(ops[..|ops| - 1]);
    }
  }

  /** The last measured I/O counter. */
  function LastIo(h: seq<Op>): Option<nat>
  {
    if h == [] then None
    else
      var op := h[|h| - 1];
      if op.Assess? && op.sample.ioBytes.Some? then op.sample.ioBytes else LastIo(h[..|h| - 1])
  }

  /** An assessment whose I/O counter is above the previous one. */
  predicate IsRise(h: seq<Op>, i: nat)
    requires i < |h|
  {
    && h[i].Assess? && h[i].sample.ioBytes.Some?
    && LastIo(h[..i]).Some? && h[i].sample.ioBytes.value > LastIo(h[..i]).value
  }

  predicate IsActivity(h: seq<Op>, i: nat)
    requires i < |h|
  {
    h[i].Event? || IsRise(h, i)
  }

  function LastEvent(start: Instant, h: seq<Op>): Instant
  {
    if h == [] then start
    else if h[|h| - 1].Event? then h[|h| - 1].at
    else LastEvent(start, h[..|h| - 1])
  }

  function LastRise(start: Instant, h: seq<Op>): Instant
  {
    if h == [] then start
    else if IsRise(h, |h| - 1) then h[|h| - 1].at
    else LastRise(start, h[..|h| - 1])
  }

  /** Since when every sample has been saturated. */
  function SaturatedSince(h: seq<Op>): Option<Instant>
  {
    if h == [] then None
    else
      var op, before := h[|h| - 1], SaturatedSince(h[..|h| - 1]);
      if op.Event? then before
      else if !op.Assess? || !Saturated(op.sample) then None
      else if before.Some? then before
      else Some(op.at)
  }

  predicate NoFailure(out: seq<Assessment>)
  {
    forall i | 0 <= i < |out| :: !out[i].Failed?
  }

  /** Before the first failure the monitor is a digest of the trace. */
  lemma {:induction false} MonitorIsDigest(limits: Limits, start: Instant, h: seq<Op>)
    requires PauseFree(h) && NoFailure(Run(limits, Started(start), h).1)
    ensures var m := Run(limits, Started(start), h).0;
      && m.startedAt == start && m.pausedAt.None? && m.lastIoBytes == LastIo(h)
      && m.lastEventAt == LastEvent(start, h) && m.lastProgressAt == LastRise(start, h)
      && m.saturatedSince == SaturatedSince(h)
    decreases |h|
  {
    if h != [] {
      var n := |h| - 1;
      var (m, out) := Run(limits, Started(start), h[..n]);
      assert NoFailure(out) by {
        assert out <= Run(limits, Started(start), h).1;
      }
      MonitorIsDigest(limits, start, h[..n]);
      assert h[n].Assess? ==> Run(limits, Started(start), h).1[|out|] == Apply(limits, m, h[n]).1[0];
    }
  }

  /** The verdict on one more sample, in terms of the trace that includes it. */
  lemma VerdictExactly(limits: Limits, start: Instant, h: seq<Op>, now: Instant, sample: Sample)
    requires PauseFree(h) && NoFailure(Run(limits, Started(start), h).1)
    ensures var g := h + [Assess(now, sample)];
      var a := Assessed(limits, Run(limits, Started(start), h).0, now, sample).1;
      && (a == Failed(Timeout) <==> Since(now, start) > limits.wallClock)
      && (a == Failed(Inactivity) <==>
            a != Failed(Timeout) && Since(now, Later(LastEvent(start, g), LastRise(start, g))) > limits.inactivity)
      && (a == Failed(ResourceViolation) <==>
            && a != Failed(Timeout) && a != Failed(Inactivity)
            && SaturatedSince(g).Some? && Since(now, SaturatedSince(g).value) >= limits.cpuSaturation)
  {
    MonitorIsDigest(limits, start, h);
    var g := h + [Assess(now, sample)];
    assert g[..|h|] == h;
  }

  /** QuietHealthy tells how long no event came, past the limit, while the I/O counter rose within it. */
  lemma QuietHealthyMeans(limits: Limits, start: Instant, h: seq<Op>, now: Instant, sample: Sample)
    requires PauseFree(h) && NoFailure(Run(limits, Started(start), h).1)
    ensures var g := h + [Assess(now, sample)];
      var a := Assessed(limits, Run(limits, Started(start), h).0, now, sample).1;
      a.QuietHealthy? ==>
        && a.quietSeconds == Since(now, LastEvent(start, g)) / SECOND
        && Since(now, LastRise(start, g)) <= limits.inactivity < Since(now, LastEvent(start, g))
  {
    MonitorIsDigest(limits, start, h);
    assert (h + [Assess(now, sample)])[..|h|] == h;
  }

  // --------------------------------------------------------------- one warning per window

  /** The verdict on the i-th operation, an assessment. */
  function VerdictAt(limits: Limits, start: Instant, h: seq<Op>, i: nat): Assessment
    requires i < |h| && h[i].Assess?
  {
    Assessed(limits, Run(limits, Started(start), h[..i]).0, h[i].at, h[i].sample).1
  }

  /** The i-th operation was a warning, and there was no activity since. */
  predicate WarnedAt(limits: Limits, start: Instant, h: seq<Op>, i: nat)
    requires i < |h|
  {
    && h[i].Assess? && VerdictAt(limits, start, h, i).InactiveWarning?
    && forall k | i < k < |h| :: !IsActivity(h, k)
  }

  predicate Warned(limits: Limits, start: Instant, h: seq<Op>)
  {
    exists i | 0 <= i < |h| :: WarnedAt(limits, start, h, i)
  }

  lemma WarnedOneMore(limits: Limits, start: Instant, h: seq<Op>)
    requires h != []
    ensures var n := |h| - 1;
      Warned(limits, start, h) <==>
        || (h[n].Assess? && VerdictAt(limits, start, h, n).InactiveWarning?)
        || (Warned(limits, start, h[..n]) && !IsActivity(h, n))
  {
    var n := |h| - 1;
    var g := h[..n];
    SameActivity(h, n);
    hide IsActivity, VerdictAt;
    forall i | 0 <= i < n
      ensures WarnedAt(limits, start, h, i) <==> WarnedAt(limits, start, g, i) && !IsActivity(h, n)
    {
      if h[i].Assess? {
        SameVerdict(limits, start, h, n, i);
      }
    }
    assert WarnedAt(limits, start, h, n) <==> h[n].Assess? && VerdictAt(limits, start, h, n).InactiveWarning?;
  }

  lemma SameVerdict(limits: Limits, start: Instant, h: seq<Op>, n: nat, i: nat)
    requires i < n <= |h| && h[i].Assess?
    ensures VerdictAt(limits, start, h[..n], i) == VerdictAt(limits, start, h, i)
  {
    assert h[..n][..i] == h[..i];
  }

  /** The monitor remembers exactly a warning that no activity followed. */
  lemma {:induction false} MarkIsDigest(limits: Limits, start: Instant, h: seq<Op>)
    requires PauseFree(h) && NoFailure(Run(limits, Started(start), h).1)
    ensures Run(limits, Started(start), h).0.warned <==> Warned(limits, start, h)
    decreases |h|
  {
    if h != [] {
      var n := |h| - 1;
      NoFailureBefore(limits, start, h);
      MarkIsDigest(limits, start, h[..n]);
      MonitorIsDigest(limits, start, h[..n]);
      WarnedOneMore(limits, start, h);
      WarnedStep(limits, Run(limits, Started(start), h[..n]).0, h[n]);
      if h[n].Assess? {
        LastVerdict(limits, start, h);
      }
      hide Warned, Assessed;
    }
  }

  lemma LastVerdict(limits: Limits, start: Instant, h: seq<Op>)
    requires PauseFree(h) && h != [] && h[|h| - 1].Assess? && NoFailure(Run(limits, Started(start), h).1)
    ensures !VerdictAt(limits, start, h, |h| - 1).Failed?
  {
    var n := |h| - 1;
    NoFailureBefore(limits, start, h);
    MonitorIsDigest(limits, start, h[..n]);
    var (m, out) := Run(limits, Started(start), h[..n]);
    assert Run(limits, Started(start), h).1[|out|] == Apply(limits, m, h[n]).1[0];
  }

  /**
    Before any failure, a warning is given exactly when half the limit has passed without
    activity and no warning was given since the last one; it tells the seconds without activity.
    Otherwise QuietHealthy is given exactly when the limit has passed without an event, and
    tells the seconds without one; otherwise all is Healthy.
   */
  lemma WarningExactly(limits: Limits, start: Instant, h: seq<Op>, now: Instant, sample: Sample)
    requires PauseFree(h) && NoFailure(Run(limits, Started(start), h).1)
    ensures var g := h + [Assess(now, sample)];
      var a := Assessed(limits, Run(limits, Started(start), h).0, now, sample).1;
      var inactive, silent := Since(now, Later(LastEvent(start, g), LastRise(start, g))), Since(now, LastEvent(start, g));
      var due := inactive >= limits.inactivity / 2 && (!Warned(limits, start, h) || IsActivity(g, |h|));
      !a.Failed? ==>
        && (a.InactiveWarning? <==> due)
        && (a.InactiveWarning? ==> a.seconds == inactive / 1_000_000_000)
        && (a.QuietHealthy? <==> !due && silent > limits.inactivity)
        && (a.QuietHealthy? ==> a.quietSeconds == silent / 1_000_000_000)
        && (a.Healthy? <==> !due && silent <= limits.inactivity)
  {
    MonitorIsDigest(limits, start, h);
    MarkIsDigest(limits, start, h);
    var g := h + [Assess(now, sample)];
    assert g[..|h|] == h;
    hide Run, Warned;
  }

  /** A warning is remembered as long as there is no activity. */
  lemma {:induction false} WarningRemembered(limits: Limits, start: Instant, h: seq<Op>, i: nat)
    requires PauseFree(h) && NoFailure(Run(limits, Started(start), h).1)
    requires i < |h| && h[i].Assess? && VerdictAt(limits, start, h, i).InactiveWarning?
    requires forall k | i < k < |h| :: !IsActivity(h, k)
    ensures Run(limits, Started(start), h).0.warned
    decreases |h|
  {
    var n := |h| - 1;
    var g, m := h[..n], Run(limits, Started(start), h[..n]).0;
    NoFailureBefore(limits, start, h);
    MonitorIsDigest(limits, start, g);
    if i < n {
      assert g[..i] == h[..i];
      SameActivity(h, n);
      WarningRemembered(limits, start, g, i);
      assert !IsActivity(h, n);
    }
    WarnedStep(limits, m, h[n]);
  }

  lemma NoFailureBefore(limits: Limits, start: Instant, h: seq<Op>)
    requires h != [] && NoFailure(Run(limits, Started(start), h).1)
    ensures NoFailure(Run(limits, Started(start), h[..|h| - 1]).1)
  {
    assert Run(limits, Started(start), h[..|h| - 1]).1 <= Run(limits, Started(start), h).1;
  }

  /** A warning sets the mark; only an event or a rise takes it away. */
  lemma WarnedStep(limits: Limits, m: Monitor, op: Op)
    requires m.pausedAt.None? && (op.Event? || op.Assess?)
    ensures op.Assess? && Assessed(limits, m, op.at, op.sample).1.InactiveWarning? ==>
      Apply(limits, m, op).0.warned && (m.warned ==> Rises(m.lastIoBytes, op.sample))
    ensures op.Assess? && m.warned && !Rises(m.lastIoBytes, op.sample) ==> Apply(limits, m, op).0.warned
    ensures op.Assess? ==>
      var a := Assessed(limits, m, op.at, op.sample).1;
      !a.InactiveWarning? && !a.Failed? ==>
        (Apply(limits, m, op).0.warned <==> m.warned && !Rises(m.lastIoBytes, op.sample))
    ensures op.Event? ==> !Apply(limits, m, op).0.warned
  {
  }

  /** Between two warnings lies an event or a rise of the I/O counter. */
  lemma WarningsAreSeparated(limits: Limits, start: Instant, h: seq<Op>, i: nat, j: nat)
    requires PauseFree(h) && i < j < |h| && h[i].Assess? && h[j].Assess?
    requires NoFailure(Run(limits, Started(start), h[..j]).1)
    requires VerdictAt(limits, start, h, i).InactiveWarning? && VerdictAt(limits, start, h, j).InactiveWarning?
    ensures exists k | i < k <= j :: IsActivity(h, k)
  {
    var g := h[..j];
    MonitorIsDigest(limits, start, g);
    WarnedStep(limits, Run(limits, Started(start), g).0, h[j]);
    if !IsActivity(h, j) && forall k | i < k < j :: !IsActivity(h, k) {
      assert g[..i] == h[..i];
      SameActivity(h, j);
      WarningRemembered(limits, start, g, i);
    }
  }

  /** Instants never go back, and none is before the start. */
  predicate Timely(start: Instant, h: seq<Op>)
  {
    && (forall i | 0 <= i < |h| :: start <= h[i].at)
    && (forall i, j | 0 <= i < j < |h| :: h[i].at <= h[j].at)
  }

  /** All activity lies longer ago than the limit. */
  predicate Quiet(h: seq<Op>, now: Instant, limit: nat)
  {
    forall i | 0 <= i < |h| && IsActivity(h, i) :: Since(now, h[i].at) > limit
  }

  /** Every sample from the i-th operation on was saturated. */
  predicate SaturatedFromOn(h: seq<Op>, i: nat)
  {
    forall j | i <= j < |h| && h[j].Assess? :: h[j].sample.cpuPercent > 95.0
  }

  lemma {:induction false} ActivityIsTimely(start: Instant, h: seq<Op>)
    requires Timely(start, h)
    ensures start <= LastEvent(start, h) && start <= LastRise(start, h)
    ensures h != [] ==> LastEvent(start, h) <= h[|h| - 1].at && LastRise(start, h) <= h[|h| - 1].at
  {
    if h != [] {
      ActivityIsTimely(start, h[..|h| - 1]);
    }
  }

  lemma SameActivity(h: seq<Op>, n: nat)
    requires n <= |h|
    ensures forall i | 0 <= i < n :: IsActivity(h[..n], i) == IsActivity(h, i)
  {
    forall i | 0 <= i < n
      ensures IsActivity(h[..n], i) == IsActivity(h, i)
    {
      assert h[..n][..i] == h[..i];
    }
  }

  /** The last activity is long ago exactly when all of it is, and the start is too. */
  lemma {:induction false} QuietExactly(start: Instant, h: seq<Op>, now: Instant, limit: nat)
    requires Timely(start, h)
    ensures Since(now, Later(LastEvent(start, h), LastRise(start, h))) > limit <==>
      Quiet(h, now, limit) && Since(now, start) > limit
    decreases |h|
  {
    ActivityIsTimely(start, h);
    if h != [] {
      var n := |h| - 1;
      QuietExactly(start, h[..n], now, limit);
      SameActivity(h, n);
      ActivityIsTimely(start, h[..n]);
      hide IsRise;
      assert Quiet(h, now, limit) <==> Quiet(h[..n], now, limit) && (IsActivity(h, n) ==> Since(now, h[n].at) > limit);
    }
  }

  lemma {:induction false} SaturationStart(start: Instant, h: seq<Op>)
    requires PauseFree(h)
    ensures SaturatedSince(h).Some? ==>
      exists i | 0 <= i < |h| :: h[i].Assess? && SaturatedFromOn(h, i) && h[i].at == SaturatedSince(h).value
  {
    if h != [] {
      var n := |h| - 1;
      SaturationStart(start, h[..n]);
      if SaturatedSince(h).Some? {
        if SaturatedSince(h[..n]).Some? {
          var i :| 0 <= i < n && h[..n][i].Assess? && SaturatedFromOn(h[..n], i) && h[..n][i].at == SaturatedSince(h[..n]).value;
          assert forall j | i <= j < n :: h[..n][j] == h[j];
          assert h[i].Assess? && SaturatedFromOn(h, i) && h[i].at == SaturatedSince(h).value;
        } else {
          assert h[n].Assess? && SaturatedFromOn(h, n) && h[n].at == SaturatedSince(h).value;
        }
      }
    }
  }

  lemma {:induction false} SaturationEarliest(start: Instant, h: seq<Op>, i: nat)
    requires PauseFree(h) && Timely(start, h) && i < |h| && h[i].Assess? && SaturatedFromOn(h, i)
    ensures SaturatedSince(h).Some? && SaturatedSince(h).value <= h[i].at
    decreases |h|
  {
    var n := |h| - 1;
    SinceIsTimely(start, h[..n]);
    if i < n {
      assert forall j | i <= j < n :: h[..n][j] == h[j];
      SaturationEarliest(start, h[..n], i);
    }
  }

  lemma {:induction false} SinceIsTimely(start: Instant, h: seq<Op>)
    requires Timely(start, h)
    ensures SaturatedSince(h).Some? ==> h != [] && SaturatedSince(h).value <= h[|h| - 1].at
  {
    if h != [] {
      SinceIsTimely(start, h[..|h| - 1]);
    }
  }

  /**
    Before any other failure, Inactivity is reported exactly when the wall clock has not run
    out and neither the start nor any event nor any rise of the I/O counter is recent.
   */
  lemma InactivityExactly(limits: Limits, start: Instant, h: seq<Op>, now: Instant, sample: Sample)
    requires PauseFree(h) && NoFailure(Run(limits, Started(start), h).1)
    requires Timely(start, h + [Assess(now, sample)])
    ensures var g := h + [Assess(now, sample)];
      Assessed(limits, Run(limits, Started(start), h).0, now, sample).1 == Failed(Inactivity) <==>
        limits.inactivity < Since(now, start) <= limits.wallClock && Quiet(g, now, limits.inactivity)
  {
    VerdictExactly(limits, start, h, now, sample);
    QuietExactly(start, h + [Assess(now, sample)], now, limits.inactivity);
    hide Assessed, Run, Quiet;
  }

  /**
    Before any other failure, ResourceViolation is reported exactly when, from some sample at
    least the saturation span ago up to this one, every sample was above the threshold.
   */
  lemma ViolationExactly(limits: Limits, start: Instant, h: seq<Op>, now: Instant, sample: Sample)
    requires PauseFree(h) && NoFailure(Run(limits, Started(start), h).1)
    requires Timely(start, h + [Assess(now, sample)])
    ensures var g := h + [Assess(now, sample)];
      var a := Assessed(limits, Run(limits, Started(start), h).0, now, sample).1;
      a == Failed(ResourceViolation) <==>
        && a != Failed(Timeout) && a != Failed(Inactivity)
        && exists i | 0 <= i < |g| :: g[i].Assess? && SaturatedFromOn(g, i) && Since(now, g[i].at) >= limits.cpuSaturation
  {
    var g := h + [Assess(now, sample)];
    VerdictExactly(limits, start, h, now, sample);
    SaturationStart(start, g);
    forall i: nat | i < |g| && g[i].Assess? && SaturatedFromOn(g, i)
      ensures SaturatedSince(g).Some? && SaturatedSince(g).value <= g[i].at
    {
      SaturationEarliest(start, g, i);
    }
    hide Assessed, Run, SaturatedSince, SaturatedFromOn;
  }

  // ------------------------------------------------------------ failures despite pauses

  predicate NoEventWhilePaused(ops: seq<Op>)
  {
    forall i | 0 <= i < |ops| && ops[i].Event? :: ClockAfter(ops[..i]).pausedAt.None?
  }

  /** Where the stopped or running clock of a trace stands. */
  function Front(start: Instant, ops: seq<Op>): Instant
  {
    var c := ClockAfter(ops);
    (if c.pausedAt.Some? then c.pausedAt.value else if ops == [] then start else ops[|ops| - 1].at) - c.lost
  }

  /** The stopped clock never goes back either. */
  lemma {:induction false} CompressedIsTimely(start: Instant, ops: seq<Op>)
    requires Timely(start, ops) && NoEventWhilePaused(ops)
    ensures Timely(start, Compressed(ops))
    ensures start <= Front(start, ops) && forall k | 0 <= k < |Compressed(ops)| :: Compressed(ops)[k].at <= Front(start, ops)
    ensures ClockAfter(ops).pausedAt.Some? ==> ops != [] && ClockAfter(ops).pausedAt.value <= ops[|ops| - 1].at
    decreases |ops|
  {
    if ops != [] {
      var n := |ops| - 1;
      assert forall i | 0 <= i < n :: ops[..n][..i] == ops[..i];
      CompressedIsTimely(start, ops[..n]);
      assert Front(start, ops[..n]) <= Front(start, ops);
      assert Kept(ClockAfter(ops[..n]), ops[n]) ==> Compressed(ops)[|Compressed(ops)| - 1].at == Front(start, ops);
    }
  }

  /** An assessment outside pauses is one of the trace with the pauses cut out, at the stopped clock. */
  lemma AssessedDespitePauses(limits: Limits, start: Instant, ops: seq<Op>, now: Instant, sample: Sample)
    requires ClockAfter(ops).pausedAt.None?
    ensures var lost := ClockAfter(ops).lost;
      && Compressed(ops + [Assess(now, sample)]) == Compressed(ops) + [Assess(now - lost, sample)]
      && Assessed(limits, Run(limits, Started(start), ops).0, now, sample).1
         == Assessed(limits, Run(limits, Started(start), Compressed(ops)).0, now - lost, sample).1
  {
    hide Run, Assessed;
    PausesAreTransparent(limits, start, ops);
    var c, m := ClockAfter(ops), Run(limits, Started(start), Compressed(ops)).0;
    AssessedShifts(limits, m, now, sample, c.lost);
    assert (ops + [Assess(now, sample)])[..|ops|] == ops;
  }

  /**
    Over any trace with pauses but no event noted during one: before any other failure,
    Inactivity means that on the stopped clock nothing recent happened, and conversely.
   */
  lemma InactivityDespitePauses(limits: Limits, start: Instant, ops: seq<Op>, now: Instant, sample: Sample)
    requires Timely(start, ops + [Assess(now, sample)]) && NoEventWhilePaused(ops + [Assess(now, sample)])
    requires ClockAfter(ops).pausedAt.None? && NoFailure(Run(limits, Started(start), ops).1)
    ensures var g, clock := Compressed(ops + [Assess(now, sample)]), now - ClockAfter(ops).lost;
      Assessed(limits, Run(limits, Started(start), ops).0, now, sample).1 == Failed(Inactivity) <==>
        limits.inactivity < Since(clock, start) <= limits.wallClock && Quiet(g, clock, limits.inactivity)
  {
    hide Run, Assessed, Compressed, Timely, Quiet, NoEventWhilePaused;
    AssessedDespitePauses(limits, start, ops, now, sample);
    CompressedIsTimely(start, ops + [Assess(now, sample)]);
    CompressedIsPauseFree(ops);
    PausesAreTransparent(limits, start, ops);
    InactivityExactly(limits, start, Compressed(ops), now - ClockAfter(ops).lost, sample);
  }

  /** Likewise ResourceViolation means that every sample over the span, on the stopped clock, was saturated. */
  lemma ViolationDespitePauses(limits: Limits, start: Instant, ops: seq<Op>, now: Instant, sample: Sample)
    requires Timely(start, ops + [Assess(now, sample)]) && NoEventWhilePaused(ops + [Assess(now, sample)])
    requires ClockAfter(ops).pausedAt.None? && NoFailure(Run(limits, Started(start), ops).1)
    ensures var g, clock := Compressed(ops + [Assess(now, sample)]), now - ClockAfter(ops).lost;
      var a := Assessed(limits, Run(limits, Started(start), ops).0, now, sample).1;
      a == Failed(ResourceViolation) <==>
        && a != Failed(Timeout) && a != Failed(Inactivity)
        && exists i | 0 <= i < |g| :: g[i].Assess? && SaturatedFromOn(g, i) && Since(clock, g[i].at) >= limits.cpuSaturation
  {
    hide Run, Assessed, Compressed, Timely, SaturatedFromOn, NoEventWhilePaused;
    AssessedDespitePauses(limits, start, ops, now, sample);
    CompressedIsTimely(start, ops + [Assess(now, sample)]);
    CompressedIsPauseFree(ops);
    PausesAreTransparent(limits, start, ops);
    ViolationExactly(limits, start, Compressed(ops), now - ClockAfter(ops).lost, sample);
  }
}
