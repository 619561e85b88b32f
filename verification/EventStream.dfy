/**
  The per-execution event log, and the stream that replays it to one client from a
  cursor while the log grows.
 */
module EventStream {
  import opened Wrappers

  type ExecutionId = nat
  type Payload = nat

  /** The primary key of the table. */
  datatype Key = Key(execution: ExecutionId, sequence: nat)
  type Rows = map<Key, Payload>

  datatype Stored = Stored(sequence: nat, payload: Payload)

  const EVENT_BATCH_SIZE: nat := 128

  // ------------------------------------------------------------------------------- tables

  /** The sequences of an execution are 1, 2, .., n. */
  predicate Numbered(rows: Rows, id: ExecutionId, n: nat)
  {
    && (forall k | k in rows && k.execution == id :: 1 <= k.sequence <= n)
    && (forall s | 1 <= s <= n :: Key(id, s) in rows)
  }

  /** The events of an execution, in order. */
  function Entries(rows: Rows, id: ExecutionId, n: nat): seq<Payload>
    requires Numbered(rows, id, n)
  {
    seq(n, i requires 0 <= i < n => rows[Key(id, i + 1)])
  }

  /** `COALESCE(MAX(sequence), 0)` */
  ghost predicate IsMaxSequence(rows: Rows, id: ExecutionId, m: nat)
  {
    && (forall k | k in rows && k.execution == id :: k.sequence <= m)
    && (m == 0 || Key(id, m) in rows)
  }

  lemma MaxIsLength(rows: Rows, id: ExecutionId, n: nat, m: nat)
    requires Numbered(rows, id, n) && IsMaxSequence(rows, id, m)
    ensures m == n
  {
    if n > 0 {
      assert Key(id, n) in rows;
    }
  }

  /** `WHERE sequence > after ORDER BY sequence ASC LIMIT limit` */
  predicate IsBatch(rows: Rows, id: ExecutionId, after: nat, limit: nat, batch: seq<Stored>)
  {
    && |batch| <= limit
    && (forall i | 0 <= i < |batch| ::
          batch[i].sequence > after && Key(id, batch[i].sequence) in rows && batch[i].payload == rows[Key(id, batch[i].sequence)])
    && (forall i, j | 0 <= i < j < |batch| :: batch[i].sequence < batch[j].sequence)
    && (forall k | k in rows && k.execution == id && k.sequence > after ::
          Holds(batch, k.sequence) || CutOff(batch, limit, k.sequence))
  }

  predicate Holds(batch: seq<Stored>, sequence: nat)
  {
    exists i | 0 <= i < |batch| :: batch[i].sequence == sequence
  }

  /** A later row than all of a full batch. */
  predicate CutOff(batch: seq<Stored>, limit: nat, sequence: nat)
  {
    |batch| == limit && forall i | 0 <= i < |batch| :: batch[i].sequence < sequence
  }

  /** On numbered rows a batch is the next entries, without a gap, as many as there are up to the limit. */
  lemma BatchIsNextRun(rows: Rows, id: ExecutionId, n: nat, after: nat, limit: nat, batch: seq<Stored>)
    requires Numbered(rows, id, n) && IsBatch(rows, id, after, limit, batch)
    ensures forall i | 0 <= i < |batch| :: batch[i].sequence == after + 1 + i
    ensures after + |batch| <= n || batch == []
    ensures |batch| < limit ==> n <= after + |batch|
  {
    forall i | 0 <= i < |batch|
      ensures batch[i].sequence == after + 1 + i
    {
      RunAt(rows, id, n, after, limit, batch, i);
    }
    if batch != [] {
      assert Key(id, batch[|batch| - 1].sequence) in rows;
    }
    if |batch| < limit && n > after {
      assert Key(id, n) in rows && Holds(batch, n);
    }
  }

  lemma {:induction false} RunAt(rows: Rows, id: ExecutionId, n: nat, after: nat, limit: nat, batch: seq<Stored>, i: nat)
    requires Numbered(rows, id, n) && IsBatch(rows, id, after, limit, batch) && i < |batch|
    ensures batch[i].sequence == after + 1 + i
  {
    if i > 0 {
      RunAt(rows, id, n, after, limit, batch, i - 1);
    }
    var next := after + 1 + i;
    assert next <= batch[i].sequence && Key(id, batch[i].sequence) in rows;
    assert Key(id, next) in rows && Holds(batch, next);
    var j :| 0 <= j < |batch| && batch[j].sequence == next;
    assert j == i;
  }

  function NextRun(rows: Rows, id: ExecutionId, n: nat, after: nat, size: nat): seq<Stored>
    requires Numbered(rows, id, n) && (size > 0 ==> after + size <= n)
  {
    seq(size, i requires 0 <= i < size => Stored(after + 1 + i, rows[Key(id, after + 1 + i)]))
  }

  /** The query always has an answer. */
  lemma BatchExists(rows: Rows, id: ExecutionId, n: nat, after: nat, limit: nat)
    requires Numbered(rows, id, n)
    ensures exists batch :: IsBatch(rows, id, after, limit, batch)
  {
    var size := if n <= after then 0 else if n - after < limit then n - after else limit;
    var batch := NextRun(rows, id, n, after, size);
    NextRunCovers(rows, id, n, after, limit, size);
    hide Holds, CutOff;
    assert IsBatch(rows, id, after, limit, batch);
  }

  lemma NextRunCovers(rows: Rows, id: ExecutionId, n: nat, after: nat, limit: nat, size: nat)
    requires Numbered(rows, id, n) && (size > 0 ==> after + size <= n) && (size != limit ==> n <= after + size)
    ensures var batch := NextRun(rows, id, n, after, size);
      forall k | k in rows && k.execution == id && k.sequence > after ::
        Holds(batch, k.sequence) || CutOff(batch, limit, k.sequence)
  {
    var batch := NextRun(rows, id, n, after, size);
    forall k | k in rows && k.execution == id && k.sequence > after
      ensures Holds(batch, k.sequence) || CutOff(batch, limit, k.sequence)
    {
      hide Holds;
      if k.sequence <= after + size {
        HeldAt(batch, k.sequence - after - 1);
      }
    }
  }

  lemma HeldAt(batch: seq<Stored>, i: nat)
    requires i < |batch|
    ensures Holds(batch, batch[i].sequence)
  {
  }

  class EventLog {
    var rows: Rows
    ghost var lengths: map<ExecutionId, nat>

    constructor ()
      ensures Inv() && rows == map[]
    {
      rows, lengths := map[], map[];
    }

    ghost function Length(id: ExecutionId): nat
      reads `lengths
    {
      if id in lengths then lengths[id] else 0
    }

    /** Every execution's sequences are gapless. */
    ghost predicate Inv()
      reads this
    {
      forall id: ExecutionId {:trigger Length(id)} :: Numbered(rows, id, Length(id))
    }

    ghost function Log(id: ExecutionId): (log: seq<Payload>)
      requires Inv()
      reads this
      ensures |log| == Length(id)
    {
      Entries(rows, id, Length(id))
    }

    lemma OneLog(id: ExecutionId)
      requires Inv()
      ensures Numbered(rows, id, Length(id)) && Log(id) == Entries(rows, id, Length(id))
    {
    }

    method MaxSequence(id: ExecutionId) returns (m: nat)
      ensures IsMaxSequence(rows, id, m)
    {
      m := 0;
      var todo := rows.Keys;
      while todo != {}
        invariant forall k | k in rows && k !in todo && k.execution == id :: k.sequence <= m
        invariant m == 0 || Key(id, m) in rows
        invariant todo <= rows.Keys
        decreases todo
      {
        var k :| k in todo;
        if k.execution == id && k.sequence > m {
          m := k.sequence;
        }
        todo := todo - {k};
      }
    }

    /** `append_in_transaction`: one more entry for this execution, numbered next. */
    method Append(id: ExecutionId, payload: Payload) returns (sequence: nat)
      requires Inv()
      modifies this
      ensures Inv()
      ensures Log(id) == old(Log(id)) + [payload] && sequence == |Log(id)|
      ensures forall other | other != id :: Log(other) == old(Log(other))
    {
      var m := MaxSequence(id);
      assert Numbered(rows, id, Length(id));
      MaxIsLength(rows, id, Length(id), m);
      sequence := m + 1;
      rows, lengths := rows[Key(id, sequence) := payload], lengths[id := sequence];
      forall other: ExecutionId
        ensures Numbered(rows, other, Length(other))
      {
        assert old(Numbered(rows, other, Length(other)));
      }
      assert forall other: ExecutionId | other != id :: Length(other) == old(Length(other)) && Log(other) == old(Log(other));
    }

    /** `since_batch`, when the store answers. */
    method SinceBatch(id: ExecutionId, after: nat, limit: nat, answers: bool) returns (r: Option<seq<Stored>>)
      requires Inv()
      ensures r.Some? <==> answers
      ensures r.Some? ==> IsBatch(rows, id, after, limit, r.value)
    {
      if !answers { return None; }
      assert Numbered(rows, id, Length(id));
      BatchExists(rows, id, Length(id), after, limit);
      hide IsBatch;
      var batch :| IsBatch(rows, id, after, limit, batch);
      return Some(batch);
    }
  }

  // ------------------------------------------------------------------------------- stream

  /** What ends a wait: time, a broadcast, a broadcast that was missed, or shutdown. */
  datatype Signal = TimedOut | Received | Lagged | Closed

  datatype Progress = Emitted(event: Stored) | Looping | Ended

  class Stream {
    const log: EventLog
    const id: ExecutionId
    var cursor: nat
    var pending: seq<Stored>
    var needsFetch: bool

    ghost const start: nat
    ghost var emitted: seq<Payload>
    ghost var drained: nat      // the length of the log at the last fetch

    ghost predicate Inv()
      reads this, log
    {
      && log.Inv()
      && Exact(log.Log(id), start, cursor, emitted)
      && Queued(log.Log(id), cursor, pending)
      && (!needsFetch ==> drained <= Reach(cursor, pending))
    }

    /** Opened at a cursor with the first batch, which may lie beyond the end of the log. */
    constructor (log: EventLog, id: ExecutionId, cursor: nat, batch: seq<Stored>)
      requires log.Inv() && IsBatch(log.rows, id, cursor, EVENT_BATCH_SIZE, batch)
      ensures Inv() && this.log == log && this.id == id && start == cursor && emitted == []
    {
      assert Numbered(log.rows, id, log.Length(id));
      BatchIsQueued(log.rows, id, log.Length(id), cursor, batch);
      this.log, this.id, this.cursor, pending, needsFetch := log, id, cursor, batch, |batch| == EVENT_BATCH_SIZE;
      start, emitted, drained := cursor, [], log.Length(id);
    }

    /** A bound on the turns until everything now in the log is emitted. */
    ghost function Due(): nat
      requires log.Inv()
      reads this, log
    {
      var ahead := |log.Log(id)| - Reach(cursor, pending);
      |pending| + (if ahead > 0 then 3 * ahead else 0) + if needsFetch then 0 else 1
    }

    /**
      One turn of the loop in `next_event`. It ends the stream only for a store that does not
      answer and for a closed channel; otherwise, as long as the log is ahead, it comes closer.
     */
    method Turn(signal: Signal, answers: bool) returns (p: Progress)
      requires Inv()
      modifies this
      ensures Inv()
      ensures p.Emitted? ==> emitted == old(emitted) + [p.event.payload] && p.event.sequence == cursor == old(cursor) + 1
      ensures !p.Emitted? ==> emitted == old(emitted) && cursor == old(cursor)
      ensures old(pending) != [] ==> !p.Ended? && pending == old(pending)[1..]
      ensures p.Ended? <==> old(pending) == [] && if old(needsFetch) then !answers else signal == Closed
      ensures !p.Ended? && old(cursor) < |log.Log(id)| ==> Due() < old(Due())
      ensures old(pending) == [] && old(needsFetch) && answers ==>
        drained == |log.Log(id)| && (needsFetch <==> |pending| == EVENT_BATCH_SIZE)
      ensures old(pending) == [] && !old(needsFetch) ==>
        drained == old(drained) <= cursor && (signal != Closed ==> needsFetch)
    {
      hide Exact, Queued, Reach, IsBatch, EventLog.Inv, EventLog.Log, EventLog.Length, Numbered, Entries;
      ghost var all := log.Log(id);
      if pending != [] {
        var event := pending[0];
        TakeFirst(all, start, cursor, emitted, pending);
        pending := pending[1..];
        if event.sequence <= cursor { return Looping; }
        emitted := emitted + [event.payload];
        cursor := event.sequence;
        return Emitted(event);
      }
      NothingPending(cursor);
      if needsFetch {
        var fetched := Fetch(answers);
        return if fetched then Looping else Ended;
      }
      if signal == Closed { return Ended; }
      needsFetch := true;
      return Looping;
    }

    method Fetch(answers: bool) returns (fetched: bool)
      requires Inv() && pending == [] && needsFetch
      modifies `pending, `needsFetch, `drained
      ensures Inv() && fetched == answers
      ensures !answers ==> pending == [] && needsFetch && drained == old(drained)
      ensures answers ==> drained == |log.Log(id)| && (needsFetch <==> |pending| == EVENT_BATCH_SIZE)
      ensures answers && cursor < |log.Log(id)| ==> Due() < old(Due())
    {
      hide Exact, Queued, IsBatch, EventLog.Inv, Numbered, Entries;
      var batch := log.SinceBatch(id, cursor, EVENT_BATCH_SIZE, answers);
      if batch.None? { return false; }
      log.OneLog(id);
      NothingPending(cursor);
      BatchIsQueued(log.rows, id, log.Length(id), cursor, batch.value);
      hide Reach;
      needsFetch := |batch.value| == EVENT_BATCH_SIZE;
      assert pending + batch.value == batch.value;
      pending := pending + batch.value;
      drained := log.Length(id);
      return true;
    }

    /** With a store that answers, everything in the log is emitted after a bounded number of turns. */
    method CatchUp() returns (turns: nat)
      requires Inv()
      modifies this
      ensures Inv() && turns <= old(Due())
      ensures |log.Log(id)| <= cursor
      ensures old(cursor) <= |log.Log(id)| ==> emitted == old(emitted) + log.Log(id)[old(cursor)..]
    {
      hide Exact, Queued, Reach, EventLog.Inv, EventLog.Log, Numbered, Entries;
      turns := 0;
      log.OneLog(id);
      var end := log.MaxSequence(id);
      MaxIsLength(log.rows, id, log.Length(id), end);
      ghost var first := cursor;
      while cursor < end
        invariant Inv() && first <= cursor && turns + Due() <= old(Due())
        invariant first <= end ==> cursor <= end
        decreases Due()
      {
        var _ := Turn(TimedOut, true);
        turns := turns + 1;
      }
      EmittedRest(log.Log(id), start, first, old(emitted), cursor, emitted);
    }

    /**
      Any interleaving of turns and appends, to this and other executions: the stream has
      emitted exactly the entries after its starting cursor, and whenever it would wait
      with no fetch due it has emitted everything that was in the log at its last fetch.
     */
    method AnyRun(steps: nat)
      requires Inv()
      modifies this, log
      ensures Inv()
      ensures cursor == start + |emitted| && (emitted != [] ==> cursor <= |log.Log(id)| && emitted == log.Log(id)[start..cursor])
      ensures pending == [] && !needsFetch ==> drained <= cursor
    {
      hide Queued, Reach;
      for i := 0 to steps
        invariant Inv()
      {
        hide Exact;
        var turn: bool, signal: Signal, answers: bool, other: ExecutionId, payload: Payload := *, *, *, *, *;
        if turn {
          var _ := Turn(signal, answers);
        } else {
          ghost var all := log.Log(id);
          var _ := log.Append(other, payload);
          LogGrew(all, log.Log(id), start, cursor, emitted, pending);
        }
      }
      NothingPending(cursor);
    }
  }

  /** Between two cursors exactly the entries in between were emitted. */
  lemma EmittedRest(log: seq<Payload>, start: nat, cursor: nat, emitted: seq<Payload>, now: nat, all: seq<Payload>)
    requires Exact(log, start, cursor, emitted) && Exact(log, start, now, all) && cursor <= now
    ensures now <= |log| ==> all == emitted + log[cursor..now]
  {
    if now <= |log| && all != [] {
      assert all == log[start..cursor] + log[cursor..now];
    }
  }

  lemma NothingPending(cursor: nat)
    ensures Reach(cursor, []) == cursor
  {
  }

  /** The first pending entry is stale, or it is the next one. */
  lemma TakeFirst(log: seq<Payload>, start: nat, cursor: nat, emitted: seq<Payload>, pending: seq<Stored>)
    requires Exact(log, start, cursor, emitted) && Queued(log, cursor, pending) && pending != []
    ensures var first := pending[0];
      if first.sequence <= cursor then Queued(log, cursor, pending[1..]) && Reach(cursor, pending[1..]) == Reach(cursor, pending)
      else
        && first.sequence == cursor + 1
        && Exact(log, start, cursor + 1, emitted + [first.payload])
        && Queued(log, cursor + 1, pending[1..]) && Reach(cursor + 1, pending[1..]) == Reach(cursor, pending)
  {
    QueueShrinks(log, cursor, pending);
    hide Queued;
    if pending[0].sequence > cursor {
      assert emitted + [pending[0].payload] == log[start..cursor + 1];
    }
  }

  lemma QueueShrinks(log: seq<Payload>, cursor: nat, pending: seq<Stored>)
    requires Queued(log, cursor, pending) && pending != []
    ensures var first := pending[0];
      && 1 <= first.sequence <= |log| && first.sequence <= cursor + 1 && first.payload == log[first.sequence - 1]
      && var now := if first.sequence <= cursor then cursor else cursor + 1;
         Queued(log, now, pending[1..]) && Reach(now, pending[1..]) == Reach(cursor, pending)
  {
    var rest := pending[1..];
    assert forall i | 0 <= i < |rest| :: rest[i] == pending[i + 1];
  }

  /** A batch fetched at the cursor can be queued, and reaches the end unless it is full. */
  lemma BatchIsQueued(rows: Rows, id: ExecutionId, n: nat, cursor: nat, batch: seq<Stored>)
    requires Numbered(rows, id, n) && IsBatch(rows, id, cursor, EVENT_BATCH_SIZE, batch)
    ensures Queued(Entries(rows, id, n), cursor, batch)
    ensures |batch| != EVENT_BATCH_SIZE ==> n <= Reach(cursor, batch)
    ensures Reach(cursor, batch) == cursor + |batch| && (cursor < n ==> batch != []) && (batch == [] || cursor + |batch| <= n)
  {
    BatchIsNextRun(rows, id, n, cursor, EVENT_BATCH_SIZE, batch);
  }

  lemma LogGrew(log: seq<Payload>, now: seq<Payload>, start: nat, cursor: nat, emitted: seq<Payload>, pending: seq<Stored>)
    requires Exact(log, start, cursor, emitted) && Queued(log, cursor, pending) && log <= now
    ensures Exact(now, start, cursor, emitted) && Queued(now, cursor, pending)
  {
  }

  /** What was emitted is exactly the log from the starting cursor on, in order. */
  ghost predicate Exact(log: seq<Payload>, start: nat, cursor: nat, emitted: seq<Payload>)
  {
    && cursor == start + |emitted|
    && (emitted != [] ==> cursor <= |log| && emitted == log[start..cursor])
  }

  /** What is pending is a run of the log that starts no later than the next entry. */
  ghost predicate Queued(log: seq<Payload>, cursor: nat, pending: seq<Stored>)
  {
    && (pending != [] ==> 1 <= pending[0].sequence <= cursor + 1)
    && (forall i | 0 <= i < |pending| ::
          && pending[i].sequence == pending[0].sequence + i
          && pending[i].sequence <= |log| && pending[i].payload == log[pending[i].sequence - 1])
  }

  /** How far the log is known: to the cursor, or to the last pending entry. */
  function Reach(cursor: nat, pending: seq<Stored>): nat
  {
    if pending != [] && pending[|pending| - 1].sequence > cursor then pending[|pending| - 1].sequence else cursor
  }
}
