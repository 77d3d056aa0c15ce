/** crates/actor_runtime/src/worker.rs: one worker over the shared tables. Between any two of its
    statements the other workers may run statements of their own; handler outcomes, undecodable
    rows and database errors are arbitrary. */
module Worker {
  import opened Wrappers
  import opened Entries
  import opened Tables
  import opened Protocol
  import Balance
  import Lists
  import D = Database

  datatype Config = Config(
    leaseSeconds: int, batch: nat, maxClaimsPerPass: nat, maxDeliveryAttempts: int, retrySpacingSeconds: nat)

  datatype DrainError = Superseded | Gone | Db

  /** How a drain finished one row of its batch, and the tables that the finishing statement saw. */
  datatype Handled = Delivered(slot: D.Slot, at: Db, verdict: Verdict) | PoisonFailed(slot: D.Slot, at: Db)

  /** What the rest of the system may do to lane `key` while nothing is inserted, promoted or
      requeued on it: rows leave RECEIVED, and versions, checkpoints, attempts, the log and the
      clock move forward. A back-off stamp changes only with a counted attempt. */
  ghost predicate Rely(before: Db, after: Db, key: LaneKey) {
    && before.log <= after.log
    && before.now <= after.now
    && RowsForward(before.messages, after.messages, key)
    && LanesForward(before.registry, after.registry)
  }

  ghost predicate RowsForward(before: Messages, after: Messages, key: LaneKey) {
    && Evolves(before, after)
    && D.ReceivedOn(after, key) <= D.ReceivedOn(before, key)
    && StampsForward(before, after, key)
  }

  ghost predicate StampsForward(before: Messages, after: Messages, key: LaneKey) {
    forall id :: id in before && id in after && before[id].Lane() == key ==> StampForward(before[id], after[id])
  }

  ghost predicate StampForward(before: MessageRow, after: MessageRow) {
    && before.attempts <= after.attempts
    && (before.attempts == after.attempts ==> before.nextAttemptAt == after.nextAttemptAt)
  }

  ghost predicate LanesForward(before: Registry, after: Registry) {
    forall k :: k in before ==>
      && k in after
      && before[k].ownershipVersion <= after[k].ownershipVersion
      && before[k].checkpoint <= after[k].checkpoint
  }

  lemma RelyTransitive(a: Db, b: Db, c: Db, key: LaneKey)
    requires Rely(a, b, key) && Rely(b, c, key)
    ensures Rely(a, c, key)
  {
    forall id | id in a.messages && id in c.messages && a.messages[id].Lane() == key
      ensures StampForward(a.messages[id], c.messages[id])
    {
      assert id in b.messages && b.messages[id].Lane() == key;
    }
  }

  /** Any number of statements by other workers, lane `key` receiving no new rows. */
  method Interfere(db: D.Database, ghost key: LaneKey)
    requires db.Valid()
    modifies db
    ensures db.Valid() && Rely(old(db.State()), db.State(), key)
  {
    var rounds: nat := *;
    while rounds > 0
      invariant db.Valid() && Rely(old(db.State()), db.State(), key)
    {
      OtherStatement(db, key);
      rounds := rounds - 1;
    }
  }

  /** One statement of another worker. */
  method OtherStatement(db: D.Database, ghost key: LaneKey)
    requires db.Valid()
    modifies db
    ensures db.Valid() && Rely(old(db.State()), db.State(), key)
  {
    var choice: nat := *;
    match choice
    case 0 => OtherLeaseStatement(db, key);
    case 1 => OtherRowStatement(db, key);
    case 2 => OtherCompletion(db, key);
    case _ =>
      var later: int := *;
      if db.now < later { db.now := later; }
  }

  method OtherLeaseStatement(db: D.Database, ghost key: LaneKey)
    requires db.Valid()
    modifies db`registry
    ensures db.Valid() && LanesForward(old(db.registry), db.registry)
  {
    var choice: nat, worker: WorkerId, other: LaneKey, version: nat, seconds: nat := *, *, *, *, *;
    match choice
    case 0 => if other in db.registry { db.registry := Take(db.registry, other, worker, db.now + seconds); }
    case 1 => var _ := db.Heartbeat(Lane(other, version, 0), worker, seconds);
    case _ => db.ReleaseLane(Lane(other, version, 0), worker);
  }

  method OtherRowStatement(db: D.Database, ghost key: LaneKey)
    requires db.Valid()
    modifies db
    ensures db.Valid() && Rely(old(db.State()), db.State(), key)
  {
    var choice: nat, id: MessageId, seconds: nat := *, *, *;
    match choice
    case 0 =>
      CountRely(db.State(), id, seconds, key);
      var _ := db.CountDeliveryAttempt(id, seconds);
    case _ =>
      FlipRely(db.State(), id, key);
      var _ := db.FlipExhausted(id);
  }

  method OtherCompletion(db: D.Database, ghost key: LaneKey)
    requires db.Valid()
    modifies db
    ensures db.Valid() && Rely(old(db.State()), db.State(), key)
  {
    var lane: Lane, worker: WorkerId, id: MessageId, position: nat, verdict: Verdict := *, *, *, *, *;
    CompletionRely(db.State(), lane, worker, id, position, verdict, key);
    var _ := db.Complete(lane, worker, id, position, verdict);
  }

  lemma DecideForward(messages: Messages, id: MessageId, verdict: Verdict, sequence: nat, key: LaneKey)
    requires RowsOk(messages, sequence, {})
    ensures RowsForward(messages, Decide(messages, id, verdict), key) && RowsOk(Decide(messages, id, verdict), sequence, {})
  {
    RowDecided(messages, id, verdict, sequence, {});
  }

  lemma CompletionRely(before: Db, lane: Lane, worker: WorkerId, id: MessageId, position: nat, verdict: Verdict, key: LaneKey)
    requires RowsOk(before.messages, before.sequence, {})
    ensures Rely(before, CompleteFenced(before, lane, worker, id, position, verdict).0, key)
    ensures RowsOk(CompleteFenced(before, lane, worker, id, position, verdict).0.messages, before.sequence, {})
  {
    DecideForward(before.messages, id, verdict, before.sequence, key);
  }

  lemma CountRely(before: Db, id: MessageId, spacing: nat, key: LaneKey)
    requires RowsOk(before.messages, before.sequence, {})
    ensures Rely(before, before.(messages := CountAttempt(before.messages, id, spacing, before.now)), key)
  {
    RowCounted(before.messages, id, spacing, before.now, before.sequence, {});
  }

  lemma FlipRely(before: Db, id: MessageId, key: LaneKey)
    requires RowsOk(before.messages, before.sequence, {})
    ensures Rely(before, before.(messages := FlipPoisoned(before.messages, id)), key)
  {
    RowRewritten(before.messages, id, before.sequence, {});
  }

  ghost predicate NoneReceived(messages: Messages, rows: seq<D.Slot>, upTo: nat) {
    forall i :: 0 <= i < upTo && i < |rows| ==> !IsReceived(messages, rows[i].id)
  }

  ghost predicate OnLane(messages: Messages, rows: seq<D.Slot>, key: LaneKey) {
    forall i :: 0 <= i < |rows| ==> rows[i].id in messages && messages[rows[i].id].Lane() == key
  }

  /** Row `i` of the batch was finished, between `from` and `now`, while it was RECEIVED and no
      earlier row of the batch was; a delivered row was finished under live authority, and its
      commit is in the log. */
  ghost predicate FinishedInTurn(h: Handled, rows: seq<D.Slot>, i: nat, from: Db, now: Db, lane: Lane, worker: WorkerId)
    requires i < |rows|
  {
    && h.slot == rows[i] && NoneReceived(h.at.messages, rows, i)
    && Finished(h, from, now, lane, worker)
  }

  /** One row of the lane, RECEIVED when its finishing statement came. */
  ghost predicate Finished(h: Handled, from: Db, now: Db, lane: Lane, worker: WorkerId) {
    && Rely(from, h.at, lane.key) && Rely(h.at, now, lane.key)
    && IsReceived(h.at.messages, h.slot.id) && h.at.messages[h.slot.id].Lane() == lane.key
    && (h.Delivered? ==>
         && Authorised(h.at.registry, lane, worker)
         && h.at.log + [Commit(h.slot.id, lane.key, worker, lane.ownershipVersion, h.slot.position, h.verdict)] <= now.log)
  }

  lemma FinishedSurvives(h: Handled, from: Db, before: Db, after: Db, lane: Lane, worker: WorkerId)
    requires Finished(h, from, before, lane, worker) && Rely(before, after, lane.key)
    ensures Finished(h, from, after, lane, worker)
  {
    RelyTransitive(h.at, before, after, lane.key);
  }

  /** Head-of-line: the rows handled are the first ones of the batch, each finished in turn. */
  ghost predicate HeadOfLine(handled: seq<Handled>, rows: seq<D.Slot>, from: Db, now: Db, lane: Lane, worker: WorkerId) {
    && |handled| <= |rows|
    && forall i :: 0 <= i < |handled| ==> FinishedInTurn(handled[i], rows, i, from, now, lane, worker)
  }

  function DeliveredCount(handled: seq<Handled>): nat {
    if handled == [] then 0
    else DeliveredCount(handled[..|handled| - 1]) + if handled[|handled| - 1].Delivered? then 1 else 0
  }

  /** What a drain knows about its batch survives whatever the others do meanwhile. */
  ghost predicate Progress(handled: seq<Handled>, rows: seq<D.Slot>, from: Db, now: Db, lane: Lane, worker: WorkerId) {
    && Rely(from, now, lane.key)
    && OnLane(now.messages, rows, lane.key)
    && HeadOfLine(handled, rows, from, now, lane, worker)
    && NoneReceived(now.messages, rows, |handled|)
  }

  lemma ProgressSurvives(handled: seq<Handled>, rows: seq<D.Slot>, from: Db, before: Db, after: Db, lane: Lane, worker: WorkerId)
    requires Progress(handled, rows, from, before, lane, worker) && Rely(before, after, lane.key)
    ensures Progress(handled, rows, from, after, lane, worker)
  {
    RelyTransitive(from, before, after, lane.key);
    forall i | 0 <= i < |handled| ensures FinishedInTurn(handled[i], rows, i, from, after, lane, worker) {
      assert FinishedInTurn(handled[i], rows, i, from, before, lane, worker);
      FinishedSurvives(handled[i], from, before, after, lane, worker);
    }
    forall i | 0 <= i < |handled| && i < |rows| ensures !IsReceived(after.messages, rows[i].id) {
      assert rows[i].id !in D.ReceivedOn(before.messages, lane.key);
      assert rows[i].id in before.messages && after.messages[rows[i].id].Lane() == lane.key;
      assert rows[i].id !in D.ReceivedOn(after.messages, lane.key);
    }
  }

  lemma ProgressNext(handled: seq<Handled>, h: Handled, rows: seq<D.Slot>, from: Db, now: Db, lane: Lane, worker: WorkerId)
    requires Progress(handled, rows, from, now, lane, worker) && |handled| < |rows|
    requires FinishedInTurn(h, rows, |handled|, from, now, lane, worker)
    requires !IsReceived(now.messages, rows[|handled|].id)
    ensures Progress(handled + [h], rows, from, now, lane, worker)
    ensures DeliveredCount(handled + [h]) == DeliveredCount(handled) + if h.Delivered? then 1 else 0
  {
    var next := handled + [h];
    assert next[..|next| - 1] == handled;
    forall i | 0 <= i < |next| ensures FinishedInTurn(next[i], rows, i, from, now, lane, worker) {
      assert i < |handled| ==> FinishedInTurn(handled[i], rows, i, from, now, lane, worker);
    }
  }

  /** `next_attempt_at` still in the future. */
  predicate Paced(row: D.Slot, now: int) {
    row.nextAttemptAt.Some? && row.nextAttemptAt.value > now
  }

  datatype BatchOutcome = Drained | Waiting | Stopped(error: DrainError)

  /** A row finished by one statement: progress by one, seen from before its turn to after it. */
  lemma RowFinished(handled: seq<Handled>, h: Handled, rows: seq<D.Slot>, from: Db, before: Db, now: Db, lane: Lane, worker: WorkerId)
    requires Progress(handled, rows, from, before, lane, worker) && |handled| < |rows| && h.slot == rows[|handled|]
    requires Rely(before, h.at, lane.key) && Rely(h.at, now, lane.key)
    requires IsReceived(h.at.messages, h.slot.id) && !IsReceived(now.messages, h.slot.id)
    requires h.Delivered? ==>
               && Authorised(h.at.registry, lane, worker)
               && now.log == h.at.log + [Commit(h.slot.id, lane.key, worker, lane.ownershipVersion, h.slot.position, h.verdict)]
    ensures Progress(handled + [h], rows, from, now, lane, worker)
    ensures DeliveredCount(handled + [h]) == DeliveredCount(handled) + if h.Delivered? then 1 else 0
  {
    ProgressSurvives(handled, rows, from, before, h.at, lane, worker);
    ProgressSurvives(handled, rows, from, h.at, now, lane, worker);
    assert FinishedInTurn(h, rows, |handled|, from, now, lane, worker);
    ProgressNext(handled, h, rows, from, now, lane, worker);
  }

  /** Everything a lane's drain finished, over all its batches, strictly by position. */
  ghost predicate DrainedInOrder(handled: seq<Handled>, from: Db, now: Db, lane: Lane, worker: WorkerId) {
    && (forall i, j :: 0 <= i < j < |handled| ==> handled[i].slot.position < handled[j].slot.position)
    && (forall i :: 0 <= i < |handled| ==> FinishedRow(handled[i], from, now, lane, worker))
  }

  /** Finished, and not RECEIVED since; the position is the row's own. */
  ghost predicate FinishedRow(h: Handled, from: Db, now: Db, lane: Lane, worker: WorkerId) {
    && Finished(h, from, now, lane, worker) && h.at.messages[h.slot.id].position == Some(h.slot.position)
    && !IsReceived(now.messages, h.slot.id)
  }

  lemma FinishedRowSurvives(h: Handled, from: Db, before: Db, after: Db, lane: Lane, worker: WorkerId)
    requires FinishedRow(h, from, before, lane, worker) && Rely(before, after, lane.key)
    ensures FinishedRow(h, from, after, lane, worker)
  {
    FinishedSurvives(h, from, before, after, lane, worker);
    assert h.slot.id !in D.ReceivedOn(before.messages, lane.key);
    assert h.slot.id in before.messages && after.messages[h.slot.id].Lane() == lane.key;
    assert h.slot.id !in D.ReceivedOn(after.messages, lane.key);
  }

  /** What is still RECEIVED on the lane lies beyond everything handled. */
  ghost predicate Remaining(messages: Messages, key: LaneKey, handled: seq<Handled>) {
    forall id, i :: id in D.ReceivedOn(messages, key) && 0 <= i < |handled| ==> RowAfter(messages, id, handled[i].slot.position)
  }

  ghost predicate RowAfter(messages: Messages, id: MessageId, position: nat)
    requires id in messages
  {
    messages[id].position.Some? && position < messages[id].position.value
  }

  lemma RemainingSurvives(before: Db, after: Db, key: LaneKey, handled: seq<Handled>)
    requires Rely(before, after, key) && Remaining(before.messages, key, handled)
    ensures Remaining(after.messages, key, handled)
  {
    forall id, i | id in D.ReceivedOn(after.messages, key) && 0 <= i < |handled|
      ensures RowAfter(after.messages, id, handled[i].slot.position)
    {
      assert id in D.ReceivedOn(before.messages, key) && RowAfter(before.messages, id, handled[i].slot.position);
    }
  }

  lemma DrainedSurvives(handled: seq<Handled>, from: Db, before: Db, after: Db, lane: Lane, worker: WorkerId)
    requires DrainedInOrder(handled, from, before, lane, worker) && Rely(before, after, lane.key)
    ensures DrainedInOrder(handled, from, after, lane, worker)
  {
    forall i | 0 <= i < |handled| ensures FinishedRow(handled[i], from, after, lane, worker) {
      FinishedRowSurvives(handled[i], from, before, after, lane, worker);
    }
  }

  /** A row finished in its turn of a batch is finished as the drain as a whole sees it. */
  lemma TurnFinishesRow(
    handled: seq<Handled>, rows: seq<D.Slot>, i: nat, limit: nat, start: Db, read: Db, now: Db, lane: Lane, worker: WorkerId)
    requires Rely(start, read, lane.key) && D.IsBatch(read.messages, lane.key, limit, rows)
    requires Progress(handled, rows, read, now, lane, worker) && i < |handled|
    ensures FinishedRow(handled[i], start, now, lane, worker) && handled[i].slot == rows[i]
    ensures rows[i].id in D.ReceivedOn(read.messages, lane.key) && read.messages[rows[i].id].position == Some(rows[i].position)
  {
    assert FinishedInTurn(handled[i], rows, i, read, now, lane, worker);
    assert D.IsSlot(read.messages, lane.key, rows[i]);
    RelyTransitive(start, read, handled[i].at, lane.key);
  }

  /** A handled prefix of a batch extends what the drain had handled before it. */
  lemma BatchExtends(
    earlier: seq<Handled>, handled: seq<Handled>, rows: seq<D.Slot>, limit: nat, start: Db, read: Db, now: Db, lane: Lane, worker: WorkerId)
    requires DrainedInOrder(earlier, start, read, lane, worker) && Remaining(read.messages, lane.key, earlier)
    requires Rely(start, read, lane.key) && D.IsBatch(read.messages, lane.key, limit, rows)
    requires Progress(handled, rows, read, now, lane, worker)
    ensures Rely(start, now, lane.key) && DrainedInOrder(earlier + handled, start, now, lane, worker)
  {
    RelyTransitive(start, read, now, lane.key);
    var all := earlier + handled;
    DrainedSurvives(earlier, start, read, now, lane, worker);
    forall i | 0 <= i < |handled|
      ensures FinishedRow(handled[i], start, now, lane, worker) && handled[i].slot == rows[i]
      ensures forall j :: 0 <= j < |earlier| ==> earlier[j].slot.position < rows[i].position
    {
      TurnFinishesRow(handled, rows, i, limit, start, read, now, lane, worker);
      forall j | 0 <= j < |earlier| ensures earlier[j].slot.position < rows[i].position {
        assert RowAfter(read.messages, rows[i].id, earlier[j].slot.position);
      }
    }
    forall i | 0 <= i < |all| ensures FinishedRow(all[i], start, now, lane, worker) {
      assert i < |earlier| ==> FinishedRow(earlier[i], start, now, lane, worker);
      assert i >= |earlier| ==> FinishedRow(handled[i - |earlier|], start, now, lane, worker);
    }
  }

  /** After a batch drained to its end, what is left lies beyond it, and is nothing at all when
      the batch was not full. */
  lemma BatchLeaves(handled: seq<Handled>, rows: seq<D.Slot>, limit: nat, read: Db, now: Db, lane: Lane, worker: WorkerId)
    requires D.IsBatch(read.messages, lane.key, limit, rows)
    requires Progress(handled, rows, read, now, lane, worker)
    ensures forall id :: id in D.ReceivedOn(now.messages, lane.key) ==>
              (exists j :: |handled| <= j < |rows| && rows[j].id == id) || (|rows| == limit && D.Beyond(read.messages, rows, id))
  {
    forall id | id in D.ReceivedOn(now.messages, lane.key)
      ensures (exists j :: |handled| <= j < |rows| && rows[j].id == id) || (|rows| == limit && D.Beyond(read.messages, rows, id))
    {
      assert id in D.ReceivedOn(read.messages, lane.key);
      if D.Selected(rows, id) {
        var j :| 0 <= j < |rows| && rows[j].id == id;
        assert j >= |handled|;
      }
    }
  }

  lemma RemainingAfterBatch(
    earlier: seq<Handled>, handled: seq<Handled>, rows: seq<D.Slot>, limit: nat, read: Db, now: Db, lane: Lane, worker: WorkerId)
    requires D.IsBatch(read.messages, lane.key, limit, rows) && Remaining(read.messages, lane.key, earlier)
    requires Progress(handled, rows, read, now, lane, worker) && |handled| == |rows|
    ensures Remaining(now.messages, lane.key, earlier + handled)
    ensures |rows| < limit ==> D.ReceivedOn(now.messages, lane.key) == {}
    ensures |rows| == limit > 0 ==> D.ReceivedOn(now.messages, lane.key) < D.ReceivedOn(read.messages, lane.key)
  {
    BatchLeaves(handled, rows, limit, read, now, lane, worker);
    RemainingSurvives(read, now, lane.key, earlier);
    var all := earlier + handled;
    forall id, i | id in D.ReceivedOn(now.messages, lane.key) && 0 <= i < |all| ensures RowAfter(now.messages, id, all[i].slot.position) {
      if i < |earlier| {
        assert RowAfter(now.messages, id, earlier[i].slot.position);
      } else {
        assert FinishedInTurn(handled[i - |earlier|], rows, i - |earlier|, read, now, lane, worker);
        assert D.Beyond(read.messages, rows, id);
      }
    }
    if |rows| > 0 {
      assert D.IsSlot(read.messages, lane.key, rows[0]);
      assert rows[0].id !in D.ReceivedOn(now.messages, lane.key);
    }
  }

  lemma {:induction false} CountConcat(a: seq<Handled>, b: seq<Handled>)
    ensures DeliveredCount(a + b) == DeliveredCount(a) + DeliveredCount(b)
  {
    if b == [] {
      assert a + b == a;
    } else {
      var ab := a + b;
      assert ab[..|ab| - 1] == a + b[..|b| - 1];
      CountConcat(a, b[..|b| - 1]);
    }
  }

  lemma BatchOnLane(messages: Messages, key: LaneKey, limit: nat, rows: seq<D.Slot>)
    requires D.IsBatch(messages, key, limit, rows)
    ensures OnLane(messages, rows, key)
    ensures rows == [] && limit > 0 ==> D.ReceivedOn(messages, key) == {}
  {
    forall i | 0 <= i < |rows| ensures rows[i].id in messages && messages[rows[i].id].Lane() == key {
      assert D.IsSlot(messages, key, rows[i]);
    }
  }

  /** The row a drain halted at, and the tables it was read from. */
  datatype Halt = Halt(read: Db, row: D.Slot)

  /** Read as a RECEIVED row of the lane, during the drain. */
  ghost predicate HaltedAt(start: Db, now: Db, key: LaneKey, halt: Option<Halt>) {
    && halt.Some? && Rely(start, halt.value.read, key) && Rely(halt.value.read, now, key)
    && D.IsSlot(halt.value.read.messages, key, halt.value.row)
  }

  /** Halted at the head of the lane, inside the back-off stamped on it. */
  ghost predicate HeadPaced(start: Db, now: Db, key: LaneKey, halt: Option<Halt>) {
    && HaltedAt(start, now, key, halt) && Paced(halt.value.row, now.now)
    && forall id :: id in D.ReceivedOn(now.messages, key) ==> NotBefore(now.messages, id, halt.value.row.position)
  }

  ghost predicate NotBefore(messages: Messages, id: MessageId, position: nat)
    requires id in messages
  {
    messages[id].position.Some? && position <= messages[id].position.value
  }

  /** Halted at a row that somebody else had finished. */
  ghost predicate RowGone(start: Db, now: Db, key: LaneKey, halt: Option<Halt>) {
    HaltedAt(start, now, key, halt) && !IsReceived(now.messages, halt.value.row.id)
  }

  /** So a drain that changed nothing may report a paced head only of a lane that has one: the row
      it names is the lane's first, RECEIVED, and carries that very stamp. */
  lemma IdleHaltIsReal(now: Db, key: LaneKey, halt: Option<Halt>)
    requires HeadPaced(now, now, key, halt)
    ensures D.IsSlot(now.messages, key, halt.value.row)
    ensures forall id :: id in D.ReceivedOn(now.messages, key) ==> NotBefore(now.messages, id, halt.value.row.position)
  {
    var id, read := halt.value.row.id, halt.value.read.messages;
    assert id in D.ReceivedOn(now.messages, key);
    assert StampForward(read[id], now.messages[id]) && StampForward(now.messages[id], read[id]);
  }

  /** Unless somebody counted an attempt meanwhile, the stamp the drain read is the stamp the row
      has: the drain waits for a row that is still waiting. */
  lemma PacedRowStillPaced(start: Db, now: Db, key: LaneKey, halt: Option<Halt>)
    requires HeadPaced(start, now, key, halt)
    requires now.messages[halt.value.row.id].attempts == halt.value.read.messages[halt.value.row.id].attempts
    ensures now.messages[halt.value.row.id].nextAttemptAt.Some? && now.messages[halt.value.row.id].nextAttemptAt.value > now.now
  {
    assert StampForward(halt.value.read.messages[halt.value.row.id], now.messages[halt.value.row.id]);
  }

  lemma WaitingAtHead(handled: seq<Handled>, rows: seq<D.Slot>, limit: nat, start: Db, read: Db, now: Db, lane: Lane, worker: WorkerId)
    requires Rely(start, read, lane.key) && D.IsBatch(read.messages, lane.key, limit, rows)
    requires Progress(handled, rows, read, now, lane, worker) && |handled| < |rows| && Paced(rows[|handled|], now.now)
    ensures HeadPaced(start, now, lane.key, Some(Halt(read, rows[|handled|])))
  {
    BatchLeaves(handled, rows, limit, read, now, lane, worker);
    assert D.IsSlot(read.messages, lane.key, rows[|handled|]);
    forall id | id in D.ReceivedOn(now.messages, lane.key) ensures NotBefore(now.messages, id, rows[|handled|].position) {
      assert id in D.ReceivedOn(read.messages, lane.key);
      if j :| |handled| <= j < |rows| && rows[j].id == id {
        assert D.IsSlot(read.messages, lane.key, rows[j]);
      } else {
        assert D.Beyond(read.messages, rows, id);
      }
    }
  }

  /** How one turn of the batch loop ended. */
  datatype Turn = More | Done | Failed(error: DrainError)

  /** What a turn of the batch loop leaves: more to do on a shorter lane, an end that says why, or an
      error that says what was found. */
  ghost predicate TurnEnds(
    turn: Turn, start: Db, before: Messages, now: Db, handled: seq<Handled>, halt: Option<Halt>, lane: Lane, worker: WorkerId, batch: nat)
  {
    && Rely(start, now, lane.key) && DrainedInOrder(handled, start, now, lane, worker)
    && match turn
       case More =>
         Remaining(now.messages, lane.key, handled) && D.ReceivedOn(now.messages, lane.key) < D.ReceivedOn(before, lane.key)
       case Done =>
         batch > 0 ==> D.ReceivedOn(now.messages, lane.key) == {} || HeadPaced(start, now, lane.key, halt)
       case Failed(e) =>
         && (e == Superseded ==> !Authorised(now.registry, lane, worker))
         && (e == Gone ==> RowGone(start, now, lane.key, halt))
  }

  /** A batch that stopped short ends its turn. */
  lemma StoppedShort(
    outcome: BatchOutcome, earlier: seq<Handled>, handled: seq<Handled>, rows: seq<D.Slot>, batch: nat, start: Db, read: Db, now: Db, lane: Lane, worker: WorkerId)
    requires DrainedInOrder(earlier, start, read, lane, worker) && Remaining(read.messages, lane.key, earlier)
    requires Rely(start, read, lane.key) && D.IsBatch(read.messages, lane.key, batch, rows)
    requires Progress(handled, rows, read, now, lane, worker) && |handled| < |rows|
    requires outcome.Waiting? ==> Paced(rows[|handled|], now.now)
    requires outcome == Stopped(Superseded) ==> !Authorised(now.registry, lane, worker)
    requires outcome == Stopped(Gone) ==> !IsReceived(now.messages, rows[|handled|].id)
    requires !outcome.Drained?
    ensures TurnEnds(if outcome.Stopped? then Turn.Failed(outcome.error) else Done, start, read.messages, now, earlier + handled,
                     Some(Halt(read, rows[|handled|])), lane, worker, batch)
  {
    BatchExtends(earlier, handled, rows, batch, start, read, now, lane, worker);
    assert HaltedAt(start, now, lane.key, Some(Halt(read, rows[|handled|])));
    if outcome.Waiting? {
      WaitingAtHead(handled, rows, batch, start, read, now, lane, worker);
    }
  }

  /** One that went through ends it exactly if it was not full. */
  lemma WentThrough(
    earlier: seq<Handled>, handled: seq<Handled>, rows: seq<D.Slot>, batch: nat, start: Db, read: Db, now: Db, lane: Lane, worker: WorkerId)
    requires DrainedInOrder(earlier, start, read, lane, worker) && Remaining(read.messages, lane.key, earlier)
    requires Rely(start, read, lane.key) && D.IsBatch(read.messages, lane.key, batch, rows)
    requires Progress(handled, rows, read, now, lane, worker) && |handled| == |rows| > 0
    ensures TurnEnds(if |rows| < batch then Done else More, start, read.messages, now, earlier + handled, None, lane, worker, batch)
  {
    BatchExtends(earlier, handled, rows, batch, start, read, now, lane, worker);
    RemainingAfterBatch(earlier, handled, rows, batch, read, now, lane, worker);
  }

  // ---- the list of lanes ---------------------------------------------------------------------

  /** `SELECT DISTINCT partition` over the deliverable rows: the idle gate. */
  function PartitionsWithWork(messages: Messages, actorType: string): set<int> {
    set id | id in messages && messages[id].status == Received && messages[id].entry.actorType == actorType
      :: messages[id].entry.partition
  }

  function WithWork(lanes: seq<Lane>, partitions: set<int>): seq<Lane> {
    if lanes == [] then []
    else (if lanes[0].key.partition in partitions then [lanes[0]] else []) + WithWork(lanes[1..], partitions)
  }

  lemma NoWork(lanes: seq<Lane>)
    ensures WithWork(lanes, {}) == []
  {
  }

  /** The drains that make the worker forget the lane they ran under. */
  predicate Drops(outcome: Result<nat, DrainError>) {
    outcome == Err(Superseded) || outcome == Err(Gone)
  }

  function DroppedTokens(drained: seq<Lane>, outcomes: seq<Result<nat, DrainError>>): set<(LaneKey, nat)>
    requires |drained| == |outcomes|
  {
    set i | 0 <= i < |drained| && Drops(outcomes[i]) :: Token(drained[i])
  }

  function Total(outcomes: seq<Result<nat, DrainError>>): nat {
    if outcomes == [] then 0
    else Total(outcomes[..|outcomes| - 1]) + (if outcomes[|outcomes| - 1].Ok? then outcomes[|outcomes| - 1].value else 0)
  }

  /** The record of one lane's drain. */
  datatype LaneTurn = LaneTurn(outcome: Result<nat, DrainError>, before: Db, after: Db, handled: seq<Handled>, halt: Option<Halt>)

  /** What `drain_lane` guarantees of it. */
  ghost predicate TookTurn(turn: LaneTurn, lane: Lane, worker: WorkerId, batch: nat) {
    && Rely(turn.before, turn.after, lane.key)
    && DrainedInOrder(turn.handled, turn.before, turn.after, lane, worker)
    && (turn.outcome.Ok? ==> turn.outcome.value == DeliveredCount(turn.handled))
    && (turn.outcome.Ok? && batch > 0 ==>
         D.ReceivedOn(turn.after.messages, lane.key) == {} || HeadPaced(turn.before, turn.after, lane.key, turn.halt))
    && (turn.outcome == Err(Gone) ==> RowGone(turn.before, turn.after, lane.key, turn.halt))
    && (turn.outcome == Err(Superseded) ==> !Authorised(turn.after.registry, lane, worker))
  }

  ghost predicate Follows(turns: seq<LaneTurn>, i: nat, start: Db)
    requires i < |turns|
  {
    turns[i].before == if i == 0 then start else turns[i - 1].after
  }

  /** One turn after the other, each starting where the one before ended. */
  ghost predicate TookTurns(turns: seq<LaneTurn>, drained: seq<Lane>, start: Db, end: Db, worker: WorkerId, batch: nat) {
    && |turns| == |drained|
    && (forall i :: 0 <= i < |turns| ==> TookTurn(turns[i], drained[i], worker, batch))
    && (forall i :: 0 <= i < |turns| ==> Follows(turns, i, start))
    && end == if turns == [] then start else turns[|turns| - 1].after
  }

  lemma TurnNext(drained: seq<Lane>, turns: seq<LaneTurn>, start: Db, lane: Lane, turn: LaneTurn, worker: WorkerId, batch: nat)
    requires TookTurns(turns, drained, start, turn.before, worker, batch) && TookTurn(turn, lane, worker, batch)
    ensures TookTurns(turns + [turn], drained + [lane], start, turn.after, worker, batch)
  {
    var all, lanes := turns + [turn], drained + [lane];
    forall i | 0 <= i < |all| ensures TookTurn(all[i], lanes[i], worker, batch) {
      assert i < |turns| ==> TookTurn(turns[i], drained[i], worker, batch);
    }
    forall i | 0 <= i < |all| ensures Follows(all, i, start) {
      assert i < |turns| ==> Follows(turns, i, start);
    }
  }

  lemma OutcomesNext(owned: seq<Lane>, drained: seq<Lane>, turns: seq<LaneTurn>, lane: Lane, turn: LaneTurn)
    requires |turns| == |drained|
    ensures
      var before := Without(owned, DroppedTokens(drained, Outcomes(turns)));
      Without(owned, DroppedTokens(drained + [lane], Outcomes(turns + [turn])))
      == if Drops(turn.outcome) then Retain(before, Token(lane)) else before
    ensures Total(Outcomes(turns + [turn])) == Total(Outcomes(turns)) + if turn.outcome.Ok? then turn.outcome.value else 0
  {
    assert Outcomes(turns + [turn]) == Outcomes(turns) + [turn.outcome];
    DroppedNext(owned, drained, Outcomes(turns), lane, turn.outcome);
  }

  /** The pass after its first `i` lanes: their turns, the list they left, and the sum so far. */
  ghost predicate PassSoFar(
    owned: seq<Lane>, waiting: seq<Lane>, i: nat, turns: seq<LaneTurn>, lanes: seq<Lane>, delivered: nat,
    start: Db, now: Db, worker: WorkerId, batch: nat)
  {
    && i <= |waiting| && TookTurns(turns, waiting[..i], start, now, worker, batch)
    && lanes == Without(owned, DroppedTokens(waiting[..i], Outcomes(turns))) && delivered == Total(Outcomes(turns))
  }

  lemma PassNext(
    owned: seq<Lane>, waiting: seq<Lane>, i: nat, turns: seq<LaneTurn>, lanes: seq<Lane>, delivered: nat,
    start: Db, turn: LaneTurn, worker: WorkerId, batch: nat)
    requires i < |waiting| && PassSoFar(owned, waiting, i, turns, lanes, delivered, start, turn.before, worker, batch)
    requires TookTurn(turn, waiting[i], worker, batch)
    ensures PassSoFar(
      owned, waiting, i + 1, turns + [turn],
      if Drops(turn.outcome) then Retain(lanes, Token(waiting[i])) else lanes,
      if turn.outcome.Ok? then delivered + turn.outcome.value else delivered,
      start, turn.after, worker, batch)
  {
    assert waiting[..i + 1] == waiting[..i] + [waiting[i]];
    TurnNext(waiting[..i], turns, start, waiting[i], turn, worker, batch);
    OutcomesNext(owned, waiting[..i], turns, waiting[i], turn);
  }

  function Outcomes(turns: seq<LaneTurn>): (outcomes: seq<Result<nat, DrainError>>)
    ensures |outcomes| == |turns|
  {
    seq(|turns|, i requires 0 <= i < |turns| => turns[i].outcome)
  }

  /** `retain`: everything but this claim, a fresher one of the same partition included. */
  function Retain(lanes: seq<Lane>, token: (LaneKey, nat)): seq<Lane> {
    Without(lanes, {token})
  }

  function Without(lanes: seq<Lane>, tokens: set<(LaneKey, nat)>): seq<Lane> {
    Lists.Without(lanes, Token, tokens)
  }

  lemma {:induction false} WithoutNone(lanes: seq<Lane>)
    ensures Without(lanes, DroppedTokens([], [])) == lanes
  {
    if lanes != [] { WithoutNone(lanes[1..]); }
  }

  /** What stays in the list is exactly what was not dropped. */
  lemma WithoutKeeps(lanes: seq<Lane>, tokens: set<(LaneKey, nat)>, lane: Lane)
    ensures lane in Without(lanes, tokens) <==> lane in lanes && Token(lane) !in tokens
  {
    Lists.WithoutMember(lanes, Token, tokens, lane);
  }

  lemma DroppedNext(owned: seq<Lane>, drained: seq<Lane>, outcomes: seq<Result<nat, DrainError>>, lane: Lane, outcome: Result<nat, DrainError>)
    requires |drained| == |outcomes|
    ensures
      var before := Without(owned, DroppedTokens(drained, outcomes));
      Without(owned, DroppedTokens(drained + [lane], outcomes + [outcome]))
      == if Drops(outcome) then Retain(before, Token(lane)) else before
    ensures Total(outcomes + [outcome]) == Total(outcomes) + if outcome.Ok? then outcome.value else 0
  {
    var before, after := DroppedTokens(drained, outcomes), DroppedTokens(drained + [lane], outcomes + [outcome]);
    var more := if Drops(outcome) then {Token(lane)} else {};
    forall t | t in before + more ensures t in after {
      if t in before {
        var i :| 0 <= i < |drained| && Drops(outcomes[i]) && Token(drained[i]) == t;
        assert Drops((outcomes + [outcome])[i]) && Token((drained + [lane])[i]) == t;
      } else {
        assert Drops((outcomes + [outcome])[|drained|]) && Token((drained + [lane])[|drained|]) == t;
      }
    }
    assert after == before + more;
    if Drops(outcome) {
      Lists.WithoutTwice(owned, Token, before, {Token(lane)});
    } else {
      assert before + more == before;
    }
    assert (outcomes + [outcome])[..|outcomes + [outcome]| - 1] == outcomes;
  }

  /** Later, with other workers' statements in between: nobody else moves a lease of this worker's
      without a new version. */
  ghost predicate Since(before: Db, after: Db, worker: WorkerId) {
    && before.now <= after.now
    && LanesForward(before.registry, after.registry)
    && forall k :: k in before.registry && k in after.registry ==> LeaseKept(before.registry[k], after.registry[k], worker)
  }

  ghost predicate LeaseKept(before: PartitionRow, after: PartitionRow, worker: WorkerId) {
    before.claimedBy == Some(worker) && after.ownershipVersion == before.ownershipVersion ==>
      after.claimedBy == Some(worker) && after.leaseUntil == before.leaseUntil
  }

  lemma SinceTransitive(a: Db, b: Db, c: Db, worker: WorkerId)
    requires Since(a, b, worker) && Since(b, c, worker)
    ensures Since(a, c, worker)
  {
    forall k | k in a.registry && k in c.registry ensures LeaseKept(a.registry[k], c.registry[k], worker) {
      assert LeaseKept(a.registry[k], b.registry[k], worker) && LeaseKept(b.registry[k], c.registry[k], worker);
    }
  }

  /** Any number of statements of other workers on the registry; the clock runs on. */
  method InterfereWithLeases(db: D.Database, worker: WorkerId)
    modifies db`registry, db`now
    ensures Since(old(db.State()), db.State(), worker)
  {
    var rounds: nat := *;
    ghost var from := db.State();
    while rounds > 0
      invariant Since(from, db.State(), worker)
    {
      ghost var before := db.State();
      var other: WorkerId := *;
      if other != worker { OthersLease(db, other, worker); }
      SinceTransitive(from, before, db.State(), worker);
      var later: int := *;
      if db.now < later { db.now := later; }
      rounds := rounds - 1;
    }
  }

  /** One registry statement of worker `other`: a take-over, a heartbeat, a release, a checkpoint. */
  method OthersLease(db: D.Database, other: WorkerId, ghost worker: WorkerId)
    requires other != worker
    modifies db`registry
    ensures Since(old(db.State()), db.State(), worker)
  {
    var choice: nat, key: LaneKey, version: nat, seconds: nat, position: nat := *, *, *, *, *;
    var lane := Lane(key, version, 0);
    match choice
    case 0 => if key in db.registry { db.registry := Take(db.registry, key, other, db.now + seconds); }
    case 1 => var _ := db.Heartbeat(lane, other, seconds);
    case 2 => db.ReleaseLane(lane, other);
    case _ =>
      if Authorised(db.registry, lane, other) {
        var row := db.registry[key];
        db.registry := db.registry[key := row.(checkpoint := Greatest(row.checkpoint, position))];
      }
  }

  // ---- steals ---------------------------------------------------------------------------------

  /** The census a steal was decided by, what the stealing statement found, and the lane it took. */
  datatype LaneSteal = LaneSteal(seen: Db, census: Balance.Census, found: Db, lane: Lane)

  /** A census taken, and the registry some time later. */
  ghost predicate Counted(seen: Db, census: Balance.Census, found: Db, actorType: string, worker: WorkerId) {
    Balance.IsCensus(seen.registry, actorType, seen.now, worker, census) && Since(seen, found, worker)
  }

  ghost function VictimsLanes(census: Balance.Census, found: Db, actorType: string): set<LaneKey>
    requires census.largestOther.Some?
  {
    Balance.Holding(found.registry, actorType, found.now, census.largestOther.value.0)
  }

  /** The census said so, and the victim's highest lane of those still live changed hands. */
  ghost predicate Stole(s: LaneSteal, actorType: string, worker: WorkerId, lease: int) {
    && Counted(s.seen, s.census, s.found, actorType, worker) && s.census.Steals()
    && s.lane.key in VictimsLanes(s.census, s.found, actorType)
    && (forall k :: k in VictimsLanes(s.census, s.found, actorType) ==> k.partition <= s.lane.key.partition)
    && s.lane == Returned(s.lane.key, AfterSteal(s, worker, lease).registry[s.lane.key])
  }

  ghost function AfterSteal(s: LaneSteal, worker: WorkerId, lease: int): (after: Db)
    requires s.lane.key in s.found.registry
    ensures s.lane.key in after.registry
  {
    s.found.(registry := Take(s.found.registry, s.lane.key, worker, s.found.now + lease))
  }

  /** Steal after steal, each decided by a census of its own, other workers' statements between any
      two of this worker's. */
  ghost predicate StealsInOrder(from: Db, steals: seq<LaneSteal>, to: Db, actorType: string, worker: WorkerId, lease: int) {
    if steals == [] then Since(from, to, worker)
    else
      var n := |steals| - 1;
      && Stole(steals[n], actorType, worker, lease)
      && StealsInOrder(from, steals[..n], steals[n].seen, actorType, worker, lease)
      && Since(AfterSteal(steals[n], worker, lease), to, worker)
  }

  function Stolen(steals: seq<LaneSteal>): (lanes: seq<Lane>)
    ensures |lanes| == |steals|
  {
    seq(|steals|, i requires 0 <= i < |steals| => steals[i].lane)
  }

  /** The census says stop, or the victim's live lanes have vanished since. */
  ghost predicate NothingToSteal(seen: Db, census: Balance.Census, found: Db, actorType: string, worker: WorkerId) {
    && Counted(seen, census, found, actorType, worker)
    && (census.Steals() ==> VictimsLanes(census, found, actorType) == {})
  }

  lemma StealsLater(from: Db, steals: seq<LaneSteal>, before: Db, later: Db, actorType: string, worker: WorkerId, lease: int)
    requires StealsInOrder(from, steals, before, actorType, worker, lease) && Since(before, later, worker)
    ensures StealsInOrder(from, steals, later, actorType, worker, lease)
  {
    if steals == [] {
      SinceTransitive(from, before, later, worker);
    } else {
      SinceTransitive(AfterSteal(steals[|steals| - 1], worker, lease), before, later, worker);
    }
  }

  lemma StealsNext(from: Db, steals: seq<LaneSteal>, s: LaneSteal, actorType: string, worker: WorkerId, lease: int)
    requires StealsInOrder(from, steals, s.seen, actorType, worker, lease) && Stole(s, actorType, worker, lease)
    ensures StealsInOrder(from, steals + [s], AfterSteal(s, worker, lease), actorType, worker, lease)
  {
    SinceItself(AfterSteal(s, worker, lease), worker);
    var all := steals + [s];
    assert all[..|all| - 1] == steals && all[|all| - 1] == s;
  }

  lemma StolenNext(steals: seq<LaneSteal>, s: LaneSteal)
    ensures Stolen(steals + [s]) == Stolen(steals) + [s.lane]
  {
  }

  lemma SinceItself(db: Db, worker: WorkerId)
    ensures Since(db, db, worker)
  {
  }

  /** Nobody else did anything meanwhile. */
  ghost predicate Undisturbed(from: Db, steals: seq<LaneSteal>, to: Db, worker: WorkerId, lease: int) {
    if steals == [] then from == to
    else
      var n := |steals| - 1;
      && steals[n].lane.key in steals[n].found.registry
      && Undisturbed(from, steals[..n], steals[n].seen, worker, lease)
      && steals[n].found == steals[n].seen && AfterSteal(steals[n], worker, lease) == to
  }

  /** Then the steals of a rebalance are a run of the ones that converge. */
  lemma {:induction false} UndisturbedConverges(
    from: Db, steals: seq<LaneSteal>, to: Db, actorType: string, worker: WorkerId, lease: int) returns (path: seq<Registry>)
    requires StealsInOrder(from, steals, to, actorType, worker, lease) && Undisturbed(from, steals, to, worker, lease) && lease > 0
    ensures |path| == |steals| + 1 && path[0] == from.registry && path[|steals|] == to.registry && to.now == from.now
    ensures Balance.StealRun(path, actorType, from.now, [worker])
  {
    if steals == [] {
      path := [from.registry];
    } else {
      var n := |steals| - 1;
      var s := steals[n];
      var before := UndisturbedConverges(from, steals[..n], s.seen, actorType, worker, lease);
      path := before + [to.registry];
      assert Balance.StealStep(s.seen.registry, to.registry, actorType, from.now, worker, from.now + lease, s.census, s.lane.key);
      assert Balance.SomeSteal(before[n], to.registry, actorType, from.now, [worker]);
      forall i | 0 <= i < |path| - 1 ensures Balance.SomeSteal(path[i], path[i + 1], actorType, from.now, [worker]) {
        if i < n { assert path[i] == before[i] && path[i + 1] == before[i + 1]; }
      }
    }
  }

  // ---- the beat ---------------------------------------------------------------------------------

  ghost function Renewed(found: Db, lane: Lane, worker: WorkerId, lease: int): Db {
    found.(registry := Renew(found.registry, lane, worker, found.now + lease))
  }

  /** Heartbeat after heartbeat in list order, `seen` being what each of them found: some time after
      the one before it, whose renewal still stands. */
  ghost predicate BeatsInOrder(from: Db, seen: seq<Db>, to: Db, lanes: seq<Lane>, worker: WorkerId, lease: int)
    requires |seen| <= |lanes|
  {
    if seen == [] then Since(from, to, worker)
    else
      var n := |seen| - 1;
      && BeatsInOrder(from, seen[..n], seen[n], lanes, worker, lease)
      && Since(Renewed(seen[n], lanes[n], worker, lease), to, worker)
  }

  lemma BeatsNext(from: Db, seen: seq<Db>, before: Db, found: Db, lanes: seq<Lane>, worker: WorkerId, lease: int)
    requires |seen| < |lanes| && BeatsInOrder(from, seen, before, lanes, worker, lease) && Since(before, found, worker)
    ensures BeatsInOrder(from, seen, found, lanes, worker, lease)
    ensures BeatsInOrder(from, seen + [found], Renewed(found, lanes[|seen|], worker, lease), lanes, worker, lease)
  {
    BeatsLater(from, seen, before, found, lanes, worker, lease);
    var all := seen + [found];
    assert all[..|all| - 1] == seen && all[|all| - 1] == found;
  }

  lemma BeatsLater(from: Db, seen: seq<Db>, before: Db, later: Db, lanes: seq<Lane>, worker: WorkerId, lease: int)
    requires |seen| <= |lanes| && BeatsInOrder(from, seen, before, lanes, worker, lease) && Since(before, later, worker)
    ensures BeatsInOrder(from, seen, later, lanes, worker, lease)
  {
    if seen == [] {
      SinceTransitive(from, before, later, worker);
    } else {
      SinceTransitive(Renewed(seen[|seen| - 1], lanes[|seen| - 1], worker, lease), before, later, worker);
    }
  }

  lemma {:induction false} BeatsForward(from: Db, seen: seq<Db>, to: Db, lanes: seq<Lane>, worker: WorkerId, lease: int)
    requires |seen| <= |lanes| && BeatsInOrder(from, seen, to, lanes, worker, lease)
    ensures from.now <= to.now
  {
    if seen != [] { BeatsForward(from, seen[..|seen| - 1], seen[|seen| - 1], lanes, worker, lease); }
  }

  /** A lane that a beat renewed and nobody took since is still this worker's when the beat ends,
      for at least a whole lease from the beat's start, however long the beat took. */
  lemma {:induction false} BeatCovers(from: Db, seen: seq<Db>, to: Db, lanes: seq<Lane>, worker: WorkerId, lease: int, i: nat)
    requires i < |seen| <= |lanes| && BeatsInOrder(from, seen, to, lanes, worker, lease)
    requires Authorised(seen[i].registry, lanes[i], worker)
    ensures lanes[i].key in to.registry
    ensures
      var row := to.registry[lanes[i].key];
      && lanes[i].ownershipVersion <= row.ownershipVersion
      && (row.ownershipVersion == lanes[i].ownershipVersion ==>
            row.claimedBy == Some(worker) && row.leaseUntil.Some? && row.leaseUntil.value >= from.now + lease)
  {
    var n := |seen| - 1;
    var renewed := Renewed(seen[n], lanes[n], worker, lease);
    BeatsForward(from, seen[..n], seen[n], lanes, worker, lease);
    if i < n {
      BeatCovers(from, seen[..n], seen[n], lanes, worker, lease, i);
    }
    assert LeaseKept(renewed.registry[lanes[i].key], to.registry[lanes[i].key], worker);
  }

  /** The lanes whose heartbeat found the claim standing. */
  ghost function StillHeld(lanes: seq<Lane>, seen: seq<Db>, worker: WorkerId): seq<Lane>
    requires |lanes| == |seen|
  {
    if lanes == [] then []
    else
      var n := |lanes| - 1;
      StillHeld(lanes[..n], seen[..n], worker) + (if Authorised(seen[n].registry, lanes[n], worker) then [lanes[n]] else [])
  }

  lemma StillHeldNext(lanes: seq<Lane>, i: nat, seen: seq<Db>, found: Db, worker: WorkerId)
    requires i == |seen| < |lanes|
    ensures StillHeld(lanes[..i + 1], seen + [found], worker)
      == StillHeld(lanes[..i], seen, worker) + (if Authorised(found.registry, lanes[i], worker) then [lanes[i]] else [])
  {
    assert lanes[..i + 1][..i] == lanes[..i] && (seen + [found])[..i] == seen;
  }

  /** After a beat that went through, a lane is in the list exactly if it was there and its claim
      stood when its heartbeat came. */
  lemma {:induction false} StillHeldIff(lanes: seq<Lane>, seen: seq<Db>, worker: WorkerId, lane: Lane)
    requires |lanes| == |seen|
    ensures lane in StillHeld(lanes, seen, worker)
      <==> exists i :: 0 <= i < |lanes| && lanes[i] == lane && Authorised(seen[i].registry, lane, worker)
  {
    if lanes != [] {
      var n := |lanes| - 1;
      StillHeldIff(lanes[..n], seen[..n], worker, lane);
      if i :| 0 <= i < n && lanes[..n][i] == lane && Authorised(seen[..n][i].registry, lane, worker) {
        assert lanes[i] == lane && Authorised(seen[i].registry, lane, worker);
      }
      if i :| 0 <= i < n && lanes[i] == lane && Authorised(seen[i].registry, lane, worker) {
        assert lanes[..n][i] == lane && Authorised(seen[..n][i].registry, lane, worker);
      }
    }
  }

  /** How a drain left one row. */
  datatype RowOutcome = Delivery(verdict: Verdict) | Poison | Wait | Stop(error: DrainError)

  class MailboxWorker {
    const db: D.Database
    const workerId: WorkerId
    const actorType: string
    const config: Config
    var lanes: seq<Lane>

    constructor (db: D.Database, workerId: WorkerId, actorType: string, config: Config)
      ensures this.db == db && this.workerId == workerId && this.actorType == actorType && this.config == config
      ensures lanes == []
    {
      this.db, this.workerId, this.actorType, this.config := db, workerId, actorType, config;
      lanes := [];
    }

    /** `poison_raw`: count the attempt, and at the cap flip the row; two statements, no fence.
        `at` is what the flip saw. */
    method PoisonRaw(id: MessageId, ghost key: LaneKey) returns (flipped: Result<bool, ()>, ghost at: Db)
      requires db.Valid()
      modifies db
      ensures db.Valid() && Rely(old(db.State()), at, key) && Rely(at, db.State(), key)
      ensures
        var counted := old(db.State()).(messages := CountAttempt(old(db.messages), id, config.retrySpacingSeconds, old(db.now)));
        match flipped
        case Err(_) => true
        case Ok(won) =>
          if CapReached(CountedAttempts(old(db.messages), id), config.maxDeliveryAttempts)
          then Rely(counted, at, key) && db.messages == FlipPoisoned(at.messages, id) && won == IsReceived(at.messages, id)
          else !won && db.State() == counted
      ensures flipped == Ok(true) ==> IsReceived(at.messages, id) && !IsReceived(db.messages, id)
    {
      at := db.State();
      var broken: bool := *;
      if broken { return Err(()), at; }
      CountRely(db.State(), id, config.retrySpacingSeconds, key);
      var attempts := db.CountDeliveryAttempt(id, config.retrySpacingSeconds);
      if !CapReached(attempts, config.maxDeliveryAttempts) {
        return Ok(false), at;
      }
      label counted:
      Interfere(db, key);
      RelyTransitive(at, old@counted(db.State()), db.State(), key);
      at := db.State();
      FlipRely(at, id, key);
      broken := *;
      if broken { return Err(()), at; }
      var won := db.FlipExhausted(id);
      return Ok(won), at;
    }

    /** One row of the head-of-line loop: pacing, decoding, delivery, and the poison path. */
    method DrainRow(lane: Lane, row: D.Slot) returns (outcome: RowOutcome, ghost at: Db)
      requires db.Valid()
      modifies db
      ensures db.Valid() && Rely(old(db.State()), at, lane.key) && Rely(at, db.State(), lane.key)
      ensures outcome.Delivery? ==>
                && Authorised(at.registry, lane, workerId)
                && db.log == at.log + [Commit(row.id, lane.key, workerId, lane.ownershipVersion, row.position, outcome.verdict)]
      ensures outcome.Delivery? || outcome.Poison? ==> IsReceived(at.messages, row.id) && !IsReceived(db.messages, row.id)
      ensures outcome.Wait? <==> Paced(row, old(db.now))
      ensures outcome.Wait? ==> db.State() == old(db.State())
      ensures outcome == Stop(Superseded) ==> !Authorised(db.registry, lane, workerId)
      ensures outcome == Stop(Gone) ==> !IsReceived(db.messages, row.id)
    {
      at := db.State();
      if Paced(row, db.now) {
        return Wait, at;
      }
      Interfere(db, lane.key);
      var undeliverable: bool, verdict: Verdict := *, *;
      if undeliverable {
        label failing:
        outcome, at := this.Undelivered(row.id, lane.key);
        RelyTransitive(old(db.State()), old@failing(db.State()), at, lane.key);
        return;
      }
      at := db.State();
      CompletionRely(at, lane, workerId, row.id, row.position, verdict, lane.key);
      var completion := db.Complete(lane, workerId, row.id, row.position, verdict);
      match completion
      case Committed => outcome := RowOutcome.Delivery(verdict);
      case AlreadyCompleted => outcome := Stop(Gone);
      case FencedOut => outcome := Stop(Superseded);
    }

    /** The poison path of a row that could not be decoded or whose transaction failed: past the
        cap the drain goes on, otherwise it stops with a database error. */
    method Undelivered(id: MessageId, ghost key: LaneKey) returns (outcome: RowOutcome, ghost at: Db)
      requires db.Valid()
      modifies db
      ensures db.Valid() && Rely(old(db.State()), at, key) && Rely(at, db.State(), key)
      ensures outcome == Poison || outcome == Stop(DrainError.Db)
      ensures outcome.Poison? ==> IsReceived(at.messages, id) && !IsReceived(db.messages, id)
    {
      var flipped;
      flipped, at := this.PoisonRaw(id, key);
      outcome := if flipped == Ok(true) then Poison else Stop(DrainError.Db);
    }

    /** The next row of a batch, some time after the one before it, seen with what the batch has done
        so far. */
    method DrainNext(lane: Lane, rows: seq<D.Slot>, ghost from: Db, ghost handled: seq<Handled>, i: nat)
      returns (outcome: RowOutcome, ghost now: seq<Handled>)
      requires i == |handled| < |rows|
      requires db.Valid() && Progress(handled, rows, from, db.State(), lane, workerId)
      modifies db
      ensures db.Valid() && Progress(now, rows, from, db.State(), lane, workerId)
      ensures if outcome.Delivery? || outcome.Poison? then |now| == i + 1 else now == handled
      ensures DeliveredCount(now) == DeliveredCount(handled) + if outcome.Delivery? then 1 else 0
      ensures outcome.Wait? ==> Paced(rows[i], db.now)
      ensures outcome == Stop(Superseded) ==> !Authorised(db.registry, lane, workerId)
      ensures outcome == Stop(Gone) ==> !IsReceived(db.messages, rows[i].id)
    {
      ghost var idle := db.State();
      Interfere(db, lane.key);
      ProgressSurvives(handled, rows, from, idle, db.State(), lane, workerId);
      ghost var before := db.State();
      ghost var at;
      outcome, at := this.DrainRow(lane, rows[i]);
      if outcome.Delivery? || outcome.Poison? {
        ghost var h := if outcome.Poison? then PoisonFailed(rows[i], at) else Delivered(rows[i], at, outcome.verdict);
        RowFinished(handled, h, rows, from, before, db.State(), lane, workerId);
        now := handled + [h];
      } else {
        RelyTransitive(before, at, db.State(), lane.key);
        ProgressSurvives(handled, rows, from, before, db.State(), lane, workerId);
        now := handled;
      }
    }

    /** The rows of one batch, head-of-line, until one of them stops the lane. */
    method DrainBatch(lane: Lane, rows: seq<D.Slot>) returns (outcome: BatchOutcome, delivered: nat, ghost handled: seq<Handled>)
      requires db.Valid() && OnLane(db.messages, rows, lane.key)
      modifies db
      ensures db.Valid() && Progress(handled, rows, old(db.State()), db.State(), lane, workerId)
      ensures delivered == DeliveredCount(handled)
      ensures outcome.Drained? <==> |handled| == |rows|
      ensures outcome.Waiting? ==> Paced(rows[|handled|], db.now)
      ensures outcome == Stopped(Superseded) ==> !Authorised(db.registry, lane, workerId)
      ensures outcome == Stopped(Gone) ==> !IsReceived(db.messages, rows[|handled|].id)
    {
      delivered, handled := 0, [];
      ghost var from := db.State();
      for i := 0 to |rows|
        invariant db.Valid() && |handled| == i
        invariant Progress(handled, rows, from, db.State(), lane, workerId)
        invariant delivered == DeliveredCount(handled)
      {
        var row;
        row, handled := this.DrainNext(lane, rows, from, handled, i);
        match row
        case Wait => return Waiting, delivered, handled;
        case Stop(e) => return Stopped(e), delivered, handled;
        case Delivery(_) => delivered := delivered + 1;
        case Poison =>
      }
      outcome := Drained;
    }

    /** One turn of `drain_lane`: a batch, and after a full one the lane's own heartbeat. */
    method NextBatch(lane: Lane, ghost start: Db, ghost earlier: seq<Handled>)
      returns (turn: Turn, delivered: nat, ghost handled: seq<Handled>, ghost halt: Option<Halt>)
      requires db.Valid() && Rely(start, db.State(), lane.key)
      requires DrainedInOrder(earlier, start, db.State(), lane, workerId) && Remaining(db.messages, lane.key, earlier)
      modifies db
      ensures db.Valid() && delivered == DeliveredCount(handled)
      ensures TurnEnds(turn, start, old(db.messages), db.State(), earlier + handled, halt, lane, workerId, config.batch)
    {
      this.Idle(lane, start, earlier);
      ghost var before := db.messages;
      turn, delivered, handled, halt := this.DrainRead(lane, start, earlier);
      assert D.ReceivedOn(before, lane.key) <= D.ReceivedOn(old(db.messages), lane.key);
    }

    /** Whatever the others do between two statements of a drain. */
    method Idle(lane: Lane, ghost start: Db, ghost earlier: seq<Handled>)
      requires db.Valid() && Rely(start, db.State(), lane.key)
      requires DrainedInOrder(earlier, start, db.State(), lane, workerId) && Remaining(db.messages, lane.key, earlier)
      modifies db
      ensures db.Valid() && Rely(start, db.State(), lane.key)
      ensures DrainedInOrder(earlier, start, db.State(), lane, workerId) && Remaining(db.messages, lane.key, earlier)
      ensures D.ReceivedOn(db.messages, lane.key) <= D.ReceivedOn(old(db.messages), lane.key)
    {
      ghost var idle := db.State();
      Interfere(db, lane.key);
      RelyTransitive(start, idle, db.State(), lane.key);
      DrainedSurvives(earlier, start, idle, db.State(), lane, workerId);
      RemainingSurvives(idle, db.State(), lane.key, earlier);
    }

    /** The batch read and what comes of it. */
    method DrainRead(lane: Lane, ghost start: Db, ghost earlier: seq<Handled>)
      returns (turn: Turn, delivered: nat, ghost handled: seq<Handled>, ghost halt: Option<Halt>)
      requires db.Valid() && Rely(start, db.State(), lane.key)
      requires DrainedInOrder(earlier, start, db.State(), lane, workerId) && Remaining(db.messages, lane.key, earlier)
      modifies db
      ensures db.Valid() && delivered == DeliveredCount(handled)
      ensures TurnEnds(turn, start, old(db.messages), db.State(), earlier + handled, halt, lane, workerId, config.batch)
    {
      delivered, handled, halt := 0, [], None;
      assert earlier + handled == earlier;
      var broken: bool := *;
      if broken { return Turn.Failed(DrainError.Db), delivered, handled, halt; }
      var rows := db.Batch(lane.key, config.batch);
      BatchOnLane(db.messages, lane.key, config.batch, rows);
      if rows == [] { return Done, delivered, handled, halt; }
      ghost var read := db.State();
      var outcome;
      outcome, delivered, handled := this.DrainBatch(lane, rows);
      if outcome.Drained? {
        WentThrough(earlier, handled, rows, config.batch, start, read, db.State(), lane, workerId);
        if |rows| < config.batch {
          turn := Done;
        } else {
          turn := this.RenewLane(lane, start, old(db.messages), earlier + handled);
        }
      } else {
        StoppedShort(outcome, earlier, handled, rows, config.batch, start, read, db.State(), lane, workerId);
        turn, halt := if outcome.Stopped? then Turn.Failed(outcome.error) else Done, Some(Halt(read, rows[|handled|]));
      }
    }

    /** The heartbeat between two batches of one lane. */
    method RenewLane(lane: Lane, ghost start: Db, ghost before: Messages, ghost handled: seq<Handled>) returns (turn: Turn)
      requires db.Valid() && TurnEnds(More, start, before, db.State(), handled, None, lane, workerId, config.batch)
      modifies db
      ensures db.Valid() && TurnEnds(turn, start, before, db.State(), handled, None, lane, workerId, config.batch)
    {
      this.Idle(lane, start, handled);
      var broken: bool := *;
      if broken { return Turn.Failed(DrainError.Db); }
      ghost var full := db.State();
      var renewed := db.Heartbeat(lane, workerId, config.leaseSeconds);
      RelyTransitive(start, full, db.State(), lane.key);
      DrainedSurvives(handled, start, full, db.State(), lane, workerId);
      turn := if renewed then More else Turn.Failed(Superseded);
    }

    /** `drain_lane`: batch after batch until the lane is empty, its head is paced, or an error. */
    method DrainLane(lane: Lane) returns (r: Result<nat, DrainError>, ghost handled: seq<Handled>, ghost halt: Option<Halt>)
      requires db.Valid()
      modifies db
      ensures db.Valid() && Rely(old(db.State()), db.State(), lane.key)
      ensures DrainedInOrder(handled, old(db.State()), db.State(), lane, workerId)
      ensures r.Ok? ==> r.value == DeliveredCount(handled)
      ensures r.Ok? && config.batch > 0 ==>
                D.ReceivedOn(db.messages, lane.key) == {} || HeadPaced(old(db.State()), db.State(), lane.key, halt)
      ensures r == Err(Superseded) ==> !Authorised(db.registry, lane, workerId)
      ensures r == Err(Gone) ==> RowGone(old(db.State()), db.State(), lane.key, halt)
    {
      var delivered := 0;
      handled, halt := [], None;
      ghost var start := db.State();
      while true
        invariant db.Valid() && Rely(start, db.State(), lane.key)
        invariant DrainedInOrder(handled, start, db.State(), lane, workerId) && Remaining(db.messages, lane.key, handled)
        invariant delivered == DeliveredCount(handled)
        decreases D.ReceivedOn(db.messages, lane.key)
      {
        var turn, n;
        ghost var some;
        turn, n, some, halt := this.NextBatch(lane, start, handled);
        CountConcat(handled, some);
        delivered, handled := delivered + n, handled + some;
        match turn
        case More =>
        case Done => return Ok(delivered), handled, halt;
        case Failed(e) => return Err(e), handled, halt;
      }
    }

    /** `drain`: every owned lane with work gets its turn, whatever happens on the others; exactly
        the claims that were fenced or found their row gone are forgotten. `turns[i]` is what the
        drain of the i-th lane did, from the tables it found to the tables it left. */
    method Drain() returns (r: Result<nat, ()>, ghost drained: seq<Lane>, ghost turns: seq<LaneTurn>)
      requires db.Valid()
      modifies db, this`lanes
      ensures db.Valid()
      ensures r.Err? ==> drained == []
      ensures r.Ok? ==> drained == WithWork(old(lanes), PartitionsWithWork(old(db.messages), actorType))
      ensures TookTurns(turns, drained, old(db.State()), db.State(), workerId, config.batch)
      ensures lanes == Without(old(lanes), DroppedTokens(drained, Outcomes(turns)))
      ensures r.Ok? ==> r.value == Total(Outcomes(turns))
    {
      drained, turns := [], [];
      WithoutNone(lanes);
      var broken: bool := *;
      if broken { return Err(()), drained, turns; }
      var working := PartitionsWithWork(db.messages, actorType);
      if working == {} {
        NoWork(lanes);
        return Ok(0), drained, turns;
      }
      drained := WithWork(lanes, working);
      var delivered;
      delivered, turns := this.DrainAll(WithWork(lanes, working));
      r := Ok(delivered);
    }

    /** The lanes in turn. */
    method DrainAll(waiting: seq<Lane>) returns (delivered: nat, ghost turns: seq<LaneTurn>)
      requires db.Valid()
      modifies db, this`lanes
      ensures db.Valid()
      ensures TookTurns(turns, waiting, old(db.State()), db.State(), workerId, config.batch)
      ensures lanes == Without(old(lanes), DroppedTokens(waiting, Outcomes(turns))) && delivered == Total(Outcomes(turns))
    {
      delivered, turns := 0, [];
      WithoutNone(lanes);
      ghost var owned, start := lanes, db.State();
      for i := 0 to |waiting|
        invariant db.Valid()
        invariant PassSoFar(owned, waiting, i, turns, lanes, delivered, start, db.State(), workerId, config.batch)
      {
        var outcome;
        ghost var turn;
        outcome, turn := this.DrainTurn(waiting[i]);
        PassNext(owned, waiting, i, turns, lanes, delivered, start, turn, workerId, config.batch);
        if outcome.Ok? { delivered := delivered + outcome.value; }
        if Drops(outcome) { lanes := Retain(lanes, Token(waiting[i])); }
        turns := turns + [turn];
      }
      assert waiting[..|waiting|] == waiting;
    }

    /** The drain of one lane, with its record. */
    method DrainTurn(lane: Lane) returns (outcome: Result<nat, DrainError>, ghost turn: LaneTurn)
      requires db.Valid()
      modifies db
      ensures db.Valid() && turn.outcome == outcome && TookTurn(turn, lane, workerId, config.batch)
      ensures turn.before == old(db.State()) && turn.after == db.State()
    {
      ghost var before := db.State();
      ghost var handled, halt;
      outcome, handled, halt := this.DrainLane(lane);
      turn := LaneTurn(outcome, before, db.State(), handled, halt);
    }

    /** `claim`: the lanes the statement returned join the list. */
    method Claim() returns (r: Result<nat, ()>, ghost chosen: set<LaneKey>)
      modifies db`registry, this`lanes
      ensures r.Err? ==> lanes == old(lanes) && db.registry == old(db.registry)
      ensures r.Ok? ==>
                && D.IsLowest(D.DueLanes(old(db.registry), actorType, db.now), chosen, config.maxClaimsPerPass)
                && db.registry == TakeAll(old(db.registry), chosen, workerId, db.now + config.leaseSeconds)
                && old(lanes) <= lanes && D.AreReturned(lanes[|old(lanes)|..], chosen, db.registry)
                && r.value == |chosen|
    {
      var broken: bool := *;
      if broken { return Err(()), {}; }
      var claimed;
      claimed, chosen := db.ClaimDueLanes(actorType, workerId, config.leaseSeconds, config.maxClaimsPerPass);
      lanes := lanes + claimed;
      assert lanes[|old(lanes)|..] == claimed;
      r := Ok(|claimed|);
    }

    /** One census and the steal it decides, some time after it. */
    method StealOne() returns (r: Result<Option<Lane>, ()>, ghost seen: Db, ghost census: Balance.Census, ghost found: Db)
      modifies db`registry, db`now
      ensures Since(old(db.State()), seen, workerId)
      ensures match r
              case Err(_) => Since(old(db.State()), db.State(), workerId)
              case Ok(None) => NothingToSteal(seen, census, found, actorType, workerId) && Since(found, db.State(), workerId)
              case Ok(Some(lane)) =>
                var s := LaneSteal(seen, census, found, lane);
                Stole(s, actorType, workerId, config.leaseSeconds) && db.State() == AfterSteal(s, workerId, config.leaseSeconds)
    {
      ghost var start := db.State();
      InterfereWithLeases(db, workerId);
      seen, found := db.State(), db.State();
      var c := db.OwnershipCensus(actorType, workerId);
      census := c;
      var broken: bool := *;
      if broken { return Err(()), seen, census, found; }
      if !c.Steals() { return Ok(None), seen, census, found; }
      InterfereWithLeases(db, workerId);
      SinceTransitive(start, seen, db.State(), workerId);
      found := db.State();
      broken := *;
      if broken { return Err(()), seen, census, found; }
      var lane := db.StealFrom(actorType, c.largestOther.value.0, workerId, config.leaseSeconds);
      r := Ok(lane);
    }

    /** The next turn of a rebalance, seen with the steals before it. */
    method StealNext(ghost from: Db, ghost steals: seq<LaneSteal>)
      returns (r: Result<Option<Lane>, ()>, ghost more: seq<LaneSteal>, ghost seen: Db, ghost census: Balance.Census, ghost found: Db)
      requires StealsInOrder(from, steals, db.State(), actorType, workerId, config.leaseSeconds)
      modifies db`registry, db`now
      ensures StealsInOrder(from, more, db.State(), actorType, workerId, config.leaseSeconds)
      ensures match r
              case Ok(Some(lane)) => |more| == |steals| + 1 && Stolen(more) == Stolen(steals) + [lane]
              case _ => more == steals
      ensures r == Ok(None) ==>
                && StealsInOrder(from, steals, seen, actorType, workerId, config.leaseSeconds)
                && NothingToSteal(seen, census, found, actorType, workerId) && Since(found, db.State(), workerId)
    {
      ghost var before := db.State();
      more := steals;
      r, seen, census, found := this.StealOne();
      StealsLater(from, steals, before, seen, actorType, workerId, config.leaseSeconds);
      match r
      case Err(_) => StealsLater(from, steals, before, db.State(), actorType, workerId, config.leaseSeconds);
      case Ok(None) =>
        SinceTransitive(seen, found, db.State(), workerId);
        StealsLater(from, steals, seen, db.State(), actorType, workerId, config.leaseSeconds);
      case Ok(Some(lane)) =>
        more := steals + [LaneSteal(seen, census, found, lane)];
        StolenNext(steals, LaneSteal(seen, census, found, lane));
        StealsNext(from, steals, LaneSteal(seen, census, found, lane), actorType, workerId, config.leaseSeconds);
    }

    /** `rebalance`: a fresh census before each steal, until the census says stop, the victim has
        nothing live left, or the pass bound is reached. */
    method Rebalance() returns (r: Result<nat, ()>, ghost steals: seq<LaneSteal>, ghost seen: Db, ghost census: Balance.Census, ghost found: Db)
      modifies db`registry, db`now, this`lanes
      ensures StealsInOrder(old(db.State()), steals, db.State(), actorType, workerId, config.leaseSeconds)
      ensures lanes == old(lanes) + Stolen(steals)
      ensures |steals| <= config.maxClaimsPerPass && (r.Ok? ==> r.value == |steals|)
      ensures r.Ok? && r.value < config.maxClaimsPerPass ==>
                && StealsInOrder(old(db.State()), steals, seen, actorType, workerId, config.leaseSeconds)
                && NothingToSteal(seen, census, found, actorType, workerId) && Since(found, db.State(), workerId)
    {
      ghost var from, owned := db.State(), lanes;
      var stolen := 0;
      steals, seen, found, census := [], from, from, Balance.Census(0, 0, 0, None);
      while stolen < config.maxClaimsPerPass
        invariant stolen == |steals| <= config.maxClaimsPerPass
        invariant StealsInOrder(from, steals, db.State(), actorType, workerId, config.leaseSeconds)
        invariant lanes == owned + Stolen(steals)
      {
        ghost var taken := Stolen(steals);
        var one;
        one, steals, seen, census, found := this.StealNext(from, steals);
        if one.Err? { return Err(()), steals, seen, census, found; }
        if one.value.None? { return Ok(stolen), steals, seen, census, found; }
        lanes := lanes + [one.value.value];
        Lists.Snoc(owned, taken, one.value.value);
        stolen := stolen + 1;
      }
      r := Ok(stolen);
    }

    /** `beat`: renew in list order and keep exactly what was renewed; a database error on the way
        loses the whole list, the drained rest of it included. */
    method Beat() returns (ok: bool, ghost seen: seq<Db>)
      modifies db`registry, db`now, this`lanes
      ensures |seen| <= |old(lanes)| && (ok ==> |seen| == |old(lanes)|)
      ensures BeatsInOrder(old(db.State()), seen, db.State(), old(lanes), workerId, config.leaseSeconds)
      ensures lanes == if ok then StillHeld(old(lanes), seen, workerId) else []
    {
      var drained, kept := lanes, [];
      lanes, seen := [], [];
      ghost var from := db.State();
      for i := 0 to |drained|
        invariant |seen| == i && lanes == []
        invariant BeatsInOrder(from, seen, db.State(), drained, workerId, config.leaseSeconds)
        invariant kept == StillHeld(drained[..i], seen, workerId)
      {
        ghost var before := seen;
        var renewed;
        renewed, seen := this.BeatOne(drained[i], drained, from, seen);
        if renewed.Err? { return false, seen; }
        StillHeldNext(drained, i, before, seen[i], workerId);
        if renewed.value { kept := kept + [drained[i]]; }
      }
      assert drained[..|drained|] == drained;
      lanes := kept;
      return true, seen;
    }

    /** The next heartbeat of a beat, after whatever the others did meanwhile. */
    method BeatOne(lane: Lane, ghost drained: seq<Lane>, ghost from: Db, ghost seen: seq<Db>)
      returns (renewed: Result<bool, ()>, ghost more: seq<Db>)
      requires |seen| < |drained| && drained[|seen|] == lane
      requires BeatsInOrder(from, seen, db.State(), drained, workerId, config.leaseSeconds)
      modifies db`registry, db`now
      ensures |more| <= |drained| && BeatsInOrder(from, more, db.State(), drained, workerId, config.leaseSeconds)
      ensures match renewed
              case Err(_) => more == seen
              case Ok(held) => |more| == |seen| + 1 && more == seen + [more[|seen|]] && held == Authorised(more[|seen|].registry, lane, workerId)
    {
      ghost var before := db.State();
      InterfereWithLeases(db, workerId);
      BeatsNext(from, seen, before, db.State(), drained, workerId, config.leaseSeconds);
      more := seen;
      var broken: bool := *;
      if broken { return Err(()), more; }
      more := seen + [db.State()];
      var held := db.Heartbeat(lane, workerId, config.leaseSeconds);
      return Ok(held), more;
    }
  }
}
