/** crates/actor_client/src/mailbox.rs and enqueue.rs: the mailbox port over a map of rows, the two
    inbound doors above it, and what becomes of a scheduled occurrence over any run. */
module Mailbox {
  import opened Wrappers
  import opened Entries
  import opened Tables
  import opened Protocol

  datatype InsertOutcome = Inserted | Duplicate(status: Status, payloadHash: Payload)

  datatype PortSchedule = Scheduled | Rescheduled | Kept | Spent(status: Status, payloadHash: Payload)

  datatype EnqueueOutcome = Enqueued | Deduplicated(status: Status) | PayloadConflict(status: Status)

  datatype ScheduleOutcome =
    | NewlyScheduled | Postponed | LeftAlone | SameAgain(status: Status) | OtherPayload(status: Status)

  ghost predicate Among(entries: seq<Entry>, id: MessageId) {
    exists i :: 0 <= i < |entries| && entries[i].messageId == id
  }

  /** `insert` one after the other. */
  function InsertAll(rows: Messages, entries: seq<Entry>, status: Status): Messages {
    if entries == [] then rows
    else InsertRow(InsertAll(rows, entries[..|entries| - 1], status), entries[|entries| - 1], status, None)
  }

  lemma {:induction false} InsertAllIs(rows: Messages, entries: seq<Entry>, status: Status, id: MessageId)
    ensures id in InsertAll(rows, entries, status) <==> id in rows || Among(entries, id)
    ensures id in rows ==> InsertAll(rows, entries, status)[id] == rows[id]
  {
    if entries != [] {
      var n := |entries| - 1;
      InsertAllIs(rows, entries[..n], status, id);
      assert forall i :: 0 <= i < n ==> entries[..n][i] == entries[i];
    }
  }

  /** Of the entries of one identity, the first becomes the row. */
  lemma {:induction false} FirstInserted(rows: Messages, entries: seq<Entry>, status: Status, i: nat)
    requires i < |entries| && entries[i].messageId !in rows
    requires forall j :: 0 <= j < i ==> entries[j].messageId != entries[i].messageId
    ensures
      var id := entries[i].messageId;
      id in InsertAll(rows, entries, status) && InsertAll(rows, entries, status)[id] == MessageRow(entries[i], status, None, None, 0, None, None)
    decreases |entries|
  {
    var n := |entries| - 1;
    if i == n {
      InsertAllIs(rows, entries[..n], status, entries[i].messageId);
    } else {
      FirstInserted(rows, entries[..n], status, i);
    }
  }

  /** The identities a bulk insert reports: each new one, where it first occurs. */
  ghost predicate AreInserted(ids: seq<MessageId>, rows: Messages, entries: seq<Entry>) {
    forall id :: id in ids <==> id !in rows && Among(entries, id)
  }

  class MemMailbox {
    var rows: Messages
    const autoSucceed: bool

    constructor (autoSucceed: bool)
      ensures rows == map[] && this.autoSucceed == autoSucceed
    {
      rows := map[];
      this.autoSucceed := autoSucceed;
    }

    function Landing(): Status {
      if autoSucceed then Succeeded else Received
    }

    method Insert(entry: Entry) returns (outcome: InsertOutcome)
      modifies this
      ensures rows == InsertRow(old(rows), entry, Landing(), None)
      ensures outcome == if entry.messageId in old(rows)
                then InsertOutcome.Duplicate(old(rows)[entry.messageId].status, old(rows)[entry.messageId].entry.payloadHash)
                else Inserted
    {
      if entry.messageId in rows {
        return InsertOutcome.Duplicate(rows[entry.messageId].status, rows[entry.messageId].entry.payloadHash);
      }
      rows := rows[entry.messageId := MessageRow(entry, Landing(), None, None, 0, None, None)];
      return Inserted;
    }

    /** The row-by-row `insert_many`. */
    method InsertMany(entries: seq<Entry>) returns (ids: seq<MessageId>)
      modifies this
      ensures rows == InsertAll(old(rows), entries, Landing())
      ensures AreInserted(ids, old(rows), entries)
    {
      ids := [];
      ghost var before := rows;
      for i := 0 to |entries|
        invariant rows == InsertAll(before, entries[..i], Landing())
        invariant AreInserted(ids, before, entries[..i])
      {
        assert entries[..i + 1][..i] == entries[..i];
        InsertAllIs(before, entries[..i], Landing(), entries[i].messageId);
        InsertedNext(ids, before, entries, i);
        var outcome := this.Insert(entries[i]);
        if outcome.Inserted? { ids := ids + [entries[i].messageId]; }
      }
      assert entries[..|entries|] == entries;
    }

    /** `schedule`. */
    method Schedule(entry: Entry, at: int, policy: ReschedulePolicy) returns (outcome: PortSchedule)
      modifies this
      ensures rows == Declare(old(rows), entry, at, policy)
      ensures outcome == PortOutcome(old(rows), entry, policy)
    {
      var id := entry.messageId;
      if id !in rows {
        rows := rows[id := MessageRow(entry, Status.Scheduled, None, None, 0, None, Some(at))];
        return PortSchedule.Scheduled;
      }
      if rows[id].status != Status.Scheduled {
        return Spent(rows[id].status, rows[id].entry.payloadHash);
      }
      match policy
      case Keep => return Kept;
      case InPlace =>
        var moved := rows[id].entry.(payload := entry.payload, payloadHash := entry.payloadHash);
        rows := rows[id := rows[id].(scheduledAt := Some(at), entry := moved)];
        return Rescheduled;
    }

    /** `cancel_scheduled`. */
    method CancelScheduled(id: MessageId) returns (won: bool)
      modifies this
      ensures rows == Cancel(old(rows), id)
      ensures won <==> id in old(rows) && old(rows)[id].status == Status.Scheduled
      ensures won ==> rows[id].status == Cancelled
    {
      won := id in rows && rows[id].status == Status.Scheduled;
      if won { rows := rows[id := rows[id].(status := Cancelled)]; }
    }

    /** `insert_mapped`: a taken identity is a replay if the payload is the same. */
    method InsertMapped(entry: Entry) returns (outcome: EnqueueOutcome)
      modifies this
      ensures rows == InsertRow(old(rows), entry, Landing(), None)
      ensures outcome == Enqueue(old(rows), entry)
    {
      var inserted := this.Insert(entry);
      match inserted
      case Inserted => return Enqueued;
      case Duplicate(status, hash) => return if hash == entry.payloadHash then Deduplicated(status) else PayloadConflict(status);
    }

    /** `schedule_mapped`. */
    method ScheduleMapped(entry: Entry, at: int, policy: ReschedulePolicy) returns (outcome: ScheduleOutcome)
      modifies this
      ensures rows == Declare(old(rows), entry, at, policy)
      ensures outcome == Mapped(old(rows), entry, policy)
    {
      var port := this.Schedule(entry, at, policy);
      match port
      case Scheduled => return NewlyScheduled;
      case Rescheduled => return Postponed;
      case Kept => return LeftAlone;
      case Spent(status, hash) => return if hash == entry.payloadHash then SameAgain(status) else OtherPayload(status);
    }

    /** `enqueue_inbound_fact`. */
    method EnqueueFact(fact: InboundFact, table: FactTable) returns (r: Result<EnqueueOutcome, DoorError>)
      modifies this
      ensures match InboundEntry(fact, table)
              case Err(e) => r == Err(e) && rows == old(rows)
              case Ok(entry) => r == Ok(Enqueue(old(rows), entry)) && rows == InsertRow(old(rows), entry, Landing(), None)
    {
      var entry := InboundEntry(fact, table);
      if entry.Err? { return Err(entry.error); }
      var outcome := this.InsertMapped(entry.value);
      return Ok(outcome);
    }

    /** `enqueue_inbound_facts`: one refused fact refuses the batch, and a fact is reported new
        exactly when its identity was not on the mailbox before the call. */
    method EnqueueFacts(facts: seq<InboundFact>, table: FactTable) returns (r: Result<seq<bool>, DoorError>)
      modifies this
      ensures r.Err? <==> InboundEntries(facts, table).Err?
      ensures r.Err? ==> rows == old(rows) && Err(r.error) == InboundEntries(facts, table)
      ensures r.Ok? ==>
                && rows == InsertAll(old(rows), InboundEntries(facts, table).value, Landing())
                && |r.value| == |facts|
                && forall i :: 0 <= i < |facts| ==>
                     (r.value[i] <==> InboundMessageId(facts[i].source, facts[i].externalId) !in old(rows))
    {
      var entries := InboundEntries(facts, table);
      if entries.Err? { return Err(entries.error); }
      ghost var before := rows;
      var ids := this.InsertMany(entries.value);
      var flags := seq(|facts|, i requires 0 <= i < |facts| => entries.value[i].messageId in ids);
      forall i | 0 <= i < |facts| ensures flags[i] <==> InboundMessageId(facts[i].source, facts[i].externalId) !in before {
        assert InboundEntry(facts[i], table) == Ok(entries.value[i]);
        assert entries.value[i].messageId == InboundMessageId(facts[i].source, facts[i].externalId);
      }
      return Ok(flags);
    }
  }

  lemma InsertedNext(ids: seq<MessageId>, rows: Messages, entries: seq<Entry>, i: nat)
    requires i < |entries| && AreInserted(ids, rows, entries[..i])
    ensures AreInserted(if entries[i].messageId in rows || entries[i].messageId in ids then ids else ids + [entries[i].messageId],
                        rows, entries[..i + 1])
  {
    var next := entries[..i + 1];
    assert next == entries[..i] + [entries[i]];
    assert next[i] == entries[i];
    forall id ensures Among(next, id) <==> Among(entries[..i], id) || id == entries[i].messageId {
      if Among(entries[..i], id) {
        var k :| 0 <= k < i && entries[..i][k].messageId == id;
        assert next[k].messageId == id;
      }
    }
  }

  function Enqueue(rows: Messages, entry: Entry): EnqueueOutcome {
    if entry.messageId !in rows then Enqueued
    else if rows[entry.messageId].entry.payloadHash == entry.payloadHash then Deduplicated(rows[entry.messageId].status)
    else PayloadConflict(rows[entry.messageId].status)
  }

  function PortOutcome(rows: Messages, entry: Entry, policy: ReschedulePolicy): PortSchedule {
    if entry.messageId !in rows then PortSchedule.Scheduled
    else if rows[entry.messageId].status != Status.Scheduled
    then Spent(rows[entry.messageId].status, rows[entry.messageId].entry.payloadHash)
    else if policy == Keep then Kept else Rescheduled
  }

  function Mapped(rows: Messages, entry: Entry, policy: ReschedulePolicy): ScheduleOutcome {
    match PortOutcome(rows, entry, policy)
    case Scheduled => NewlyScheduled
    case Rescheduled => Postponed
    case Kept => LeftAlone
    case Spent(status, hash) => if hash == entry.payloadHash then SameAgain(status) else OtherPayload(status)
  }

  // ---- the bulk door against the single one -------------------------------------------------------

  /** What the single door would have answered for fact `i`, the facts before it enqueued. */
  function OneByOne(rows: Messages, entries: seq<Entry>, status: Status, i: nat): EnqueueOutcome
    requires i < |entries|
  {
    Enqueue(InsertAll(rows, entries[..i], status), entries[i])
  }

  /** Flag and single door agree on the whole batch exactly when it repeats no new identity. */
  lemma BulkAgreesIff(rows: Messages, entries: seq<Entry>, status: Status)
    ensures (forall i :: 0 <= i < |entries| ==> (OneByOne(rows, entries, status, i).Enqueued? <==> entries[i].messageId !in rows))
      <==> (forall i, j :: 0 <= i < j < |entries| && entries[j].messageId !in rows ==> entries[i].messageId != entries[j].messageId)
  {
    forall j | 0 <= j < |entries|
      ensures OneByOne(rows, entries, status, j).Enqueued?
        <==> entries[j].messageId !in rows && forall i :: 0 <= i < j ==> entries[i].messageId != entries[j].messageId
    {
      InsertAllIs(rows, entries[..j], status, entries[j].messageId);
      assert forall i :: 0 <= i < j ==> entries[..j][i] == entries[i];
    }
    if i, j :| 0 <= i < j < |entries| && entries[j].messageId !in rows && entries[i].messageId == entries[j].messageId {
      assert !OneByOne(rows, entries, status, j).Enqueued?;
    }
  }

  // ---- one outcome per scheduled occurrence -------------------------------------------------------

  predicate IsScheduled(messages: Messages, id: MessageId) {
    id in messages && messages[id].status == Status.Scheduled
  }

  /** The step withdraws the occurrence, or promotes it. */
  predicate Settles(s: State, step: Step, id: MessageId) {
    IsScheduled(s.db.messages, id) && (step == Withdraw(id) || step == Promote(id))
  }

  predicate Redeclares(step: Step, id: MessageId) {
    step.Schedule? && step.entry.messageId == id
  }

  /** What one step of the system can do to a row that exists. */
  lemma RowStep(s: State, step: Step, id: MessageId)
    requires Enabled(s, step) && id in s.db.messages
    ensures
      var before, after := s.db.messages[id], Apply(s, step).db.messages;
      && id in after
      && (before.status != Status.Scheduled ==>
           && after[id].status != Status.Scheduled && (before.status == Cancelled ==> after[id].status == Cancelled)
           && after[id].entry == before.entry && after[id].scheduledAt == before.scheduledAt)
      && (before.status == Status.Scheduled ==>
           && after[id].status == (if step == Withdraw(id) then Cancelled else if step == Promote(id) then Received else Status.Scheduled)
           && (if Redeclares(step, id) && step.policy == InPlace
               then after[id].scheduledAt == Some(step.at) && after[id].entry.payload == step.entry.payload
               else after[id].entry == before.entry && after[id].scheduledAt == before.scheduledAt))
  {
  }

  /** How often the occurrence is settled over the run, as far as its steps are enabled. */
  ghost function Settlements(s: State, steps: seq<Step>, id: MessageId): nat
    decreases |steps|
  {
    if steps == [] || !Enabled(s, steps[0]) then 0
    else (if Settles(s, steps[0], id) then 1 else 0) + Settlements(Apply(s, steps[0]), steps[1..], id)
  }

  /** Once spent, an occurrence is spent for good: never rescheduled, never rewritten, a cancelled
      one never delivered. */
  lemma {:induction false} SpentIsFrozen(s: State, steps: seq<Step>, t: State, id: MessageId)
    requires Run(s, steps, t)
    requires id in s.db.messages && s.db.messages[id].status != Status.Scheduled
    ensures id in t.db.messages && t.db.messages[id].status != Status.Scheduled
    ensures s.db.messages[id].status == Cancelled ==> t.db.messages[id].status == Cancelled
    ensures t.db.messages[id].entry == s.db.messages[id].entry && t.db.messages[id].scheduledAt == s.db.messages[id].scheduledAt
    ensures Settlements(s, steps, id) == 0
    decreases |steps|
  {
    if steps != [] {
      RowStep(s, steps[0], id);
      SpentIsFrozen(Apply(s, steps[0]), steps[1..], t, id);
    }
  }

  /** Of all the withdrawals and promotions of a scheduled occurrence, in any run, exactly one has
      an effect if it does not stay scheduled, and none if it does. */
  lemma {:induction false} OneOutcome(s: State, steps: seq<Step>, t: State, id: MessageId)
    requires Run(s, steps, t) && IsScheduled(s.db.messages, id)
    ensures id in t.db.messages
    ensures Settlements(s, steps, id) == if IsScheduled(t.db.messages, id) then 0 else 1
    decreases |steps|
  {
    if steps != [] {
      RowStep(s, steps[0], id);
      var next := Apply(s, steps[0]);
      if IsScheduled(next.db.messages, id) {
        OneOutcome(next, steps[1..], t, id);
      } else {
        SpentIsFrozen(next, steps[1..], t, id);
      }
    }
  }

  ghost predicate Redeclared(steps: seq<Step>, id: MessageId, policy: ReschedulePolicy) {
    forall i :: 0 <= i < |steps| && Redeclares(steps[i], id) ==> steps[i].policy == policy
  }

  /** Under `Keep` the first declaration stands: its time and payload survive any number of later
      ones, and promotion, delivery and withdrawal. */
  lemma {:induction false} KeepKeepsFirst(s: State, steps: seq<Step>, t: State, id: MessageId)
    requires Run(s, steps, t)
    requires id in s.db.messages && Redeclared(steps, id, Keep)
    ensures id in t.db.messages
    ensures t.db.messages[id].entry == s.db.messages[id].entry && t.db.messages[id].scheduledAt == s.db.messages[id].scheduledAt
    decreases |steps|
  {
    if steps != [] {
      RowStep(s, steps[0], id);
      assert forall i :: 0 <= i < |steps[1..]| ==> steps[1..][i] == steps[i + 1];
      KeepKeepsFirst(Apply(s, steps[0]), steps[1..], t, id);
    }
  }

  /** The last declaration of the run, if there is one. */
  ghost function LastDeclared(steps: seq<Step>, id: MessageId): Option<(Payload, int)> {
    if steps == [] then None
    else
      var rest := LastDeclared(steps[1..], id);
      if rest.Some? then rest
      else if Redeclares(steps[0], id) then Some((steps[0].entry.payload, steps[0].at))
      else None
  }

  /** Under `InPlace` the last one does, for as long as the occurrence is pending. */
  lemma {:induction false} InPlaceTakesLast(s: State, steps: seq<Step>, t: State, id: MessageId)
    requires Run(s, steps, t)
    requires IsScheduled(s.db.messages, id) && IsScheduled(t.db.messages, id) && Redeclared(steps, id, InPlace)
    ensures match LastDeclared(steps, id)
            case None => t.db.messages[id].entry.payload == s.db.messages[id].entry.payload && t.db.messages[id].scheduledAt == s.db.messages[id].scheduledAt
            case Some((payload, at)) => t.db.messages[id].entry.payload == payload && t.db.messages[id].scheduledAt == Some(at)
    decreases |steps|
  {
    if steps != [] {
      RowStep(s, steps[0], id);
      var next := Apply(s, steps[0]);
      assert forall i :: 0 <= i < |steps[1..]| ==> steps[1..][i] == steps[i + 1];
      if !IsScheduled(next.db.messages, id) {
        SpentIsFrozen(next, steps[1..], t, id);
      }
      InPlaceTakesLast(next, steps[1..], t, id);
    }
  }
}
