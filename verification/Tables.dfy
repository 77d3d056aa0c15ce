/** The two tables of the mailbox runtime and, as functions from the table contents before to
    the contents after, the SQL statements that lease.rs, completion.rs, worker.rs and
    schedule.rs issue on them. One statement or transaction is one function, hence one step. */
module Tables {
  import opened Wrappers
  import opened Entries

  /** `claimed_by`: a process identity. */
  type WorkerId = nat

  datatype LaneKey = LaneKey(actorType: string, partition: int)

  /** One row of `mailbox_partitions`. */
  datatype PartitionRow = PartitionRow(
    claimedBy: Option<WorkerId>, leaseUntil: Option<int>, ownershipVersion: nat, checkpoint: nat)

  type Registry = map<LaneKey, PartitionRow>

  const SEEDED := PartitionRow(None, None, 0, 0)

  /** A claim's proof of authority, as the claiming statement returned it. */
  datatype Lane = Lane(key: LaneKey, ownershipVersion: nat, checkpoint: nat)

  datatype Status =
    Scheduled | Cancelled | Received | Succeeded | Rejected | Failed | Ignored | Duplicate

  /** What a handler decides about one delivery; errors are their `code`. */
  datatype Verdict = Succeed | Reject(code: string) | Fail(code: string) | Ignore | Dedupe
  {
    function Status(): Status {
      match this
      case Succeed => Succeeded
      case Reject(_) => Rejected
      case Fail(_) => Failed
      case Ignore => Ignored
      case Dedupe => Duplicate
    }

    function ErrorCode(): Option<string> {
      if Reject? || Fail? then Some(code) else None
    }
  }

  /** The error code the delivery-attempts cap stamps. */
  const POISON_CODE := "DeliveryInfrastructureError"

  /** One row of `inbound_messages`: the entry it was built from and the columns the runtime
      writes afterwards. */
  datatype MessageRow = MessageRow(
    entry: Entry, status: Status, errorCode: Option<string>, position: Option<nat>,
    attempts: nat, nextAttemptAt: Option<int>, scheduledAt: Option<int>)
  {
    function Lane(): LaneKey {
      LaneKey(entry.actorType, entry.partition)
    }

    predicate Poisoned() {
      status == Failed && errorCode == Some(POISON_CODE)
    }

    /** Terminal by a handler's verdict. */
    predicate Decided() {
      status in {Succeeded, Rejected, Ignored, Duplicate} || (status == Failed && !Poisoned())
    }
  }

  type Messages = map<MessageId, MessageRow>

  /** One committed completion transaction: whose effects it made durable, and under which
      authority. */
  datatype Commit = Commit(
    message: MessageId, key: LaneKey, worker: WorkerId, ownershipVersion: nat, position: nat,
    verdict: Verdict)

  datatype Db = Db(registry: Registry, messages: Messages, log: seq<Commit>, sequence: nat, now: int)

  // ---- mailbox_partitions --------------------------------------------------------------------

  /** The WHERE clause of `claim_due_lanes`: never leased, or the lease lies in the past. */
  predicate Claimable(row: PartitionRow, now: int) {
    row.leaseUntil.None? || row.leaseUntil.value < now
  }

  predicate LiveOwned(row: PartitionRow, now: int) {
    row.claimedBy.Some? && row.leaseUntil.Some? && row.leaseUntil.value > now
  }

  /** The SET clause that claim and steal share: a new owner, a new lease, the next version. */
  function TakeOver(row: PartitionRow, worker: WorkerId, until: int): PartitionRow {
    PartitionRow(Some(worker), Some(until), row.ownershipVersion + 1, row.checkpoint)
  }

  function Returned(key: LaneKey, row: PartitionRow): Lane {
    Lane(key, row.ownershipVersion, row.checkpoint)
  }

  function Take(registry: Registry, key: LaneKey, worker: WorkerId, until: int): Registry
    requires key in registry
  {
    registry[key := TakeOver(registry[key], worker, until)]
  }

  function TakeAll(registry: Registry, keys: set<LaneKey>, worker: WorkerId, until: int): Registry {
    map key | key in registry ::
      if key in keys then TakeOver(registry[key], worker, until) else registry[key]
  }

  /** The guard of heartbeat, release and checkpoint: still the same claim of the same lane. */
  predicate Authorised(registry: Registry, lane: Lane, worker: WorkerId) {
    && lane.key in registry
    && registry[lane.key].claimedBy == Some(worker)
    && registry[lane.key].ownershipVersion == lane.ownershipVersion
  }

  function Renew(registry: Registry, lane: Lane, worker: WorkerId, until: int): Registry {
    if Authorised(registry, lane, worker)
    then registry[lane.key := registry[lane.key].(leaseUntil := Some(until))]
    else registry
  }

  function Release(registry: Registry, lane: Lane, worker: WorkerId): Registry {
    if Authorised(registry, lane, worker)
    then registry[lane.key := registry[lane.key].(claimedBy := None, leaseUntil := None)]
    else registry
  }

  function Greatest(a: nat, b: nat): nat {
    if a < b then b else a
  }

  function Advance(registry: Registry, key: LaneKey, position: nat): Registry
    requires key in registry
  {
    registry[key := registry[key].(checkpoint := Greatest(registry[key].checkpoint, position))]
  }

  // ---- inbound_messages ----------------------------------------------------------------------

  /** The INSERT of an immediate row; a taken identity inserts nothing. */
  function InsertRow(messages: Messages, entry: Entry, status: Status, position: Option<nat>): Messages {
    if entry.messageId in messages then messages
    else messages[entry.messageId := MessageRow(entry, status, None, position, 0, None, None)]
  }

  datatype ReschedulePolicy = InPlace | Keep

  /** The scheduling upsert: a fresh SCHEDULED row, or the reschedule policy applied to a row
      that is still SCHEDULED; any other row is left alone. */
  function Declare(messages: Messages, entry: Entry, at: int, policy: ReschedulePolicy): Messages {
    var id := entry.messageId;
    if id !in messages then
      messages[id := MessageRow(entry, Scheduled, None, None, 0, None, Some(at))]
    else if messages[id].status == Scheduled && policy == InPlace then
      var row := messages[id];
      messages[id := row.(
        scheduledAt := Some(at),
        entry := row.entry.(payload := entry.payload, payloadHash := entry.payloadHash))]
    else messages
  }

  /** `SCHEDULED -> CANCELLED`. */
  function Cancel(messages: Messages, id: MessageId): Messages {
    if id in messages && messages[id].status == Scheduled
    then messages[id := messages[id].(status := Cancelled)]
    else messages
  }

  predicate IsReceived(messages: Messages, id: MessageId) {
    id in messages && messages[id].status == Received
  }

  /** The verdict flip, only if still RECEIVED. */
  function Decide(messages: Messages, id: MessageId, verdict: Verdict): Messages {
    if IsReceived(messages, id)
    then messages[id := messages[id].(status := verdict.Status(), errorCode := verdict.ErrorCode())]
    else messages
  }

  datatype Completion = Committed | AlreadyCompleted | FencedOut

  /** The completion transaction: the verdict flip guarded by RECEIVED, then the checkpoint
      guarded by the authority; either guard failing rolls everything back. */
  function CompleteFenced(
    db: Db, lane: Lane, worker: WorkerId, id: MessageId, position: nat, verdict: Verdict)
    : (Db, Completion)
  {
    if !IsReceived(db.messages, id) then (db, AlreadyCompleted)
    else if !Authorised(db.registry, lane, worker) then (db, FencedOut)
    else (
      db.(
        messages := Decide(db.messages, id, verdict),
        registry := Advance(db.registry, lane.key, position),
        log := db.log + [Commit(id, lane.key, worker, lane.ownershipVersion, position, verdict)]),
      Committed)
  }

  function PowerOfTwo(k: nat): (p: nat)
    ensures p > 0
  {
    if k == 0 then 1 else 2 * PowerOfTwo(k - 1)
  }

  /** `retry_spacing * power(2, LEAST(attempts, 16))` over the attempts counted before this one. */
  function Backoff(spacing: nat, attempts: nat): nat {
    spacing * PowerOfTwo(if attempts < 16 then attempts else 16)
  }

  /** `poison_raw`, first statement: count the attempt and stamp the next one. */
  function CountAttempt(messages: Messages, id: MessageId, spacing: nat, now: int): Messages {
    if IsReceived(messages, id) then
      var row := messages[id];
      messages[id := row.(
        attempts := row.attempts + 1,
        nextAttemptAt := if spacing <= 0 then None else Some(now + Backoff(spacing, row.attempts)))]
    else messages
  }

  /** The RETURNING column of that statement, zero when no row matched. */
  function CountedAttempts(messages: Messages, id: MessageId): nat {
    if IsReceived(messages, id) then messages[id].attempts + 1 else 0
  }

  predicate CapReached(attempts: nat, cap: int) {
    cap > 0 && attempts >= cap
  }

  /** `poison_raw`, second statement: the terminal flip. Neither statement checks the authority. */
  function FlipPoisoned(messages: Messages, id: MessageId): Messages {
    if IsReceived(messages, id)
    then messages[id := messages[id].(status := Failed, errorCode := Some(POISON_CODE))]
    else messages
  }

  /** `requeue_if_poisoned`: arbitration and flip in one statement, keyed on the error code. */
  function Requeue(messages: Messages, id: MessageId): Messages {
    if id in messages && messages[id].Poisoned()
    then messages[id := messages[id].(status := Received, errorCode := None, attempts := 0, nextAttemptAt := None)]
    else messages
  }

  /** One row of `promote_due`. */
  predicate Due(messages: Messages, id: MessageId, actorType: string, now: int) {
    && id in messages
    && messages[id].entry.actorType == actorType
    && messages[id].status == Scheduled
    && messages[id].scheduledAt.Some?
    && messages[id].scheduledAt.value <= now
  }

  function PromoteRow(messages: Messages, id: MessageId, position: nat): Messages
    requires id in messages
  {
    messages[id := messages[id].(status := Received, position := Some(position))]
  }
}
