/** The mailbox runtime as a distributed protocol: any number of workers, each statement or
    transaction one atomic step, in every interleaving. What a worker merely believes (its lane
    list, the rows it read, a flip it is about to issue) is kept apart from the two tables, and
    nothing here assumes that beliefs are up to date. */
module Protocol {
  import opened Wrappers
  import opened Routing
  import opened Entries
  import opened Tables

  /** A row some worker read under some claim and has not finished with. */
  datatype Delivery = Delivery(worker: WorkerId, lane: Lane, message: MessageId, position: nat)

  /** `held`: the `lanes` vectors. `inflight`: rows read by drains. `flipping`: rows whose counted
      attempts reached the cap, the flip statement still to come. `reserved`: positions drawn by
      transactions that have not committed. `issued`: to whom each claim was returned. */
  datatype State = State(
    db: Db, held: set<(WorkerId, Lane)>, inflight: set<Delivery>, flipping: set<MessageId>,
    reserved: set<nat>, issued: map<(LaneKey, nat), WorkerId>)

  const Init := State(Db(map[], map[], [], 0, 0), {}, {}, {}, {}, map[])

  datatype Step =
    | Tick(to: int)
    | Seed(key: LaneKey)
    | Draw                                             // nextval by an open transaction
    | Insert(entry: Entry, position: nat)              // its commit, possibly much later
    | Schedule(entry: Entry, at: int, policy: ReschedulePolicy)
    | Withdraw(id: MessageId)
    | Promote(id: MessageId)
    | Claim(worker: WorkerId, key: LaneKey, until: int)
    | Steal(worker: WorkerId, key: LaneKey, until: int)
    | Beat(worker: WorkerId, lane: Lane, until: int)
    | GiveUp(worker: WorkerId, lane: Lane)             // graceful release
    | Read(worker: WorkerId, lane: Lane, id: MessageId)
    | Complete(delivery: Delivery, verdict: Verdict)
    | Count(id: MessageId, spacing: nat, cap: int)
    | Flip(id: MessageId)
    | Recover(id: MessageId)                           // operator requeue
    | Crash(worker: WorkerId)

  function Token(lane: Lane): (LaneKey, nat) {
    (lane.key, lane.ownershipVersion)
  }

  predicate IssuedTo(s: State, lane: Lane, worker: WorkerId) {
    Token(lane) in s.issued && s.issued[Token(lane)] == worker
  }

  predicate Enabled(s: State, step: Step) {
    match step
    case Tick(to) => s.db.now <= to
    case Insert(entry, position) => position in s.reserved
    case Promote(id) => id in s.db.messages && Due(s.db.messages, id, s.db.messages[id].entry.actorType, s.db.now)
    case Claim(_, key, _) => key in s.db.registry && Claimable(s.db.registry[key], s.db.now)
    case Steal(_, key, _) => key in s.db.registry
    case GiveUp(worker, lane) => (worker, lane) in s.held
    case Read(worker, lane, id) =>
      IssuedTo(s, lane, worker) && IsReceived(s.db.messages, id) && s.db.messages[id].Lane() == lane.key
    case Complete(delivery, _) => delivery in s.inflight
    case Flip(id) => id in s.flipping
    case _ => true
  }

  /** `retain`: forget exactly this claim, whatever its checkpoint said when it was returned. */
  function Drop(held: set<(WorkerId, Lane)>, worker: WorkerId, lane: Lane): set<(WorkerId, Lane)> {
    set h | h in held && !(h.0 == worker && Token(h.1) == Token(lane))
  }

  function TakeStep(s: State, worker: WorkerId, key: LaneKey, until: int): State
    requires key in s.db.registry
  {
    var registry := Take(s.db.registry, key, worker, until);
    var lane := Returned(key, registry[key]);
    s.(
      db := s.db.(registry := registry),
      held := s.held + {(worker, lane)},
      issued := s.issued[Token(lane) := worker])
  }

  function Apply(s: State, step: Step): State
    requires Enabled(s, step)
  {
    var db := s.db;
    match step
    case Tick(to) => s.(db := db.(now := to))
    case Seed(key) =>
      if key in db.registry then s else s.(db := db.(registry := db.registry[key := SEEDED]))
    case Draw =>
      s.(db := db.(sequence := db.sequence + 1), reserved := s.reserved + {db.sequence + 1})
    case Insert(entry, position) =>
      s.(db := db.(messages := InsertRow(db.messages, entry, Received, Some(position))),
         reserved := s.reserved - {position})
    case Schedule(entry, at, policy) =>
      s.(db := db.(messages := Declare(db.messages, entry, at, policy)))
    case Withdraw(id) => s.(db := db.(messages := Cancel(db.messages, id)))
    case Promote(id) =>
      s.(db := db.(messages := PromoteRow(db.messages, id, db.sequence + 1), sequence := db.sequence + 1))
    case Claim(worker, key, until) => TakeStep(s, worker, key, until)
    case Steal(worker, key, until) => TakeStep(s, worker, key, until)
    case Beat(worker, lane, until) =>
      if Authorised(db.registry, lane, worker)
      then s.(db := db.(registry := Renew(db.registry, lane, worker, until)))
      else s.(held := Drop(s.held, worker, lane))
    case GiveUp(worker, lane) =>
      s.(db := db.(registry := Release(db.registry, lane, worker)), held := Drop(s.held, worker, lane))
    case Read(worker, lane, id) =>
      var position := db.messages[id].position;
      if position.None? then s
      else s.(inflight := s.inflight + {Delivery(worker, lane, id, position.value)})
    case Complete(d, verdict) =>
      var (db', outcome) := CompleteFenced(db, d.lane, d.worker, d.message, d.position, verdict);
      s.(db := db', inflight := s.inflight - {d},
         held := if outcome.Committed? then s.held else Drop(s.held, d.worker, d.lane))
    case Count(id, spacing, cap) =>
      s.(db := db.(messages := CountAttempt(db.messages, id, spacing, db.now)),
         flipping := if CapReached(CountedAttempts(db.messages, id), cap) then s.flipping + {id} else s.flipping)
    case Flip(id) => s.(db := db.(messages := FlipPoisoned(db.messages, id)))
    case Recover(id) => s.(db := db.(messages := Requeue(db.messages, id)))
    case Crash(worker) =>
      s.(held := (set h | h in s.held && h.0 != worker),
         inflight := (set d | d in s.inflight && d.worker != worker))
  }

  /** `steps` is a run from `s` that ends in `t`. */
  ghost predicate Run(s: State, steps: seq<Step>, t: State)
    decreases |steps|
  {
    if steps == [] then s == t
    else Enabled(s, steps[0]) && Run(Apply(s, steps[0]), steps[1..], t)
  }

  // ---- the log as a history ------------------------------------------------------------------

  function CommitCount(log: seq<Commit>, id: MessageId): nat
    decreases |log|
  {
    if log == [] then 0
    else CommitCount(log[..|log| - 1], id) + (if log[|log| - 1].message == id then 1 else 0)
  }

  /** The largest position ever committed on a lane, zero if none. */
  function HighWater(log: seq<Commit>, key: LaneKey): nat
    decreases |log|
  {
    if log == [] then 0
    else
      var rest := HighWater(log[..|log| - 1], key);
      if log[|log| - 1].key == key then Greatest(rest, log[|log| - 1].position) else rest
  }

  lemma Appended(log: seq<Commit>, c: Commit)
    ensures forall id :: CommitCount(log + [c], id) == CommitCount(log, id) + if c.message == id then 1 else 0
    ensures forall key :: HighWater(log + [c], key) ==
              (if c.key == key then Greatest(HighWater(log, key), c.position) else HighWater(log, key))
  {
    assert (log + [c])[..|log + [c]| - 1] == log;
  }

  // ---- the invariant -------------------------------------------------------------------------

  ghost predicate RowOk(id: MessageId, row: MessageRow, sequence: nat, reserved: set<nat>) {
    && row.entry.messageId == id
    && (row.position.None? <==> row.status in {Scheduled, Cancelled})
    && (row.position.Some? ==> 1 <= row.position.value <= sequence && row.position.value !in reserved)
  }

  ghost predicate RowsOk(messages: Messages, sequence: nat, reserved: set<nat>) {
    && (forall p :: p in reserved ==> 1 <= p <= sequence)
    && (forall id :: id in messages ==> RowOk(id, messages[id], sequence, reserved))
    && (forall a, b :: a in messages && b in messages ==> Apart(messages, a, b))
  }

  /** Positions are never shared. */
  ghost predicate Apart(messages: Messages, a: MessageId, b: MessageId)
    requires a in messages && b in messages
  {
    a == b || messages[a].position.None? || messages[a].position != messages[b].position
  }

  ghost predicate AuthorityOk(registry: Registry, issued: map<(LaneKey, nat), WorkerId>, held: set<(WorkerId, Lane)>) {
    && (forall t :: t in issued ==> t.0 in registry && 1 <= t.1 <= registry[t.0].ownershipVersion)
    && (forall k :: k in registry && registry[k].claimedBy.Some? ==> OwnerIssued(registry[k], k, issued))
    && (forall h :: h in held ==> BeliefOk(h.0, h.1, registry, issued))
  }

  ghost predicate OwnerIssued(row: PartitionRow, key: LaneKey, issued: map<(LaneKey, nat), WorkerId>) {
    (key, row.ownershipVersion) in issued && Some(issued[(key, row.ownershipVersion)]) == row.claimedBy
  }

  /** A belief is a claim that was really returned, and the current one unless superseded. */
  ghost predicate BeliefOk(worker: WorkerId, lane: Lane, registry: Registry, issued: map<(LaneKey, nat), WorkerId>) {
    && Token(lane) in issued && issued[Token(lane)] == worker
    && lane.key in registry
    && (lane.ownershipVersion == registry[lane.key].ownershipVersion
        ==> registry[lane.key].claimedBy == Some(worker))
  }

  ghost predicate DeliveryOk(d: Delivery, messages: Messages, issued: map<(LaneKey, nat), WorkerId>) {
    && Token(d.lane) in issued && issued[Token(d.lane)] == d.worker
    && d.message in messages
    && messages[d.message].Lane() == d.lane.key
    && messages[d.message].position == Some(d.position)
  }

  ghost predicate CommitOk(c: Commit, messages: Messages, issued: map<(LaneKey, nat), WorkerId>) {
    && (c.key, c.ownershipVersion) in issued && issued[(c.key, c.ownershipVersion)] == c.worker
    && c.message in messages
    && messages[c.message].Lane() == c.key
    && messages[c.message].position == Some(c.position)
  }

  ghost predicate LogOk(log: seq<Commit>, messages: Messages, issued: map<(LaneKey, nat), WorkerId>) {
    && (forall i :: 0 <= i < |log| ==> CommitOk(log[i], messages, issued))
    && (forall i, j :: 0 <= i < j < |log| ==>
         log[i].key == log[j].key ==> log[i].ownershipVersion <= log[j].ownershipVersion)
  }

  /** The checkpoint is the high-water mark of what was committed. */
  ghost predicate CheckpointOk(log: seq<Commit>, registry: Registry) {
    forall k :: HighWater(log, k) == if k in registry then registry[k].checkpoint else 0
  }

  ghost predicate Inv(s: State) {
    && RowsOk(s.db.messages, s.db.sequence, s.reserved)
    && AuthorityOk(s.db.registry, s.issued, s.held)
    && (forall d :: d in s.inflight ==> DeliveryOk(d, s.db.messages, s.issued))
    && LogOk(s.db.log, s.db.messages, s.issued)
    && CheckpointOk(s.db.log, s.db.registry)
  }

  /** Effects exactly of the rows a verdict decided, once each. */
  ghost predicate EffectsOk(log: seq<Commit>, messages: Messages) {
    forall id :: CommitCount(log, id) == if id in messages && messages[id].Decided() then 1 else 0
  }

  lemma InitInv()
    ensures Inv(Init) && EffectsOk(Init.db.log, Init.db.messages)
  {
  }

  // ---- rows ----------------------------------------------------------------------------------

  /** What no step ever does to a row: take it away, move it to another lane or position. */
  ghost predicate Evolves(before: Messages, after: Messages) {
    forall id :: id in before ==>
      && id in after
      && after[id].Lane() == before[id].Lane()
      && after[id].entry.actorId == before[id].entry.actorId
      && (before[id].position.Some? ==> after[id].position == before[id].position)
  }

  /** A row changed in place, its lane and position kept. */
  ghost predicate Touched(before: MessageRow, after: MessageRow) {
    && after.entry.messageId == before.entry.messageId
    && after.entry.actorType == before.entry.actorType
    && after.entry.actorId == before.entry.actorId
    && after.entry.partition == before.entry.partition
    && after.position == before.position
    && (after.position.None? <==> after.status in {Scheduled, Cancelled})
  }

  ghost predicate Kept(before: Messages, after: Messages, sequence: nat, reserved: set<nat>) {
    RowsOk(after, sequence, reserved) && Evolves(before, after)
  }

  lemma RowTouched(m: Messages, id: MessageId, row: MessageRow, sequence: nat, reserved: set<nat>)
    requires RowsOk(m, sequence, reserved)
    requires id in m && Touched(m[id], row)
    ensures Kept(m, m[id := row], sequence, reserved)
  {
    var m' := m[id := row];
    assert RowOk(id, m[id], sequence, reserved);
    forall a, b | a in m' && b in m' ensures Apart(m', a, b) {
      assert Apart(m, a, b);
    }
  }

  /** The statements that rewrite at most the one row they name. */
  lemma Rewritten(m: Messages, id: MessageId, m': Messages, sequence: nat, reserved: set<nat>)
    requires RowsOk(m, sequence, reserved)
    requires m' == m || (id in m && id in m' && m' == m[id := m'[id]] && Touched(m[id], m'[id]))
    ensures Kept(m, m', sequence, reserved)
  {
    if m' != m {
      RowTouched(m, id, m'[id], sequence, reserved);
    }
  }

  lemma RowAdded(m: Messages, row: MessageRow, sequence: nat, reserved: set<nat>)
    requires RowsOk(m, sequence, reserved)
    requires row.entry.messageId !in m
    requires row.position.None? <==> row.status in {Scheduled, Cancelled}
    requires row.position.Some? ==> 1 <= row.position.value <= sequence && row.position.value !in reserved
    requires forall a :: a in m && row.position.Some? ==> m[a].position != row.position
    ensures Kept(m, m[row.entry.messageId := row], sequence, reserved)
  {
    var m' := m[row.entry.messageId := row];
    forall id | id in m' ensures RowOk(id, m'[id], sequence, reserved) {
      assert id in m ==> RowOk(id, m[id], sequence, reserved);
    }
    forall a, b | a in m' && b in m' ensures Apart(m', a, b) {
      assert a in m && b in m ==> Apart(m, a, b);
    }
  }

  lemma PositionsDrawn(m: Messages, sequence: nat, reserved: set<nat>, sequence': nat, reserved': set<nat>)
    requires RowsOk(m, sequence, reserved)
    requires sequence <= sequence'
    requires forall p :: p in reserved' ==> p in reserved || sequence < p <= sequence'
    ensures RowsOk(m, sequence', reserved')
  {
    forall id | id in m ensures RowOk(id, m[id], sequence', reserved') {
      assert RowOk(id, m[id], sequence, reserved);
    }
  }

  lemma RowInserted(m: Messages, entry: Entry, position: nat, sequence: nat, reserved: set<nat>)
    requires RowsOk(m, sequence, reserved)
    requires position in reserved
    ensures Kept(m, InsertRow(m, entry, Received, Some(position)), sequence, reserved - {position})
  {
    PositionsDrawn(m, sequence, reserved, sequence, reserved - {position});
    if entry.messageId !in m {
      forall a | a in m ensures m[a].position != Some(position) {
        assert RowOk(a, m[a], sequence, reserved);
      }
      RowAdded(m, InsertRow(m, entry, Received, Some(position))[entry.messageId], sequence, reserved - {position});
    }
  }

  lemma RowDeclared(m: Messages, entry: Entry, at: int, policy: ReschedulePolicy, sequence: nat, reserved: set<nat>)
    requires RowsOk(m, sequence, reserved)
    ensures Kept(m, Declare(m, entry, at, policy), sequence, reserved)
  {
    var m' := Declare(m, entry, at, policy);
    if entry.messageId !in m {
      RowAdded(m, m'[entry.messageId], sequence, reserved);
    } else {
      assert RowOk(entry.messageId, m[entry.messageId], sequence, reserved);
      Rewritten(m, entry.messageId, m', sequence, reserved);
    }
  }

  lemma RowPromoted(m: Messages, id: MessageId, sequence: nat, reserved: set<nat>)
    requires RowsOk(m, sequence, reserved)
    requires id in m && m[id].status == Scheduled
    ensures Kept(m, PromoteRow(m, id, sequence + 1), sequence + 1, reserved)
  {
    var m' := PromoteRow(m, id, sequence + 1);
    assert RowOk(id, m[id], sequence, reserved);
    forall a | a in m' ensures RowOk(a, m'[a], sequence + 1, reserved) {
      assert RowOk(a, m[a], sequence, reserved);
    }
    forall a, b | a in m' && b in m' ensures Apart(m', a, b) {
      assert Apart(m, a, b) && RowOk(a, m[a], sequence, reserved) && RowOk(b, m[b], sequence, reserved);
    }
  }

  lemma RowRewritten(m: Messages, id: MessageId, sequence: nat, reserved: set<nat>)
    requires RowsOk(m, sequence, reserved)
    ensures Kept(m, Cancel(m, id), sequence, reserved)
    ensures Kept(m, FlipPoisoned(m, id), sequence, reserved)
    ensures Kept(m, Requeue(m, id), sequence, reserved)
  {
    assert id in m ==> RowOk(id, m[id], sequence, reserved);
    Rewritten(m, id, Cancel(m, id), sequence, reserved);
    Rewritten(m, id, FlipPoisoned(m, id), sequence, reserved);
    Rewritten(m, id, Requeue(m, id), sequence, reserved);
  }

  lemma RowDecided(m: Messages, id: MessageId, verdict: Verdict, sequence: nat, reserved: set<nat>)
    requires RowsOk(m, sequence, reserved)
    ensures Kept(m, Decide(m, id, verdict), sequence, reserved)
  {
    assert id in m ==> RowOk(id, m[id], sequence, reserved);
    Rewritten(m, id, Decide(m, id, verdict), sequence, reserved);
  }

  lemma RowCounted(m: Messages, id: MessageId, spacing: nat, now: int, sequence: nat, reserved: set<nat>)
    requires RowsOk(m, sequence, reserved)
    ensures Kept(m, CountAttempt(m, id, spacing, now), sequence, reserved)
  {
    assert id in m ==> RowOk(id, m[id], sequence, reserved);
    Rewritten(m, id, CountAttempt(m, id, spacing, now), sequence, reserved);
  }

  /** The steps that do not write `inbound_messages`. */
  predicate LeavesRows(step: Step) {
    step.Tick? || step.Seed? || step.Claim? || step.Steal? || step.Beat? || step.GiveUp? || step.Read? || step.Crash?
  }

  ghost predicate RowsKept(s: State, t: State) {
    Kept(s.db.messages, t.db.messages, t.db.sequence, t.reserved)
  }

  lemma RowsLeft(s: State, step: Step)
    requires Enabled(s, step) && LeavesRows(step)
    ensures
      var t := Apply(s, step);
      t.db.messages == s.db.messages && t.db.sequence == s.db.sequence && t.reserved == s.reserved && t.db.log == s.db.log
  {
  }

  lemma RowsGrown(s: State, step: Step)
    requires Enabled(s, step) && (step.Draw? || step.Insert? || step.Schedule? || step.Promote?)
    requires RowsOk(s.db.messages, s.db.sequence, s.reserved)
    ensures RowsKept(s, Apply(s, step))
  {
    var m, n, r := s.db.messages, s.db.sequence, s.reserved;
    match step
    case Draw => PositionsDrawn(m, n, r, n + 1, r + {n + 1});
    case Insert(entry, position) => RowInserted(m, entry, position, n, r);
    case Schedule(entry, at, policy) => RowDeclared(m, entry, at, policy, n, r);
    case Promote(id) => RowPromoted(m, id, n, r);
  }

  lemma RowsRewritten(s: State, step: Step)
    requires Enabled(s, step) && (step.Withdraw? || step.Complete? || step.Count? || step.Flip? || step.Recover?)
    requires RowsOk(s.db.messages, s.db.sequence, s.reserved)
    ensures RowsKept(s, Apply(s, step))
  {
    var m, n, r := s.db.messages, s.db.sequence, s.reserved;
    match step
    case Withdraw(id) => RowRewritten(m, id, n, r);
    case Complete(d, verdict) => RowDecided(m, d.message, verdict, n, r);
    case Count(id, spacing, cap) => RowCounted(m, id, spacing, s.db.now, n, r);
    case Flip(id) => RowRewritten(m, id, n, r);
    case Recover(id) => RowRewritten(m, id, n, r);
  }

  lemma RowsPreserved(s: State, step: Step)
    requires Enabled(s, step) && RowsOk(s.db.messages, s.db.sequence, s.reserved)
    ensures RowsKept(s, Apply(s, step))
  {
    if LeavesRows(step) {
      RowsLeft(s, step);
    } else if step.Draw? || step.Insert? || step.Schedule? || step.Promote? {
      RowsGrown(s, step);
    } else {
      RowsRewritten(s, step);
    }
  }

  // ---- authority -----------------------------------------------------------------------------

  lemma TakePreserves(s: State, worker: WorkerId, key: LaneKey, until: int)
    requires AuthorityOk(s.db.registry, s.issued, s.held) && key in s.db.registry
    ensures
      var t := TakeStep(s, worker, key, until);
      && AuthorityOk(t.db.registry, t.issued, t.held)
      && (key, s.db.registry[key].ownershipVersion + 1) !in s.issued
  {
    var t := TakeStep(s, worker, key, until);
    forall h | h in t.held ensures BeliefOk(h.0, h.1, t.db.registry, t.issued) {
      assert h in s.held ==> BeliefOk(h.0, h.1, s.db.registry, s.issued);
    }
    forall k | k in t.db.registry && t.db.registry[k].claimedBy.Some?
      ensures OwnerIssued(t.db.registry[k], k, t.issued)
    {
      assert k != key ==> OwnerIssued(s.db.registry[k], k, s.issued);
    }
  }

  /** A lane's row changed without changing hands: renewed, or its checkpoint advanced. */
  lemma SameOwnerPreserves(s: State, key: LaneKey, row: PartitionRow)
    requires AuthorityOk(s.db.registry, s.issued, s.held) && key in s.db.registry
    requires row.ownershipVersion == s.db.registry[key].ownershipVersion
    requires row.claimedBy == s.db.registry[key].claimedBy
    ensures AuthorityOk(s.db.registry[key := row], s.issued, s.held)
  {
    var registry := s.db.registry[key := row];
    forall h | h in s.held ensures BeliefOk(h.0, h.1, registry, s.issued) {
      assert BeliefOk(h.0, h.1, s.db.registry, s.issued);
    }
    forall k | k in registry && registry[k].claimedBy.Some? ensures OwnerIssued(registry[k], k, s.issued) {
      assert OwnerIssued(s.db.registry[k], k, s.issued);
    }
  }

  lemma SeedPreserves(s: State, key: LaneKey)
    requires AuthorityOk(s.db.registry, s.issued, s.held) && key !in s.db.registry
    ensures AuthorityOk(s.db.registry[key := SEEDED], s.issued, s.held)
  {
    var registry := s.db.registry[key := SEEDED];
    forall h | h in s.held ensures BeliefOk(h.0, h.1, registry, s.issued) {
      assert BeliefOk(h.0, h.1, s.db.registry, s.issued);
    }
    forall k | k in registry && registry[k].claimedBy.Some? ensures OwnerIssued(registry[k], k, s.issued) {
      assert OwnerIssued(s.db.registry[k], k, s.issued);
    }
  }

  lemma ForgettingPreserves(s: State, held: set<(WorkerId, Lane)>)
    requires AuthorityOk(s.db.registry, s.issued, s.held) && held <= s.held
    ensures AuthorityOk(s.db.registry, s.issued, held)
  {
  }

  lemma ReleasePreserves(s: State, worker: WorkerId, lane: Lane)
    requires AuthorityOk(s.db.registry, s.issued, s.held)
    ensures AuthorityOk(Release(s.db.registry, lane, worker), s.issued, Drop(s.held, worker, lane))
  {
    var registry, held := Release(s.db.registry, lane, worker), Drop(s.held, worker, lane);
    forall h | h in held ensures BeliefOk(h.0, h.1, registry, s.issued) {
      assert BeliefOk(h.0, h.1, s.db.registry, s.issued);
    }
    forall k | k in registry && registry[k].claimedBy.Some? ensures OwnerIssued(registry[k], k, s.issued) {
      assert OwnerIssued(s.db.registry[k], k, s.issued);
    }
  }

  ghost predicate AuthorityKept(s: State, t: State) {
    AuthorityOk(t.db.registry, t.issued, t.held)
    && forall tok :: tok in s.issued ==> tok in t.issued && t.issued[tok] == s.issued[tok]
  }

  lemma AuthorityMoved(s: State, step: Step)
    requires Enabled(s, step) && AuthorityOk(s.db.registry, s.issued, s.held)
    requires step.Claim? || step.Steal? || step.Beat? || step.GiveUp? || step.Seed?
    ensures AuthorityKept(s, Apply(s, step))
  {
    match step
    case Claim(worker, key, until) => TakePreserves(s, worker, key, until);
    case Steal(worker, key, until) => TakePreserves(s, worker, key, until);
    case Beat(worker, lane, until) =>
      if Authorised(s.db.registry, lane, worker) {
        SameOwnerPreserves(s, lane.key, Renew(s.db.registry, lane, worker, until)[lane.key]);
      } else {
        ForgettingPreserves(s, Drop(s.held, worker, lane));
      }
    case GiveUp(worker, lane) => ReleasePreserves(s, worker, lane);
    case Seed(key) => if key !in s.db.registry { SeedPreserves(s, key); }
  }

  lemma AuthorityLeft(s: State, step: Step)
    requires Enabled(s, step) && AuthorityOk(s.db.registry, s.issued, s.held)
    requires !(step.Claim? || step.Steal? || step.Beat? || step.GiveUp? || step.Seed? || step.Complete?)
    ensures AuthorityKept(s, Apply(s, step))
  {
    if step.Crash? {
      ForgettingPreserves(s, Apply(s, step).held);
    }
  }

  lemma AuthorityCompleted(s: State, d: Delivery, verdict: Verdict)
    requires Enabled(s, Complete(d, verdict)) && AuthorityOk(s.db.registry, s.issued, s.held)
    ensures AuthorityKept(s, Apply(s, Complete(d, verdict)))
  {
    var (db', outcome) := CompleteFenced(s.db, d.lane, d.worker, d.message, d.position, verdict);
    if outcome.Committed? {
      SameOwnerPreserves(s, d.lane.key, db'.registry[d.lane.key]);
    } else {
      ForgettingPreserves(s, Drop(s.held, d.worker, d.lane));
    }
  }

  lemma AuthorityPreserved(s: State, step: Step)
    requires Enabled(s, step) && AuthorityOk(s.db.registry, s.issued, s.held)
    ensures AuthorityKept(s, Apply(s, step))
  {
    if step.Complete? {
      AuthorityCompleted(s, step.delivery, step.verdict);
    } else if step.Claim? || step.Steal? || step.Beat? || step.GiveUp? || step.Seed? {
      AuthorityMoved(s, step);
    } else {
      AuthorityLeft(s, step);
    }
  }

  // ---- deliveries, log and checkpoint --------------------------------------------------------

  lemma DeliveriesPreserved(s: State, step: Step)
    requires Inv(s) && Enabled(s, step)
    requires Evolves(s.db.messages, Apply(s, step).db.messages) && AuthorityKept(s, Apply(s, step))
    ensures var t := Apply(s, step); forall d :: d in t.inflight ==> DeliveryOk(d, t.db.messages, t.issued)
  {
    var t := Apply(s, step);
    forall d | d in t.inflight ensures DeliveryOk(d, t.db.messages, t.issued) {
      NewDeliveries(s, step, d);
      assert d in s.inflight ==> DeliveryOk(d, s.db.messages, s.issued);
    }
  }

  /** Only a read adds deliveries, and it adds the row as it stands. */
  lemma NewDeliveries(s: State, step: Step, d: Delivery)
    requires Enabled(s, step) && d in Apply(s, step).inflight
    ensures d in s.inflight || (
      && step.Read? && IssuedTo(s, d.lane, d.worker)
      && d.message in s.db.messages && s.db.messages[d.message].Lane() == d.lane.key
      && s.db.messages[d.message].position == Some(d.position))
  {
  }

  lemma LogLeft(s: State, t: State)
    requires LogOk(s.db.log, s.db.messages, s.issued) && t.db.log == s.db.log
    requires Evolves(s.db.messages, t.db.messages) && AuthorityKept(s, t)
    ensures LogOk(t.db.log, t.db.messages, t.issued)
  {
    forall i | 0 <= i < |t.db.log| ensures CommitOk(t.db.log[i], t.db.messages, t.issued) {
      assert CommitOk(s.db.log[i], s.db.messages, s.issued);
    }
  }

  lemma LogExtended(s: State, d: Delivery, verdict: Verdict)
    requires Inv(s) && d in s.inflight
    requires IsReceived(s.db.messages, d.message) && Authorised(s.db.registry, d.lane, d.worker)
    ensures
      var t := Apply(s, Complete(d, verdict));
      LogOk(t.db.log, t.db.messages, t.issued) && CheckpointOk(t.db.log, t.db.registry)
  {
    var t := Apply(s, Complete(d, verdict));
    var c := Commit(d.message, d.lane.key, d.worker, d.lane.ownershipVersion, d.position, verdict);
    assert t.db.log == s.db.log + [c];
    Appended(s.db.log, c);
    assert DeliveryOk(d, s.db.messages, s.issued);
    forall i | 0 <= i < |t.db.log| ensures CommitOk(t.db.log[i], t.db.messages, t.issued) {
      assert i < |s.db.log| ==> CommitOk(s.db.log[i], s.db.messages, s.issued);
    }
  }

  /** Every step but a commit leaves the log and every checkpoint alone. */
  lemma LogUntouched(s: State, step: Step)
    requires Enabled(s, step) && CheckpointOk(s.db.log, s.db.registry)
    requires step.Complete? ==>
      !(IsReceived(s.db.messages, step.delivery.message)
        && Authorised(s.db.registry, step.delivery.lane, step.delivery.worker))
    ensures Apply(s, step).db.log == s.db.log && CheckpointOk(s.db.log, Apply(s, step).db.registry)
  {
  }

  lemma InvPreserved(s: State, step: Step)
    requires Inv(s) && Enabled(s, step)
    ensures Inv(Apply(s, step))
  {
    RowsPreserved(s, step);
    AuthorityPreserved(s, step);
    DeliveriesPreserved(s, step);
    if step.Complete? && IsReceived(s.db.messages, step.delivery.message)
       && Authorised(s.db.registry, step.delivery.lane, step.delivery.worker) {
      LogExtended(s, step.delivery, step.verdict);
    } else {
      LogUntouched(s, step);
      LogLeft(s, Apply(s, step));
    }
  }

  lemma {:induction false} RunPreservesInv(s: State, steps: seq<Step>, t: State)
    requires Inv(s) && Run(s, steps, t)
    ensures Inv(t)
    decreases |steps|
  {
    if steps != [] {
      InvPreserved(s, steps[0]);
      RunPreservesInv(Apply(s, steps[0]), steps[1..], t);
    }
  }
}
