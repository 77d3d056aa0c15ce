/** The two tables as the workers see them: each method is one SQL statement or transaction of
    crates/actor_runtime/src/{lease,completion,schedule,worker}.rs, and its contract is the
    statement's function of the table contents. */
module Database {
  import opened Wrappers
  import opened Entries
  import opened Tables
  import opened Protocol
  import Balance

  datatype SeedError = Drift(declared: nat, seeded: nat)

  /** One row of the drain's SELECT: what the head-of-line loop looks at. */
  datatype Slot = Slot(id: MessageId, position: nat, nextAttemptAt: Option<int>)

  datatype RequeueOutcome =
    Requeued(actorType: string) | AlreadyDeliverable(actorType: string) | NotFound | NotRequeueable(status: Status)

  /** The rows a lane's drain selects from: RECEIVED and nothing else, wherever the checkpoint is. */
  function ReceivedOn(messages: Messages, key: LaneKey): set<MessageId> {
    set id | id in messages && messages[id].status == Received && messages[id].Lane() == key
  }

  /** `WHERE status = 'RECEIVED' ORDER BY position LIMIT limit` on one lane. */
  ghost predicate IsBatch(messages: Messages, key: LaneKey, limit: nat, rows: seq<Slot>) {
    && |rows| <= limit
    && (forall i :: 0 <= i < |rows| ==> IsSlot(messages, key, rows[i]))
    && (forall i, j :: 0 <= i < j < |rows| ==> rows[i].position < rows[j].position)
    && (forall id :: id in ReceivedOn(messages, key) ==> Selected(rows, id) || (|rows| == limit && Beyond(messages, rows, id)))
  }

  ghost predicate IsSlot(messages: Messages, key: LaneKey, row: Slot) {
    && row.id in ReceivedOn(messages, key)
    && messages[row.id].position == Some(row.position)
    && messages[row.id].nextAttemptAt == row.nextAttemptAt
  }

  ghost predicate Selected(rows: seq<Slot>, id: MessageId) {
    exists i :: 0 <= i < |rows| && rows[i].id == id
  }

  ghost predicate Beyond(messages: Messages, rows: seq<Slot>, id: MessageId)
    requires id in messages
  {
    messages[id].position.Some? && forall i :: 0 <= i < |rows| ==> rows[i].position < messages[id].position.value
  }

  /** The keys `generate_series(0, width - 1)` names. */
  function Keyspace(actorType: string, width: int): set<LaneKey> {
    set p | 0 <= p < width :: LaneKey(actorType, p)
  }

  function DueLanes(registry: Registry, actorType: string, now: int): set<LaneKey> {
    set k | k in registry && k.actorType == actorType && Claimable(registry[k], now)
  }

  function DueRows(messages: Messages, actorType: string, now: int): set<MessageId> {
    set id | id in messages && Due(messages, id, actorType, now)
  }

  lemma LowestPartition(keys: set<LaneKey>, actorType: string) returns (low: LaneKey)
    requires keys != {} && forall k :: k in keys ==> k.actorType == actorType
    ensures low in keys && forall k :: k in keys ==> low.partition <= k.partition
  {
    low :| low in keys;
    if keys != {low} {
      var rest := LowestPartition(keys - {low}, actorType);
      if rest.partition < low.partition { low := rest; }
    }
  }

  lemma HighestPartition(keys: set<LaneKey>, actorType: string) returns (high: LaneKey)
    requires keys != {} && forall k :: k in keys ==> k.actorType == actorType
    ensures high in keys && forall k :: k in keys ==> k.partition <= high.partition
  {
    high :| high in keys;
    if keys != {high} {
      var rest := HighestPartition(keys - {high}, actorType);
      if rest.partition > high.partition { high := rest; }
    }
  }

  /** `ORDER BY partition LIMIT max` over the claimable lanes. */
  ghost predicate IsLowest(due: set<LaneKey>, chosen: set<LaneKey>, max: nat) {
    && chosen <= due && |chosen| <= max
    && (|chosen| == max || chosen == due)
    && Below(chosen, due - chosen)
  }

  ghost predicate Below(low: set<LaneKey>, high: set<LaneKey>) {
    forall k, d :: k in low && d in high ==> k.partition <= d.partition
  }

  lemma BelowNext(low: set<LaneKey>, high: set<LaneKey>, key: LaneKey)
    requires Below(low, high) && key in high && forall k :: k in high ==> key.partition <= k.partition
    ensures Below(low + {key}, high - {key})
  {
  }

  /** The RETURNING rows: every chosen lane once, as it now stands. */
  ghost predicate AreReturned(lanes: seq<Lane>, chosen: set<LaneKey>, registry: Registry) {
    && |lanes| == |chosen|
    && (forall i :: 0 <= i < |lanes| ==> IsReturned(lanes[i], chosen, registry))
    && (forall i, j :: 0 <= i < j < |lanes| ==> lanes[i].key != lanes[j].key)
  }

  ghost predicate IsReturned(lane: Lane, chosen: set<LaneKey>, registry: Registry) {
    lane.key in chosen && lane.key in registry && lane == Returned(lane.key, registry[lane.key])
  }

  lemma ReturnedNext(lanes: seq<Lane>, chosen: set<LaneKey>, registry: Registry, key: LaneKey, worker: WorkerId, until: int)
    requires AreReturned(lanes, chosen, registry) && key in registry && key !in chosen
    ensures
      var registry' := Take(registry, key, worker, until);
      AreReturned(lanes + [Returned(key, registry'[key])], chosen + {key}, registry')
  {
    var registry' := Take(registry, key, worker, until);
    var lanes' := lanes + [Returned(key, registry'[key])];
    forall i | 0 <= i < |lanes'| ensures IsReturned(lanes'[i], chosen + {key}, registry') {
      assert i < |lanes| ==> IsReturned(lanes[i], chosen, registry);
    }
    assert forall i :: 0 <= i < |lanes| ==> IsReturned(lanes[i], chosen, registry);
  }

  lemma TakeNext(registry: Registry, chosen: set<LaneKey>, key: LaneKey, worker: WorkerId, until: int)
    requires key in registry && key !in chosen
    ensures Take(TakeAll(registry, chosen, worker, until), key, worker, until)
      == TakeAll(registry, chosen + {key}, worker, until)
  {
  }

  /** A row the promotion pass moved: RECEIVED, at a position drawn during the pass. */
  ghost predicate IsPromoted(before: MessageRow, after: MessageRow, low: nat, high: nat) {
    && after.position.Some? && low < after.position.value <= high
    && after == before.(status := Received, position := after.position)
  }

  /** Exactly the rows of `done` have been promoted. */
  ghost predicate ArePromoted(before: Messages, after: Messages, done: set<MessageId>, low: nat, high: nat) {
    && after.Keys == before.Keys
    && forall id :: id in before ==>
         if id in done then IsPromoted(before[id], after[id], low, high) else after[id] == before[id]
  }

  lemma PromotedNext(before: Messages, after: Messages, done: set<MessageId>, id: MessageId, low: nat, high: nat)
    requires ArePromoted(before, after, done, low, high) && id in before && id !in done && low <= high
    ensures ArePromoted(before, PromoteRow(after, id, high + 1), done + {id}, low, high + 1)
  {
  }

  /** Part of the pass is done: `done` of the due rows are promoted, at the positions up to `high`. */
  ghost predicate Promoting(before: Messages, after: Messages, done: set<MessageId>, low: nat, high: nat) {
    low <= high && RowsOk(after, high, {}) && ArePromoted(before, after, done, low, high)
  }

  lemma PromotingNext(before: Messages, after: Messages, done: set<MessageId>, id: MessageId, low: nat, high: nat)
    requires Promoting(before, after, done, low, high)
    requires id in before && id !in done && before[id].status == Scheduled
    ensures id in after && Promoting(before, PromoteRow(after, id, high + 1), done + {id}, low, high + 1)
  {
    assert after[id] == before[id];
    RowPromoted(after, id, high, {});
    PromotedNext(before, after, done, id, low, high);
  }

  lemma LowestPosition(messages: Messages, ids: set<MessageId>) returns (low: MessageId)
    requires ids != {} && forall id :: id in ids ==> id in messages && messages[id].position.Some?
    ensures low in ids && forall id :: id in ids ==> messages[low].position.value <= messages[id].position.value
  {
    low :| low in ids;
    if ids != {low} {
      var rest := LowestPosition(messages, ids - {low});
      if messages[rest].position.value < messages[low].position.value { low := rest; }
    }
  }

  /** The rows of `due` in partition order, up to `max`, each taken over as it is reached. */
  method TakeLowest(registry: Registry, due: set<LaneKey>, actorType: string, worker: WorkerId, until: int, max: nat)
    returns (table: Registry, lanes: seq<Lane>, ghost chosen: set<LaneKey>)
    requires due <= registry.Keys && forall k :: k in due ==> k.actorType == actorType
    ensures IsLowest(due, chosen, max)
    ensures table == TakeAll(registry, chosen, worker, until)
    ensures AreReturned(lanes, chosen, table)
  {
    var rest := due;
    table, lanes, chosen := registry, [], {};
    assert table == TakeAll(registry, chosen, worker, until);
    while |lanes| < max && rest != {}
      invariant rest <= due && chosen == due - rest && |chosen| <= max && Below(chosen, rest)
      invariant table == TakeAll(registry, chosen, worker, until)
      invariant AreReturned(lanes, chosen, table)
      decreases rest
    {
      ghost var lowest := LowestPartition(rest, actorType);
      var key :| key in rest && forall k :: k in rest ==> key.partition <= k.partition;
      ReturnedNext(lanes, chosen, table, key, worker, until);
      TakeNext(registry, chosen, key, worker, until);
      BelowNext(chosen, rest, key);
      table := Take(table, key, worker, until);
      lanes := lanes + [Returned(key, table[key])];
      assert due - (rest - {key}) == chosen + {key};
      rest, chosen := rest - {key}, chosen + {key};
    }
    assert due - chosen == rest;
  }

  lemma OneMorePromoted(
    before: Messages, after: Messages, due: set<MessageId>, rest: set<MessageId>, id: MessageId, low: nat, high: nat)
    requires Promoting(before, after, due - rest, low, high)
    requires id in rest && rest <= due && id in before && before[id].status == Scheduled
    ensures id in after && Promoting(before, PromoteRow(after, id, high + 1), due - (rest - {id}), low, high + 1)
    ensures |rest - {id}| == |rest| - 1
  {
    PromotingNext(before, after, due - rest, id, low, high);
    assert due - (rest - {id}) == due - rest + {id};
  }

  /** The rows of `due` in any order, each at the next position of the sequence. */
  method PromoteRows(messages: Messages, due: set<MessageId>, low: nat) returns (table: Messages, high: nat)
    requires RowsOk(messages, low, {})
    requires due <= messages.Keys && forall id :: id in due ==> messages[id].status == Scheduled
    ensures high == low + |due| && RowsOk(table, high, {})
    ensures ArePromoted(messages, table, due, low, high)
  {
    var rest := due;
    table, high := messages, low;
    assert due - rest == {};
    while rest != {}
      invariant rest <= due && high + |rest| == low + |due|
      invariant Promoting(messages, table, due - rest, low, high)
      decreases rest
    {
      var id :| id in rest;
      OneMorePromoted(messages, table, due, rest, id, low, high);
      table := PromoteRow(table, id, high + 1);
      rest, high := rest - {id}, high + 1;
    }
    assert due - rest == due;
  }

  /** The rows so far are the head of the lane, in order; those of `rest` are still to come. */
  ghost predicate Selecting(messages: Messages, key: LaneKey, rest: set<MessageId>, rows: seq<Slot>) {
    && (forall i :: 0 <= i < |rows| ==> IsSlot(messages, key, rows[i]))
    && (forall i, j :: 0 <= i < j < |rows| ==> rows[i].position < rows[j].position)
    && rest <= ReceivedOn(messages, key)
    && (forall id :: id in rest ==> Beyond(messages, rows, id))
    && (forall id :: id in ReceivedOn(messages, key) && id !in rest ==> Selected(rows, id))
  }

  lemma SelectingNext(messages: Messages, key: LaneKey, rest: set<MessageId>, rows: seq<Slot>, id: MessageId, sequence: nat)
    requires RowsOk(messages, sequence, {}) && Selecting(messages, key, rest, rows)
    requires id in rest && messages[id].position.Some?
    requires forall a :: a in rest ==> messages[a].position.Some? && messages[id].position.value <= messages[a].position.value
    ensures Selecting(messages, key, rest - {id}, rows + [Slot(id, messages[id].position.value, messages[id].nextAttemptAt)])
  {
    var next := rows + [Slot(id, messages[id].position.value, messages[id].nextAttemptAt)];
    assert Beyond(messages, rows, id);
    forall a | a in rest - {id} ensures Beyond(messages, next, a) {
      assert Beyond(messages, rows, a) && Apart(messages, id, a);
    }
    forall a | a in ReceivedOn(messages, key) && a !in rest - {id} ensures Selected(next, a) {
      if a == id { assert next[|rows|].id == a; } else {
        assert Selected(rows, a);
        var i :| 0 <= i < |rows| && rows[i].id == a;
        assert next[i].id == a;
      }
    }
  }

  method SelectRows(messages: Messages, key: LaneKey, limit: nat, ghost sequence: nat) returns (rows: seq<Slot>)
    requires RowsOk(messages, sequence, {})
    ensures IsBatch(messages, key, limit, rows)
  {
    var rest := ReceivedOn(messages, key);
    rows := [];
    while |rows| < limit && rest != {}
      invariant |rows| <= limit && Selecting(messages, key, rest, rows)
      decreases rest
    {
      forall a | a in rest ensures messages[a].position.Some? {
        assert RowOk(a, messages[a], sequence, {});
      }
      ghost var lowest := LowestPosition(messages, rest);
      var id :| id in rest && forall a :: a in rest ==> messages[id].position.value <= messages[a].position.value;
      SelectingNext(messages, key, rest, rows, id, sequence);
      rows := rows + [Slot(id, messages[id].position.value, messages[id].nextAttemptAt)];
      rest := rest - {id};
    }
  }

  class Database {
    var registry: Registry
    var messages: Messages
    var log: seq<Commit>
    var sequence: nat
    var now: int

    ghost function State(): Db
      reads this
    {
      Db(registry, messages, log, sequence, now)
    }

    ghost predicate Valid()
      reads this
    {
      RowsOk(messages, sequence, {})
    }

    constructor ()
      ensures Valid() && State() == Init.db
    {
      registry, messages, log, sequence, now := map[], map[], [], 0, 0;
    }

    // ---- mailbox_partitions ------------------------------------------------------------------

    /** `seed_partitions`: a first boot seeds the declared keyspace, a registry that already is
        that keyspace is left alone, and any other one is refused. */
    method SeedPartitions(actorType: string, width: int) returns (r: Result<(), SeedError>)
      modifies this`registry
      ensures
        var seeded, declared := Balance.LanesOf(old(registry), actorType), Keyspace(actorType, width);
        && (r.Err? <==> seeded != {} && seeded != declared)
        && (r.Ok? ==> Balance.LanesOf(registry, actorType) == declared)
        && (forall k :: k in old(registry) ==> k in registry && registry[k] == old(registry)[k])
        && (forall k :: k in registry && k !in old(registry) ==> registry[k] == SEEDED && r.Ok? && k in declared)
    {
      var seeded := Balance.LanesOf(registry, actorType);
      var declared := Keyspace(actorType, width);
      if seeded != {} && seeded != declared {
        return Err(Drift(|declared|, |seeded|));
      }
      registry := (map k | k in declared :: SEEDED) + registry;
      assert forall k :: k in declared ==> k in registry && k.actorType == actorType;
      assert forall k :: k in Balance.LanesOf(registry, actorType) ==> k in declared || k in seeded;
      assert Balance.LanesOf(registry, actorType) == declared;
      return Ok(());
    }

    /** `claim_due_lanes`: the `max` lowest claimable partitions, each with its next version. */
    method ClaimDueLanes(actorType: string, worker: WorkerId, lease: int, max: nat) returns (lanes: seq<Lane>, ghost chosen: set<LaneKey>)
      modifies this`registry
      ensures IsLowest(DueLanes(old(registry), actorType, now), chosen, max)
      ensures registry == TakeAll(old(registry), chosen, worker, now + lease)
      ensures AreReturned(lanes, chosen, registry)
    {
      registry, lanes, chosen := TakeLowest(registry, DueLanes(registry, actorType, now), actorType, worker, now + lease, max);
    }

    /** `ownership_census`. */
    method OwnershipCensus(actorType: string, worker: WorkerId) returns (c: Balance.Census)
      ensures Balance.IsCensus(registry, actorType, now, worker, c)
    {
      var others := Balance.Owners(registry, actorType, now) - {worker};
      var all := others;
      var largest: Option<(WorkerId, nat)> := None;
      while others != {}
        invariant others <= all
        invariant largest.None? <==> others == all
        invariant largest.Some? ==>
          && largest.value.0 in all - others
          && largest.value.1 == |Balance.Holding(registry, actorType, now, largest.value.0)|
          && forall u :: u in all - others ==>
               var n := |Balance.Holding(registry, actorType, now, u)|;
               n < largest.value.1 || (n == largest.value.1 && largest.value.0 <= u)
        decreases others
      {
        var u :| u in others;
        var n := |Balance.Holding(registry, actorType, now, u)|;
        if largest.None? || largest.value.1 < n || (largest.value.1 == n && u < largest.value.0) {
          largest := Some((u, n));
        }
        others := others - {u};
      }
      c := Balance.Census(|Balance.LanesOf(registry, actorType)|, |Balance.Holding(registry, actorType, now, worker)|,
                          |Balance.Owners(registry, actorType, now)|, largest);
    }

    /** `steal_from`: the victim's highest live lane, if it still has one. */
    method StealFrom(actorType: string, victim: WorkerId, worker: WorkerId, lease: int) returns (lane: Option<Lane>)
      modifies this`registry
      ensures
        var live := Balance.Holding(old(registry), actorType, now, victim);
        && (lane.None? <==> live == {})
        && (lane.None? ==> registry == old(registry))
        && (lane.Some? ==>
             && lane.value.key in live
             && (forall k :: k in live ==> k.partition <= lane.value.key.partition)
             && registry == Take(old(registry), lane.value.key, worker, now + lease)
             && lane.value == Returned(lane.value.key, registry[lane.value.key]))
    {
      var live := Balance.Holding(registry, actorType, now, victim);
      if live == {} {
        return None;
      }
      ghost var highest := HighestPartition(live, actorType);
      var key :| key in live && forall k :: k in live ==> k.partition <= key.partition;
      registry := Take(registry, key, worker, now + lease);
      lane := Some(Returned(key, registry[key]));
    }

    /** `heartbeat`: renews only the claim it was given. */
    method Heartbeat(lane: Lane, worker: WorkerId, lease: int) returns (renewed: bool)
      modifies this`registry
      ensures renewed == Authorised(old(registry), lane, worker)
      ensures registry == Renew(old(registry), lane, worker, now + lease)
    {
      renewed := Authorised(registry, lane, worker);
      if renewed {
        registry := registry[lane.key := registry[lane.key].(leaseUntil := Some(now + lease))];
      }
    }

    /** `release_lane`. */
    method ReleaseLane(lane: Lane, worker: WorkerId)
      modifies this`registry
      ensures registry == Release(old(registry), lane, worker)
    {
      if Authorised(registry, lane, worker) {
        registry := registry[lane.key := registry[lane.key].(claimedBy := None, leaseUntil := None)];
      }
    }

    // ---- inbound_messages --------------------------------------------------------------------

    /** `complete_fenced` from the flip on: the handler's effects are already in the transaction,
        and either guard failing rolls them back with everything else. */
    method Complete(lane: Lane, worker: WorkerId, id: MessageId, position: nat, verdict: Verdict) returns (outcome: Completion)
      requires Valid()
      modifies this`registry, this`messages, this`log
      ensures Valid()
      ensures (State(), outcome) == CompleteFenced(old(State()), lane, worker, id, position, verdict)
    {
      var saved := messages;
      RowDecided(messages, id, verdict, sequence, {});
      if !IsReceived(messages, id) {
        return AlreadyCompleted;
      }
      messages := messages[id := messages[id].(status := verdict.Status(), errorCode := verdict.ErrorCode())];
      if !Authorised(registry, lane, worker) {
        messages := saved;
        return FencedOut;
      }
      registry := Advance(registry, lane.key, position);
      log := log + [Commit(id, lane.key, worker, lane.ownershipVersion, position, verdict)];
      return Committed;
    }

    method CountDeliveryAttempt(id: MessageId, spacing: nat) returns (attempts: nat)
      requires Valid()
      modifies this`messages
      ensures Valid()
      ensures messages == CountAttempt(old(messages), id, spacing, now)
      ensures attempts == CountedAttempts(old(messages), id)
    {
      attempts := CountedAttempts(messages, id);
      RowCounted(messages, id, spacing, now, sequence, {});
      messages := CountAttempt(messages, id, spacing, now);
    }

    method FlipExhausted(id: MessageId) returns (flipped: bool)
      requires Valid()
      modifies this`messages
      ensures Valid()
      ensures messages == FlipPoisoned(old(messages), id) && flipped == IsReceived(old(messages), id)
    {
      flipped := IsReceived(messages, id);
      RowRewritten(messages, id, sequence, {});
      messages := FlipPoisoned(messages, id);
    }

    /** `requeue_if_poisoned`: the arbitration is the write. */
    method RequeueIfPoisoned(id: MessageId) returns (outcome: RequeueOutcome)
      requires Valid()
      modifies this`messages
      ensures Valid() && messages == Requeue(old(messages), id)
      ensures outcome.NotFound? <==> id !in old(messages)
      ensures outcome.Requeued? <==> id in old(messages) && old(messages)[id].Poisoned()
      ensures outcome.AlreadyDeliverable? <==> IsReceived(old(messages), id)
      ensures outcome.NotRequeueable? ==> outcome.status == old(messages)[id].status && messages == old(messages)
    {
      RowRewritten(messages, id, sequence, {});
      if id in messages && messages[id].Poisoned() {
        messages := Requeue(messages, id);
        return Requeued(messages[id].entry.actorType);
      }
      if id !in messages {
        return NotFound;
      }
      if messages[id].status == Received {
        return AlreadyDeliverable(messages[id].entry.actorType);
      }
      return NotRequeueable(messages[id].status);
    }

    /** `promote_due`: every due SCHEDULED row of the actor type becomes RECEIVED at a fresh
        position of its own; nothing else moves. */
    method PromoteDue(actorType: string) returns (promoted: nat)
      requires Valid()
      modifies this`messages, this`sequence
      ensures Valid()
      ensures promoted == |DueRows(old(messages), actorType, now)| && sequence == old(sequence) + promoted
      ensures ArePromoted(old(messages), messages, DueRows(old(messages), actorType, now), old(sequence), sequence)
    {
      promoted := |DueRows(messages, actorType, now)|;
      messages, sequence := PromoteRows(messages, DueRows(messages, actorType, now), sequence);
    }

    /** The drain's SELECT on one lane. */
    method Batch(key: LaneKey, limit: nat) returns (rows: seq<Slot>)
      requires Valid()
      ensures IsBatch(messages, key, limit, rows)
    {
      rows := SelectRows(messages, key, limit, sequence);
    }
  }
}
