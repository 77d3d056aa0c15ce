/** What the runtime promises over every run of the protocol: effects at most once, one live
    authority per lane, a checkpoint that never lies, one writer per aggregate. */
module Guarantees {
  import opened Wrappers
  import opened Routing
  import opened Entries
  import opened Tables
  import opened Protocol

  // ---- effects at most once ------------------------------------------------------------------

  /** Every FAILED verdict of the run carries one of the codes the handler can produce. */
  ghost predicate Uses(steps: seq<Step>, codes: iset<string>) {
    forall i :: 0 <= i < |steps| && steps[i].Complete? && steps[i].verdict.Fail? ==> steps[i].verdict.code in codes
  }

  ghost predicate AtMostOnce(s: State) {
    forall id :: CommitCount(s.db.log, id) <= 1
  }

  lemma CompletionPreserves(s: State, d: Delivery, verdict: Verdict)
    requires EffectsOk(s.db.log, s.db.messages) && IsReceived(s.db.messages, d.message)
    requires verdict.Fail? ==> verdict.code != POISON_CODE
    ensures EffectsOk(
      s.db.log + [Commit(d.message, d.lane.key, d.worker, d.lane.ownershipVersion, d.position, verdict)],
      Decide(s.db.messages, d.message, verdict))
  {
    Appended(s.db.log, Commit(d.message, d.lane.key, d.worker, d.lane.ownershipVersion, d.position, verdict));
  }

  lemma EffectsPreserved(s: State, step: Step)
    requires Inv(s) && EffectsOk(s.db.log, s.db.messages) && Enabled(s, step)
    requires step.Complete? && step.verdict.Fail? ==> step.verdict.code != POISON_CODE
    ensures var t := Apply(s, step); EffectsOk(t.db.log, t.db.messages)
  {
    var t := Apply(s, step);
    if step.Complete? && IsReceived(s.db.messages, step.delivery.message)
       && Authorised(s.db.registry, step.delivery.lane, step.delivery.worker) {
      CompletionPreserves(s, step.delivery, step.verdict);
    } else {
      LogUntouched(s, step);
      forall id ensures CommitCount(t.db.log, id) == if id in t.db.messages && t.db.messages[id].Decided() then 1 else 0 {
        DecidedUntouched(s, step, id);
      }
    }
  }

  /** No other step decides a row or takes a decision back; a poisoned row is not decided. */
  lemma DecidedUntouched(s: State, step: Step, id: MessageId)
    requires Enabled(s, step)
    requires step.Complete? ==>
      !(IsReceived(s.db.messages, step.delivery.message)
        && Authorised(s.db.registry, step.delivery.lane, step.delivery.worker))
    ensures (id in s.db.messages && s.db.messages[id].Decided())
      <==> (id in Apply(s, step).db.messages && Apply(s, step).db.messages[id].Decided())
  {
    if LeavesRows(step) {
      RowsLeft(s, step);
    }
  }

  lemma {:induction false} RunPreservesEffects(s: State, steps: seq<Step>, t: State, codes: iset<string>)
    requires Inv(s) && EffectsOk(s.db.log, s.db.messages)
    requires Run(s, steps, t) && Uses(steps, codes) && POISON_CODE !in codes
    ensures Inv(t) && EffectsOk(t.db.log, t.db.messages)
    decreases |steps|
  {
    if steps != [] {
      InvPreserved(s, steps[0]);
      EffectsPreserved(s, steps[0]);
      RunPreservesEffects(Apply(s, steps[0]), steps[1..], t, codes);
    }
  }

  /** Effects are in the log exactly of the rows that are terminal by verdict, once each; a
      poisoned row and an undelivered one have none. */
  lemma EffectsExactlyOfDecided(steps: seq<Step>, t: State, codes: iset<string>, id: MessageId)
    requires Run(Init, steps, t) && Uses(steps, codes) && POISON_CODE !in codes
    ensures CommitCount(t.db.log, id) <= 1
    ensures CommitCount(t.db.log, id) == 1 <==> id in t.db.messages && t.db.messages[id].Decided()
    ensures id in t.db.messages && t.db.messages[id].Poisoned() ==> CommitCount(t.db.log, id) == 0
  {
    InitInv();
    RunPreservesEffects(Init, steps, t, codes);
  }

  lemma Then(s: State, step: Step, rest: seq<Step>, t: State)
    requires Enabled(s, step) && Run(Apply(s, step), rest, t)
    ensures Run(s, [step] + rest, t)
  {
    assert ([step] + rest)[1..] == rest;
  }

  lemma RunAppend(s: State, steps: seq<Step>, m: State, step: Step)
    requires Run(s, steps, m) && Enabled(m, step)
    ensures Run(s, steps + [step], Apply(m, step))
    decreases |steps|
  {
    if steps == [] {
      assert [step][1..] == [];
    } else {
      assert (steps + [step])[1..] == steps[1..] + [step];
      RunAppend(Apply(s, steps[0]), steps[1..], m, step);
    }
  }

  // A single lane, a single message and a single worker, by the number of commits so far.

  const KEY := LaneKey("Order", 0)
  const LANE := Lane(KEY, 1, 0)
  const ID := Minted(0)
  const ENTRY := Entry(ID, Command, "Order", 0, 0, "PlaceOrder", Payload(None, ""), Payload(None, ""), None, None)
  const DELIVERY := Delivery(0, LANE, ID, 1)
  const FIRST := Commit(ID, KEY, 0, 1, 1, Fail(POISON_CODE))
  const SECOND := Commit(ID, KEY, 0, 1, 1, Succeed)

  function Row(status: Status, code: Option<string>): MessageRow {
    MessageRow(ENTRY, status, code, Some(1), 0, None, None)
  }

  function Single(row: MessageRow, checkpoint: nat, log: seq<Commit>, inflight: set<Delivery>): State {
    State(Db(map[KEY := PartitionRow(Some(0), Some(30), 1, checkpoint)], map[ID := row], log, 1, 0),
          {(0, LANE)}, inflight, {}, {}, map[(KEY, 1) := 0])
  }

  function Arrival(): seq<Step> {
    [Seed(KEY), Draw, Insert(ENTRY, 1), Claim(0, KEY, 30)]
  }

  lemma ArrivalRun()
    ensures Run(Init, Arrival(), Single(Row(Received, None), 0, [], {}))
  {
    var s1 := Apply(Init, Seed(KEY));
    var s2 := Apply(s1, Draw);
    assert s2 == State(Db(map[KEY := SEEDED], map[], [], 1, 0), {}, {}, {}, {1}, map[]);
    var s3 := Apply(s2, Insert(ENTRY, 1));
    assert s3 == State(Db(map[KEY := SEEDED], map[ID := Row(Received, None)], [], 1, 0), {}, {}, {}, {}, map[]);
    var s4 := Apply(s3, Claim(0, KEY, 30));
    assert s4 == Single(Row(Received, None), 0, [], {});
    Then(s3, Claim(0, KEY, 30), [], s4);
    Then(s2, Insert(ENTRY, 1), [Claim(0, KEY, 30)], s4);
    Then(s1, Draw, [Insert(ENTRY, 1)] + [Claim(0, KEY, 30)], s4);
    Then(Init, Seed(KEY), [Draw] + ([Insert(ENTRY, 1)] + [Claim(0, KEY, 30)]), s4);
    assert Arrival() == [Seed(KEY)] + ([Draw] + ([Insert(ENTRY, 1)] + [Claim(0, KEY, 30)]));
  }

  /** One read and one commit of the received row. */
  lemma CommitRun(s: State, checkpoint: nat, log: seq<Commit>, verdict: Verdict)
    requires checkpoint <= 1 && s == Single(Row(Received, None), checkpoint, log, {})
    ensures Run(s, [Read(0, LANE, ID), Complete(DELIVERY, verdict)],
                Single(Row(verdict.Status(), verdict.ErrorCode()), 1, log + [Commit(ID, KEY, 0, 1, 1, verdict)], {}))
  {
    var s1 := Apply(s, Read(0, LANE, ID));
    assert s1 == Single(Row(Received, None), checkpoint, log, {DELIVERY});
    var s2 := Apply(s1, Complete(DELIVERY, verdict));
    assert s2 == Single(Row(verdict.Status(), verdict.ErrorCode()), 1, log + [Commit(ID, KEY, 0, 1, 1, verdict)], {});
    Then(s1, Complete(DELIVERY, verdict), [], s2);
    Then(s, Read(0, LANE, ID), [Complete(DELIVERY, verdict)], s2);
    assert [Read(0, LANE, ID)] + [Complete(DELIVERY, verdict)] == [Read(0, LANE, ID), Complete(DELIVERY, verdict)];
  }

  lemma {:induction false} RunConcat(s: State, first: seq<Step>, m: State, second: seq<Step>, t: State)
    requires Run(s, first, m) && Run(m, second, t)
    ensures Run(s, first + second, t)
    decreases |first|
  {
    if first == [] {
      assert first + second == second;
    } else {
      assert (first + second)[1..] == first[1..] + second;
      RunConcat(Apply(s, first[0]), first[1..], m, second, t);
    }
  }

  const POISONED := Single(Row(Failed, Some(POISON_CODE)), 1, [FIRST], {})
  const REQUEUED := Single(Row(Received, None), 1, [FIRST], {})

  lemma PoisonedRun() returns (steps: seq<Step>)
    ensures Run(Init, steps, POISONED) && Uses(steps, iset{POISON_CODE})
  {
    var first := [Read(0, LANE, ID), Complete(DELIVERY, Fail(POISON_CODE))];
    ArrivalRun();
    CommitRun(Single(Row(Received, None), 0, [], {}), 0, [], Fail(POISON_CODE));
    assert [] + [FIRST] == [FIRST];
    RunConcat(Init, Arrival(), Single(Row(Received, None), 0, [], {}), first, POISONED);
    steps := Arrival() + first;
  }

  lemma RecoverRun()
    ensures Run(POISONED, [Recover(ID)], REQUEUED)
  {
    assert Apply(POISONED, Recover(ID)) == REQUEUED;
    Then(POISONED, Recover(ID), [], REQUEUED);
    assert [Recover(ID)] + [] == [Recover(ID)];
  }

  /** A handler that fails with the poison code on purpose: the operator requeues the decided
      row, and its effects are committed again. */
  lemma DoubleDelivery() returns (steps: seq<Step>, t: State)
    ensures Run(Init, steps, t) && Uses(steps, iset{POISON_CODE})
    ensures CommitCount(t.db.log, ID) == 2
  {
    var first := PoisonedRun();
    var second := [Read(0, LANE, ID), Complete(DELIVERY, Succeed)];
    t := Single(Row(Succeeded, None), 1, [FIRST] + [SECOND], {});
    RecoverRun();
    CommitRun(REQUEUED, 1, [FIRST], Succeed);
    RunConcat(POISONED, [Recover(ID)], REQUEUED, second, t);
    RunConcat(Init, first, POISONED, [Recover(ID)] + second, t);
    steps := first + ([Recover(ID)] + second);
    Appended([], FIRST);
    Appended([FIRST], SECOND);
    assert [] + [FIRST] == [FIRST];
  }

  /** At most once over all runs, exactly when no handler fails with the code that the
      requeue reads as "poisoned". */
  lemma AtMostOnceIff(codes: iset<string>)
    ensures (forall steps, t :: Run(Init, steps, t) && Uses(steps, codes) ==> AtMostOnce(t))
      <==> POISON_CODE !in codes
  {
    if POISON_CODE in codes {
      var steps, t := DoubleDelivery();
      assert Uses(steps, codes);
      assert !AtMostOnce(t);
    } else {
      forall steps, t | Run(Init, steps, t) && Uses(steps, codes) ensures AtMostOnce(t) {
        forall id ensures CommitCount(t.db.log, id) <= 1 {
          EffectsExactlyOfDecided(steps, t, codes, id);
        }
      }
    }
  }

  // ---- one live authority --------------------------------------------------------------------

  /** Nothing is forgotten, taken back or reissued from `s` to `t`. */
  ghost predicate Grows(s: State, t: State) {
    && s.db.log <= t.db.log
    && Evolves(s.db.messages, t.db.messages)
    && (forall k :: k in s.db.registry ==> LaneGrows(s.db.registry, t.db.registry, k))
    && (forall tok :: tok in s.issued ==> tok in t.issued && t.issued[tok] == s.issued[tok])
  }

  ghost predicate LaneGrows(before: Registry, after: Registry, k: LaneKey)
    requires k in before
  {
    && k in after
    && before[k].ownershipVersion <= after[k].ownershipVersion
    && before[k].checkpoint <= after[k].checkpoint
  }

  lemma LanesGrow(s: State, step: Step, k: LaneKey)
    requires Enabled(s, step) && k in s.db.registry
    ensures LaneGrows(s.db.registry, Apply(s, step).db.registry, k)
    ensures s.db.log <= Apply(s, step).db.log
  {
  }

  lemma StepGrows(s: State, step: Step)
    requires Inv(s) && Enabled(s, step)
    ensures Grows(s, Apply(s, step))
  {
    RowsPreserved(s, step);
    AuthorityPreserved(s, step);
    var t := Apply(s, step);
    forall k | k in s.db.registry ensures LaneGrows(s.db.registry, t.db.registry, k) {
      LanesGrow(s, step, k);
    }
    assert s.db.log <= t.db.log by {
      if step.Complete? { } else { LogUntouched(s, step); }
    }
  }

  lemma GrowsTransitive(s: State, m: State, t: State)
    requires Grows(s, m) && Grows(m, t)
    ensures Grows(s, t)
  {
    forall k | k in s.db.registry ensures LaneGrows(s.db.registry, t.db.registry, k) {
      assert LaneGrows(s.db.registry, m.db.registry, k) && LaneGrows(m.db.registry, t.db.registry, k);
    }
  }

  /** Over every run: versions and checkpoints never decrease, and a claim once returned to a
      worker belongs to that worker forever. */
  lemma {:induction false} RunGrows(s: State, steps: seq<Step>, t: State)
    requires Inv(s) && Run(s, steps, t)
    ensures Inv(t) && Grows(s, t)
    decreases |steps|
  {
    if steps != [] {
      var m := Apply(s, steps[0]);
      StepGrows(s, steps[0]);
      InvPreserved(s, steps[0]);
      RunGrows(m, steps[1..], t);
      GrowsTransitive(s, m, t);
    }
  }

  /** Once a lane's version has moved past `version`, no run ever commits under it again: what
      the log gains on that lane carries a later version. */
  lemma {:induction false} StaleNeverCommits(s: State, steps: seq<Step>, t: State, key: LaneKey, version: nat)
    requires Inv(s) && Run(s, steps, t)
    requires key in s.db.registry && version < s.db.registry[key].ownershipVersion
    ensures forall i :: |s.db.log| <= i < |t.db.log| && t.db.log[i].key == key ==> version < t.db.log[i].ownershipVersion
    decreases |steps|
  {
    RunGrows(s, steps, t);
    if steps != [] {
      var m := Apply(s, steps[0]);
      StepGrows(s, steps[0]);
      InvPreserved(s, steps[0]);
      assert LaneGrows(s.db.registry, m.db.registry, key);
      RunGrows(m, steps[1..], t);
      StaleNeverCommits(m, steps[1..], t, key, version);
      assert m.db.log <= t.db.log;
      forall i | |s.db.log| <= i < |m.db.log| && m.db.log[i].key == key ensures version < m.db.log[i].ownershipVersion {
        NewCommit(s, steps[0], i);
      }
    }
  }

  lemma NewCommit(s: State, step: Step, i: nat)
    requires Enabled(s, step) && |s.db.log| <= i < |Apply(s, step).db.log|
    ensures var c := Apply(s, step).db.log[i];
      && c.key in s.db.registry
      && c.ownershipVersion == s.db.registry[c.key].ownershipVersion
      && s.db.registry[c.key].claimedBy == Some(c.worker)
  {
  }

  /** Renewal, release and completion under a version that is not the lane's current one change
      neither table. */
  lemma StaleHasNoEffect(s: State, worker: WorkerId, lane: Lane, until: int, d: Delivery, verdict: Verdict)
    requires lane.key in s.db.registry && lane.ownershipVersion != s.db.registry[lane.key].ownershipVersion
    requires d.lane == lane && d.worker == worker && d in s.inflight && (worker, lane) in s.held
    ensures Apply(s, Beat(worker, lane, until)).db == s.db
    ensures Apply(s, GiveUp(worker, lane)).db == s.db
    ensures Apply(s, Complete(d, verdict)).db == s.db
  {
  }

  /** Two commits under one (lane, version) are the same worker's. */
  lemma OneWorkerPerVersion(steps: seq<Step>, t: State, i: nat, j: nat)
    requires Run(Init, steps, t)
    requires i < j < |t.db.log|
    requires t.db.log[i].key == t.db.log[j].key
    ensures t.db.log[i].ownershipVersion <= t.db.log[j].ownershipVersion
    ensures t.db.log[i].ownershipVersion == t.db.log[j].ownershipVersion ==> t.db.log[i].worker == t.db.log[j].worker
  {
    InitInv();
    RunGrows(Init, steps, t);
    assert CommitOk(t.db.log[i], t.db.messages, t.issued) && CommitOk(t.db.log[j], t.db.messages, t.issued);
  }

  /** The step is a heartbeat or a completion by this worker under this very claim. */
  predicate Under(step: Step, worker: WorkerId, lane: Lane) {
    match step
    case Beat(w, l, _) => w == worker && Token(l) == Token(lane)
    case Complete(d, _) => d.worker == worker && Token(d.lane) == Token(lane)
    case _ => false
  }

  /** A heartbeat or a completion drops a claim exactly when it is made under that claim and a later
      version has superseded it, or it is a completion and its row is terminal already. Every other
      claim the worker holds, of the same partition too, is kept. */
  lemma DroppedIff(s: State, step: Step, worker: WorkerId, lane: Lane)
    requires Inv(s) && Enabled(s, step) && (step.Beat? || step.Complete?)
    requires (worker, lane) in s.held
    ensures (worker, lane) !in Apply(s, step).held
      <==> Under(step, worker, lane)
           && (lane.ownershipVersion < s.db.registry[lane.key].ownershipVersion
               || (step.Complete? && !IsReceived(s.db.messages, step.delivery.message)))
    ensures forall h :: h in s.held && Token(h.1) != Token(lane) && Under(step, worker, lane) ==> h in Apply(s, step).held
  {
    assert BeliefOk(worker, lane, s.db.registry, s.issued);
    assert Token(lane).0 in s.db.registry && lane.ownershipVersion <= s.db.registry[lane.key].ownershipVersion;
  }

  /** So a worker drops a lane it still owns exactly when its own completion under that claim finds
      that somebody else has finished the row. */
  lemma LiveDropIff(s: State, step: Step, worker: WorkerId, lane: Lane)
    requires Inv(s) && Enabled(s, step) && (step.Beat? || step.Complete?)
    requires (worker, lane) in s.held && Authorised(s.db.registry, lane, worker)
    ensures (worker, lane) !in Apply(s, step).held
      <==> Under(step, worker, lane) && step.Complete? && !IsReceived(s.db.messages, step.delivery.message)
  {
    DroppedIff(s, step, worker, lane);
  }

  // A run that gets there: the poison statements carry no fence.

  const LANE2 := Lane(KEY, 2, 0)
  const DELIVERY2 := Delivery(1, LANE2, ID, 1)

  /** Worker 1 has stolen the lane from worker 0; both still believe. */
  function Stolen(row: MessageRow, inflight: set<Delivery>, flipping: set<MessageId>): State {
    State(Db(map[KEY := PartitionRow(Some(1), Some(60), 2, 0)], map[ID := row], [], 1, 0),
          {(0, LANE), (1, LANE2)}, inflight, flipping, {}, map[(KEY, 1) := 0, (KEY, 2) := 1])
  }

  const COUNTED := MessageRow(ENTRY, Received, None, Some(1), 1, None, None)
  const FLIPPED := MessageRow(ENTRY, Failed, Some(POISON_CODE), Some(1), 1, None, None)

  lemma StolenRun() returns (steps: seq<Step>)
    ensures Run(Init, steps, Stolen(Row(Received, None), {DELIVERY2}, {}))
  {
    ArrivalRun();
    var s1 := Single(Row(Received, None), 0, [], {});
    var s2 := Stolen(Row(Received, None), {}, {});
    assert Apply(s1, Steal(1, KEY, 60)) == s2;
    RunAppend(Init, Arrival(), s1, Steal(1, KEY, 60));
    assert Apply(s2, Read(1, LANE2, ID)) == Stolen(Row(Received, None), {DELIVERY2}, {});
    RunAppend(Init, Arrival() + [Steal(1, KEY, 60)], s2, Read(1, LANE2, ID));
    steps := Arrival() + [Steal(1, KEY, 60)] + [Read(1, LANE2, ID)];
  }

  /** The stale owner counts the last attempt and flips the row the live owner is delivering. */
  lemma StaleFlipRun() returns (steps: seq<Step>)
    ensures Run(Init, steps, Stolen(FLIPPED, {DELIVERY2}, {ID}))
  {
    var before := StolenRun();
    var s1 := Stolen(Row(Received, None), {DELIVERY2}, {});
    var s2 := Stolen(COUNTED, {DELIVERY2}, {ID});
    assert Apply(s1, Count(ID, 0, 1)) == s2;
    RunAppend(Init, before, s1, Count(ID, 0, 1));
    assert Apply(s2, Flip(ID)) == Stolen(FLIPPED, {DELIVERY2}, {ID});
    RunAppend(Init, before + [Count(ID, 0, 1)], s2, Flip(ID));
    steps := before + [Count(ID, 0, 1)] + [Flip(ID)];
  }

  /** A reachable state in which a completion makes a worker drop a lane it still owns. */
  lemma LiveLaneDropped() returns (steps: seq<Step>, s: State, step: Step, worker: WorkerId, lane: Lane)
    ensures Run(Init, steps, s) && Enabled(s, step) && step.Complete?
    ensures (worker, lane) in s.held && (worker, lane) !in Apply(s, step).held
    ensures Authorised(Apply(s, step).db.registry, lane, worker)
  {
    steps := StaleFlipRun();
    s, step, worker, lane := Stolen(FLIPPED, {DELIVERY2}, {ID}), Complete(DELIVERY2, Succeed), 1, LANE2;
    assert !IsReceived(s.db.messages, ID);
  }

  // ---- checkpoint ----------------------------------------------------------------------------

  /** In every reachable state the checkpoint is the largest position ever committed on the lane. */
  lemma CheckpointIsHighWater(steps: seq<Step>, t: State, key: LaneKey)
    requires Run(Init, steps, t) && key in t.db.registry
    ensures forall i :: 0 <= i < |t.db.log| && t.db.log[i].key == key ==> t.db.log[i].position <= t.db.registry[key].checkpoint
    ensures t.db.registry[key].checkpoint == 0
      || exists i :: 0 <= i < |t.db.log| && t.db.log[i].key == key && t.db.log[i].position == t.db.registry[key].checkpoint
  {
    InitInv();
    RunGrows(Init, steps, t);
    HighWaterIsMax(t.db.log, key);
  }

  lemma {:induction false} HighWaterIsMax(log: seq<Commit>, key: LaneKey)
    ensures forall i :: 0 <= i < |log| && log[i].key == key ==> log[i].position <= HighWater(log, key)
    ensures HighWater(log, key) == 0
      || exists i :: 0 <= i < |log| && log[i].key == key && log[i].position == HighWater(log, key)
    decreases |log|
  {
    if log != [] {
      var rest := log[..|log| - 1];
      HighWaterIsMax(rest, key);
      assert forall i :: 0 <= i < |rest| ==> rest[i] == log[i];
    }
  }

  /** The checkpoint is not a filter: the current owner delivers a RECEIVED row wherever its
      position lies, and a position below the checkpoint leaves the checkpoint where it was. */
  lemma LateRowDelivered(s: State, worker: WorkerId, lane: Lane, id: MessageId, verdict: Verdict)
    requires Inv(s) && Authorised(s.db.registry, lane, worker)
    requires IsReceived(s.db.messages, id) && s.db.messages[id].Lane() == lane.key
    ensures Enabled(s, Read(worker, lane, id))
    ensures
      var m := Apply(s, Read(worker, lane, id));
      var d := Delivery(worker, lane, id, s.db.messages[id].position.value);
      && d in m.inflight
      && var t := Apply(m, Complete(d, verdict));
      && t.db.messages[id].status == verdict.Status()
      && t.db.log == s.db.log + [Commit(id, lane.key, worker, lane.ownershipVersion, d.position, verdict)]
      && t.db.registry[lane.key].checkpoint == Greatest(s.db.registry[lane.key].checkpoint, d.position)
  {
    assert OwnerIssued(s.db.registry[lane.key], lane.key, s.issued);
    assert RowOk(id, s.db.messages[id], s.db.sequence, s.reserved);
  }

  // ---- one writer per aggregate --------------------------------------------------------------

  ghost function EntriesOf(messages: Messages): iset<Entry> {
    iset id | id in messages :: messages[id].entry
  }

  /** A row the step brings was built by a door or a completion, or is a reminder of one that is
      there. */
  ghost predicate StepAddressed(s: State, step: Step) {
    && (step.Insert? ==> Built(step.entry))
    && (step.Schedule? ==> Built(step.entry) || Inherits(step.entry, EntriesOf(s.db.messages)))
  }

  ghost predicate WellAddressed(s: State, steps: seq<Step>)
    decreases |steps|
  {
    steps != [] && Enabled(s, steps[0]) ==> StepAddressed(s, steps[0]) && WellAddressed(Apply(s, steps[0]), steps[1..])
  }

  ghost predicate AllRouted(messages: Messages) {
    forall id :: id in messages ==> Routed(messages[id].entry)
  }

  lemma RoutedPreserved(s: State, step: Step)
    requires RowsOk(s.db.messages, s.db.sequence, s.reserved) && AllRouted(s.db.messages) && Enabled(s, step)
    requires StepAddressed(s, step)
    ensures AllRouted(Apply(s, step).db.messages)
  {
    RowsPreserved(s, step);
    if step.Insert? || step.Schedule? {
      if Built(step.entry) { BuiltIsRouted(step.entry); } else { InheritedIsRouted(step.entry, EntriesOf(s.db.messages)); }
    }
    var t := Apply(s, step);
    forall id | id in t.db.messages ensures Routed(t.db.messages[id].entry) {
      if id in s.db.messages {
        assert t.db.messages[id].Lane() == s.db.messages[id].Lane();
      } else {
        NewRows(s, step, id);
      }
    }
  }

  lemma NewRows(s: State, step: Step, id: MessageId)
    requires Enabled(s, step) && id in Apply(s, step).db.messages && id !in s.db.messages
    ensures (step.Insert? || step.Schedule?) && Apply(s, step).db.messages[id].entry == step.entry
  {
  }

  lemma {:induction false} RunRouted(s: State, steps: seq<Step>, t: State)
    requires Inv(s) && AllRouted(s.db.messages) && Run(s, steps, t) && WellAddressed(s, steps)
    ensures Inv(t) && AllRouted(t.db.messages)
    decreases |steps|
  {
    if steps != [] {
      RoutedPreserved(s, steps[0]);
      InvPreserved(s, steps[0]);
      RunRouted(Apply(s, steps[0]), steps[1..], t);
    }
  }

  /** All commits for one aggregate are on its one declared lane, under non-decreasing versions,
      and one version is one worker. */
  lemma OneAggregateOneWriter(steps: seq<Step>, t: State, i: nat, j: nat)
    requires Run(Init, steps, t) && WellAddressed(Init, steps)
    requires i < j < |t.db.log|
    requires t.db.log[i].message in t.db.messages && t.db.log[j].message in t.db.messages
    requires
      var a, b := t.db.messages[t.db.log[i].message].entry, t.db.messages[t.db.log[j].message].entry;
      a.actorType == b.actorType && a.actorId == b.actorId
    ensures t.db.log[i].key == t.db.log[j].key
    ensures t.db.log[i].ownershipVersion <= t.db.log[j].ownershipVersion
    ensures t.db.log[i].ownershipVersion == t.db.log[j].ownershipVersion ==> t.db.log[i].worker == t.db.log[j].worker
  {
    InitInv();
    RunRouted(Init, steps, t);
    assert CommitOk(t.db.log[i], t.db.messages, t.issued) && CommitOk(t.db.log[j], t.db.messages, t.issued);
    assert Routed(t.db.messages[t.db.log[i].message].entry) && Routed(t.db.messages[t.db.log[j].message].entry);
    OneWorkerPerVersion(steps, t, i, j);
  }
}
