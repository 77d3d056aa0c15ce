/** What a lane's checkpoint says about the rows at or below it, and what it does not
    (crates/actor_runtime/src/worker.rs and crates/actor_client/src/supervision.rs). */
module Checkpoint {
  import opened Wrappers
  import opened Entries
  import opened Tables
  import opened Protocol
  import opened Guarantees

  /** Not RECEIVED at or below the checkpoint of its lane. */
  predicate RowDone(registry: Registry, row: MessageRow) {
    row.status == Received && row.position.Some? && row.Lane() in registry ==> registry[row.Lane()].checkpoint < row.position.value
  }

  /** Everything at or below a checkpoint is terminal. */
  ghost predicate DoneBelow(db: Db) {
    forall id :: id in db.messages ==> RowDone(db.registry, db.messages[id])
  }

  predicate AtOrBelow(registry: Registry, key: LaneKey, position: nat) {
    key in registry && position <= registry[key].checkpoint
  }

  /** A RECEIVED row of the lane before this position. */
  ghost predicate Earlier(messages: Messages, key: LaneKey, position: nat) {
    exists id :: id in messages && messages[id].status == Received && messages[id].Lane() == key
      && messages[id].position.Some? && messages[id].position.value < position
  }

  /** The three ways to get below the checkpoint: an insert that becomes visible late, a requeue of
      a row the lane has passed, and a commit out of the lane's order. */
  ghost predicate Undercuts(s: State, step: Step) {
    match step
    case Insert(entry, position) =>
      entry.messageId !in s.db.messages && AtOrBelow(s.db.registry, LaneKey(entry.actorType, entry.partition), position)
    case Recover(id) =>
      && id in s.db.messages && s.db.messages[id].Poisoned() && s.db.messages[id].position.Some?
      && AtOrBelow(s.db.registry, s.db.messages[id].Lane(), s.db.messages[id].position.value)
    case Complete(d, _) =>
      && IsReceived(s.db.messages, d.message) && Authorised(s.db.registry, d.lane, d.worker)
      && Earlier(s.db.messages, d.lane.key, d.position)
    case _ => false
  }

  lemma InsertIff(s: State, step: Step)
    requires Inv(s) && DoneBelow(s.db) && Enabled(s, step) && step.Insert?
    ensures DoneBelow(Apply(s, step).db) <==> !Undercuts(s, step)
  {
    var t, id := Apply(s, step), step.entry.messageId;
    if id !in s.db.messages {
      assert t.db.messages[id] == MessageRow(step.entry, Received, None, Some(step.position), 0, None, None);
      assert RowDone(t.db.registry, t.db.messages[id]) <==> !Undercuts(s, step);
      assert forall other :: other in s.db.messages ==> t.db.messages[other] == s.db.messages[other];
    }
  }

  lemma RecoverIff(s: State, step: Step)
    requires Inv(s) && DoneBelow(s.db) && Enabled(s, step) && step.Recover?
    ensures DoneBelow(Apply(s, step).db) <==> !Undercuts(s, step)
  {
    var t, id := Apply(s, step), step.id;
    if id in s.db.messages && s.db.messages[id].Poisoned() {
      assert RowOk(id, s.db.messages[id], s.db.sequence, s.reserved);
      assert RowDone(t.db.registry, t.db.messages[id]) <==> !Undercuts(s, step);
      assert forall other :: other in s.db.messages && other != id ==> t.db.messages[other] == s.db.messages[other];
    }
  }

  lemma CompleteIff(s: State, step: Step)
    requires Inv(s) && DoneBelow(s.db) && Enabled(s, step) && step.Complete?
    ensures DoneBelow(Apply(s, step).db) <==> !Undercuts(s, step)
  {
    var t, d := Apply(s, step), step.delivery;
    assert DeliveryOk(d, s.db.messages, s.issued);
    if IsReceived(s.db.messages, d.message) && Authorised(s.db.registry, d.lane, d.worker) {
      assert t.db.messages[d.message].status != Received;
      assert forall other :: other in s.db.messages && other != d.message ==> t.db.messages[other] == s.db.messages[other];
      forall other | other in s.db.messages && other != d.message
        ensures RowDone(t.db.registry, t.db.messages[other]) <==>
                !(s.db.messages[other].status == Received && s.db.messages[other].Lane() == d.lane.key
                  && s.db.messages[other].position.Some? && s.db.messages[other].position.value < d.position)
      {
        assert RowDone(s.db.registry, s.db.messages[other]) && Apart(s.db.messages, other, d.message);
      }
    }
  }

  /** Positions are drawn above every checkpoint. */
  lemma CheckpointDrawn(s: State, key: LaneKey)
    requires Inv(s) && key in s.db.registry
    ensures s.db.registry[key].checkpoint <= s.db.sequence
  {
    assert HighWater(s.db.log, key) == s.db.registry[key].checkpoint;
    HighWaterIsMax(s.db.log, key);
    if HighWater(s.db.log, key) != 0 {
      var i :| 0 <= i < |s.db.log| && s.db.log[i].key == key && s.db.log[i].position == HighWater(s.db.log, key);
      assert CommitOk(s.db.log[i], s.db.messages, s.issued);
      assert RowOk(s.db.log[i].message, s.db.messages[s.db.log[i].message], s.db.sequence, s.reserved);
    }
  }

  /** Steps on the registry leave the rows alone and move no checkpoint. */
  lemma LeaseStepsKeep(s: State, step: Step)
    requires Inv(s) && DoneBelow(s.db) && Enabled(s, step) && LeavesRows(step)
    ensures DoneBelow(Apply(s, step).db)
  {
    var t := Apply(s, step);
    RowsLeft(s, step);
    forall id | id in t.db.messages ensures RowDone(t.db.registry, t.db.messages[id]) {
      assert RowDone(s.db.registry, s.db.messages[id]) && RowOk(id, s.db.messages[id], s.db.sequence, s.reserved);
    }
  }

  lemma PromoteKeeps(s: State, step: Step)
    requires Inv(s) && DoneBelow(s.db) && Enabled(s, step) && step.Promote?
    ensures DoneBelow(Apply(s, step).db)
  {
    var t := Apply(s, step);
    var row := t.db.messages[step.id];
    if row.Lane() in s.db.registry { CheckpointDrawn(s, row.Lane()); }
    assert forall id :: id in s.db.messages && id != step.id ==> t.db.messages[id] == s.db.messages[id];
  }

  lemma RowStepsKeep(s: State, step: Step)
    requires Inv(s) && DoneBelow(s.db) && Enabled(s, step)
    requires step.Draw? || step.Schedule? || step.Withdraw? || step.Count? || step.Flip?
    ensures DoneBelow(Apply(s, step).db)
  {
    var t := Apply(s, step);
    forall id | id in t.db.messages ensures RowDone(t.db.registry, t.db.messages[id]) {
      assert id in s.db.messages ==> RowDone(s.db.registry, s.db.messages[id]);
    }
  }

  /** One step leaves everything at or below the checkpoints terminal, exactly when it is none of
      the three. */
  lemma StepDoneIff(s: State, step: Step)
    requires Inv(s) && DoneBelow(s.db) && Enabled(s, step)
    ensures DoneBelow(Apply(s, step).db) <==> !Undercuts(s, step)
  {
    match step
    case Insert(_, _) => InsertIff(s, step);
    case Recover(_) => RecoverIff(s, step);
    case Complete(_, _) => CompleteIff(s, step);
    case Promote(_) => PromoteKeeps(s, step);
    case _ => if LeavesRows(step) { LeaseStepsKeep(s, step); } else { RowStepsKeep(s, step); }
  }

  /** At every state of the run, the last one included. */
  ghost predicate AlwaysDone(s: State, steps: seq<Step>)
    decreases |steps|
  {
    DoneBelow(s.db) && (steps != [] && Enabled(s, steps[0]) ==> AlwaysDone(Apply(s, steps[0]), steps[1..]))
  }

  ghost predicate NeverUndercuts(s: State, steps: seq<Step>)
    decreases |steps|
  {
    steps != [] && Enabled(s, steps[0]) ==> !Undercuts(s, steps[0]) && NeverUndercuts(Apply(s, steps[0]), steps[1..])
  }

  lemma {:induction false} DoneAlongRunIff(s: State, steps: seq<Step>, t: State)
    requires Inv(s) && DoneBelow(s.db) && Run(s, steps, t)
    ensures AlwaysDone(s, steps) <==> NeverUndercuts(s, steps)
    decreases |steps|
  {
    if steps != [] {
      var m := Apply(s, steps[0]);
      StepDoneIff(s, steps[0]);
      InvPreserved(s, steps[0]);
      if DoneBelow(m.db) {
        DoneAlongRunIff(m, steps[1..], t);
      }
    }
  }

  /** "Everything at or below the checkpoint is terminal" holds throughout a run exactly when no row
      becomes visible late, none is requeued once passed, and none is committed out of order. */
  lemma DoneBelowIff(steps: seq<Step>, t: State)
    requires Run(Init, steps, t)
    ensures AlwaysDone(Init, steps) <==> NeverUndercuts(Init, steps)
  {
    InitInv();
    DoneAlongRunIff(Init, steps, t);
  }

  // ---- a run that breaks it ----------------------------------------------------------------------

  // Two positions are drawn; the second commits its row first, and the lane delivers it.

  const LATE := Minted(1)
  const LATE_ENTRY := ENTRY.(messageId := LATE)
  const AHEAD := Delivery(0, LANE, ID, 2)
  const BEHIND := Delivery(0, LANE, LATE, 1)

  function Ahead(): MessageRow {
    MessageRow(ENTRY, Succeeded, None, Some(2), 0, None, None)
  }

  function Behind(status: Status): MessageRow {
    MessageRow(LATE_ENTRY, status, None, Some(1), 0, None, None)
  }

  function Passed(messages: Messages, log: seq<Commit>, inflight: set<Delivery>, reserved: set<nat>): State {
    State(Db(map[KEY := PartitionRow(Some(0), Some(30), 1, 2)], messages, log, 2, 0),
          {(0, LANE)}, inflight, {}, reserved, map[(KEY, 1) := 0])
  }

  const COMMITTED := [Commit(ID, KEY, 0, 1, 2, Succeed)]

  lemma DrawTwice() returns (steps: seq<Step>)
    ensures Run(Init, steps, State(Db(map[KEY := SEEDED], map[], [], 2, 0), {}, {}, {}, {1, 2}, map[]))
  {
    var s1 := Apply(Init, Seed(KEY));
    var s2 := Apply(s1, Draw);
    assert s2 == State(Db(map[KEY := SEEDED], map[], [], 1, 0), {}, {}, {}, {1}, map[]);
    var s3 := Apply(s2, Draw);
    assert s3 == State(Db(map[KEY := SEEDED], map[], [], 2, 0), {}, {}, {}, {1, 2}, map[]);
    Then(s2, Draw, [], s3);
    Then(s1, Draw, [Draw] + [], s3);
    Then(Init, Seed(KEY), [Draw] + ([Draw] + []), s3);
    steps := [Seed(KEY)] + ([Draw] + ([Draw] + []));
  }

  const FIRST_ROW := MessageRow(ENTRY, Received, None, Some(2), 0, None, None)

  /** The lane claimed, its first row read. */
  function Reading(inflight: set<Delivery>): State {
    State(Db(map[KEY := PartitionRow(Some(0), Some(30), 1, 0)], map[ID := FIRST_ROW], [], 2, 0),
          {(0, LANE)}, inflight, {}, {1}, map[(KEY, 1) := 0])
  }

  lemma SecondInserted() returns (steps: seq<Step>)
    ensures Run(Init, steps, Reading({}))
  {
    steps := DrawTwice();
    var s := State(Db(map[KEY := SEEDED], map[], [], 2, 0), {}, {}, {}, {1, 2}, map[]);
    var s1 := State(Db(map[KEY := SEEDED], map[ID := FIRST_ROW], [], 2, 0), {}, {}, {}, {1}, map[]);
    assert Apply(s, Insert(ENTRY, 2)) == s1;
    RunAppend(Init, steps, s, Insert(ENTRY, 2));
    steps := steps + [Insert(ENTRY, 2)];
    assert Apply(s1, Claim(0, KEY, 30)) == Reading({});
    RunAppend(Init, steps, s1, Claim(0, KEY, 30));
    steps := steps + [Claim(0, KEY, 30)];
  }

  lemma SecondFirst() returns (steps: seq<Step>)
    ensures Run(Init, steps, Passed(map[ID := Ahead()], COMMITTED, {}, {1}))
  {
    steps := SecondInserted();
    assert Apply(Reading({}), Read(0, LANE, ID)) == Reading({AHEAD});
    RunAppend(Init, steps, Reading({}), Read(0, LANE, ID));
    steps := steps + [Read(0, LANE, ID)];
    assert Apply(Reading({AHEAD}), Complete(AHEAD, Succeed)) == Passed(map[ID := Ahead()], COMMITTED, {}, {1});
    RunAppend(Init, steps, Reading({AHEAD}), Complete(AHEAD, Succeed));
    steps := steps + [Complete(AHEAD, Succeed)];
  }

  predicate InState(db: Db, id: MessageId, status: Status) {
    id in db.messages && db.messages[id].status == status && db.messages[id].position.Some?
    && AtOrBelow(db.registry, db.messages[id].Lane(), db.messages[id].position.value)
  }

  const BOTH := map[ID := Ahead(), LATE := Behind(Received)]

  /** The first position's row then becomes visible, RECEIVED and below the checkpoint. */
  lemma ReceivedBelowCheckpoint() returns (steps: seq<Step>)
    ensures Run(Init, steps, Passed(BOTH, COMMITTED, {}, {}))
    ensures InState(Passed(BOTH, COMMITTED, {}, {}).db, LATE, Received)
  {
    steps := SecondFirst();
    var before := Passed(map[ID := Ahead()], COMMITTED, {}, {1});
    assert Apply(before, Insert(LATE_ENTRY, 1)) == Passed(BOTH, COMMITTED, {}, {});
    RunAppend(Init, steps, before, Insert(LATE_ENTRY, 1));
    steps := steps + [Insert(LATE_ENTRY, 1)];
  }

  /** And the lane delivers it there: the checkpoint stays where it was. */
  lemma DeliveredBelowCheckpoint() returns (steps: seq<Step>, t: State)
    ensures Run(Passed(BOTH, COMMITTED, {}, {}), steps, t)
    ensures InState(t.db, LATE, Succeeded) && t.db.registry == Passed(BOTH, COMMITTED, {}, {}).db.registry
  {
    var s, read := Passed(BOTH, COMMITTED, {}, {}), Passed(BOTH, COMMITTED, {BEHIND}, {});
    assert Apply(s, Read(0, LANE, LATE)) == read;
    t := Passed(BOTH[LATE := Behind(Succeeded)], COMMITTED + [Commit(LATE, KEY, 0, 1, 1, Succeed)], {}, {});
    assert Apply(read, Complete(BEHIND, Succeed)) == t;
    Then(read, Complete(BEHIND, Succeed), [], t);
    steps := [Complete(BEHIND, Succeed)];
    Then(s, Read(0, LANE, LATE), steps, t);
    steps := [Read(0, LANE, LATE)] + steps;
  }
}
