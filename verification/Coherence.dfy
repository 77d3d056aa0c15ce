/** The activation cache against the event log it caches, in every interleaving of fills, appends,
    invalidations and promotions (crates/actor_runtime/src/activation.rs and
    crates/infrastructure/src/mailbox/activation.rs). A cached stream is the version it was read
    or promoted at. */
module Coherence {
  import opened Wrappers
  import R = Recency

  /** How the host uses the cache: whether fills hand back the epoch they captured, and whether a
      writer may announce its append by promoting the held state instead of invalidating it. */
  datatype Policy = Policy(fencedFills: bool, promotes: bool)

  /** An append that has committed and whose announcement is still to come. */
  datatype Write = Write(key: string, expected: nat, version: nat)

  /** A load that missed: the epoch it captured, then what it read. */
  datatype Fill = Fill(key: string, epoch: nat, read: Option<nat>)

  datatype State = State(
    store: map<string, nat>, list: seq<R.Item<nat>>, epoch: nat, maxBytes: nat,
    pending: map<nat, Write>, promoting: set<nat>, fills: map<nat, Fill>)

  function Init(maxBytes: nat): State {
    State(map[], [], 0, maxBytes, map[], {}, map[])
  }

  datatype Tag = Tag(actorType: string, partition: int, bytes: nat, idle: nat, now: int)

  datatype Step =
    | Append(writer: nat, key: string, events: nat)
    | Signal(writer: nat)                              // invalidate
    | PromoteLookup(writer: nat, now: int)             // promotion: the get ...
    | PromoteStore(writer: nat, tag: Tag)              // ... and the put
    | BeginFill(fill: nat, key: string)
    | ReadStore(fill: nat)
    | Install(fill: nat, tag: Tag)
    | Lookup(key: string, now: int)
    | LoseLane(actorType: string, partition: int)
    | Sweep(now: int)

  /** An entry of no weight: it always fits. */
  const TAG := Tag("", 0, 0, 1, 0)

  function Version(store: map<string, nat>, key: string): nat {
    if key in store then store[key] else 0
  }

  predicate Enabled(policy: Policy, s: State, step: Step) {
    match step
    case Append(writer, _, events) => writer !in s.pending && events > 0
    case Signal(writer) => writer in s.pending && writer !in s.promoting
    case PromoteLookup(writer, _) => policy.promotes && writer in s.pending && writer !in s.promoting
    case PromoteStore(writer, _) => writer in s.promoting && writer in s.pending
    case BeginFill(fill, _) => fill !in s.fills
    case ReadStore(fill) => fill in s.fills && s.fills[fill].read.None?
    case Install(fill, _) => fill in s.fills && s.fills[fill].read.Some?
    case _ => true
  }

  function Held(key: string, version: nat, tag: Tag): R.Item<nat> {
    R.Item(key, version, tag.actorType, tag.partition, tag.bytes, tag.idle, tag.now + tag.idle)
  }

  function Apply(policy: Policy, s: State, step: Step): State
    requires Enabled(policy, s, step)
  {
    match step
    case Append(writer, key, events) =>
      var version := Version(s.store, key);
      s.(store := s.store[key := version + events],
         pending := s.pending[writer := Write(key, version, version + events)])
    case Signal(writer) =>
      s.(list := R.Without(s.list, {s.pending[writer].key}), epoch := s.epoch + 1, pending := s.pending - {writer})
    case PromoteLookup(writer, now) =>
      var w := s.pending[writer];
      var (list, held) := R.Get(s.list, w.key, now);
      if held == Some(w.expected) then s.(list := list, promoting := s.promoting + {writer})
      else if held.Some? then s.(list := R.Without(list, {w.key}), epoch := s.epoch + 1, pending := s.pending - {writer})
      else s.(list := list, pending := s.pending - {writer})
    case PromoteStore(writer, tag) =>
      var w := s.pending[writer];
      s.(list := R.Put(s.list, Held(w.key, w.version, tag), s.maxBytes),
         pending := s.pending - {writer}, promoting := s.promoting - {writer})
    case BeginFill(fill, key) => s.(fills := s.fills[fill := Fill(key, s.epoch, None)])
    case ReadStore(fill) =>
      s.(fills := s.fills[fill := s.fills[fill].(read := Some(Version(s.store, s.fills[fill].key)))])
    case Install(fill, tag) =>
      var f := s.fills[fill];
      s.(fills := s.fills - {fill},
         list := if policy.fencedFills && s.epoch != f.epoch then s.list
                 else R.Put(s.list, Held(f.key, f.read.value, tag), s.maxBytes))
    case Lookup(key, now) => s.(list := R.Get(s.list, key, now).0)
    case LoseLane(actorType, partition) =>
      s.(list := R.DropPartition(s.list, actorType, partition), epoch := s.epoch + 1)
    case Sweep(now) => s.(list := R.Sweep(s.list, now))
  }

  ghost predicate Run(policy: Policy, s: State, steps: seq<Step>, t: State)
    decreases |steps|
  {
    if steps == [] then s == t
    else Enabled(policy, s, steps[0]) && Run(policy, Apply(policy, s, steps[0]), steps[1..], t)
  }

  /** Version `v` of `key` is current, or an append it lacks is yet to be announced. */
  ghost predicate UpToDate(store: map<string, nat>, pending: map<nat, Write>, key: string, v: nat) {
    v == Version(store, key) || exists w :: w in pending && pending[w].key == key && pending[w].version > v
  }

  ghost predicate Coherent(s: State) {
    forall item :: item in s.list ==> UpToDate(s.store, s.pending, item.key, item.value)
  }

  /** What makes fenced fills safe: a fill whose epoch still stands has read something current. */
  ghost predicate FillOk(s: State, f: Fill) {
    && f.epoch <= s.epoch
    && (f.read.Some? ==> f.read.value <= Version(s.store, f.key))
    && (f.read.Some? && f.epoch == s.epoch ==> UpToDate(s.store, s.pending, f.key, f.read.value))
  }

  ghost predicate Inv(s: State) {
    && Coherent(s)
    && (forall item :: item in s.list ==> item.value <= Version(s.store, item.key))
    && (forall f :: f in s.fills ==> FillOk(s, s.fills[f]))
    && (forall w :: w in s.pending ==> s.pending[w].version <= Version(s.store, s.pending[w].key))
  }

  // ---- what the list operations leave in the cache --------------------------------------------

  lemma GetMember(list: seq<R.Item<nat>>, key: string, now: int, item: R.Item<nat>)
    requires item in R.Get(list, key, now).0
    ensures exists before :: before in list && before.key == item.key && before.value == item.value
  {
    R.KeysOf(list, key);
    R.WithoutMember(list, {key}, item);
    if item !in list {
      assert R.Find(list, key).value in list;
    }
  }

  lemma PutMember(list: seq<R.Item<nat>>, added: R.Item<nat>, maxBytes: nat, item: R.Item<nat>)
    requires item in R.Put(list, added, maxBytes)
    ensures item == added || (item in list && item.key != added.key)
  {
    R.TrimMember(R.Without(list, {added.key}) + [added], maxBytes, item);
    R.WithoutMember(list, {added.key}, item);
  }

  ghost predicate ComesFrom(list: seq<R.Item<nat>>, list': seq<R.Item<nat>>) {
    forall item :: item in list' ==> exists before :: before in list && before.key == item.key && before.value == item.value
  }

  lemma WithoutComesFrom(list: seq<R.Item<nat>>, keys: set<string>)
    ensures ComesFrom(list, R.Without(list, keys))
    ensures forall item :: item in R.Without(list, keys) ==> item in list && item.key !in keys
  {
    forall item | item in R.Without(list, keys) ensures item in list && item.key !in keys {
      R.WithoutMember(list, keys, item);
    }
  }

  lemma GetComesFrom(list: seq<R.Item<nat>>, key: string, now: int)
    ensures ComesFrom(list, R.Get(list, key, now).0)
  {
    forall item | item in R.Get(list, key, now).0
      ensures exists before :: before in list && before.key == item.key && before.value == item.value
    {
      GetMember(list, key, now, item);
    }
  }

  // ---- safety --------------------------------------------------------------------------------

  lemma AppendKeeps(policy: Policy, s: State, step: Step)
    requires Inv(s) && step.Append? && Enabled(policy, s, step)
    ensures Inv(Apply(policy, s, step))
  {
    var t := Apply(policy, s, step);
    forall key, v: nat | v <= Version(s.store, key) && UpToDate(s.store, s.pending, key, v)
      ensures UpToDate(t.store, t.pending, key, v)
    {
      if key == step.key {
        assert t.pending[step.writer].version > v;
      } else if v != Version(s.store, key) {
        var w :| w in s.pending && s.pending[w].key == key && s.pending[w].version > v;
        assert t.pending[w] == s.pending[w];
      }
    }
  }

  lemma SignalKeeps(policy: Policy, s: State, step: Step)
    requires Inv(s) && step.Signal? && Enabled(policy, s, step)
    ensures Inv(Apply(policy, s, step))
  {
    var t, gone := Apply(policy, s, step), s.pending[step.writer].key;
    WithoutComesFrom(s.list, {gone});
    forall item | item in t.list ensures UpToDate(t.store, t.pending, item.key, item.value) {
      assert UpToDate(s.store, s.pending, item.key, item.value);
      if item.value != Version(s.store, item.key) {
        var w :| w in s.pending && s.pending[w].key == item.key && s.pending[w].version > item.value;
        assert t.pending[w] == s.pending[w];
      }
    }
  }

  lemma FillsKeep(policy: Policy, s: State, step: Step)
    requires Inv(s) && policy.fencedFills && Enabled(policy, s, step)
    requires step.BeginFill? || step.ReadStore? || step.Install?
    ensures Inv(Apply(policy, s, step))
  {
    var t := Apply(policy, s, step);
    if step.Install? && s.epoch == s.fills[step.fill].epoch {
      var f := s.fills[step.fill];
      assert FillOk(s, f);
      var added := Held(f.key, f.read.value, step.tag);
      forall item | item in t.list
        ensures UpToDate(t.store, t.pending, item.key, item.value) && item.value <= Version(t.store, item.key)
      {
        PutMember(s.list, added, s.maxBytes, item);
      }
    }
  }

  lemma EvictionsKeep(policy: Policy, s: State, step: Step)
    requires Inv(s) && (step.Lookup? || step.LoseLane? || step.Sweep?)
    ensures Enabled(policy, s, step) && Inv(Apply(policy, s, step))
  {
    match step
    case Lookup(key, now) => GetComesFrom(s.list, key, now);
    case LoseLane(actorType, partition) => WithoutComesFrom(s.list, R.LaneKeys(s.list, actorType, partition));
    case Sweep(now) => WithoutComesFrom(s.list, R.ExpiredKeys(s.list, now));
    case _ =>
  }

  // ---- promotions ------------------------------------------------------------------------------

  /** Without this writer's announcement to come, the version is current or lacks only appends of
      others that are yet to be announced. */
  ghost predicate CurrentWithout(s: State, writer: nat, v: nat)
    requires writer in s.pending
  {
    UpToDate(s.store, s.pending - {writer}, s.pending[writer].key, v)
  }

  /** No fill that the epoch would still let in has read less than that. */
  ghost predicate NoStaleFill(s: State, writer: nat)
    requires writer in s.pending
  {
    forall f :: f in s.fills && StandingFill(s, s.fills[f], s.pending[writer].key) ==> CurrentWithout(s, writer, s.fills[f].read.value)
  }

  predicate StandingFill(s: State, f: Fill, key: string) {
    f.key == key && f.epoch == s.epoch && f.read.Some?
  }

  /** A promotion that ends at a miss, or stores, does so with no stale fill of the key in flight;
      and what it stores, if it fits, has not been overtaken by an append already announced. */
  ghost predicate Timely(s: State, step: Step) {
    match step
    case PromoteLookup(writer, now) =>
      writer in s.pending && R.Get(s.list, s.pending[writer].key, now).1.None? ==> NoStaleFill(s, writer)
    case PromoteStore(writer, tag) =>
      writer in s.pending ==>
        && NoStaleFill(s, writer)
        && (tag.bytes <= s.maxBytes ==> CurrentWithout(s, writer, s.pending[writer].version))
    case _ => true
  }

  /** Dropping one pending append of another key leaves a version as current as it was. */
  lemma OtherKeyUpToDate(store: map<string, nat>, pending: map<nat, Write>, writer: nat, key: string, v: nat)
    requires writer in pending && pending[writer].key != key && UpToDate(store, pending, key, v)
    ensures UpToDate(store, pending - {writer}, key, v)
  {
    if v != Version(store, key) {
      var w :| w in pending && pending[w].key == key && pending[w].version > v;
      assert (pending - {writer})[w] == pending[w];
    }
  }

  /** A lookup that misses leaves nothing of the key in the cache. */
  lemma MissLeavesNone(list: seq<R.Item<nat>>, key: string, now: int)
    requires R.Get(list, key, now).1.None?
    ensures forall item :: item in R.Get(list, key, now).0 ==> item.key != key
  {
    R.KeysOf(list, key);
    forall item | item in R.Get(list, key, now).0 ensures item.key != key {
      if R.Find(list, key).Some? {
        R.WithoutMember(list, {key}, item);
      } else {
        var i :| 0 <= i < |list| && list[i] == item;
        assert item.key in R.Keys(list);
      }
    }
  }

  /** What is left of the invariant's fills once a writer's announcement is over. */
  lemma FillsAfter(s: State, writer: nat, t: State)
    requires Inv(s) && writer in s.pending && NoStaleFill(s, writer)
    requires t.store == s.store && t.pending == s.pending - {writer} && t.fills == s.fills && t.epoch == s.epoch
    ensures forall f :: f in t.fills ==> FillOk(t, t.fills[f])
  {
    forall f | f in t.fills ensures FillOk(t, t.fills[f]) {
      var fill := s.fills[f];
      assert FillOk(s, fill);
      if fill.epoch == s.epoch && fill.read.Some? && fill.key != s.pending[writer].key {
        OtherKeyUpToDate(s.store, s.pending, writer, fill.key, fill.read.value);
      }
    }
  }

  lemma LookupKeeps(policy: Policy, s: State, step: Step)
    requires Inv(s) && step.PromoteLookup? && Enabled(policy, s, step) && Timely(s, step)
    ensures Inv(Apply(policy, s, step))
  {
    var t, w := Apply(policy, s, step), s.pending[step.writer];
    var (list, held) := R.Get(s.list, w.key, step.now);
    GetComesFrom(s.list, w.key, step.now);
    if held != Some(w.expected) {
      if held.None? {
        MissLeavesNone(s.list, w.key, step.now);
        FillsAfter(s, step.writer, t);
      } else {
        WithoutComesFrom(list, {w.key});
      }
      forall item | item in t.list ensures UpToDate(t.store, t.pending, item.key, item.value) && item.value <= Version(t.store, item.key) {
        assert item in list && item.key != w.key;
        var before :| before in s.list && before.key == item.key && before.value == item.value;
        OtherKeyUpToDate(s.store, s.pending, step.writer, item.key, item.value);
      }
    }
  }

  lemma StoreKeeps(policy: Policy, s: State, step: Step)
    requires Inv(s) && step.PromoteStore? && Enabled(policy, s, step) && Timely(s, step)
    ensures Inv(Apply(policy, s, step))
  {
    var t, w := Apply(policy, s, step), s.pending[step.writer];
    var added := Held(w.key, w.version, step.tag);
    FillsAfter(s, step.writer, t);
    R.PutEmptiesIff(s.list, added, s.maxBytes);
    forall item | item in t.list ensures UpToDate(t.store, t.pending, item.key, item.value) && item.value <= Version(t.store, item.key) {
      PutMember(s.list, added, s.maxBytes, item);
      if item != added {
        OtherKeyUpToDate(s.store, s.pending, step.writer, item.key, item.value);
      }
    }
  }

  /** With fills fenced, every step but an untimely promotion keeps the cache coherent. */
  lemma InvPreserved(policy: Policy, s: State, step: Step)
    requires Inv(s) && policy.fencedFills && Enabled(policy, s, step) && Timely(s, step)
    ensures Inv(Apply(policy, s, step))
  {
    match step
    case Append(_, _, _) => AppendKeeps(policy, s, step);
    case Signal(_) => SignalKeeps(policy, s, step);
    case BeginFill(_, _) => FillsKeep(policy, s, step);
    case ReadStore(_) => FillsKeep(policy, s, step);
    case Install(_, _) => FillsKeep(policy, s, step);
    case Lookup(_, _) => EvictionsKeep(policy, s, step);
    case LoseLane(_, _) => EvictionsKeep(policy, s, step);
    case Sweep(_) => EvictionsKeep(policy, s, step);
    case PromoteLookup(_, _) => LookupKeeps(policy, s, step);
    case PromoteStore(_, _) => StoreKeeps(policy, s, step);
  }

  ghost predicate AllTimely(policy: Policy, s: State, steps: seq<Step>)
    decreases |steps|
  {
    steps != [] && Enabled(policy, s, steps[0]) ==> Timely(s, steps[0]) && AllTimely(policy, Apply(policy, s, steps[0]), steps[1..])
  }

  /** Coherent over every run whose promotions are timely, those without promotions among them. */
  lemma {:induction false} RunCoherent(policy: Policy, s: State, steps: seq<Step>, t: State)
    requires Inv(s) && policy.fencedFills && Run(policy, s, steps, t) && AllTimely(policy, s, steps)
    ensures Inv(t)
    decreases |steps|
  {
    if steps != [] {
      InvPreserved(policy, s, steps[0]);
      RunCoherent(policy, Apply(policy, s, steps[0]), steps[1..], t);
    }
  }

  lemma {:induction false} NoPromotionsTimely(policy: Policy, s: State, steps: seq<Step>, t: State)
    requires !policy.promotes && s.promoting == {} && Run(policy, s, steps, t)
    ensures AllTimely(policy, s, steps)
    decreases |steps|
  {
    if steps != [] {
      NoPromotionsTimely(policy, Apply(policy, s, steps[0]), steps[1..], t);
    }
  }

  /** Once every append has been announced, everything held is the store's current version. */
  lemma QuietIsExact(policy: Policy, maxBytes: nat, steps: seq<Step>, t: State, item: R.Item<nat>)
    requires policy.fencedFills && Run(policy, Init(maxBytes), steps, t) && AllTimely(policy, Init(maxBytes), steps)
    requires t.pending == map[] && item in t.list
    ensures item.value == Version(t.store, item.key)
  {
    RunCoherent(policy, Init(maxBytes), steps, t);
    assert UpToDate(t.store, t.pending, item.key, item.value);
  }

  // ---- exactly the timely promotions -------------------------------------------------------------

  /** Coherent now, and whichever fill in flight comes in next. */
  ghost predicate Safe(policy: Policy, s: State) {
    Coherent(s) && forall f :: f in s.fills && s.fills[f].read.Some? ==> Coherent(Apply(policy, s, Install(f, TAG)))
  }

  lemma InvIsSafe(policy: Policy, s: State)
    requires Inv(s) && policy.fencedFills
    ensures Safe(policy, s)
  {
    forall f | f in s.fills && s.fills[f].read.Some? ensures Coherent(Apply(policy, s, Install(f, TAG))) {
      FillsKeep(policy, s, Install(f, TAG));
    }
  }

  /** A fill the epoch lets in, that has read an old version, spoils the cache. */
  lemma StaleFillLands(policy: Policy, s: State, f: nat)
    requires f in s.fills && s.fills[f].epoch == s.epoch && s.fills[f].read.Some?
    requires !UpToDate(s.store, s.pending, s.fills[f].key, s.fills[f].read.value)
    ensures !Coherent(Apply(policy, s, Install(f, TAG)))
  {
    var t, added := Apply(policy, s, Install(f, TAG)), Held(s.fills[f].key, s.fills[f].read.value, TAG);
    R.PutEmptiesIff(s.list, added, s.maxBytes);
    assert added in t.list;
  }

  /** A step leaves the cache safe exactly when it is not an untimely promotion. */
  lemma SafeIff(policy: Policy, s: State, step: Step)
    requires Inv(s) && policy.fencedFills && Enabled(policy, s, step)
    ensures Safe(policy, Apply(policy, s, step)) <==> Timely(s, step)
  {
    var t := Apply(policy, s, step);
    if Timely(s, step) {
      InvPreserved(policy, s, step);
      InvIsSafe(policy, t);
    } else {
      var writer := step.writer;
      if !NoStaleFill(s, writer) {
        var f :| f in s.fills && StandingFill(s, s.fills[f], s.pending[writer].key) && !CurrentWithout(s, writer, s.fills[f].read.value);
        StaleFillLands(policy, t, f);
      } else {
        var added := Held(s.pending[writer].key, s.pending[writer].version, step.tag);
        R.PutEmptiesIff(s.list, added, s.maxBytes);
        assert added in t.list;
      }
    }
  }

  ghost predicate AlwaysSafe(policy: Policy, s: State, steps: seq<Step>)
    decreases |steps|
  {
    Safe(policy, s) && (steps != [] && Enabled(policy, s, steps[0]) ==> AlwaysSafe(policy, Apply(policy, s, steps[0]), steps[1..]))
  }

  lemma {:induction false} AlwaysSafeIff(policy: Policy, s: State, steps: seq<Step>, t: State)
    requires Inv(s) && policy.fencedFills && Run(policy, s, steps, t)
    ensures AlwaysSafe(policy, s, steps) <==> AllTimely(policy, s, steps)
    decreases |steps|
  {
    InvIsSafe(policy, s);
    if steps != [] {
      SafeIff(policy, s, steps[0]);
      if Timely(s, steps[0]) {
        InvPreserved(policy, s, steps[0]);
        AlwaysSafeIff(policy, Apply(policy, s, steps[0]), steps[1..], t);
      }
    }
  }

  /** With fills fenced and promotions allowed, as the host has it: a run keeps the cache safe
      throughout exactly when every promotion in it is timely. */
  lemma PromotionsSafeIff(policy: Policy, maxBytes: nat, steps: seq<Step>, t: State)
    requires policy.fencedFills && Run(policy, Init(maxBytes), steps, t)
    ensures AlwaysSafe(policy, Init(maxBytes), steps) <==> AllTimely(policy, Init(maxBytes), steps)
  {
    AlwaysSafeIff(policy, Init(maxBytes), steps, t);
  }

  // ---- the freshness guard ------------------------------------------------------------------------

  /** Whatever the policy, what is held, read or about to be promoted is a version the stream had. */
  ghost predicate Real(s: State) {
    && (forall item :: item in s.list ==> item.value <= Version(s.store, item.key))
    && (forall w :: w in s.pending ==> s.pending[w].version <= Version(s.store, s.pending[w].key))
    && (forall f :: f in s.fills && s.fills[f].read.Some? ==> s.fills[f].read.value <= Version(s.store, s.fills[f].key))
  }

  ghost predicate Grows(before: map<string, nat>, after: map<string, nat>) {
    forall key :: Version(before, key) <= Version(after, key)
  }

  lemma PutReal(list: seq<R.Item<nat>>, added: R.Item<nat>, maxBytes: nat, store: map<string, nat>)
    requires added.value <= Version(store, added.key) && forall item :: item in list ==> item.value <= Version(store, item.key)
    ensures forall item :: item in R.Put(list, added, maxBytes) ==> item.value <= Version(store, item.key)
  {
    forall item | item in R.Put(list, added, maxBytes) ensures item.value <= Version(store, item.key) {
      PutMember(list, added, maxBytes, item);
    }
  }

  lemma RealPreserved(policy: Policy, s: State, step: Step)
    requires Real(s) && Enabled(policy, s, step)
    ensures Real(Apply(policy, s, step)) && Grows(s.store, Apply(policy, s, step).store)
  {
    match step
    case Signal(w) => WithoutComesFrom(s.list, {s.pending[w].key});
    case PromoteLookup(w, now) =>
      GetComesFrom(s.list, s.pending[w].key, now);
      WithoutComesFrom(R.Get(s.list, s.pending[w].key, now).0, {s.pending[w].key});
    case PromoteStore(w, tag) => PutReal(s.list, Held(s.pending[w].key, s.pending[w].version, tag), s.maxBytes, s.store);
    case Install(f, tag) => PutReal(s.list, Held(s.fills[f].key, s.fills[f].read.value, tag), s.maxBytes, s.store);
    case Lookup(key, now) => GetComesFrom(s.list, key, now);
    case LoseLane(actorType, partition) => WithoutComesFrom(s.list, R.LaneKeys(s.list, actorType, partition));
    case Sweep(now) => WithoutComesFrom(s.list, R.ExpiredKeys(s.list, now));
    case _ =>
  }

  lemma {:induction false} RunReal(policy: Policy, s: State, steps: seq<Step>, t: State)
    requires Real(s) && Run(policy, s, steps, t)
    ensures Real(t) && Grows(s.store, t.store)
    decreases |steps|
  {
    if steps != [] {
      RealPreserved(policy, s, steps[0]);
      RunReal(policy, Apply(policy, s, steps[0]), steps[1..], t);
    }
  }

  /** `guard_freshness_in_tx`: a delivery folded over a held version commits only if that is the
      stream's version still. */
  predicate GuardPasses(store: map<string, nat>, key: string, served: nat) {
    Version(store, key) == served
  }

  /** Under any policy, untimely promotions and unfenced fills included, a delivery that was served
      from the cache and passes the guard was served the current version, and nobody has appended
      since: no delivery ever commits on an old held version. */
  lemma GuardedDelivery(policy: Policy, maxBytes: nat, before: seq<Step>, s: State, after: seq<Step>, t: State, item: R.Item<nat>)
    requires Run(policy, Init(maxBytes), before, s) && Run(policy, s, after, t) && item in s.list
    ensures GuardPasses(t.store, item.key, item.value)
      <==> item.value == Version(s.store, item.key) && Version(s.store, item.key) == Version(t.store, item.key)
  {
    RunReal(policy, Init(maxBytes), before, s);
    RunReal(policy, s, after, t);
  }

  // ---- the two ways out of it ----------------------------------------------------------------

  lemma Then(policy: Policy, s: State, step: Step, rest: seq<Step>, t: State)
    requires Enabled(policy, s, step) && Run(policy, Apply(policy, s, step), rest, t)
    ensures Run(policy, s, [step] + rest, t)
  {
    assert ([step] + rest)[1..] == rest;
  }

  lemma PutOnEmpty(item: R.Item<nat>, maxBytes: nat)
    requires item.bytes == 0
    ensures R.Put([], item, maxBytes) == [item]
  {
    assert R.Without([], {item.key}) + [item] == [item];
    assert R.Bytes([item]) == 0;
  }

  /** A plain put of what was read before an announced append brings the old version back. */
  lemma UnfencedFill(policy: Policy, maxBytes: nat) returns (steps: seq<Step>, t: State)
    requires !policy.fencedFills
    ensures Run(policy, Init(maxBytes), steps, t) && !Coherent(t)
  {
    var s0 := Init(maxBytes);
    var s1 := Apply(policy, s0, BeginFill(0, "a"));
    var s2 := Apply(policy, s1, ReadStore(0));
    var s3 := Apply(policy, s2, Append(0, "a", 1));
    var s4 := Apply(policy, s3, Signal(0));
    t := Apply(policy, s4, Install(0, TAG));
    PutOnEmpty(Held("a", 0, TAG), maxBytes);
    assert Held("a", 0, TAG) in t.list && !UpToDate(t.store, t.pending, "a", 0);
    Then(policy, s4, Install(0, TAG), [], t);
    Then(policy, s3, Signal(0), [Install(0, TAG)], t);
    steps := [Signal(0)] + [Install(0, TAG)];
    Then(policy, s2, Append(0, "a", 1), steps, t);
    steps := [Append(0, "a", 1)] + steps;
    Then(policy, s1, ReadStore(0), steps, t);
    steps := [ReadStore(0)] + steps;
    Then(policy, s0, BeginFill(0, "a"), steps, t);
    steps := [BeginFill(0, "a")] + steps;
  }

  /** A promotion's put is not fenced: an append announced between its get and its put is undone. */
  lemma RacingPromotion(policy: Policy, maxBytes: nat) returns (steps: seq<Step>, t: State)
    requires policy.promotes
    ensures Run(policy, Init(maxBytes), steps, t) && !Coherent(t)
  {
    var s0 := Init(maxBytes);
    var s1 := Apply(policy, s0, BeginFill(0, "a"));
    var s2 := Apply(policy, s1, ReadStore(0));
    var s3 := Apply(policy, s2, Install(0, TAG));
    PutOnEmpty(Held("a", 0, TAG), maxBytes);
    assert s3.list == [Held("a", 0, TAG)];
    var s4 := Apply(policy, s3, Append(0, "a", 1));
    var s5 := Apply(policy, s4, PromoteLookup(0, 0));
    R.WithoutFirst(s4.list, {"a"});
    assert R.Without(s4.list, {"a"}) == [] && [] + [Held("a", 0, TAG)] == [Held("a", 0, TAG)];
    assert s5.promoting == {0} && s5.list == [Held("a", 0, TAG)];
    var s6 := Apply(policy, s5, Append(1, "a", 1));
    var s7 := Apply(policy, s6, Signal(1));
    assert s7.list == [];
    t := Apply(policy, s7, PromoteStore(0, TAG));
    PutOnEmpty(Held("a", 1, TAG), maxBytes);
    assert Held("a", 1, TAG) in t.list && !UpToDate(t.store, t.pending, "a", 1);
    steps := [PromoteStore(0, TAG)];
    Then(policy, s7, PromoteStore(0, TAG), [], t);
    Then(policy, s6, Signal(1), steps, t);
    steps := [Signal(1)] + steps;
    Then(policy, s5, Append(1, "a", 1), steps, t);
    steps := [Append(1, "a", 1)] + steps;
    Then(policy, s4, PromoteLookup(0, 0), steps, t);
    steps := [PromoteLookup(0, 0)] + steps;
    Then(policy, s3, Append(0, "a", 1), steps, t);
    steps := [Append(0, "a", 1)] + steps;
    Then(policy, s2, Install(0, TAG), steps, t);
    steps := [Install(0, TAG)] + steps;
    Then(policy, s1, ReadStore(0), steps, t);
    steps := [ReadStore(0)] + steps;
    Then(policy, s0, BeginFill(0, "a"), steps, t);
    steps := [BeginFill(0, "a")] + steps;
  }

  ghost predicate AlwaysCoherent(policy: Policy, maxBytes: nat) {
    forall steps, t :: Run(policy, Init(maxBytes), steps, t) ==> Coherent(t)
  }

  /** Exactly when the cache is coherent in every run: every fill is fenced by the epoch, and no
      append is announced by a promotion. */
  lemma CoherentIff(policy: Policy, maxBytes: nat)
    ensures AlwaysCoherent(policy, maxBytes) <==> policy.fencedFills && !policy.promotes
  {
    if !policy.fencedFills {
      var steps, t := UnfencedFill(policy, maxBytes);
    } else if policy.promotes {
      var steps, t := RacingPromotion(policy, maxBytes);
    } else {
      forall steps, t | Run(policy, Init(maxBytes), steps, t) ensures Coherent(t) {
        NoPromotionsTimely(policy, Init(maxBytes), steps, t);
        RunCoherent(policy, Init(maxBytes), steps, t);
      }
    }
  }
}
