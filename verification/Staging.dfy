/** crates/application/src/staging.rs: appends are buffered, loads are overlaid with the buffer, and
    the flush replays it. Running a handler on the stage and flushing is running it on the store. */
module Staging {
  import opened Wrappers
  import opened EventLog

  function Max(a: nat, b: nat): nat {
    if a < b then b else a
  }

  /** What a load on the stage answers. */
  function Overlay(store: Store, staged: seq<StagedAppend>, stream: string): (seq<Event>, nat) {
    if staged == [] then Loaded(store, stream)
    else
      var (events, version) := Overlay(store, staged[..|staged| - 1], stream);
      var last := staged[|staged| - 1];
      if last.stream == stream
      then (events + last.events, Max(version, last.expected + |last.events|))
      else (events, version)
  }

  // ---- a handler on the store and on the stage ------------------------------------------------

  datatype Op = LoadOp(stream: string) | AppendOp(append: StagedAppend)
  datatype Reply = Answer(events: seq<Event>, version: nat) | Done(version: nat) | Refused(conflict: Conflict)

  /** What a handler asks next, given everything it was answered so far. */
  type Handler = seq<Reply> -> Op

  function DirectStep(store: Store, op: Op): (Store, Reply) {
    match op
    case LoadOp(stream) => var (events, version) := Loaded(store, stream); (store, Answer(events, version))
    case AppendOp(a) =>
      match Appended(store, a)
      case Ok(next) => (next, Done(a.expected + |a.events|))
      case Err(e) => (store, Refused(e))
  }

  function StagedStep(store: Store, staged: seq<StagedAppend>, op: Op): (seq<StagedAppend>, Reply) {
    match op
    case LoadOp(stream) => var (events, version) := Overlay(store, staged, stream); (staged, Answer(events, version))
    case AppendOp(a) => (staged + [a], Done(a.expected + |a.events|))
  }

  function Direct(h: Handler, store: Store, n: nat): (Store, seq<Reply>) {
    if n == 0 then (store, [])
    else
      var (s, replies) := Direct(h, store, n - 1);
      var (next, reply) := DirectStep(s, h(replies));
      (next, replies + [reply])
  }

  function Staged(h: Handler, store: Store, n: nat): (seq<StagedAppend>, seq<Reply>) {
    if n == 0 then ([], [])
    else
      var (staged, replies) := Staged(h, store, n - 1);
      var (next, reply) := StagedStep(store, staged, h(replies));
      (next, replies + [reply])
  }

  /** At the version a load would answer, or past it; an empty append not past it. */
  predicate OnTime(store: Store, a: StagedAppend) {
    if a.events == [] then a.expected <= Version(store, a.stream) else a.expected >= Version(store, a.stream)
  }

  ghost predicate Timely(h: Handler, store: Store, n: nat) {
    forall k: nat :: k < n ==> OnTimeOp(Direct(h, store, k).0, h(Direct(h, store, k).1))
  }

  predicate OnTimeOp(store: Store, op: Op) {
    op.AppendOp? ==> OnTime(store, op.append)
  }

  /** The stage stands for `now`: it flushes to it, and it answers every load as it would. */
  ghost predicate StandsFor(store: Store, staged: seq<StagedAppend>, now: Store) {
    Flushed(store, staged) == Ok(now) && forall stream :: Overlay(store, staged, stream) == Loaded(now, stream)
  }

  lemma {:induction false} FlushedAppend(store: Store, staged: seq<StagedAppend>, a: StagedAppend)
    ensures Flushed(store, staged + [a])
      == match Flushed(store, staged)
         case Err(e) => Err(e)
         case Ok(now) => Appended(now, a)
    decreases |staged|
  {
    var all := staged + [a];
    if staged == [] {
      assert all == [a] && all[1..] == [];
    } else {
      assert all[1..] == staged[1..] + [a];
      if Appended(store, staged[0]).Ok? {
        FlushedAppend(Appended(store, staged[0]).value, staged[1..], a);
      }
    }
  }

  /** What one more append adds to every load. */
  function Extended(loaded: (seq<Event>, nat), a: StagedAppend, stream: string): (seq<Event>, nat) {
    if a.stream == stream then (loaded.0 + a.events, Max(loaded.1, a.expected + |a.events|)) else loaded
  }

  lemma OverlayNext(store: Store, staged: seq<StagedAppend>, a: StagedAppend, stream: string)
    ensures Overlay(store, staged + [a], stream) == Extended(Overlay(store, staged, stream), a, stream)
  {
    assert (staged + [a])[..|staged + [a]| - 1] == staged;
  }

  lemma LoadedNext(now: Store, a: StagedAppend, stream: string)
    requires OnTime(now, a)
    ensures Appended(now, a).Ok?
    ensures Loaded(Appended(now, a).value, stream) == Extended(Loaded(now, stream), a, stream)
  {
    var slots := At(now, a.stream);
    if a.events == [] {
      assert InsertAll(slots, a.expected, a.events) == Some(slots);
      assert EventsOf(slots) + [] == EventsOf(slots);
    } else {
      LoadPastEnd(slots, a.expected, a.events);
    }
  }

  /** A timely append keeps the stage standing for the store. */
  lemma AppendStands(store: Store, staged: seq<StagedAppend>, now: Store, a: StagedAppend)
    requires StandsFor(store, staged, now) && OnTime(now, a)
    ensures Appended(now, a).Ok? && StandsFor(store, staged + [a], Appended(now, a).value)
  {
    FlushedAppend(store, staged, a);
    LoadedNext(now, a, a.stream);
    forall stream ensures Overlay(store, staged + [a], stream) == Loaded(Appended(now, a).value, stream) {
      assert Overlay(store, staged, stream) == Loaded(now, stream);
      LoadedNext(now, a, stream);
      OverlayNext(store, staged, a, stream);
    }
  }

  /** On a stream without gaps that is the exact condition: an append that is not on time makes the
      stage answer it, or a load after it, differently from the store. */
  lemma AppendStandsIff(store: Store, staged: seq<StagedAppend>, now: Store, a: StagedAppend)
    requires StandsFor(store, staged, now) && Gapless(At(now, a.stream))
    ensures (&& DirectStep(now, AppendOp(a)).1 == StagedStep(store, staged, AppendOp(a)).1
             && StandsFor(store, staged + [a], DirectStep(now, AppendOp(a)).0))
            <==> OnTime(now, a)
  {
    if OnTime(now, a) {
      AppendStands(store, staged, now, a);
    } else if a.events == [] {
      assert (staged + [a])[..|staged|] == staged;
      assert Overlay(store, staged, a.stream) == Loaded(now, a.stream);
      assert Overlay(store, staged + [a], a.stream).1 != Version(now, a.stream);
    } else {
      AppendConflictsIff(At(now, a.stream), a.expected, a.events);
      assert Taken(At(now, a.stream), a.expected + 1);
    }
  }

  /** Run on the stage, then flush, refines run on the store: the same answers all along, and the
      flush leaves the very same log. */
  lemma {:induction false} StagingRefines(h: Handler, store: Store, n: nat)
    requires Timely(h, store, n)
    ensures Staged(h, store, n).1 == Direct(h, store, n).1
    ensures StandsFor(store, Staged(h, store, n).0, Direct(h, store, n).0)
  {
    if n == 0 {
    } else {
      StagingRefines(h, store, n - 1);
      var (now, replies) := Direct(h, store, n - 1);
      var (staged, _) := Staged(h, store, n - 1);
      assert OnTimeOp(now, h(replies));
      match h(replies)
      case LoadOp(stream) => assert Overlay(store, staged, stream) == Loaded(now, stream);
      case AppendOp(a) => AppendStands(store, staged, now, a);
    }
  }

  // ---- when a flush goes through ---------------------------------------------------------------

  predicate Wants(a: StagedAppend, stream: string, v: nat) {
    a.stream == stream && a.expected < v <= a.expected + |a.events|
  }

  ghost predicate Wanted(staged: seq<StagedAppend>, stream: string, v: nat) {
    exists i :: 0 <= i < |staged| && Wants(staged[i], stream, v)
  }

  /** Every version some append wants is free. */
  ghost predicate AllFree(staged: seq<StagedAppend>, now: Store) {
    forall stream, v :: Wanted(staged, stream, v) ==> !Taken(At(now, stream), v)
  }

  /** No two appends want one version. */
  ghost predicate NoneWantedTwice(staged: seq<StagedAppend>) {
    forall i, stream, v :: 0 <= i < |staged| && Wants(staged[i], stream, v) ==> !Wanted(staged[..i], stream, v)
  }

  /** Each wanted version holds the event that wanted it, every other version what it held. */
  ghost predicate Filled(staged: seq<StagedAppend>, before: Store, after: Store) {
    && (forall i, stream, v: nat :: 0 <= i < |staged| && Wants(staged[i], stream, v) ==>
         SlotAt(At(after, stream), v) == Business(staged[i].events[v - staged[i].expected - 1]))
    && (forall stream, v: nat :: v > 0 && !Wanted(staged, stream, v) ==> SlotAt(At(after, stream), v) == SlotAt(At(before, stream), v))
  }

  lemma WantedNext(but: seq<StagedAppend>, a: StagedAppend, stream: string, v: nat)
    ensures Wanted(but + [a], stream, v) <==> Wanted(but, stream, v) || Wants(a, stream, v)
  {
    var all := but + [a];
    if i :| 0 <= i < |but| && Wants(but[i], stream, v) { assert Wants(all[i], stream, v); }
    if Wants(a, stream, v) { assert Wants(all[|but|], stream, v); }
    if i :| 0 <= i < |all| && Wants(all[i], stream, v) && i < |but| { assert Wants(but[i], stream, v); }
  }

  /** Whatever was staged, in whatever order, on whatever streams: the flush goes through exactly
      when every wanted version is free and none is wanted twice, and it fills exactly those. */
  lemma {:induction false} FlushGoesThroughIff(staged: seq<StagedAppend>, now: Store)
    ensures Flushed(now, staged).Ok? <==> AllFree(staged, now) && NoneWantedTwice(staged)
    ensures Flushed(now, staged).Ok? ==> Filled(staged, now, Flushed(now, staged).value)
    decreases |staged|
  {
    if staged != [] {
      var but, a := staged[..|staged| - 1], staged[|staged| - 1];
      assert staged == but + [a];
      FlushGoesThroughIff(but, now);
      FlushedAppend(now, but, a);
      GoesThroughNext(but, a, now);
      if Flushed(now, but).Ok? { LastGoesThrough(but, a, now, Flushed(now, but).value); }
    }
  }

  lemma GoesThroughNext(but: seq<StagedAppend>, a: StagedAppend, now: Store)
    ensures AllFree(but + [a], now) && NoneWantedTwice(but + [a])
      <==> AllFree(but, now) && NoneWantedTwice(but)
           && forall v :: Wants(a, a.stream, v) ==> !Taken(At(now, a.stream), v) && !Wanted(but, a.stream, v)
  {
    var all := but + [a];
    forall stream, v: nat ensures Wanted(all, stream, v) <==> Wanted(but, stream, v) || Wants(a, stream, v) {
      WantedNext(but, a, stream, v);
    }
    assert all[..|but|] == but && all[|but|] == a;
    assert forall i :: 0 <= i < |but| ==> all[i] == but[i] && all[..i] == but[..i];
    if NoneWantedTwice(all) {
      forall i, stream, v: nat | 0 <= i < |but| && Wants(but[i], stream, v) ensures !Wanted(but[..i], stream, v) {
        assert Wants(all[i], stream, v);
      }
      forall v: nat | Wants(a, a.stream, v) ensures !Wanted(but, a.stream, v) {
        assert Wants(all[|but|], a.stream, v);
      }
    }
  }

  lemma LastGoesThrough(but: seq<StagedAppend>, a: StagedAppend, now: Store, mid: Store)
    requires Filled(but, now, mid)
    ensures Appended(mid, a).Ok?
      <==> forall v :: Wants(a, a.stream, v) ==> !Taken(At(now, a.stream), v) && !Wanted(but, a.stream, v)
    ensures Appended(mid, a).Ok? ==> Filled(but + [a], now, Appended(mid, a).value)
  {
    AppendConflictsIff(At(mid, a.stream), a.expected, a.events);
    forall v: nat | Wants(a, a.stream, v)
      ensures Taken(At(mid, a.stream), v) <==> Taken(At(now, a.stream), v) || Wanted(but, a.stream, v)
    {
      if Wanted(but, a.stream, v) {
        var i :| 0 <= i < |but| && Wants(but[i], a.stream, v);
        assert SlotAt(At(mid, a.stream), v) == Business(but[i].events[v - but[i].expected - 1]);
      }
    }
    if Appended(mid, a).Ok? { FilledNext(but, a, now, mid, Appended(mid, a).value); }
  }

  lemma OneFilled(a: StagedAppend, mid: Store, after: Store, stream: string, v: nat)
    requires Appended(mid, a) == Ok(after) && v > 0
    ensures SlotAt(At(after, stream), v)
      == if Wants(a, stream, v) then Business(a.events[v - a.expected - 1]) else SlotAt(At(mid, stream), v)
  {
    AppendConflictsIff(At(mid, a.stream), a.expected, a.events);
  }

  lemma StaysFilled(but: seq<StagedAppend>, a: StagedAppend, now: Store, mid: Store, after: Store, i: nat, stream: string, v: nat)
    requires Filled(but, now, mid) && Appended(mid, a) == Ok(after)
    requires i < |but| && Wants(but[i], stream, v) && !Wants(a, stream, v)
    ensures SlotAt(At(after, stream), v) == Business(but[i].events[v - but[i].expected - 1])
  {
    OneFilled(a, mid, after, stream, v);
  }

  lemma FilledNext(but: seq<StagedAppend>, a: StagedAppend, now: Store, mid: Store, after: Store)
    requires Filled(but, now, mid) && Appended(mid, a) == Ok(after)
    requires forall v :: Wants(a, a.stream, v) ==> !Wanted(but, a.stream, v)
    ensures Filled(but + [a], now, after)
  {
    var all := but + [a];
    forall i, stream, v: nat | 0 <= i < |all| && Wants(all[i], stream, v)
      ensures SlotAt(At(after, stream), v) == Business(all[i].events[v - all[i].expected - 1])
    {
      if i < |but| {
        assert Wants(but[i], stream, v) && Wanted(but, stream, v);
        StaysFilled(but, a, now, mid, after, i, stream, v);
      } else {
        OneFilled(a, mid, after, stream, v);
      }
    }
    forall stream, v: nat | v > 0 && !Wanted(all, stream, v) ensures SlotAt(At(after, stream), v) == SlotAt(At(now, stream), v) {
      WantedNext(but, a, stream, v);
      OneFilled(a, mid, after, stream, v);
    }
  }

  // ---- other writers between the run and the flush --------------------------------------------

  function StagedOn(staged: seq<StagedAppend>, stream: string): seq<Event> {
    if staged == [] then []
    else
      var last := staged[|staged| - 1];
      StagedOn(staged[..|staged| - 1], stream) + (if last.stream == stream then last.events else [])
  }

  /** Each append where the ones before it on its stream ended, the first at the stream's base. */
  ghost predicate Chained(staged: seq<StagedAppend>, bases: map<string, nat>) {
    forall i :: 0 <= i < |staged| ==>
      && staged[i].stream in bases
      && staged[i].expected == bases[staged[i].stream] + |StagedOn(staged[..i], staged[i].stream)|
  }

  /** Nobody extended a stream this delivery wrote. */
  ghost predicate Untouched(staged: seq<StagedAppend>, bases: map<string, nat>, now: Store) {
    forall stream :: stream in bases ==> UntouchedOn(staged, bases, now, stream)
  }

  ghost predicate UntouchedOn(staged: seq<StagedAppend>, bases: map<string, nat>, now: Store, stream: string)
    requires stream in bases
  {
    StagedOn(staged, stream) != [] ==> Version(now, stream) == bases[stream]
  }

  /** Every stream grew by exactly what was staged on it. */
  ghost predicate Extends(staged: seq<StagedAppend>, before: Store, after: Store) {
    forall stream :: ExtendsOn(staged, before, after, stream)
  }

  ghost predicate ExtendsOn(staged: seq<StagedAppend>, before: Store, after: Store, stream: string) {
    At(after, stream) == At(before, stream) + Recorded(StagedOn(staged, stream))
  }

  lemma ChainedBut(but: seq<StagedAppend>, a: StagedAppend, bases: map<string, nat>)
    requires Chained(but + [a], bases)
    ensures Chained(but, bases) && a.stream in bases && a.expected == bases[a.stream] + |StagedOn(but, a.stream)|
  {
    var staged := but + [a];
    forall i | 0 <= i < |but|
      ensures but[i].stream in bases && but[i].expected == bases[but[i].stream] + |StagedOn(but[..i], but[i].stream)|
    {
      assert staged[i] == but[i] && staged[..i] == but[..i];
    }
    assert staged[|but|] == a && staged[..|but|] == but;
  }

  /** Each write of the delivery asserts its version at the flush: it goes through exactly when no
      other writer extended a stream it wrote, and then adds exactly what was staged. */
  lemma {:induction false} FlushSucceedsIff(staged: seq<StagedAppend>, bases: map<string, nat>, now: Store)
    requires Chained(staged, bases)
    requires forall stream :: stream in bases ==> Gapless(At(now, stream)) && bases[stream] <= Version(now, stream)
    ensures Flushed(now, staged).Ok? <==> Untouched(staged, bases, now)
    ensures Flushed(now, staged).Ok? ==> Extends(staged, now, Flushed(now, staged).value)
  {
    if staged == [] {
    } else {
      var but, a := staged[..|staged| - 1], staged[|staged| - 1];
      assert staged == but + [a];
      ChainedBut(but, a, bases);
      FlushSucceedsIff(but, bases, now);
      FlushedAppend(now, but, a);
      if Flushed(now, but).Ok? {
        LastAppend(but, a, bases, now, Flushed(now, but).value);
      } else {
        UntouchedNext(but, a, bases, now);
      }
    }
  }

  lemma StagedOnNext(but: seq<StagedAppend>, a: StagedAppend, stream: string)
    ensures StagedOn(but + [a], stream) == StagedOn(but, stream) + (if a.stream == stream then a.events else [])
  {
    assert (but + [a])[..|but + [a]| - 1] == but;
  }

  /** The last append of a flush, on its own stream: past the end if nobody else wrote, or in the
      way of the row that somebody did. */
  lemma LastInserts(slots: Stream, staged: seq<Event>, base: nat, events: seq<Event>)
    requires Gapless(slots) && base <= |slots| && (staged == [] || base == |slots|)
    ensures |slots + Recorded(staged)| == |slots| + |staged|
    ensures (slots + Recorded(staged)) != [] ==> (slots + Recorded(staged))[|slots| + |staged| - 1] != Gap
    ensures events != [] ==>
              (InsertAll(slots + Recorded(staged), base + |staged|, events).Some? <==> base == |slots|)
    ensures InsertAll(slots + Recorded(staged), base + |staged|, events).Some? ==>
              InsertAll(slots + Recorded(staged), base + |staged|, events).value == slots + Recorded(staged + events)
  {
    var mid: seq<Slot> := slots + Recorded(staged);
    assert mid != [] ==> mid[|mid| - 1] != Gap;
    if events == [] {
      assert staged + [] == staged;
    } else if base == |slots| {
      AppendPastEnd(mid, base + |staged|, events);
      assert mid + Gaps(0) + Recorded(events) == slots + Recorded(staged + events);
    } else {
      assert mid == slots;
      AppendConflictsIff(mid, base, events);
      assert Taken(mid, base + 1);
    }
  }

  lemma UntouchedNext(but: seq<StagedAppend>, a: StagedAppend, bases: map<string, nat>, now: Store)
    requires a.stream in bases
    ensures Untouched(but + [a], bases, now)
      <==> Untouched(but, bases, now) && (a.events == [] || Version(now, a.stream) == bases[a.stream])
  {
    forall stream | stream in bases
      ensures UntouchedOn(but + [a], bases, now, stream) <==>
              UntouchedOn(but, bases, now, stream)
              && (stream != a.stream || a.events == [] || Version(now, a.stream) == bases[a.stream])
    {
      StagedOnNext(but, a, stream);
    }
    if Untouched(but + [a], bases, now) {
      assert UntouchedOn(but + [a], bases, now, a.stream);
    }
  }

  lemma ExtendsNext(but: seq<StagedAppend>, a: StagedAppend, now: Store, mid: Store, after: Stream)
    requires Extends(but, now, mid)
    requires after == At(now, a.stream) + Recorded(StagedOn(but, a.stream) + a.events)
    ensures Extends(but + [a], now, mid[a.stream := after])
  {
    var staged, grown := but + [a], mid[a.stream := after];
    forall stream ensures ExtendsOn(staged, now, grown, stream) {
      StagedOnNext(but, a, stream);
      assert ExtendsOn(but, now, mid, stream);
      if stream != a.stream {
        assert At(grown, stream) == At(mid, stream);
        assert StagedOn(but, stream) + [] == StagedOn(but, stream);
      }
    }
  }

  lemma LastAppend(but: seq<StagedAppend>, a: StagedAppend, bases: map<string, nat>, now: Store, mid: Store)
    requires Untouched(but, bases, now) && Extends(but, now, mid)
    requires a.stream in bases && a.expected == bases[a.stream] + |StagedOn(but, a.stream)|
    requires Gapless(At(now, a.stream)) && bases[a.stream] <= Version(now, a.stream)
    ensures Appended(mid, a).Ok? <==> Untouched(but + [a], bases, now)
    ensures Appended(mid, a).Ok? ==> Extends(but + [a], now, Appended(mid, a).value)
  {
    UntouchedNext(but, a, bases, now);
    LastInserts(At(now, a.stream), StagedOn(but, a.stream), bases[a.stream], a.events);
    assert ExtendsOn(but, now, mid, a.stream);
    if Appended(mid, a).Ok? {
      ExtendsNext(but, a, now, mid, InsertAll(At(mid, a.stream), a.expected, a.events).value);
    }
  }

  class StagingEventStore {
    const inner: EventStore
    var staged: seq<StagedAppend>

    constructor (inner: EventStore)
      ensures this.inner == inner && staged == []
    {
      this.inner := inner;
      staged := [];
    }

    method Append(stream: string, expected: nat, events: seq<Event>) returns (version: nat)
      modifies this
      ensures staged == old(staged) + [StagedAppend(stream, expected, events)]
      ensures Done(version) == StagedStep(inner.streams, old(staged), AppendOp(StagedAppend(stream, expected, events))).1
    {
      staged := staged + [StagedAppend(stream, expected, events)];
      version := expected + |events|;
    }

    method Load(stream: string) returns (events: seq<Event>, version: nat)
      ensures (events, version) == Overlay(inner.streams, staged, stream)
    {
      events, version := inner.Load(stream);
      for i := 0 to |staged|
        invariant (events, version) == Overlay(inner.streams, staged[..i], stream)
      {
        assert staged[..i + 1][..i] == staged[..i];
        if staged[i].stream == stream {
          version := Max(version, staged[i].expected + |staged[i].events|);
          events := events + staged[i].events;
        }
      }
      assert staged[..|staged|] == staged;
    }

    method TakeStaged() returns (taken: seq<StagedAppend>)
      modifies this
      ensures taken == old(staged) && staged == []
    {
      taken, staged := staged, [];
    }
  }
}
