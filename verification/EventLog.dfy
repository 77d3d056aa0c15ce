/** The append-only log under the write side (crates/application/src/ports.rs, the EventStore port;
    crates/infrastructure/src/persistence/event_store.rs and mailbox/flush.rs): rows unique by
    (stream, version), inserted one by one inside a transaction. */
module EventLog {
  import opened Wrappers

  type Event = string

  /** The rows of one stream by version, from version one. An append past the end leaves gaps; a
      technical row occupies a version and is no event. */
  datatype Slot = Gap | Business(event: Event) | Technical
  type Stream = s: seq<Slot> | s != [] ==> s[|s| - 1] != Gap witness []

  type Store = map<string, Stream>

  datatype StagedAppend = StagedAppend(stream: string, expected: nat, events: seq<Event>)

  datatype Conflict = VersionConflict(stream: string, expected: nat)

  function At(store: Store, stream: string): Stream {
    if stream in store then store[stream] else []
  }

  /** `MAX(version)`, technical rows included. */
  function Version(store: Store, stream: string): nat {
    |At(store, stream)|
  }

  predicate Gapless(slots: Stream) {
    Gap !in slots
  }

  function EventsOf(slots: seq<Slot>): seq<Event> {
    if slots == [] then []
    else
      var last := slots[|slots| - 1];
      EventsOf(slots[..|slots| - 1]) + (if last.Business? then [last.event] else [])
  }

  function Loaded(store: Store, stream: string): (seq<Event>, nat) {
    (EventsOf(At(store, stream)), Version(store, stream))
  }

  function Gaps(n: nat): seq<Slot> {
    seq(n, _ => Gap)
  }

  /** One INSERT of a version: refused when the version is taken. */
  function Insert(slots: Stream, version: nat, event: Event): Option<Stream>
    requires version > 0
  {
    if version <= |slots| then
      if slots[version - 1] == Gap then Some(slots[version - 1 := Business(event)]) else None
    else Some(slots + Gaps(version - 1 - |slots|) + [Business(event)])
  }

  /** The events of one append, versions `expected + 1` on; any clash refuses them all. */
  function InsertAll(slots: Stream, expected: nat, events: seq<Event>): Option<Stream>
    decreases |events|
  {
    if events == [] then Some(slots)
    else
      match Insert(slots, expected + 1, events[0])
      case None => None
      case Some(next) => InsertAll(next, expected + 1, events[1..])
  }

  function Appended(store: Store, a: StagedAppend): Result<Store, Conflict> {
    match InsertAll(At(store, a.stream), a.expected, a.events)
    case None => Err(VersionConflict(a.stream, a.expected))
    case Some(slots) => Ok(store[a.stream := slots])
  }

  /** Several appends in one transaction. */
  function Flushed(store: Store, staged: seq<StagedAppend>): Result<Store, Conflict>
    decreases |staged|
  {
    if staged == [] then Ok(store)
    else
      match Appended(store, staged[0])
      case Err(e) => Err(e)
      case Ok(next) => Flushed(next, staged[1..])
  }

  function Recorded(events: seq<Event>): seq<Slot> {
    seq(|events|, i requires 0 <= i < |events| => Business(events[i]))
  }

  /** The uniqueness rule, both ways: an append goes through exactly when every version it wants is
      free, and what it then changes is exactly those versions. */
  lemma {:induction false} AppendConflictsIff(slots: Stream, expected: nat, events: seq<Event>)
    ensures InsertAll(slots, expected, events).None? <==>
            exists v :: expected < v <= expected + |events| && Taken(slots, v)
    ensures InsertAll(slots, expected, events).Some? ==>
              var after := InsertAll(slots, expected, events).value;
              forall v :: v > 0 ==> SlotAt(after, v) == if expected < v <= expected + |events| then Business(events[v - expected - 1]) else SlotAt(slots, v)
    decreases |events|
  {
    if events != [] {
      var first := Insert(slots, expected + 1, events[0]);
      if first.None? {
        assert Taken(slots, expected + 1);
      } else {
        assert !Taken(slots, expected + 1);
        assert forall v :: v > 0 ==> SlotAt(first.value, v) == if v == expected + 1 then Business(events[0]) else SlotAt(slots, v);
        AppendConflictsIff(first.value, expected + 1, events[1..]);
        forall v | expected + 1 < v <= expected + |events| ensures Taken(first.value, v) == Taken(slots, v) {
        }
      }
    }
  }

  function SlotAt(slots: seq<Slot>, version: nat): Slot
    requires version > 0
  {
    if version <= |slots| then slots[version - 1] else Gap
  }

  predicate Taken(slots: seq<Slot>, version: nat) {
    version > 0 && SlotAt(slots, version) != Gap
  }

  lemma {:induction false} EventsOfRecorded(slots: seq<Slot>, events: seq<Event>)
    ensures EventsOf(slots + Recorded(events)) == EventsOf(slots) + events
  {
    var all := slots + Recorded(events);
    if events == [] {
      assert all == slots;
    } else {
      var but := events[..|events| - 1];
      assert all[..|all| - 1] == slots + Recorded(but);
      EventsOfRecorded(slots, but);
      assert events == but + [events[|events| - 1]];
    }
  }

  lemma {:induction false} EventsOfGaps(slots: seq<Slot>, n: nat)
    ensures EventsOf(slots + Gaps(n)) == EventsOf(slots)
  {
    var all := slots + Gaps(n);
    if n == 0 {
      assert all == slots;
    } else {
      assert all[..|all| - 1] == slots + Gaps(n - 1);
      EventsOfGaps(slots, n - 1);
    }
  }

  /** At or past the end nothing can clash, and the stream grows by exactly the events. */
  lemma {:induction false} AppendPastEnd(slots: Stream, expected: nat, events: seq<Event>)
    requires expected >= |slots| && events != []
    ensures InsertAll(slots, expected, events) == Some(slots + Gaps(expected - |slots|) + Recorded(events))
    decreases |events|
  {
    var next: Stream := slots + Gaps(expected - |slots|) + [Business(events[0])];
    assert Insert(slots, expected + 1, events[0]) == Some(next);
    if |events| == 1 {
      assert Recorded(events) == [Business(events[0])];
      assert InsertAll(next, expected + 1, events[1..]) == Some(next);
    } else {
      AppendPastEnd(next, expected + 1, events[1..]);
      assert next + Gaps(0) + Recorded(events[1..]) == slots + Gaps(expected - |slots|) + Recorded(events);
    }
  }

  /** What a reader sees of such an append. */
  lemma LoadPastEnd(slots: Stream, expected: nat, events: seq<Event>)
    requires expected >= |slots|
    ensures InsertAll(slots, expected, events).Some?
    ensures EventsOf(InsertAll(slots, expected, events).value) == EventsOf(slots) + events
    ensures |InsertAll(slots, expected, events).value| == if events == [] then |slots| else expected + |events|
  {
    if events != [] {
      AppendPastEnd(slots, expected, events);
      EventsOfGaps(slots, expected - |slots|);
      EventsOfRecorded(slots + Gaps(expected - |slots|), events);
    }
  }

  class EventStore {
    var streams: Store

    constructor ()
      ensures streams == map[]
    {
      streams := map[];
    }

    method Append(stream: string, expected: nat, events: seq<Event>) returns (r: Result<nat, Conflict>)
      modifies this
      ensures match Appended(old(streams), StagedAppend(stream, expected, events))
              case Ok(store) => streams == store && r == Ok(expected + |events|)
              case Err(e) => streams == old(streams) && r == Err(e)
    {
      var slots, i := At(streams, stream), 0;
      while i < |events|
        invariant i <= |events|
        invariant InsertAll(At(streams, stream), expected, events) == InsertAll(slots, expected + i, events[i..])
      {
        match Insert(slots, expected + i + 1, events[i])
        case None => return Err(VersionConflict(stream, expected));
        case Some(next) => slots := next;
        assert events[i..][1..] == events[i + 1..];
        i := i + 1;
      }
      streams := streams[stream := slots];
      return Ok(expected + |events|);
    }

    method Load(stream: string) returns (events: seq<Event>, version: nat)
      ensures (events, version) == Loaded(streams, stream)
    {
      var slots := At(streams, stream);
      events, version := [], 0;
      while version < |slots|
        invariant version <= |slots| && events == EventsOf(slots[..version])
      {
        assert slots[..version + 1][..version] == slots[..version];
        if slots[version].Business? { events := events + [slots[version].event]; }
        version := version + 1;
      }
      assert slots[..|slots|] == slots;
    }

    /** `flush_staged_in_tx`: append by append; the first clash rolls everything back. */
    method Flush(staged: seq<StagedAppend>) returns (r: Result<(), Conflict>)
      modifies this
      ensures match Flushed(old(streams), staged)
              case Ok(store) => streams == store && r == Ok(())
              case Err(e) => streams == old(streams) && r == Err(e)
    {
      var saved, i := streams, 0;
      while i < |staged|
        invariant i <= |staged|
        invariant Flushed(saved, staged) == Flushed(streams, staged[i..])
      {
        var appended := this.Append(staged[i].stream, staged[i].expected, staged[i].events);
        assert staged[i..][1..] == staged[i + 1..];
        if appended.Err? {
          streams := saved;
          return Err(appended.error);
        }
        i := i + 1;
      }
      r := Ok(());
    }
  }
}
