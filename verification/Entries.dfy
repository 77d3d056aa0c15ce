/** crates/actor_client/src/enqueue.rs and reminders.rs: the constructors through which every
    mailbox row comes to be. UUIDv5 identities are kept as the name they hash, so two derived
    identities are equal exactly when their names are; the payload digest is the payload. */
module Entries {
  import opened Wrappers
  import opened Routing

  datatype MessageId = Minted(id: Uuid) | Derived(name: string)

  /** `eventType` is the adjacent tag of a payload that carries a fact. */
  datatype Payload = Payload(eventType: Option<string>, body: string)

  function PayloadHash(payload: Payload): Payload {
    payload
  }

  datatype Kind = Command | Event | Message

  datatype Entry = Entry(
    messageId: MessageId, kind: Kind, actorType: string, actorId: Uuid, partition: int,
    messageType: string, payload: Payload, payloadHash: Payload,
    source: Option<string>, externalId: Option<string>)

  /** The row sits on the one lane its aggregate is declared to have. */
  predicate Routed(entry: Entry) {
    DeclaredLane(entry.actorType, entry.actorId) == Some(entry.partition)
  }

  datatype DoorError =
    NotAMailboxActor(actorType: string)
    | FactNotReceived(actorType: string, eventType: string)
    | IncoherentTag(eventType: string)

  /** A row for an addressee: its lane is the declared one, whoever asks. */
  function AddressedEntry(
    kind: Kind, actorType: string, actorId: Uuid, messageType: string, payload: Payload, messageId: MessageId,
    source: Option<string>, externalId: Option<string>)
    : Result<Entry, DoorError>
  {
    match DeclaredLane(actorType, actorId)
    case None => Err(NotAMailboxActor(actorType))
    case Some(partition) =>
      Ok(Entry(messageId, kind, actorType, actorId, partition, messageType, payload, PayloadHash(payload), source, externalId))
  }

  /** `command_entry`. */
  function CommandEntry(
    actorType: string, actorId: Uuid, commandType: string, payload: Payload, messageId: MessageId)
    : Result<Entry, DoorError>
  {
    AddressedEntry(Command, actorType, actorId, commandType, payload, messageId, None, None)
  }

  /** The hop to a process manager that a recorded fact chains. */
  function ChainedEntry(
    actorType: string, actorId: Uuid, eventType: string, payload: Payload, messageId: MessageId)
    : Result<Entry, DoorError>
  {
    AddressedEntry(Event, actorType, actorId, eventType, payload, messageId, None, None)
  }

  /** A routed step of a process manager, enqueued by the transaction that completes its delivery. */
  function EnqueuedEntry(
    kind: Kind, actorType: string, actorId: Uuid, messageType: string, payload: Payload, source: string, externalId: string)
    : Result<Entry, DoorError>
  {
    AddressedEntry(
      kind, actorType, actorId, messageType, payload, InboundMessageId(source, externalId), Some(source), Some(externalId))
  }

  /** `scheduled_entry`: a reminder takes the lane of the row whose delivery declares it. */
  function ReminderEntry(cause: Entry, name: string, eventType: string, payload: Payload): Entry {
    Entry(Derived(name), Message, cause.actorType, cause.actorId, cause.partition, eventType, payload,
          PayloadHash(payload), None, None)
  }

  datatype InboundFact = InboundFact(
    source: string, externalId: string, eventType: string, payload: Payload,
    actorType: string, actorId: Uuid)

  /** `ACTOR_INBOUND_FACTS`: what each actor type declares to receive; the first entry decides. */
  type FactTable = seq<(string, seq<string>)>

  predicate Receives(table: FactTable, actorType: string, eventType: string) {
    table != [] &&
    if table[0].0 == actorType then eventType in table[0].1
    else Receives(table[1..], actorType, eventType)
  }

  function InboundMessageId(source: string, externalId: string): MessageId {
    Derived(source + ":" + externalId)
  }

  function InboundEntry(fact: InboundFact, table: FactTable): Result<Entry, DoorError> {
    match DeclaredLane(fact.actorType, fact.actorId)
    case None => Err(NotAMailboxActor(fact.actorType))
    case Some(partition) =>
      if !Receives(table, fact.actorType, fact.eventType)
      then Err(FactNotReceived(fact.actorType, fact.eventType))
      else if fact.payload.eventType != Some(fact.eventType) then Err(IncoherentTag(fact.eventType))
      else Ok(Entry(InboundMessageId(fact.source, fact.externalId), Event, fact.actorType,
                    fact.actorId, partition, fact.eventType, fact.payload, PayloadHash(fact.payload),
                    Some(fact.source), Some(fact.externalId)))
  }

  /** Refused, and every fact before it accepted. */
  predicate FirstRefused(facts: seq<InboundFact>, table: FactTable, i: nat) {
    && i < |facts| && InboundEntry(facts[i], table).Err?
    && forall j :: 0 <= j < i ==> InboundEntry(facts[j], table).Ok?
  }

  lemma FirstRefusedNext(facts: seq<InboundFact>, table: FactTable, i: nat)
    requires facts != [] && InboundEntry(facts[0], table).Ok? && FirstRefused(facts[1..], table, i)
    ensures FirstRefused(facts, table, i + 1)
  {
    assert forall j :: 0 < j < |facts| ==> facts[j] == facts[1..][j - 1];
  }

  /** `facts.into_iter().map(inbound_entry).collect()`: the first refusal refuses the batch. */
  function InboundEntries(facts: seq<InboundFact>, table: FactTable): (r: Result<seq<Entry>, DoorError>)
    ensures r.Ok? ==> |r.value| == |facts|
    ensures r.Ok? ==> forall i :: 0 <= i < |facts| ==> InboundEntry(facts[i], table) == Ok(r.value[i])
    ensures r.Err? ==> exists i: nat :: FirstRefused(facts, table, i) && InboundEntry(facts[i], table) == Err(r.error)
  {
    if facts == [] then Ok([])
    else
      match InboundEntry(facts[0], table)
      case Err(e) => Err(e)
      case Ok(entry) =>
        match InboundEntries(facts[1..], table)
        case Err(e) =>
          ghost var i: nat :| FirstRefused(facts[1..], table, i) && InboundEntry(facts[1..][i], table) == Err(e);
          FirstRefusedNext(facts, table, i);
          Err(e)
        case Ok(entries) => Ok([entry] + entries)
  }

  /** Built by one of the doors, or by a completion's own enqueues. */
  ghost predicate Built(entry: Entry) {
    || (exists actorType, actorId, commandType, payload, messageId ::
          CommandEntry(actorType, actorId, commandType, payload, messageId) == Ok(entry))
    || (exists actorType, actorId, eventType, payload, messageId ::
          ChainedEntry(actorType, actorId, eventType, payload, messageId) == Ok(entry))
    || (exists kind, actorType, actorId, messageType, payload, source, externalId ::
          EnqueuedEntry(kind, actorType, actorId, messageType, payload, source, externalId) == Ok(entry))
    || exists fact, table :: InboundEntry(fact, table) == Ok(entry)
  }

  /** A reminder declared by the delivery of a row that the mailbox has. */
  ghost predicate Inherits(entry: Entry, rows: iset<Entry>) {
    exists cause, name, eventType, payload :: cause in rows && ReminderEntry(cause, name, eventType, payload) == entry
  }

  /** Whichever way a row came to be, it is on its aggregate's one declared lane, within every
      keyspace. */
  lemma BuiltIsRouted(entry: Entry)
    requires Built(entry)
    ensures Routed(entry) && 0 <= entry.partition < MAX_WIDTH
  {
  }

  lemma InheritedIsRouted(entry: Entry, rows: iset<Entry>)
    requires Inherits(entry, rows) && forall cause :: cause in rows ==> Routed(cause)
    ensures Routed(entry)
  {
  }
}
