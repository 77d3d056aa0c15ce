/** crates/actor_client/src/partition.rs: the frozen routing function from an
    aggregate to its lane, and the declared keyspace widths it reads. */
module Routing {
  import opened Wrappers

  const TWO_TO_THE_8: int := 0x100
  const TWO_TO_THE_64: int := 0x1_0000_0000_0000_0000
  const TWO_TO_THE_128: int := 0x1_0000_0000_0000_0000_0000_0000_0000_0000

  type Byte = n: int | 0 <= n < TWO_TO_THE_8
  type Word = n: int | 0 <= n < TWO_TO_THE_64
  type Uuid = n: int | 0 <= n < TWO_TO_THE_128

  const OFFSET: Word := 0xcbf29ce484222325
  const MAX_WIDTH := 32767

  /** The low `n` bytes of `value`, most significant first (`Uuid::as_bytes` for `n == 16`). */
  function BigEndian(value: nat, n: nat): (bytes: seq<Byte>)
    ensures |bytes| == n
  {
    if n == 0 then [] else BigEndian(value / TWO_TO_THE_8, n - 1) + [value % TWO_TO_THE_8]
  }

  function Xor(a: Byte, b: Byte): Byte {
    ((a as bv8) ^ (b as bv8)) as int
  }

  /** `hash ^= byte`, then the multiplication: the byte reaches the low eight bits only. */
  function FnvStep(hash: Word, byte: Byte): Word {
    WrappingMul(hash / 0x100 * 0x100 + Xor(hash % 0x100, byte))
  }

  /** `hash.wrapping_mul(PRIME)`. */
  function WrappingMul(hash: Word): Word {
    (hash * 0x00000100000001b3) % 0x1_0000_0000_0000_0000
  }

  function Fnv(bytes: seq<Byte>, hash: Word): Word
    decreases |bytes|
  {
    if bytes == [] then hash else Fnv(bytes[1..], FnvStep(hash, bytes[0]))
  }

  function Clamp(width: int): int {
    if width < 1 then 1 else if width > MAX_WIDTH then MAX_WIDTH else width
  }

  function PartitionOf(id: Uuid, width: int): (p: int)
    ensures 0 <= p <= MAX_WIDTH - 1
    ensures 1 <= width ==> p < width
  {
    Fnv(BigEndian(id, 16), OFFSET) % Clamp(width)
  }

  /** `stable_partition`: the byte loop computes the fold, and the result fits a SMALLINT lane
      of every keyspace width. */
  method StablePartition(id: Uuid, width: int) returns (p: int)
    requires 0 <= width <= 65535
    ensures p == PartitionOf(id, width)
    ensures 0 <= p <= MAX_WIDTH - 1
    ensures 1 <= width ==> p < width
  {
    var bytes := BigEndian(id, 16);
    var hash: Word := OFFSET;
    for i := 0 to 16
      invariant Fnv(bytes[i..], hash) == Fnv(bytes, OFFSET)
    {
      hash := FnvStep(hash, bytes[i]);
      assert bytes[i..][1..] == bytes[i + 1..];
    }
    p := hash % Clamp(width);
  }

  /** `ACTOR_MAILBOXES`: the declared width of every actor type that owns a mailbox. */
  const ACTOR_MAILBOXES: seq<(string, int)> := [
    ("AdminSignIn", 5), ("Cart", 5), ("Catalog", 5), ("Conversation", 5), ("Customer", 5),
    ("CustomerCredit", 5), ("DeliveryJob", 5), ("DeliveryPartnerRegistration", 5),
    ("MailboxSupervision", 1), ("Order", 5), ("Payment", 5), ("PlaceOrderProcess", 5),
    ("PlatformMembership", 1), ("Prospect", 5), ("Reclamation", 5), ("RefundProcess", 5),
    ("Restaurant", 5), ("RestaurantAccount", 5), ("RestaurantInvitation", 5),
    ("RestaurantMembership", 5), ("Rider", 5)]

  /** The first declaration of `actorType` in `table`, as `Iterator::find` reads it. */
  function WidthIn(table: seq<(string, int)>, actorType: string): Option<int> {
    if table == [] then None
    else if table[0].0 == actorType then Some(table[0].1)
    else WidthIn(table[1..], actorType)
  }

  /** `declared_lane`: the only source of a lane; None for an actor type without a mailbox. */
  function DeclaredLane(actorType: string, id: Uuid): (lane: Option<int>)
    ensures lane.Some? ==> 0 <= lane.value <= MAX_WIDTH - 1
  {
    match WidthIn(ACTOR_MAILBOXES, actorType)
    case None => None
    case Some(width) => Some(PartitionOf(id, width))
  }
}
