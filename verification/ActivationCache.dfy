/** crates/actor_runtime/src/activation.rs: the held-state dictionary, its entries stamped with the
    tick of their last use, kept equal to the recency list of Recency.dfy. */
module ActivationCache {
  import opened Wrappers
  import opened Recency

  datatype Entry<V> = Entry(
    value: V, actorType: string, partition: int, bytes: nat, idle: nat, expiresAt: int, lastUsed: nat)

  function ItemOf<V>(key: string, e: Entry<V>): Item<V> {
    Item(key, e.value, e.actorType, e.partition, e.bytes, e.idle, e.expiresAt)
  }

  ghost predicate Listed<V>(entries: map<string, Entry<V>>, item: Item<V>) {
    item.key in entries && item == ItemOf(item.key, entries[item.key])
  }

  /** Later in the list, later used. */
  ghost predicate Ascending<V>(entries: map<string, Entry<V>>, list: seq<Item<V>>) {
    forall i, j :: 0 <= i < j < |list| ==> LastUsed(entries, list[i].key) < LastUsed(entries, list[j].key)
  }

  ghost function LastUsed<V>(entries: map<string, Entry<V>>, key: string): nat {
    if key in entries then entries[key].lastUsed else 0
  }

  ghost predicate HasKey<V>(list: seq<Item<V>>, key: string) {
    exists i :: 0 <= i < |list| && list[i].key == key
  }

  /** The list is the dictionary in the order of its ticks. */
  ghost predicate Represents<V>(entries: map<string, Entry<V>>, tick: nat, list: seq<Item<V>>) {
    && (forall i :: 0 <= i < |list| ==> Listed(entries, list[i]))
    && (forall k :: k in entries ==> HasKey(list, k))
    && Ascending(entries, list)
    && (forall k :: k in entries ==> entries[k].lastUsed <= tick)
  }

  lemma {:induction false} AscendingWithout<V>(entries: map<string, Entry<V>>, list: seq<Item<V>>, keys: set<string>)
    requires (forall i :: 0 <= i < |list| ==> Listed(entries, list[i])) && Ascending(entries, list)
    ensures forall i :: 0 <= i < |Without(list, keys)| ==> Listed(entries, Without(list, keys)[i])
    ensures Ascending(entries, Without(list, keys))
  {
    var kept := Without(list, keys);
    forall i | 0 <= i < |kept| ensures Listed(entries, kept[i]) {
      WithoutMember(list, keys, kept[i]);
    }
    if list != [] {
      var rest := list[1..];
      AscendingWithout(entries, rest, keys);
      forall i | 0 <= i < |Without(rest, keys)|
        ensures LastUsed(entries, list[0].key) < LastUsed(entries, Without(rest, keys)[i].key)
      {
        WithoutMember(rest, keys, Without(rest, keys)[i]);
        var j :| 0 <= j < |rest| && rest[j] == Without(rest, keys)[i];
        assert list[j + 1] == rest[j];
      }
    }
  }

  lemma RepresentsWithout<V>(entries: map<string, Entry<V>>, tick: nat, list: seq<Item<V>>, keys: set<string>)
    requires Represents(entries, tick, list)
    ensures Represents(entries - keys, tick, Without(list, keys))
  {
    var kept := Without(list, keys);
    AscendingWithout(entries, list, keys);
    forall i | 0 <= i < |kept| ensures Listed(entries - keys, kept[i]) {
      WithoutMember(list, keys, kept[i]);
    }
    forall k | k in entries - keys ensures HasKey(kept, k) {
      assert HasKey(list, k);
      var i :| 0 <= i < |list| && list[i].key == k;
      WithoutMember(list, keys, list[i]);
      var j :| 0 <= j < |kept| && kept[j] == list[i];
    }
  }

  lemma RepresentsAppend<V>(entries: map<string, Entry<V>>, tick: nat, list: seq<Item<V>>, key: string, e: Entry<V>)
    requires Represents(entries, tick, list) && key !in entries && e.lastUsed > tick
    ensures Represents(entries[key := e], e.lastUsed, list + [ItemOf(key, e)])
    ensures Bytes(list + [ItemOf(key, e)]) == Bytes(list) + e.bytes
  {
    var item := ItemOf(key, e);
    BytesConcat(list, [item]);
    var list', entries' := list + [item], entries[key := e];
    forall i | 0 <= i < |list'| ensures Listed(entries', list'[i]) {
      assert i < |list| ==> Listed(entries, list[i]);
    }
    forall k | k in entries' ensures HasKey(list', k) {
      if k == key { assert list'[|list|].key == k; } else {
        assert HasKey(list, k);
        var i :| 0 <= i < |list| && list[i].key == k;
        assert list'[i].key == k;
      }
    }
  }

  function Touched<V>(e: Entry<V>, tick: nat, now: int): Entry<V> {
    e.(lastUsed := tick, expiresAt := now + e.idle)
  }

  /** A touch moves the entry to the end of the list. */
  lemma Rekeyed<V>(entries: map<string, Entry<V>>, key: string, e: Entry<V>)
    ensures (entries - {key})[key := e] == entries[key := e]
  {
  }

  lemma RepresentsTouch<V>(entries: map<string, Entry<V>>, tick: nat, list: seq<Item<V>>, key: string, now: int)
    requires Represents(entries, tick, list) && key in entries
    ensures
      var touched := Touched(entries[key], tick + 1, now);
      var moved := Without(list, {key}) + [ItemOf(key, touched)];
      Represents(entries[key := touched], tick + 1, moved) && Bytes(moved) == Bytes(list)
  {
    FindListed(entries, tick, list, key);
    var touched := Touched(entries[key], tick + 1, now);
    WithoutOneBytes(list, key);
    RepresentsWithout(entries, tick, list, {key});
    RepresentsAppend(entries - {key}, tick, Without(list, {key}), key, touched);
    Rekeyed(entries, key, touched);
  }

  lemma GetHits<V>(entries: map<string, Entry<V>>, tick: nat, list: seq<Item<V>>, key: string, now: int)
    requires Represents(entries, tick, list) && key in entries && entries[key].expiresAt > now
    ensures Recency.Get(list, key, now)
      == (Without(list, {key}) + [ItemOf(key, Touched(entries[key], tick + 1, now))], Some(entries[key].value))
  {
    FindListed(entries, tick, list, key);
  }

  lemma GetMisses<V>(entries: map<string, Entry<V>>, tick: nat, list: seq<Item<V>>, key: string, now: int)
    requires Represents(entries, tick, list) && (key !in entries || entries[key].expiresAt <= now)
    ensures Recency.Get(list, key, now) == (if key in entries then Without(list, {key}) else list, None)
    ensures Bytes(Without(list, {key})) <= Bytes(list)
  {
    FindListed(entries, tick, list, key);
    WithoutBytes(list, {key});
  }

  /** The keys a loop collects from the dictionary are those the list has. */
  lemma LaneKeysHeld<V>(entries: map<string, Entry<V>>, tick: nat, list: seq<Item<V>>, actorType: string, partition: int)
    requires Represents(entries, tick, list)
    ensures LaneKeys(list, actorType, partition)
      == set k | k in entries && entries[k].actorType == actorType && entries[k].partition == partition
  {
    forall k | k in entries ensures exists i :: 0 <= i < |list| && list[i].key == k {
      assert HasKey(list, k);
    }
  }

  lemma ExpiredKeysHeld<V>(entries: map<string, Entry<V>>, tick: nat, list: seq<Item<V>>, now: int)
    requires Represents(entries, tick, list)
    ensures ExpiredKeys(list, now) == set k | k in entries && entries[k].expiresAt <= now
  {
    forall k | k in entries ensures exists i :: 0 <= i < |list| && list[i].key == k {
      assert HasKey(list, k);
    }
  }

  /** The least recently used entry is the head of the list. */
  lemma HeadIsOldest<V>(entries: map<string, Entry<V>>, tick: nat, list: seq<Item<V>>)
    requires Represents(entries, tick, list) && entries.Keys != {}
    ensures list != [] && list[0].key in entries
    ensures forall k :: k in entries && k != list[0].key ==> entries[list[0].key].lastUsed < entries[k].lastUsed
    ensures OncePerKey(list)
    ensures Without(list, {list[0].key}) == list[1..]
  {
    var some :| some in entries.Keys;
    assert HasKey(list, some);
    forall k | k in entries && k != list[0].key ensures entries[list[0].key].lastUsed < entries[k].lastUsed {
      assert HasKey(list, k);
      var i :| 0 <= i < |list| && list[i].key == k;
    }
    assert list[0].key !in Keys(list[1..]);
    WithoutAbsent(list[1..], {list[0].key});
  }

  lemma FindListed<V>(entries: map<string, Entry<V>>, tick: nat, list: seq<Item<V>>, key: string)
    requires Represents(entries, tick, list)
    ensures OncePerKey(list)
    ensures key in entries <==> Find(list, key).Some?
    ensures key in entries ==> Find(list, key).value.key == key && Listed(entries, Find(list, key).value)
  {
    KeysOf(list, key);
    assert key in entries ==> HasKey(list, key);
    if key in entries {
      var i :| 0 <= i < |list| && list[i] == Find(list, key).value;
    }
  }

  class ActivationCache<V> {
    const maxBytes: nat
    var entries: map<string, Entry<V>>
    var totalBytes: nat
    var tick: nat
    var epoch: nat
    ghost var recency: seq<Item<V>>

    ghost predicate Valid()
      reads this
    {
      Represents(entries, tick, recency) && totalBytes == Bytes(recency) <= maxBytes
    }

    constructor (maxBytes: nat)
      ensures Valid() && this.maxBytes == maxBytes && recency == [] && epoch == 0
    {
      this.maxBytes := maxBytes;
      entries, totalBytes, tick, epoch, recency := map[], 0, 0, 0, [];
    }

    /** Take one key out, its bytes with it. */
    method Remove(key: string)
      requires Represents(entries, tick, recency) && totalBytes == Bytes(recency)
      modifies this`entries, this`totalBytes, this`recency
      ensures Represents(entries, tick, recency) && totalBytes == Bytes(recency)
      ensures recency == Without(old(recency), {key}) && entries == old(entries) - {key}
    {
      FindListed(entries, tick, recency, key);
      WithoutOneBytes(recency, key);
      RepresentsWithout(entries, tick, recency, {key});
      if key in entries {
        totalBytes := totalBytes - entries[key].bytes;
      }
      entries := entries - {key};
      recency := Without(recency, {key});
    }

    /** The removal loops of the lane drop and the sweep, in whatever order the keys come. */
    method RemoveAll(keys: set<string>)
      requires Valid()
      modifies this`entries, this`totalBytes, this`recency
      ensures Valid() && recency == Without(old(recency), keys)
    {
      var rest := keys;
      WithoutAbsent(recency, keys - rest);
      WithoutBytes(recency, keys);
      while rest != {}
        invariant rest <= keys
        invariant Represents(entries, tick, recency) && totalBytes == Bytes(recency)
        invariant recency == Without(old(recency), keys - rest)
        decreases rest
      {
        var k :| k in rest;
        WithoutAlso(old(recency), keys - rest, k);
        this.Remove(k);
        assert keys - (rest - {k}) == keys - rest + {k};
        rest := rest - {k};
      }
      assert keys - rest == keys;
    }

    method Get(key: string, now: int) returns (held: Option<V>)
      requires Valid()
      modifies this`entries, this`totalBytes, this`tick, this`recency
      ensures Valid() && (recency, held) == Recency.Get(old(recency), key, now)
    {
      if key !in entries || entries[key].expiresAt <= now {
        GetMisses(entries, tick, recency, key, now);
        tick := tick + 1;
        if key in entries { this.Remove(key); }
        return None;
      }
      GetHits(entries, tick, recency, key, now);
      held := Some(entries[key].value);
      this.Touch(key, now);
    }

    /** A live entry moves to the end of the list, its idle window starting over. */
    method Touch(key: string, now: int)
      requires Valid() && key in entries
      modifies this`entries, this`tick, this`recency
      ensures Valid()
      ensures recency == Without(old(recency), {key}) + [ItemOf(key, Touched(old(entries)[key], old(tick) + 1, now))]
    {
      RepresentsTouch(entries, tick, recency, key, now);
      var touched := Touched(entries[key], tick + 1, now);
      ghost var moved := Without(recency, {key}) + [ItemOf(key, touched)];
      tick, entries, recency := tick + 1, entries[key := touched], moved;
    }

    /** `put_locked`: replace, then evict the least recently used until the rest fits. */
    method Put(key: string, actorType: string, partition: int, idle: nat, bytes: nat, value: V, now: int)
      requires Valid()
      modifies this`entries, this`totalBytes, this`tick, this`recency
      ensures Valid()
      ensures recency == Recency.Put(old(recency), Item(key, value, actorType, partition, bytes, idle, now + idle), maxBytes)
    {
      this.Replace(key, actorType, partition, idle, bytes, value, now);
      this.EvictToFit();
    }

    /** The entry of the key gives way to a new one at the end of the list. */
    method Replace(key: string, actorType: string, partition: int, idle: nat, bytes: nat, value: V, now: int)
      requires Represents(entries, tick, recency) && totalBytes == Bytes(recency)
      modifies this`entries, this`totalBytes, this`tick, this`recency
      ensures Represents(entries, tick, recency) && totalBytes == Bytes(recency)
      ensures recency == Without(old(recency), {key}) + [Item(key, value, actorType, partition, bytes, idle, now + idle)]
    {
      var added := Entry(value, actorType, partition, bytes, idle, now + idle, tick + 1);
      this.Remove(key);
      assert key !in entries;
      this.Insert(key, added);
    }

    /** A new entry under a fresh tick joins the end of the list. */
    method Insert(key: string, e: Entry<V>)
      requires Represents(entries, tick, recency) && totalBytes == Bytes(recency)
      requires key !in entries && e.lastUsed == tick + 1
      modifies this`entries, this`totalBytes, this`tick, this`recency
      ensures Represents(entries, tick, recency) && totalBytes == Bytes(recency)
      ensures recency == old(recency) + [ItemOf(key, e)]
    {
      RepresentsAppend(entries, tick, recency, key, e);
      tick := tick + 1;
      totalBytes := totalBytes + e.bytes;
      entries := entries[key := e];
      recency := recency + [ItemOf(key, e)];
    }

    method EvictToFit()
      requires Represents(entries, tick, recency) && totalBytes == Bytes(recency)
      modifies this`entries, this`totalBytes, this`recency
      ensures Valid() && recency == TrimToFit(old(recency), maxBytes)
    {
      while totalBytes > maxBytes && entries.Keys != {}
        invariant Represents(entries, tick, recency) && totalBytes == Bytes(recency)
        invariant TrimToFit(recency, maxBytes) == TrimToFit(old(recency), maxBytes)
        decreases recency
      {
        HeadIsOldest(entries, tick, recency);
        var lru :| lru in entries && forall k :: k in entries ==> entries[lru].lastUsed <= entries[k].lastUsed;
        this.Remove(lru);
      }
      assert recency != [] ==> recency[0].key in entries;
    }

    /** `put_at_epoch`: only if nothing was invalidated since the epoch was captured. */
    method PutAtEpoch(key: string, actorType: string, partition: int, idle: nat, bytes: nat, value: V, now: int, atEpoch: nat)
      returns (installed: bool)
      requires Valid()
      modifies this`entries, this`totalBytes, this`tick, this`recency
      ensures Valid() && installed == (epoch == atEpoch)
      ensures recency == if installed
                then Recency.Put(old(recency), Item(key, value, actorType, partition, bytes, idle, now + idle), maxBytes)
                else old(recency)
    {
      if epoch != atEpoch { return false; }
      this.Put(key, actorType, partition, idle, bytes, value, now);
      return true;
    }

    method Invalidate(key: string)
      requires Valid()
      modifies this`entries, this`totalBytes, this`epoch, this`recency
      ensures Valid() && epoch == old(epoch) + 1 && recency == Without(old(recency), {key})
    {
      WithoutBytes(recency, {key});
      epoch := epoch + 1;
      this.Remove(key);
    }

    method DropPartition(actorType: string, partition: int)
      requires Valid()
      modifies this`entries, this`totalBytes, this`epoch, this`recency
      ensures Valid() && epoch == old(epoch) + 1 && recency == Recency.DropPartition(old(recency), actorType, partition)
    {
      epoch := epoch + 1;
      var doomed := set k | k in entries && entries[k].actorType == actorType && entries[k].partition == partition;
      LaneKeysHeld(entries, tick, recency, actorType, partition);
      this.RemoveAll(doomed);
    }

    method Sweep(now: int) returns (dropped: nat)
      requires Valid()
      modifies this`entries, this`totalBytes, this`recency
      ensures Valid() && recency == Recency.Sweep(old(recency), now)
      ensures dropped == |ExpiredKeys(old(recency), now)|
    {
      var doomed := set k | k in entries && entries[k].expiresAt <= now;
      ExpiredKeysHeld(entries, tick, recency, now);
      this.RemoveAll(doomed);
      dropped := |doomed|;
    }
  }
}
