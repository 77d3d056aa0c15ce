/** The activation cache as it is meant: a list of held states, the most recently used last. Each
    operation of crates/actor_runtime/src/activation.rs is one function on that list. */
module Recency {
  import opened Wrappers
  import Lists

  datatype Item<V> = Item(
    key: string, value: V, actorType: string, partition: int, bytes: nat, idle: nat, expiresAt: int)
  {
    predicate Expired(now: int) {
      expiresAt <= now
    }

    predicate Under(actorType: string, partition: int) {
      this.actorType == actorType && this.partition == partition
    }
  }

  function Bytes<V>(list: seq<Item<V>>): nat {
    if list == [] then 0 else list[0].bytes + Bytes(list[1..])
  }

  function Keys<V>(list: seq<Item<V>>): set<string> {
    set i | 0 <= i < |list| :: list[i].key
  }

  /** No key twice. */
  ghost predicate OncePerKey<V>(list: seq<Item<V>>) {
    forall i, j :: 0 <= i < j < |list| ==> list[i].key != list[j].key
  }

  function KeyOf<V>(item: Item<V>): string {
    item.key
  }

  /** The list without the items of these keys, in the same order. */
  function Without<V>(list: seq<Item<V>>, keys: set<string>): seq<Item<V>> {
    Lists.Without(list, KeyOf, keys)
  }

  function Find<V>(list: seq<Item<V>>, key: string): Option<Item<V>> {
    if list == [] then None
    else if list[0].key == key then Some(list[0])
    else Find(list[1..], key)
  }

  /** The least recently used go first, until the rest fits. */
  function TrimToFit<V>(list: seq<Item<V>>, maxBytes: nat): seq<Item<V>> {
    if list == [] || Bytes(list) <= maxBytes then list else TrimToFit(list[1..], maxBytes)
  }

  // ---- the operations ------------------------------------------------------------------------

  function Get<V>(list: seq<Item<V>>, key: string, now: int): (seq<Item<V>>, Option<V>) {
    match Find(list, key)
    case None => (list, None)
    case Some(item) =>
      if item.Expired(now) then (Without(list, {key}), None)
      else (Without(list, {key}) + [item.(expiresAt := now + item.idle)], Some(item.value))
  }

  function Put<V>(list: seq<Item<V>>, item: Item<V>, maxBytes: nat): seq<Item<V>> {
    TrimToFit(Without(list, {item.key}) + [item], maxBytes)
  }

  function ExpiredKeys<V>(list: seq<Item<V>>, now: int): set<string> {
    set i | 0 <= i < |list| && list[i].Expired(now) :: list[i].key
  }

  function LaneKeys<V>(list: seq<Item<V>>, actorType: string, partition: int): set<string> {
    set i | 0 <= i < |list| && list[i].Under(actorType, partition) :: list[i].key
  }

  function Sweep<V>(list: seq<Item<V>>, now: int): seq<Item<V>> {
    Without(list, ExpiredKeys(list, now))
  }

  function DropPartition<V>(list: seq<Item<V>>, actorType: string, partition: int): seq<Item<V>> {
    Without(list, LaneKeys(list, actorType, partition))
  }

  // ---- what they mean ------------------------------------------------------------------------

  lemma {:induction false} BytesConcat<V>(a: seq<Item<V>>, b: seq<Item<V>>)
    ensures Bytes(a + b) == Bytes(a) + Bytes(b)
  {
    if a == [] {
      assert a + b == b;
    } else {
      assert (a + b)[1..] == a[1..] + b;
      BytesConcat(a[1..], b);
    }
  }

  lemma WithoutMember<V>(list: seq<Item<V>>, keys: set<string>, item: Item<V>)
    ensures item in Without(list, keys) <==> item in list && item.key !in keys
  {
    Lists.WithoutMember(list, KeyOf, keys, item);
  }

  lemma {:induction false} KeysOf<V>(list: seq<Item<V>>, key: string)
    ensures key in Keys(list) <==> Find(list, key).Some?
    ensures Find(list, key).Some? ==> Find(list, key).value in list && Find(list, key).value.key == key
  {
    if list != [] {
      KeysOf(list[1..], key);
      assert list == [list[0]] + list[1..];
      if key in Keys(list) && list[0].key != key {
        var i :| 0 <= i < |list| && list[i].key == key;
        assert list[1..][i - 1].key == key;
      }
      if key in Keys(list[1..]) {
        var i :| 0 <= i < |list[1..]| && list[1..][i].key == key;
        assert list[i + 1].key == key;
      }
    }
  }

  /** What survives a put is the longest most recently used suffix that fits; it ends in the new
      item, or it is empty because the new item alone does not fit. */
  lemma {:induction false} TrimIsLongestSuffix<V>(list: seq<Item<V>>, maxBytes: nat)
    ensures
      var kept := TrimToFit(list, maxBytes);
      && |kept| <= |list| && kept == list[|list| - |kept|..]
      && Bytes(kept) <= maxBytes
      && forall i :: 0 <= i < |list| - |kept| ==> Bytes(list[i..]) > maxBytes
  {
    if list == [] || Bytes(list) <= maxBytes {
    } else {
      TrimIsLongestSuffix(list[1..], maxBytes);
      var kept := TrimToFit(list, maxBytes);
      forall i | 0 <= i < |list| - |kept| ensures Bytes(list[i..]) > maxBytes {
        if i == 0 { assert list[0..] == list; } else { assert list[i..] == list[1..][i - 1..]; }
      }
    }
  }

  lemma SuffixBytes<V>(list: seq<Item<V>>, i: nat)
    requires i < |list|
    ensures Bytes(list[i..]) >= list[|list| - 1].bytes
  {
    assert list[i..] == list[i..|list| - 1] + [list[|list| - 1]];
    BytesConcat(list[i..|list| - 1], [list[|list| - 1]]);
  }

  /** A put of something larger than the whole cache leaves the cache empty, and that is the only
      way a put can. */
  lemma PutEmptiesIff<V>(list: seq<Item<V>>, item: Item<V>, maxBytes: nat)
    ensures Put(list, item, maxBytes) == [] <==> item.bytes > maxBytes
    ensures item.bytes <= maxBytes ==> Put(list, item, maxBytes)[|Put(list, item, maxBytes)| - 1] == item
  {
    var all := Without(list, {item.key}) + [item];
    TrimIsLongestSuffix(all, maxBytes);
    var kept := TrimToFit(all, maxBytes);
    if item.bytes > maxBytes && kept != [] {
      SuffixBytes(all, |all| - |kept|);
    }
    assert all[|all| - 1..] == [item] && Bytes([item]) == item.bytes;
  }

  /** Trimming only ever takes away. */
  lemma {:induction false} TrimMember<V>(list: seq<Item<V>>, maxBytes: nat, item: Item<V>)
    ensures item in TrimToFit(list, maxBytes) ==> item in list
  {
    TrimIsLongestSuffix(list, maxBytes);
  }

  lemma WithoutFirst<V>(list: seq<Item<V>>, keys: set<string>)
    requires list != []
    ensures Without(list, keys) == (if list[0].key in keys then [] else [list[0]]) + Without(list[1..], keys)
  {
    assert KeyOf(list[0]) == list[0].key;
  }

  lemma WithoutAlso<V>(list: seq<Item<V>>, keys: set<string>, key: string)
    ensures Without(Without(list, keys), {key}) == Without(list, keys + {key})
  {
    Lists.WithoutTwice(list, KeyOf, keys, {key});
  }

  lemma {:induction false} WithoutAbsent<V>(list: seq<Item<V>>, keys: set<string>)
    requires keys !! Keys(list)
    ensures Without(list, keys) == list
  {
    if list != [] {
      forall k | k in Keys(list[1..]) ensures k in Keys(list) {
        var i :| 0 <= i < |list[1..]| && list[1..][i].key == k;
        assert list[i + 1].key == k;
      }
      assert list[0].key in Keys(list);
      WithoutFirst(list, keys);
      WithoutAbsent(list[1..], keys);
    }
  }

  lemma {:induction false} WithoutOneBytes<V>(list: seq<Item<V>>, key: string)
    requires OncePerKey(list)
    ensures match Find(list, key)
            case None => Without(list, {key}) == list
            case Some(item) => Bytes(Without(list, {key})) == Bytes(list) - item.bytes
  {
    if list != [] {
      var rest := list[1..];
      WithoutFirst(list, {key});
      if list[0].key == key {
        forall k | k in Keys(rest) ensures k != key {
          var i :| 0 <= i < |rest| && rest[i].key == k;
          assert list[i + 1].key == k;
        }
        WithoutAbsent(rest, {key});
        assert [] + rest == rest;
      } else {
        WithoutOneBytes(rest, key);
        BytesConcat([list[0]], Without(rest, {key}));
      }
    }
  }

  lemma {:induction false} WithoutBytes<V>(list: seq<Item<V>>, keys: set<string>)
    ensures Bytes(Without(list, keys)) <= Bytes(list)
  {
    if list != [] {
      WithoutFirst(list, keys);
      WithoutBytes(list[1..], keys);
      BytesConcat(if list[0].key in keys then [] else [list[0]], Without(list[1..], keys));
      assert Bytes([list[0]]) == list[0].bytes;
    }
  }
}
