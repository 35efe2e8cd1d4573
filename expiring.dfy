/** The capacity- and age-bounded dictionary that caches stock bundles
    (`ExpiringDict(max_len=128, max_age_seconds=300)`). Its contents are
    modelled as a value, `Store`: the live entries by key, each with the
    time it was inserted, and the keys in insertion order, oldest first.
    The clock is an explicit `now` parameter. */
module Expiring {

  datatype Option<T> = None | Some(value: T)

  /** A cached value and the time at which it was stored. */
  datatype Entry<V> = Entry(value: V, insertedAt: int)

  /** The contents of the dictionary: entries by key, and the keys in
      insertion order (oldest first). */
  datatype Store<V> = Store(entries: map<string, Entry<V>>, order: seq<string>)

  /** No key appears twice in `s`. */
  predicate Distinct(s: seq<string>)
  {
    forall i, j :: 0 <= i < j < |s| ==> s[i] != s[j]
  }

  /** The invariant of the dictionary: at most `maxLen` entries, one per key,
      and the order lists exactly the keys that have entries. */
  ghost predicate WellFormed<V>(st: Store<V>, maxLen: nat)
  {
    |st.order| <= maxLen
    && Distinct(st.order)
    && (forall k :: k in st.entries <==> k in st.order)
  }

  /** Whether the entry under `key` is still young enough to be returned. */
  predicate Live<V>(st: Store<V>, key: string, now: int, maxAge: int)
  {
    key in st.entries && now - st.entries[key].insertedAt < maxAge
  }

  /** What `get(key)` returns at time `now`: the value of a live entry. An
      entry whose age has reached `maxAge` is never returned. */
  function Lookup<V>(st: Store<V>, key: string, now: int, maxAge: int): (r: Option<V>)
    ensures r.Some? <==> Live(st, key, now, maxAge)
    ensures r.Some? ==> r.value == st.entries[key].value
  {
    if Live(st, key, now, maxAge) then Some(st.entries[key].value) else None
  }

  /** `order` without `key`. */
  function Remove(order: seq<string>, key: string): (r: seq<string>)
    ensures forall k :: k in r <==> k in order && k != key
    ensures key !in order ==> r == order
    ensures |r| <= |order|
    decreases |order|
  {
    if order == [] then []
    else if order[0] == key then Remove(order[1..], key)
    else [order[0]] + Remove(order[1..], key)
  }

  /** Removing a key from a repetition-free order keeps it repetition-free
      and shortens it by one exactly when the key was there. */
  lemma {:induction false} RemoveDistinct(order: seq<string>, key: string)
    requires Distinct(order)
    ensures Distinct(Remove(order, key))
    ensures key in order ==> |Remove(order, key)| == |order| - 1
    decreases |order|
  {
    if order != [] {
      assert Distinct(order[1..]) by {
        forall i, j | 0 <= i < j < |order[1..]| ensures order[1..][i] != order[1..][j] {
          assert order[1..][i] == order[i + 1] && order[1..][j] == order[j + 1];
        }
      }
      RemoveDistinct(order[1..], key);
      if order[0] == key {
        assert key !in order[1..];
      } else {
        var r := [order[0]] + Remove(order[1..], key);
        forall i, j | 0 <= i < j < |r| ensures r[i] != r[j] {
          if i == 0 {
            assert r[j] in Remove(order[1..], key);
          }
        }
      }
    }
  }

  /** The effect of `get(key)` on the contents: an entry found too old is
      deleted; nothing else changes. */
  function Purge<V>(st: Store<V>, key: string, now: int, maxAge: int): Store<V>
  {
    if key in st.entries && !Live(st, key, now, maxAge)
    then Store(st.entries - {key}, Remove(st.order, key))
    else st
  }

  /** `d[key] = value` at time `now`. While there is room, an existing
      entry for `key` is overwritten in its place (the dictionary is an
      ordered dictionary). Otherwise any previous entry for `key` is
      dropped; if the dictionary is then still full, the oldest-inserted
      entry is evicted; the new entry is appended as the newest. */
  function Put<V>(st: Store<V>, key: string, value: V, now: int, maxLen: nat): Store<V>
  {
    if key in st.entries && |st.order| < maxLen then
      Store(st.entries[key := Entry(value, now)], st.order)
    else
    var kept := Remove(st.order, key);
    var entries := st.entries - {key};
    if |kept| >= maxLen && kept != []
    then Store((entries - {kept[0]})[key := Entry(value, now)], kept[1..] + [key])
    else Store(entries[key := Entry(value, now)], kept + [key])
  }

  /** A lookup never breaks the invariant. */
  lemma PurgeWellFormed<V>(st: Store<V>, key: string, now: int, maxAge: int, maxLen: nat)
    requires WellFormed(st, maxLen)
    ensures WellFormed(Purge(st, key, now, maxAge), maxLen)
  {
    RemoveDistinct(st.order, key);
  }

  /** A store keeps the invariant, so the dictionary never holds more than
      `maxLen` entries. */
  lemma PutWellFormed<V>(st: Store<V>, key: string, value: V, now: int, maxLen: nat)
    requires maxLen >= 1 && WellFormed(st, maxLen)
    ensures WellFormed(Put(st, key, value, now, maxLen), maxLen)
  {
    if !(key in st.entries && |st.order| < maxLen) {
      RemoveDistinct(st.order, key);
      var kept := Remove(st.order, key);
      var r := Put(st, key, value, now, maxLen);
      var rest := if |kept| >= maxLen && kept != [] then kept[1..] else kept;
      assert r.order == rest + [key];
      assert Distinct(rest) by {
        forall i, j | 0 <= i < j < |rest| ensures rest[i] != rest[j] {
          if rest != kept {
            assert rest[i] == kept[i + 1] && rest[j] == kept[j + 1];
          }
        }
      }
      assert key !in rest by {
        if rest != kept {
          assert forall x :: x in rest ==> x in kept;
        }
      }
      assert forall k :: k in r.entries <==> k in r.order by {
        if rest != kept {
          assert forall x :: x in kept <==> x == kept[0] || x in rest;
          assert kept[0] !in rest by {
            forall i | 0 <= i < |rest| ensures rest[i] != kept[0] {
              assert rest[i] == kept[i + 1];
            }
          }
        }
      }
    }
  }

  /** Read-your-write: right after storing `value` under `key`, a lookup of
      `key` that is less than `maxAge` later returns `value`. */
  lemma PutThenLookup<V>(st: Store<V>, key: string, value: V, now: int, later: int, maxLen: nat, maxAge: int)
    requires now <= later < now + maxAge
    ensures Lookup(Put(st, key, value, now, maxLen), key, later, maxAge) == Some(value)
  {
  }

  /** Expiry: once `maxAge` has passed since an entry was stored, with no
      store under its key in between, a lookup no longer returns it. */
  lemma PutThenExpire<V>(st: Store<V>, key: string, value: V, now: int, later: int, maxLen: nat, maxAge: int)
    requires later >= now + maxAge
    ensures Lookup(Put(st, key, value, now, maxLen), key, later, maxAge) == None
  {
  }

  /** A store under `key` touches no other key, except that it may evict
      one entry, and only the oldest-inserted one, and only when the
      dictionary was full and did not hold `key`. */
  lemma PutFrame<V>(st: Store<V>, key: string, value: V, now: int, maxLen: nat)
    requires maxLen >= 1 && WellFormed(st, maxLen)
    ensures var r := Put(st, key, value, now, maxLen);
      forall k :: k != key ==>
        (k in r.entries ==> k in st.entries && r.entries[k] == st.entries[k])
        && (k in st.entries && k !in r.entries ==>
              k == st.order[0] && key !in st.entries && |st.order| == maxLen)
  {
    RemoveDistinct(st.order, key);
    var kept := Remove(st.order, key);
    if |kept| >= maxLen && kept != [] {
      assert key !in st.order;
      assert kept == st.order;
    }
  }

  /** Storing a new key into a full dictionary evicts exactly one entry:
      the one inserted earliest. */
  lemma PutEvictsOldest<V>(st: Store<V>, key: string, value: V, now: int, maxLen: nat)
    requires maxLen >= 1 && WellFormed(st, maxLen)
    requires key !in st.entries && |st.order| == maxLen
    ensures Put(st, key, value, now, maxLen).entries.Keys == st.entries.Keys - {st.order[0]} + {key}
    ensures |Put(st, key, value, now, maxLen).entries| == maxLen
  {
    var r := Put(st, key, value, now, maxLen);
    assert Remove(st.order, key) == st.order;
    assert r.entries == (st.entries - {key} - {st.order[0]})[key := Entry(value, now)];
    PutWellFormed(st, key, value, now, maxLen);
    assert |r.order| == maxLen;
    DistinctCard(r.order, r.entries.Keys);
  }

  /** A repetition-free order listing exactly the keys of a set has as many
      elements as the set. */
  lemma {:induction false} DistinctCard(order: seq<string>, keys: set<string>)
    requires Distinct(order) && forall k :: k in keys <==> k in order
    ensures |keys| == |order|
    decreases |order|
  {
    if order != [] {
      var rest := order[1..];
      assert Distinct(rest) by {
        forall i, j | 0 <= i < j < |rest| ensures rest[i] != rest[j] {
          assert rest[i] == order[i + 1] && rest[j] == order[j + 1];
        }
      }
      assert order[0] !in rest by {
        forall i | 0 <= i < |rest| ensures rest[i] != order[0] {
          assert rest[i] == order[i + 1];
        }
      }
      DistinctCard(rest, keys - {order[0]});
    }
  }

  /** After a lookup that misses, the key is gone, so the store that
      follows appends the new entry as the newest: it is the last entry to
      be evicted. */
  lemma MissThenPut<V>(st: Store<V>, key: string, value: V, now: int, maxAge: int, maxLen: nat)
    requires maxLen >= 1 && WellFormed(st, maxLen)
    requires !Live(st, key, now, maxAge)
    ensures var r := Put(Purge(st, key, now, maxAge), key, value, now, maxLen);
      |r.order| >= 1 && r.order[|r.order| - 1] == key && r.entries[key] == Entry(value, now)
  {
    PurgeWellFormed(st, key, now, maxAge, maxLen);
    var p := Purge(st, key, now, maxAge);
    assert key !in p.order;
    assert Remove(p.order, key) == p.order;
  }

  /** A lookup that misses followed by a store of `key` touches no other
      key, except that it may evict one entry, and only the oldest-inserted
      one, and only when the dictionary was full and did not hold `key`. */
  lemma MissFrame<V>(st: Store<V>, key: string, value: V, now: int, maxAge: int, maxLen: nat)
    requires maxLen >= 1 && WellFormed(st, maxLen)
    ensures var r := Put(Purge(st, key, now, maxAge), key, value, now, maxLen);
      forall k :: k != key ==>
        (k in r.entries ==> k in st.entries && r.entries[k] == st.entries[k])
        && (k in st.entries && k !in r.entries ==>
              k == st.order[0] && key !in st.entries && |st.order| == maxLen)
  {
    var purged := Purge(st, key, now, maxAge);
    PurgeWellFormed(st, key, now, maxAge, maxLen);
    PutFrame(purged, key, value, now, maxLen);
    if purged != st {
      RemoveDistinct(st.order, key);
      assert |purged.order| < maxLen;
    }
  }

  /** The dictionary itself: its contents live in two fields that `get` and
      `d[key] = value` update in place. */
  class ExpiringDict<V> {
    /** The capacity (`max_len`). */
    const maxLen: nat
    /** The age at which an entry is no longer returned (`max_age_seconds`). */
    const maxAge: nat
    var entries: map<string, Entry<V>>
    var order: seq<string>

    function Contents(): Store<V>
      reads this
    {
      Store(entries, order)
    }

    ghost predicate Valid()
      reads this
    {
      maxLen >= 1 && WellFormed(Contents(), maxLen)
    }

    /** An empty dictionary; the library rejects a capacity below one. */
    constructor (maxLen: nat, maxAgeSeconds: nat)
      requires maxLen >= 1
      ensures Valid() && Contents() == Store(map[], [])
      ensures this.maxLen == maxLen && this.maxAge == maxAgeSeconds
    {
      this.maxLen := maxLen;
      this.maxAge := maxAgeSeconds;
      entries := map[];
      order := [];
    }

    /** `get(key, None)` at time `now`: the stored value while the entry is
        younger than `maxAge`; otherwise nothing, and an entry found too
        old is deleted. */
    method Get(key: string, now: int) returns (r: Option<V>)
      requires Valid()
      modifies this
      ensures Valid()
      ensures r.Some? <==> key in old(entries) && now - old(entries)[key].insertedAt < maxAge
      ensures r.Some? ==> r.value == old(entries)[key].value
      ensures r.None? ==> key !in entries
      ensures forall k :: k != key ==> (k in entries <==> k in old(entries))
      ensures r == Lookup(old(Contents()), key, now, maxAge)
      ensures Contents() == Purge(old(Contents()), key, now, maxAge)
    {
      if key in entries {
        var e := entries[key];
        if now - e.insertedAt < maxAge {
          return Some(e.value);
        }
        PurgeWellFormed(Contents(), key, now, maxAge, maxLen);
        entries := entries - {key};
        order := Remove(order, key);
      }
      return None;
    }

    /** `d[key] = value` at time `now`. */
    method SetItem(key: string, value: V, now: int)
      requires Valid()
      modifies this
      ensures Valid()
      ensures Contents() == Put(old(Contents()), key, value, now, maxLen)
    {
      PutWellFormed(Contents(), key, value, now, maxLen);
      if key in entries && |order| < maxLen {
        entries := entries[key := Entry(value, now)];
        return;
      }
      var kept := Remove(order, key);
      entries := entries - {key};
      if |kept| >= maxLen && kept != [] {
        entries := entries - {kept[0]};
        kept := kept[1..];
      }
      entries := entries[key := Entry(value, now)];
      order := kept + [key];
    }
  }
}
