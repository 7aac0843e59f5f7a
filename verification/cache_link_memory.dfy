/** The in-process cache (CacheLinkMemory): a map from key to an expiry
    time (whole seconds) and the stored value. The clock is a parameter
    `now`, in seconds. */
module CacheLinkMemory {
  import opened PhpValues
  import opened CacheLinkInterface

  /** One stored entry: readable up to and including second `timeout`. */
  datatype Slot = Slot(timeout: int, data: Value)

  type Memory = map<string, Slot>

  /** What a read returns, and the memory it leaves behind. */
  datatype Read = Read(value: Value, memory: Memory)

  /** What a write returns, and the memory it leaves behind. */
  datatype Write = Write(answer: Value, memory: Memory)

  /** An entry for `key` exists and has not expired at `now`. */
  predicate Live(m: Memory, key: string, now: int) {
    key in m && now <= m[key].timeout
  }

  /** PHP's `(int)($millis / 1000)`: whole seconds, truncated toward zero. */
  function WholeSeconds(millis: int): (s: int)
    ensures 0 <= s * 1000 <= millis || millis <= s * 1000 <= 0
    ensures -1000 < millis - s * 1000 < 1000
  {
    if millis >= 0 then millis / 1000 else -((-millis) / 1000)
  }

  /** The stored value when the entry is live; otherwise null, and an
      expired entry is dropped from the memory. */
  function Get(m: Memory, key: string, now: int): (r: Read)
    ensures Live(m, key, now) ==> r == Read(m[key].data, m)
    ensures !Live(m, key, now) ==> r.value == Null && !Live(r.memory, key, now)
    ensures r.memory.Keys == if key in m && !Live(m, key, now) then m.Keys - {key} else m.Keys
    ensures forall k :: k in r.memory ==> r.memory[k] == m[k]
  {
    if key in m then
      if now <= m[key].timeout then Read(m[key].data, m) else Read(Null, m - {key})
    else Read(Null, m)
  }

  /** The listed keys whose entries have expired at `now`. */
  ghost function ExpiredAmong(m: Memory, keys: seq<string>, now: int): set<string> {
    set k | k in keys && k in m && !Live(m, k, now)
  }

  /** Reads the keys one after another, as repeated `Get`s do. */
  method GetMany(m: Memory, keys: seq<string>, now: int) returns (values: seq<Value>, m': Memory)
    ensures |values| == |keys|
    ensures forall i :: 0 <= i < |keys| ==> values[i] == Get(m, keys[i], now).value
    ensures m' == m - ExpiredAmong(m, keys, now)
  {
    values := [];
    m' := m;
    var i := 0;
    while i < |keys|
      invariant 0 <= i <= |keys|
      invariant |values| == i
      invariant forall j :: 0 <= j < i ==> values[j] == Get(m, keys[j], now).value
      invariant m' == m - ExpiredAmong(m, keys[..i], now)
    {
      ReadStep(m, keys, i, now);
      var r := Get(m', keys[i], now);
      values := values + [r.value];
      m' := r.memory;
      i := i + 1;
    }
    assert keys[..i] == keys;
  }

  /** One step of `GetMany`: reading the next key from what the earlier
      reads left gives the value a fresh read would, and drops that key if
      it has expired. */
  lemma ReadStep(m: Memory, keys: seq<string>, i: nat, now: int)
    requires i < |keys|
    ensures Get(m - ExpiredAmong(m, keys[..i], now), keys[i], now).value == Get(m, keys[i], now).value
    ensures Get(m - ExpiredAmong(m, keys[..i], now), keys[i], now).memory == m - ExpiredAmong(m, keys[..i + 1], now)
  {
    assert keys[..i + 1] == keys[..i] + [keys[i]];
  }

  /** Stores `value` under `key` until `now` plus the TTL in whole seconds,
      replacing any earlier entry. */
  function Set(m: Memory, key: string, value: Value, millis: int, now: int): (r: Write)
    ensures r.answer == Acknowledged
    ensures key in r.memory && r.memory[key].data == value
    ensures r.memory[key].timeout == now + WholeSeconds(millis)
    ensures forall k :: k != key ==> (k in r.memory <==> k in m)
    ensures forall k :: k in m && k != key ==> r.memory[k] == m[k]
  {
    Write(Acknowledged, m[key := Slot(now + WholeSeconds(millis), value)])
  }

  /** Removes each listed key in turn; nothing else changes. */
  method Clear(m: Memory, keys: seq<string>, levels: string) returns (answer: Value, m': Memory)
    ensures answer == Acknowledged
    ensures forall k :: k in m' <==> k in m && k !in keys
    ensures forall k :: k in m' ==> m'[k] == m[k]
  {
    m' := m;
    var i := 0;
    while i < |keys|
      invariant 0 <= i <= |keys|
      invariant forall k :: k in m' <==> k in m && k !in keys[..i]
      invariant forall k :: k in m' ==> m'[k] == m[k]
    {
      assert keys[..i + 1] == keys[..i] + [keys[i]];
      m' := m' - {keys[i]};
      i := i + 1;
    }
    assert keys[..i] == keys;
    answer := Acknowledged;
  }

  /** Deferred clears are acknowledged and ignored. */
  function ClearLater(m: Memory, keys: seq<string>): (r: Write)
    ensures r.answer == Acknowledged
    ensures forall k, now :: Get(r.memory, k, now) == Get(m, k, now)
  {
    Write(Acknowledged, m)
  }

  function TriggerClearNow(m: Memory): (r: Write)
    ensures r.answer == Acknowledged
    ensures forall k, now :: Get(r.memory, k, now) == Get(m, k, now)
  {
    Write(Acknowledged, m)
  }

  /** A value set at `now` is read back until its TTL runs out, and not after. */
  lemma SetThenGet(m: Memory, key: string, value: Value, millis: int, now: int, later: int)
    ensures later <= now + WholeSeconds(millis) ==>
              Get(Set(m, key, value, millis, now).memory, key, later).value == value
    ensures later > now + WholeSeconds(millis) ==>
              Get(Set(m, key, value, millis, now).memory, key, later).value == Null
  {
  }

  /** A later set of the same key replaces the earlier one entirely: the
      memory is as if only the later set had happened. */
  lemma LaterSetWins(m: Memory, key: string, v1: Value, v2: Value, ms1: int, ms2: int, t1: int, t2: int)
    ensures Set(Set(m, key, v1, ms1, t1).memory, key, v2, ms2, t2).memory == Set(m, key, v2, ms2, t2).memory
  {
  }
}
