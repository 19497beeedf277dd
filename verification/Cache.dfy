/** Market data cache: per key the latest value, and a ring buffer of the values that were new when they came. */
module Caches {

  // Ring buffer.

  /** Index of the i-th newest element when `head` is the next one to write. */
  function Slot(head: nat, length: nat, i: nat): (slot: nat)
    requires head < length && i < length
  {
    if i < head then head - 1 - i else head + length - 1 - i
  }

  function Advance(head: nat, length: nat): nat
    requires head < length
  {
    if head + 1 == length then 0 else head + 1
  }

  /** The buffer's modular index arithmetic. */
  lemma Modular(head: nat, length: nat, i: nat)
    requires head < length && i < length
    ensures (head + 1) % length == Advance(head, length)
    ensures (head + length - 1 - i) % length == Slot(head, length, i)
  {
    if head + 1 == length {
      Wrap(0, length);
    } else {
      Small(head + 1, length);
    }
    if i < head {
      Wrap(head - 1 - i, length);
    } else {
      Small(head + length - 1 - i, length);
    }
  }

  lemma Small(x: nat, length: nat)
    requires x < length
    ensures x % length == x
  {
  }

  /** Writing at `head` makes every held element one older and leaves it where it is. */
  lemma SlotShift(head: nat, length: nat, i: nat)
    requires head < length && i < length
    ensures Slot(Advance(head, length), length, 0) == head
    ensures i > 0 ==> Slot(Advance(head, length), length, i) == Slot(head, length, i - 1) != head
  {
  }

  lemma Wrap(x: nat, length: nat)
    requires x < length
    ensures (x + length) % length == x
  {
  }

  function Least(a: nat, b: nat): nat {
    if a < b then a else b
  }

  function Suffix<T>(s: seq<T>, n: nat): seq<T> {
    s[|s| - Least(n, |s|)..]
  }

  /** These are the last elements, as many as there are up to both limits, in their order. */
  ghost predicate AreLast<T>(out: seq<T>, all: seq<T>, n: nat, capacity: nat) {
    && |out| <= n && |out| <= capacity && |out| <= |all|
    && (|out| == n || |out| == capacity || |out| == |all|)
    && forall i :: 0 <= i < |out| ==> out[i] == all[|all| - |out| + i]
  }

  lemma SuffixIsLast<T>(s: seq<T>, n: nat, capacity: nat)
    ensures AreLast(Suffix(s, Least(n, capacity)), s, n, capacity)
  {
  }

  class RingBuffer<T(0)> {
    ghost var history: seq<T>
    const buffer: array<T>
    var head: nat
    var size: nat

    ghost predicate Valid()
      reads this, buffer
    {
      && (if buffer.Length == 0 then head == 0 else head < buffer.Length)
      && size == Least(|history|, buffer.Length)
      && forall i :: 0 <= i < size ==> buffer[Slot(head, buffer.Length, i)] == history[|history| - 1 - i]
    }

    constructor (capacity: nat)
      ensures Valid() && history == [] && buffer.Length == capacity && fresh(buffer)
    {
      buffer := new T[capacity];
      head, size, history := 0, 0, [];
    }

    method Push(value: T)
      requires Valid()
      modifies this, buffer
      ensures Valid() && history == old(history) + [value]
    {
      history := history + [value];
      if buffer.Length == 0 {
        return;
      }
      buffer[head] := value;
      Modular(head, buffer.Length, 0);
      head := (head + 1) % buffer.Length;
      if size < buffer.Length {
        size := size + 1;
      }
      forall i | 0 <= i < size ensures buffer[Slot(head, buffer.Length, i)] == history[|history| - 1 - i] {
        SlotShift(old(head), buffer.Length, i);
      }
    }

    /** The last `n` pushed values that are still held, oldest first. */
    method Recent(n: nat) returns (out: seq<T>)
      requires Valid()
      ensures out == Suffix(history, Least(n, buffer.Length))
      ensures AreLast(out, history, n, buffer.Length)
    {
      var count := Least(n, size);
      var newestFirst := [];
      for i := 0 to count
        invariant |newestFirst| == i
        invariant forall j :: 0 <= j < i ==> newestFirst[j] == history[|history| - 1 - j]
      {
        Modular(head, buffer.Length, i);
        newestFirst := newestFirst + [buffer[(head + buffer.Length - 1 - i) % buffer.Length]];
      }
      out := seq(count, j requires 0 <= j < count => newestFirst[count - 1 - j]);
    }
  }

  // Stale filter: which inputs are new when they come.

  datatype Tick<T> = Tick(timestamp: int, value: T)

  predicate AllEarlier<T>(inputs: seq<Tick<T>>, timestamp: int) {
    forall i :: 0 <= i < |inputs| ==> inputs[i].timestamp < timestamp
  }

  /** Strict left-to-right timestamp maxima: the inputs later than everything before them. */
  function Records<T>(inputs: seq<Tick<T>>): seq<Tick<T>> {
    if inputs == [] then []
    else
      var n := |inputs| - 1;
      if AllEarlier(inputs[..n], inputs[n].timestamp)
      then Records(inputs[..n]) + [inputs[n]]
      else Records(inputs[..n])
  }

  /** This timestamp is the latest of the inputs. */
  ghost predicate IsLatest<T>(inputs: seq<Tick<T>>, timestamp: int) {
    && (exists i :: 0 <= i < |inputs| && inputs[i].timestamp == timestamp)
    && (forall i :: 0 <= i < |inputs| ==> inputs[i].timestamp <= timestamp)
  }

  lemma NothingIsEarlier<T>(inputs: seq<Tick<T>>, timestamp: int)
    requires inputs == []
    ensures AllEarlier(inputs, timestamp)
  {
  }

  lemma LaterThanLatest<T>(inputs: seq<Tick<T>>, latest: int, timestamp: int)
    requires IsLatest(inputs, latest)
    ensures AllEarlier(inputs, timestamp) <==> latest < timestamp
  {
    var i :| 0 <= i < |inputs| && inputs[i].timestamp == latest;
  }

  /** The last record carries the latest timestamp of all inputs. */
  lemma {:induction false} LastRecordIsLatest<T>(inputs: seq<Tick<T>>)
    requires inputs != []
    ensures Records(inputs) != [] && IsLatest(inputs, Records(inputs)[|Records(inputs)| - 1].timestamp)
    decreases |inputs|, 0
  {
    var n := |inputs| - 1;
    assert inputs[n].timestamp == inputs[n].timestamp;
    if n > 0 {
      RecordsStep(inputs[..n], inputs[n]);
      assert inputs == inputs[..n] + [inputs[n]];
      LatestStep(inputs[..n], inputs[n], Records(inputs[..n])[|Records(inputs[..n])| - 1].timestamp);
    }
  }

  lemma LatestStep<T>(before: seq<Tick<T>>, tick: Tick<T>, latest: int)
    requires IsLatest(before, latest)
    ensures IsLatest(before + [tick], if tick.timestamp <= latest then latest else tick.timestamp)
  {
    var after := before + [tick];
    var i :| 0 <= i < |before| && before[i].timestamp == latest;
    assert after[i].timestamp == latest && after[|before|] == tick;
  }

  /** What one more input does to the records: it becomes one exactly when it is later than the last. */
  lemma {:induction false} RecordsStep<T>(before: seq<Tick<T>>, tick: Tick<T>)
    ensures before != [] ==> Records(before) != [] && IsLatest(before, Records(before)[|Records(before)| - 1].timestamp)
    ensures var rs := Records(before);
            Records(before + [tick]) == if rs != [] && tick.timestamp <= rs[|rs| - 1].timestamp then rs else rs + [tick]
    decreases |before|, 1
  {
    hide AllEarlier, IsLatest;
    var after, n := before + [tick], |before|;
    assert after[..n] == before && after[n] == tick;
    if before != [] {
      LastRecordIsLatest(before);
      LaterThanLatest(before, Records(before)[|Records(before)| - 1].timestamp, tick.timestamp);
    } else {
      NothingIsEarlier(before, tick.timestamp);
    }
  }

  /** Records strictly rise in time, and every input is matched or outdone by one. */
  lemma {:induction false} RecordsRise<T>(inputs: seq<Tick<T>>)
    ensures var rs := Records(inputs);
            && (forall i, j :: 0 <= i < j < |rs| ==> rs[i].timestamp < rs[j].timestamp)
            && (forall i :: 0 <= i < |rs| ==> rs[i] in inputs)
            && |rs| <= |inputs|
  {
    if inputs != [] {
      var n := |inputs| - 1;
      hide AllEarlier, IsLatest;
      RecordsRise(inputs[..n]);
      RecordsStep(inputs[..n], inputs[n]);
      assert inputs == inputs[..n] + [inputs[n]];
    }
  }

  datatype Kind = Quotes | Trades | Bars | Books

  datatype CacheKey = CacheKey(kind: Kind, text: string)

  function Stamped(latest: map<CacheKey, int>, key: CacheKey, timestamp: int): map<CacheKey, int> {
    if key in latest && timestamp <= latest[key] then latest else latest[key := timestamp]
  }

  function Values<T>(ticks: seq<Tick<T>>): seq<T> {
    seq(|ticks|, i requires 0 <= i < |ticks| => ticks[i].value)
  }

  /** What the cache keeps, ring buffers seen as everything ever pushed to them. */
  datatype View<T> = View(latest: map<CacheKey, int>, values: map<CacheKey, T>, pushed: map<CacheKey, seq<T>>)

  datatype Offer<T> = Offer(key: CacheKey, tick: Tick<T>)

  function Added<T>(v: View<T>, keepsHistory: set<Kind>, o: Offer<T>): View<T> {
    if o.key in v.latest && o.tick.timestamp <= v.latest[o.key] then v
    else
      View(Stamped(v.latest, o.key, o.tick.timestamp),
           v.values[o.key := o.tick.value],
           if o.key.kind in keepsHistory
           then v.pushed[o.key := (if o.key in v.pushed then v.pushed[o.key] else []) + [o.tick.value]]
           else v.pushed)
  }

  function AddedAll<T>(v: View<T>, keepsHistory: set<Kind>, os: seq<Offer<T>>): View<T> {
    if os == [] then v else Added(AddedAll(v, keepsHistory, os[..|os| - 1]), keepsHistory, os[|os| - 1])
  }

  /** The ticks offered under one key, in order. */
  function TicksFor<T>(os: seq<Offer<T>>, key: CacheKey): seq<Tick<T>> {
    if os == [] then []
    else
      var n := |os| - 1;
      TicksFor(os[..n], key) + (if os[n].key == key then [os[n].tick] else [])
  }

  /** What is kept under a key is determined by the records of its own ticks. */
  ghost predicate Refines<T(!new)>(v: View<T>, keepsHistory: set<Kind>, key: CacheKey, ticks: seq<Tick<T>>) {
    var rs := Records(ticks);
    && (ticks != [] ==> rs != [])
    && (key in v.latest <==> rs != []) && (key in v.values <==> rs != [])
    && (rs != [] ==> v.latest[key] == rs[|rs| - 1].timestamp && v.values[key] == rs[|rs| - 1].value)
    && (key in v.pushed <==> rs != [] && key.kind in keepsHistory)
    && (key in v.pushed ==> v.pushed[key] == Values(rs))
  }

  lemma AddedRefines<T(!new)>(v: View<T>, keepsHistory: set<Kind>, o: Offer<T>, ticks: seq<Tick<T>>)
    requires Refines(v, keepsHistory, o.key, ticks)
    ensures Refines(Added(v, keepsHistory, o), keepsHistory, o.key, ticks + [o.tick])
  {
    hide IsLatest;
    RecordsStep(ticks, o.tick);
    assert Values(Records(ticks) + [o.tick]) == Values(Records(ticks)) + [o.tick.value];
  }

  /** Over every sequence of offers, each key holds the records of its own ticks and nothing else. */
  lemma {:induction false} CacheRefinesRecords<T(!new)>(keepsHistory: set<Kind>, os: seq<Offer<T>>, key: CacheKey)
    ensures Refines(AddedAll(View(map[], map[], map[]), keepsHistory, os), keepsHistory, key, TicksFor(os, key))
  {
    if os != [] {
      var n := |os| - 1;
      CacheRefinesRecords(keepsHistory, os[..n], key);
      if os[n].key == key {
        AddedRefines(AddedAll(View(map[], map[], map[]), keepsHistory, os[..n]), keepsHistory, os[n],
          TicksFor(os[..n], key));
      } else {
        assert TicksFor(os, key) == TicksFor(os[..n], key);
      }
    }
  }

  class Cache<T(0, !new)> {
    ghost var offers: seq<Offer<T>>  // everything offered so far
    ghost var pushed: map<CacheKey, seq<T>>  // everything pushed to each ring buffer
    ghost var Rings: set<object>  // the ring buffers and their arrays
    const capacities: map<Kind, nat>
    var latest: map<CacheKey, int>
    var values: map<CacheKey, T>
    var histories: map<CacheKey, RingBuffer<T>>

    function Capacity(kind: Kind): nat {
      if kind in capacities then capacities[kind] else 0
    }

    ghost function KeepsHistory(): set<Kind> {
      set kind | kind in capacities && capacities[kind] > 0
    }

    ghost function Kept(): View<T>
      reads this
    {
      View(latest, values, pushed)
    }

    /** Each key has a ring buffer of its own, of the capacity of its kind. */
    ghost predicate RingsValid()
      reads this`histories, this`pushed, this`Rings, Rings
    {
      && this !in Rings && pushed.Keys == histories.Keys
      && (forall k :: k in histories ==>
           && histories[k] in Rings && histories[k].buffer in Rings
           && histories[k].Valid() && histories[k].buffer.Length == Capacity(k.kind)
           && histories[k].history == pushed[k])
      && forall k, l :: k in histories && l in histories && k != l ==>
           histories[k] != histories[l] && histories[k].buffer != histories[l].buffer
    }

    ghost predicate Valid()
      reads this, Rings
    {
      RingsValid() && Kept() == AddedAll(View(map[], map[], map[]), KeepsHistory(), offers)
    }

    constructor (capacities: map<Kind, nat>)
      ensures Valid() && this.capacities == capacities && offers == [] && latest == map[]
      ensures fresh(Rings)
    {
      this.capacities := capacities;
      offers, pushed, latest, values, histories := [], map[], map[], map[], map[];
      Rings := {};
    }

    /** `is_stale_and_update` */
    method IsStaleAndUpdate(key: CacheKey, timestamp: int) returns (stale: bool)
      modifies this`latest
      ensures stale <==> key in old(latest) && timestamp <= old(latest)[key]
      ensures latest == Stamped(old(latest), key, timestamp)
    {
      if key in latest && timestamp <= latest[key] {
        return true;
      }
      latest := latest[key := timestamp];
      return false;
    }

    /** `add_quote_tick`, `add_trade_tick`, `add_bar`, `update_order_book` */
    method Add(key: CacheKey, tick: Tick<T>)
      requires Valid()
      modifies this, Rings
      ensures Valid() && fresh(Rings - old(Rings))
      ensures offers == old(offers) + [Offer(key, tick)]
      ensures Kept() == Added(old(Kept()), KeepsHistory(), Offer(key, tick))
    {
      Store(key, tick);
      offers := offers + [Offer(key, tick)];
      assert offers[..|offers| - 1] == old(offers);
    }

    /** Forgets everything, timestamps and histories included. */
    method Clear()
      requires Valid()
      modifies this
      ensures Valid() && fresh(Rings - old(Rings)) && offers == [] && Kept() == View(map[], map[], map[])
    {
      latest, values, histories := map[], map[], map[];
      pushed, offers := map[], [];
    }

    method Store(key: CacheKey, tick: Tick<T>)
      requires RingsValid()
      modifies this`latest, this`values, this`histories, this`pushed, this`Rings, Rings
      ensures RingsValid() && fresh(Rings - old(Rings))
      ensures Kept() == Added(old(Kept()), KeepsHistory(), Offer(key, tick))
    {
      var stale := IsStaleAndUpdate(key, tick.timestamp);
      if stale {
        return;
      }
      values := values[key := tick.value];
      if Capacity(key.kind) > 0 {
        Remember(key, tick.value);
      }
    }

    /** `try_emplace` and `push` on the history of a key. */
    method Remember(key: CacheKey, value: T)
      requires RingsValid()
      modifies this`histories, this`pushed, this`Rings, Rings
      ensures RingsValid() && fresh(Rings - old(Rings))
      ensures pushed == old(pushed)[key := (if key in old(pushed) then old(pushed)[key] else []) + [value]]
    {
      hide RingBuffer.Valid;
      if key !in histories {
        Emplace(key);
      }
      PushTo(key, value);
    }

    method Emplace(key: CacheKey)
      requires RingsValid() && key !in histories
      modifies this`histories, this`pushed, this`Rings
      ensures RingsValid() && fresh(Rings - old(Rings))
      ensures histories.Keys == old(histories).Keys + {key} && pushed == old(pushed)[key := []]
    {
      var ring := new RingBuffer<T>(Capacity(key.kind));
      histories := histories[key := ring];
      pushed := pushed[key := []];
      Rings := Rings + {ring, ring.buffer};
    }

    method PushTo(key: CacheKey, value: T)
      requires RingsValid() && key in histories
      modifies this`pushed, Rings
      ensures RingsValid() && pushed == old(pushed)[key := old(pushed)[key] + [value]]
    {
      var ring := histories[key];
      ring.Push(value);
      pushed := pushed[key := pushed[key] + [value]];
      assert forall k :: k in histories && k != key ==> histories[k] != ring && histories[k].buffer != ring.buffer;
      assert forall k :: k in histories && k != key ==> histories[k].Valid() && histories[k].history == pushed[k];
    }

    /** `recent_trades`, `recent_bars`, `recent_order_books`: the last records that fit, oldest first. */
    method Recent(key: CacheKey, n: nat) returns (out: seq<T>)
      requires Valid()
      ensures out == Suffix(Values(Records(TicksFor(offers, key))), Least(n, Capacity(key.kind)))
      ensures AreLast(out, Values(Records(TicksFor(offers, key))), n, Capacity(key.kind))
    {
      hide AreLast;
      SuffixIsLast(Values(Records(TicksFor(offers, key))), n, Capacity(key.kind));
      CacheRefinesRecords(KeepsHistory(), offers, key);
      if key !in histories {
        return [];
      }
      out := histories[key].Recent(n);
    }

    /** `recent_quotes`: quotes keep no history, so at most the last record. */
    method RecentQuotes(key: CacheKey, n: nat) returns (out: seq<T>)
      requires Valid()
      ensures out == Suffix(Values(Records(TicksFor(offers, key))), Least(n, 1))
      ensures AreLast(out, Values(Records(TicksFor(offers, key))), n, 1)
    {
      hide AreLast;
      SuffixIsLast(Values(Records(TicksFor(offers, key))), n, 1);
      CacheRefinesRecords(KeepsHistory(), offers, key);
      if n == 0 || key !in values {
        return [];
      }
      return [values[key]];
    }
  }
}
