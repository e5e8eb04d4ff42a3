/** `DataStore`: the registry that fans live values out to the table cells
    observing them. It maps `"context:pathKey"` to a set of callbacks; a cell
    gets a subject for its key, subscribes a callback and unsubscribes it when
    it unmounts, and `pushDelta` publishes every value of a delta message to
    the subject of its key.

    Callbacks are opaque ids; calling one is recorded as a `Delivery` appended
    to the ghost log `delivered`. A JavaScript `Set` of callbacks is an object
    of class `ListenerSet`. A subject and a subscription hold the very
    `ListenerSet` object they were made with, as the closures returned by
    `getSubject` and `subscribe` do, so an operation on an old subject acts on
    its own set even after the store has dropped or replaced that set. */
module Store {
  import opened Json
  import opened Text
  import opened Delta

  datatype Callback = Callback(id: nat)

  /** One call of a callback, with the data it was called with. */
  datatype Delivery = Delivery(callback: Callback, data: Record)

  /** One record `pushDelta` publishes, with the key of its subject. */
  datatype Emission = Emission(key: string, data: Record)

  /** A JavaScript `Set` of callbacks, in insertion order. */
  class ListenerSet {
    var members: seq<Callback>

    ghost predicate Valid()
      reads this
    {
      NoRepeats(members)
    }

    constructor ()
      ensures Valid() && members == []
    {
      members := [];
    }
  }

  /** What `getSubject(context, pathKey)` returns: `next`, `subscribe` and
      `complete` closed over the key and that key's set. */
  datatype Subject = Subject(key: string, listenerSet: ListenerSet)

  /** What `subscribe(callback)` returns: `unsubscribe` closed over the key,
      the set and the callback. */
  datatype Subscription = Subscription(key: string, listenerSet: ListenerSet, callback: Callback)

  /** The registry key `${context}:${pathKey}`. */
  function SubjectKey(context: string, pathKey: string): string {
    context + ":" + pathKey
  }

  /** Subjects of different contexts or different path keys never share a
      registry entry, as long as contexts contain no `:`. */
  lemma SubjectKeyInjective(c1: string, p1: string, c2: string, p2: string)
    requires ':' !in c1 && ':' !in c2
    requires SubjectKey(c1, p1) == SubjectKey(c2, p2)
    ensures c1 == c2 && p1 == p2
  {
    var k := SubjectKey(c1, p1);
    assert k[|c1|] == ':' && k[|c2|] == ':';
    assert forall i | 0 <= i < |c1| :: k[i] == c1[i];
    assert forall i | 0 <= i < |c2| :: k[i] == c2[i];
    assert |c1| == |c2|;
    assert c1 == k[..|c1|] && c2 == k[..|c2|];
    assert p1 == k[|c1| + 1..] && p2 == k[|c2| + 1..];
  }

  /** The same holds when instead the path keys contain no `:`, which covers
      URN contexts such as `atons.urn:mrn:imo:mmsi:…`. */
  lemma SubjectKeyInjectiveByPath(c1: string, p1: string, c2: string, p2: string)
    requires ':' !in p1 && ':' !in p2
    requires SubjectKey(c1, p1) == SubjectKey(c2, p2)
    ensures c1 == c2 && p1 == p2
  {
    var k := SubjectKey(c1, p1);
    assert k[|c1|] == ':' && k[|c2|] == ':';
    assert forall i | |c1| < i < |k| :: k[i] == p1[i - |c1| - 1];
    assert forall i | |c2| < i < |k| :: k[i] == p2[i - |c2| - 1];
    assert |c1| == |c2|;
    assert c1 == k[..|c1|] && c2 == k[..|c2|];
    assert p1 == k[|c1| + 1..] && p2 == k[|c2| + 1..];
  }

  /** `set.add(cb)`: the set gains `cb` and keeps its order. */
  function Added(s: seq<Callback>, cb: Callback): (r: seq<Callback>)
    ensures forall c :: c in r <==> c in s || c == cb
    ensures |s| <= |r| && r[..|s|] == s
    ensures NoRepeats(s) ==> NoRepeats(r)
  {
    if cb in s then s else s + [cb]
  }

  /** `set.delete(cb)`: the set loses `cb` and keeps the order of the rest. */
  function Removed(s: seq<Callback>, cb: Callback): (r: seq<Callback>)
    ensures forall c :: c in r <==> c in s && c != cb
    ensures cb !in s ==> r == s
    ensures NoRepeats(s) ==> NoRepeats(r)
    ensures NoRepeats(s) && cb in s ==> |r| == |s| - 1
  {
    if s == [] then []
    else if s[0] == cb then Removed(s[1..], cb)
    else
      var rest := Removed(s[1..], cb);
      assert NoRepeats(s) ==> NoRepeats(s[1..]) && s[0] !in s[1..];
      [s[0]] + rest
  }

  /** `x` occurs in `s` somewhere before `y`. */
  ghost predicate Before(s: seq<Callback>, x: Callback, y: Callback) {
    exists p, q :: 0 <= p < q < |s| && s[p] == x && s[q] == y
  }

  lemma BeforeAt(s: seq<Callback>, p: int, q: int)
    requires 0 <= p < q < |s|
    ensures Before(s, s[p], s[q])
  {
  }

  /** `set.delete(cb)` keeps the order of the remaining callbacks: of any two
      of them, the earlier one came first in the set before. */
  lemma {:induction false} RemovedKeepsOrder(s: seq<Callback>, cb: Callback)
    ensures forall i, j | 0 <= i < j < |Removed(s, cb)| :: Before(s, Removed(s, cb)[i], Removed(s, cb)[j])
    decreases |s|
  {
    if s != [] {
      var tail := s[1..];
      var rest := Removed(tail, cb);
      RemovedKeepsOrder(tail, cb);
      var r := Removed(s, cb);
      var off := if s[0] == cb then 0 else 1;
      assert r == if s[0] == cb then rest else [s[0]] + rest;
      // Two callbacks of the rest: their order in the tail carries over.
      forall i, j | off <= i < j < |r|
        ensures Before(s, r[i], r[j])
      {
        assert r[i] == rest[i - off] && r[j] == rest[j - off];
        assert Before(tail, rest[i - off], rest[j - off]);
        var p, q :| 0 <= p < q < |tail| && tail[p] == r[i] && tail[q] == r[j];
        BeforeAt(s, p + 1, q + 1);
      }
      // The kept head comes before every callback of the rest.
      if off == 1 {
        forall j | 0 < j < |r|
          ensures Before(s, r[0], r[j])
        {
          assert r[j] == rest[j - 1] && rest[j - 1] in tail;
          var q :| 0 <= q < |tail| && tail[q] == r[j];
          BeforeAt(s, 0, q + 1);
        }
      }
    }
  }

  /** What `listenerSet.forEach((callback) => callback(data))` calls: every
      callback of the set, once each, in insertion order, with `data`. */
  function Fanout(cbs: seq<Callback>, data: Record): (r: seq<Delivery>)
    ensures |r| == |cbs|
    ensures forall i | 0 <= i < |r| :: r[i].callback == cbs[i] && r[i].data == data
  {
    seq(|cbs|, i requires 0 <= i < |cbs| => Delivery(cbs[i], data))
  }

  /** The callbacks registered under `key`, none if there is no entry. */
  function Lookup(registry: map<string, seq<Callback>>, key: string): seq<Callback> {
    if key in registry then registry[key] else []
  }

  /** The calls made when the emissions `es` go out in order, each to the
      callbacks `registry` holds for its key. */
  function Deliveries(registry: map<string, seq<Callback>>, es: seq<Emission>): seq<Delivery>
    decreases |es|
  {
    if es == [] then []
    else
      var last := es[|es| - 1];
      Deliveries(registry, es[..|es| - 1]) + Fanout(Lookup(registry, last.key), last.data)
  }

  /** The registry after `getSubject` has been called for every key of `es`:
      each of those keys gains an entry, empty unless it had one. */
  function Touched(registry: map<string, seq<Callback>>, es: seq<Emission>): (r: map<string, seq<Callback>>)
    ensures r.Keys == registry.Keys + KeysOf(es)
    ensures forall k | k in r :: r[k] == Lookup(registry, k)
  {
    map k | k in registry.Keys + KeysOf(es) :: Lookup(registry, k)
  }

  /** The keys some emission of `es` goes to. */
  function KeysOf(es: seq<Emission>): set<string> {
    set e | e in es :: e.key
  }

  /** Every call made reaches a callback registered under the key of one of
      the emissions, with that emission's record: a callback registered under
      any other key is never called. */
  lemma {:induction false} DeliveriesReachOnlyListeners(registry: map<string, seq<Callback>>, es: seq<Emission>, d: Delivery)
    requires d in Deliveries(registry, es)
    ensures exists e | e in es :: d.callback in Lookup(registry, e.key) && d.data == e.data
    decreases |es|
  {
    var last := es[|es| - 1];
    var front := es[..|es| - 1];
    if d in Deliveries(registry, front) {
      DeliveriesReachOnlyListeners(registry, front, d);
      var e :| e in front && d.callback in Lookup(registry, e.key) && d.data == e.data;
      assert e in es;
    } else {
      var f := Fanout(Lookup(registry, last.key), last.data);
      assert d in f;
      var i :| 0 <= i < |f| && f[i] == d;
      assert d.callback in Lookup(registry, last.key);
    }
  }

  /** Emissions to keys nobody observes call nothing: in particular, after
      `destroy` no callback is called. */
  lemma {:induction false} NoListenersNoDeliveries(registry: map<string, seq<Callback>>, es: seq<Emission>)
    requires forall e | e in es :: Lookup(registry, e.key) == []
    ensures Deliveries(registry, es) == []
    decreases |es|
  {
    if es != [] {
      NoListenersNoDeliveries(registry, es[..|es| - 1]);
      assert es[|es| - 1] in es;
    }
  }

  // ---------------------------------------------------------------------------
  // What pushDelta publishes

  /** The context `pushDelta` publishes under: any vessel context becomes
      `'self'`. */
  function StoreContext(context: string): (r: string)
    ensures r == "self" <==> StartsWith(context, "vessels.") || context == "self"
    ensures r != "self" ==> r == context
  {
    if StartsWith(context, "vessels.") then "self" else context
  }

  /** The record `pushDelta` builds for one value of an update. */
  function StoreRecord(u: Update, vp: PathValue, clock: Clock): Record {
    Record(vp.path, vp.value, u.source, u.pgn, u.sentence,
           FormatTimestamp(clock, u.timestamp, STORE_TIMESTAMP_FORMAT))
  }

  /** The emissions for one update: none without `values`, else one per value
      in order. */
  function UpdateEmissions(context: string, u: Update, clock: Clock): seq<Emission> {
    match u.values
    case None => []
    case Some(vs) =>
      seq(|vs|, j requires 0 <= j < |vs| =>
        Emission(SubjectKey(context, PathKey(vs[j].path, u.source)), StoreRecord(u, vs[j], clock)))
  }

  /** The emissions for a list of updates, in update order. */
  function Emissions(context: string, us: seq<Update>, clock: Clock): seq<Emission>
    decreases |us|
  {
    if us == [] then []
    else Emissions(context, us[..|us| - 1], clock) + UpdateEmissions(context, us[|us| - 1], clock)
  }

  /** The emissions of `pushDelta(msg)`: none for a message without context or
      updates. */
  function PushEmissions(msg: Msg, clock: Clock): seq<Emission> {
    if Ignored(msg) then []
    else Emissions(StoreContext(msg.context.value), msg.updates.value, clock)
  }

  /** The number of values in a list of updates. */
  function ValueCount(us: seq<Update>): nat
    decreases |us|
  {
    if us == [] then 0
    else ValueCount(us[..|us| - 1]) + (if us[|us| - 1].values.Some? then |us[|us| - 1].values.value| else 0)
  }

  /** Exactly one emission per value entry, in update order and then value
      order: value `j` of update `i` is emission number
      `ValueCount(us[..i]) + j`, going to `context:path$source` with that
      value's path, value and source. */
  lemma {:induction false} EmissionAt(context: string, us: seq<Update>, clock: Clock, i: int, j: int)
    requires 0 <= i < |us| && us[i].values.Some? && 0 <= j < |us[i].values.value|
    ensures |Emissions(context, us, clock)| == ValueCount(us)
    ensures ValueCount(us[..i]) + j < |Emissions(context, us, clock)|
    ensures var vp := us[i].values.value[j];
            Emissions(context, us, clock)[ValueCount(us[..i]) + j]
              == Emission(SubjectKey(context, PathKey(vp.path, us[i].source)),
                          Record(vp.path, vp.value, us[i].source, us[i].pgn, us[i].sentence,
                                 FormatTimestamp(clock, us[i].timestamp, STORE_TIMESTAMP_FORMAT)))
    decreases |us|
  {
    var front := us[..|us| - 1];
    EmissionsLength(context, us, clock);
    if i == |us| - 1 {
      assert us[..i] == front;
      EmissionsLength(context, front, clock);
    } else {
      EmissionAt(context, front, clock, i, j);
      assert front[..i] == us[..i];
      assert front[i] == us[i];
    }
  }

  lemma {:induction false} EmissionsLength(context: string, us: seq<Update>, clock: Clock)
    ensures |Emissions(context, us, clock)| == ValueCount(us)
    decreases |us|
  {
    if us != [] {
      EmissionsLength(context, us[..|us| - 1], clock);
    }
  }

  // ---------------------------------------------------------------------------
  // The store

  class DataStore {
    /** `this.listeners`: registry key to the set of its callbacks. */
    var listeners: map<string, ListenerSet>
    /** Every callback call made so far, in order. */
    ghost var delivered: seq<Delivery>

    /** Every registered set is a set, and no set is registered twice. */
    ghost predicate Valid()
      reads this`listeners, listeners.Values
    {
      && (forall k | k in listeners :: listeners[k].Valid())
      && (forall k1, k2 | k1 in listeners && k2 in listeners && k1 != k2 :: listeners[k1] != listeners[k2])
    }

    /** The registry as values: key to callbacks in insertion order. */
    ghost function Contents(): map<string, seq<Callback>>
      reads this`listeners, listeners.Values
    {
      map k | k in listeners :: listeners[k].members
    }

    constructor ()
      ensures Valid() && listeners == map[] && Contents() == map[] && delivered == []
    {
      listeners := map[];
      delivered := [];
    }

    /** `getSubject(context, pathKey)`: the subject of `context:pathKey`, whose
        entry is created, with an empty set, if there is none. */
    method GetSubject(context: string, pathKey: string) returns (s: Subject)
      requires Valid()
      modifies this`listeners
      ensures Valid()
      ensures s.key == SubjectKey(context, pathKey)
      ensures s.key in listeners && listeners[s.key] == s.listenerSet
      ensures s.key in old(listeners) ==> listeners == old(listeners)
      ensures s.key !in old(listeners) ==>
                fresh(s.listenerSet) && listeners == old(listeners)[s.key := s.listenerSet]
      ensures Contents() == if s.key in old(Contents()) then old(Contents()) else old(Contents())[s.key := []]
    {
      var key := SubjectKey(context, pathKey);
      if key !in listeners {
        var created := new ListenerSet();
        listeners := listeners[key := created];
      }
      s := Subject(key, listeners[key]);
    }

    /** `subject.next(data)`: every callback of the subject's set is called
        once, in insertion order, with `data`. */
    method Next(s: Subject, data: Record)
      modifies this`delivered
      ensures delivered == old(delivered) + Fanout(s.listenerSet.members, data)
    {
      var cbs := s.listenerSet.members;
      var i := 0;
      while i < |cbs|
        invariant 0 <= i <= |cbs|
        invariant delivered == old(delivered) + Fanout(cbs[..i], data)
      {
        delivered := delivered + [Delivery(cbs[i], data)];
        i := i + 1;
      }
      assert cbs[..i] == cbs;
    }

    /** `subject.subscribe(cb)`: the subject's set gains `cb`; a callback
        already there stays once. Only entries holding that very set change. */
    method Subscribe(s: Subject, cb: Callback) returns (sub: Subscription)
      requires Valid() && s.listenerSet.Valid()
      modifies s.listenerSet
      ensures Valid() && s.listenerSet.Valid()
      ensures sub == Subscription(s.key, s.listenerSet, cb)
      ensures s.listenerSet.members == Added(old(s.listenerSet.members), cb)
      ensures listeners == old(listeners)
      ensures forall k | k in listeners && listeners[k] != s.listenerSet ::
                listeners[k].members == old(listeners[k].members)
    {
      s.listenerSet.members := Added(s.listenerSet.members, cb);
      sub := Subscription(s.key, s.listenerSet, cb);
    }

    /** `subscription.unsubscribe()` as written: the set loses the callback,
        and if it is now empty the entry under the key is deleted, whatever
        set that entry holds by now. */
    method Unsubscribe(sub: Subscription)
      requires Valid() && sub.listenerSet.Valid()
      modifies sub.listenerSet, this`listeners
      ensures Valid() && sub.listenerSet.Valid()
      ensures sub.listenerSet.members == Removed(old(sub.listenerSet.members), sub.callback)
      ensures listeners == if sub.listenerSet.members == [] then old(listeners) - {sub.key} else old(listeners)
      ensures forall k | k in listeners && listeners[k] != sub.listenerSet ::
                listeners[k].members == old(listeners[k].members)
    {
      sub.listenerSet.members := Removed(sub.listenerSet.members, sub.callback);
      if |sub.listenerSet.members| == 0 {
        listeners := listeners - {sub.key};
      }
    }

    /** `unsubscribe` as evidently intended: an emptied set is removed from
        the registry only while it is still the set registered under its key,
        so every other entry, and every set in it, stays as it was. */
    method UnsubscribeIfCurrent(sub: Subscription)
      requires Valid() && sub.listenerSet.Valid()
      modifies sub.listenerSet, this`listeners
      ensures Valid() && sub.listenerSet.Valid()
      ensures sub.listenerSet.members == Removed(old(sub.listenerSet.members), sub.callback)
      ensures listeners ==
                if sub.listenerSet.members == [] && sub.key in old(listeners) && old(listeners)[sub.key] == sub.listenerSet
                then old(listeners) - {sub.key} else old(listeners)
      ensures forall k | k in old(listeners) && old(listeners)[k] != sub.listenerSet ::
                k in listeners && listeners[k] == old(listeners)[k] && listeners[k].members == old(listeners[k].members)
    {
      sub.listenerSet.members := Removed(sub.listenerSet.members, sub.callback);
      if |sub.listenerSet.members| == 0 && sub.key in listeners && listeners[sub.key] == sub.listenerSet {
        listeners := listeners - {sub.key};
      }
    }

    /** `subject.complete()`: the subject's set is emptied and the entry under
        its key is deleted. */
    method Complete(s: Subject)
      requires Valid()
      modifies s.listenerSet, this`listeners
      ensures Valid() && s.listenerSet.Valid()
      ensures s.listenerSet.members == []
      ensures listeners == old(listeners) - {s.key}
      ensures forall k | k in listeners && listeners[k] != s.listenerSet ::
                listeners[k].members == old(listeners[k].members)
    {
      s.listenerSet.members := [];
      listeners := listeners - {s.key};
    }

    /** `destroy()`: every registered set is emptied and the registry is
        cleared, without calling anything. */
    method Destroy()
      requires Valid()
      modifies this`listeners, listeners.Values
      ensures Valid() && Contents() == map[]
      ensures forall ls | ls in old(listeners).Values :: ls.members == []
    {
      var pending := listeners.Keys;
      while pending != {}
        invariant pending <= listeners.Keys
        invariant listeners == old(listeners)
        invariant forall k | k in listeners && k !in pending :: listeners[k].members == []
        decreases pending
      {
        var k :| k in pending;
        listeners[k].members := [];
        pending := pending - {k};
      }
      listeners := map[];
    }

    /** `pushDelta(msg)`: nothing for a message without context or updates;
        otherwise, for each value of each update that has values, in order,
        the subject of `context:path$source` is fetched (creating an empty
        entry for a key nobody observes) and its callbacks are called with the
        value's record. Every existing entry keeps its set object, so a
        subscription made before the push stays registered. */
    method PushDelta(msg: Msg, clock: Clock)
      requires Valid()
      modifies this`listeners, this`delivered
      ensures Valid()
      ensures delivered == old(delivered) + Deliveries(old(Contents()), PushEmissions(msg, clock))
      ensures Contents() == Touched(old(Contents()), PushEmissions(msg, clock))
      ensures forall k | k in old(listeners) :: k in listeners && listeners[k] == old(listeners)[k]
    {
      ghost var registry := Contents();
      if msg.context.None? || msg.context.value == "" || msg.updates.None? {
        assert Touched(registry, []) == registry;
        return;
      }
      var context := if StartsWith(msg.context.value, "vessels.") then "self" else msg.context.value;
      var us := msg.updates.value;
      assert us[..0] == [];
      assert Touched(registry, []) == registry;
      for i := 0 to |us|
        invariant Valid()
        invariant delivered == old(delivered) + Deliveries(registry, Emissions(context, us[..i], clock))
        invariant Contents() == Touched(registry, Emissions(context, us[..i], clock))
        invariant forall k | k in old(listeners) :: k in listeners && listeners[k] == old(listeners)[k]
      {
        assert us[..i + 1][..i] == us[..i];
        PushUpdate(context, us[i], clock, registry, old(delivered), Emissions(context, us[..i], clock));
      }
      assert us[..|us|] == us;
    }

    /** The inner loop of `pushDelta`: the values of one update, in order. */
    method PushUpdate(context: string, u: Update, clock: Clock,
                      ghost registry: map<string, seq<Callback>>, ghost base: seq<Delivery>, ghost before: seq<Emission>)
      requires Valid()
      requires delivered == base + Deliveries(registry, before)
      requires Contents() == Touched(registry, before)
      modifies this`listeners, this`delivered
      ensures Valid()
      ensures delivered == base + Deliveries(registry, before + UpdateEmissions(context, u, clock))
      ensures Contents() == Touched(registry, before + UpdateEmissions(context, u, clock))
      ensures forall k | k in old(listeners) :: k in listeners && listeners[k] == old(listeners)[k]
    {
      ghost var block := UpdateEmissions(context, u, clock);
      if u.values.None? {
        assert before + block == before;
        return;
      }
      var vs := u.values.value;
      assert |block| == |vs|;
      assert before + block[..0] == before;
      for j := 0 to |vs|
        invariant Valid()
        invariant delivered == base + Deliveries(registry, before + block[..j])
        invariant Contents() == Touched(registry, before + block[..j])
        invariant forall k | k in old(listeners) :: k in listeners && listeners[k] == old(listeners)[k]
      {
        var vp := vs[j];
        var pathKey := vp.path + "$" + u.source;
        var data := Record(vp.path, vp.value, u.source, u.pgn, u.sentence,
                           FormatTimestamp(clock, u.timestamp, STORE_TIMESTAMP_FORMAT));
        ghost var e := Emission(SubjectKey(context, pathKey), data);
        assert block[j] == e;
        ghost var done := before + block[..j];
        SliceSnoc(before, block, j);
        ghost var c0, d0 := Contents(), delivered;
        Emit(context, pathKey, data);
        StepDeliveries(registry, base, done, e, d0, delivered);
        StepTouched(registry, done, e, c0, Contents());
      }
      assert block[..|vs|] == block;
    }

    /** One step of `pushDelta`: `getSubject(context, pathKey).next(data)`.
        The key gains an empty entry if it had none, and the callbacks it had
        are called with `data`. */
    method Emit(context: string, pathKey: string, data: Record)
      requires Valid()
      modifies this`listeners, this`delivered
      ensures Valid()
      ensures var key := SubjectKey(context, pathKey);
              && delivered == old(delivered) + Fanout(Lookup(old(Contents()), key), data)
              && Contents() == if key in old(Contents()) then old(Contents()) else old(Contents())[key := []]
    ensures forall k | k in old(listeners) :: k in listeners && listeners[k] == old(listeners)[k]
    {
      var s := GetSubject(context, pathKey);
      assert s.listenerSet.members == Contents()[s.key];
      Next(s, data);
    }
  }

  /** A touched registry holds the same callbacks for every key. */
  lemma TouchedLookup(registry: map<string, seq<Callback>>, es: seq<Emission>, k: string)
    ensures Lookup(Touched(registry, es), k) == Lookup(registry, k)
  {
  }

  /** One `getSubject(...).next(...)` step extends the calls made by
      `Deliveries` by one emission. */
  lemma StepDeliveries(registry: map<string, seq<Callback>>, base: seq<Delivery>, done: seq<Emission>, e: Emission,
                       d0: seq<Delivery>, d1: seq<Delivery>)
    requires d0 == base + Deliveries(registry, done)
    requires d1 == d0 + Fanout(Lookup(Touched(registry, done), e.key), e.data)
    ensures d1 == base + Deliveries(registry, done + [e])
  {
    TouchedLookup(registry, done, e.key);
    DeliveriesSnoc(registry, done, e);
  }

  /** One `getSubject` step extends the registry `Touched` describes by one
      emission. */
  lemma StepTouched(registry: map<string, seq<Callback>>, done: seq<Emission>, e: Emission,
                    c0: map<string, seq<Callback>>, c1: map<string, seq<Callback>>)
    requires c0 == Touched(registry, done)
    requires c1 == if e.key in c0 then c0 else c0[e.key := []]
    ensures c1 == Touched(registry, done + [e])
  {
    TouchedSnoc(registry, done, e);
  }

  lemma SliceSnoc<T>(a: seq<T>, b: seq<T>, j: int)
    requires 0 <= j < |b|
    ensures a + b[..j + 1] == (a + b[..j]) + [b[j]]
  {
    assert b[..j + 1] == b[..j] + [b[j]];
  }

  lemma DeliveriesSnoc(registry: map<string, seq<Callback>>, es: seq<Emission>, e: Emission)
    ensures Deliveries(registry, es + [e]) == Deliveries(registry, es) + Fanout(Lookup(registry, e.key), e.data)
  {
    assert (es + [e])[..|es|] == es;
  }

  /** One more emission adds its key, with no callbacks, unless it is there. */
  lemma TouchedSnoc(registry: map<string, seq<Callback>>, es: seq<Emission>, e: Emission)
    ensures var t := Touched(registry, es);
            Touched(registry, es + [e]) == if e.key in t then t else t[e.key := []]
  {
    var t := Touched(registry, es);
    assert KeysOf(es + [e]) == KeysOf(es) + {e.key} by {
      assert forall x | x in es + [e] :: x in es || x == e;
      assert e in es + [e];
      assert forall x | x in es :: x in es + [e];
    }
  }
}

/** The stale `unsubscribe`, as written and as intended. A cell subscribes to
    a key and unsubscribes, which deletes the key's emptied entry; a second
    cell then subscribes to the same key and gets a new set; releasing the
    first subscription once more (releasing twice is meant to be harmless)
    deletes the second cell's entry, so `pushDelta` never calls it again. */
module StaleUnsubscribe {
  import opened Json
  import opened Delta
  import opened Store

  const PATH_KEY := "navigation.speedOverGround$gps"

  /** A message carrying one value for `navigation.speedOverGround` from
      source `gps`. */
  function SpeedMsg(): Msg {
    Msg(Some("self"), Some([Update("gps", None, None, None, "2024-01-01T00:00:00Z",
                                   Some([PathValue("navigation.speedOverGround", Num(5))]), None)]))
  }

  lemma SpeedMsgEmissions(clock: Clock)
    ensures PushEmissions(SpeedMsg(), clock)
            == [Emission(SubjectKey("self", PATH_KEY),
                         StoreRecord(SpeedMsg().updates.value[0], PathValue("navigation.speedOverGround", Num(5)), clock))]
  {
    var msg := SpeedMsg();
    var us := msg.updates.value;
    assert StoreContext("self") == "self";
    assert PathKey("navigation.speedOverGround", "gps") == PATH_KEY;
    assert us[..0] == [];
    assert Emissions("self", us, clock) == Emissions("self", us[..0], clock) + UpdateEmissions("self", us[0], clock);
  }

  /** The first cell subscribes callback 1 to the key and releases it; the
      emptied entry is deleted. */
  method FirstCellReleased() returns (store: DataStore, sub: Subscription)
    ensures fresh(store) && fresh(sub.listenerSet)
    ensures store.Valid() && store.listeners == map[] && store.delivered == []
    ensures sub.key == SubjectKey("self", PATH_KEY) && sub.callback == Callback(1)
    ensures sub.listenerSet.Valid() && sub.listenerSet.members == []
  {
    store := new DataStore();
    var first := store.GetSubject("self", PATH_KEY);
    sub := store.Subscribe(first, Callback(1));
    assert first.listenerSet.members == [Callback(1)];
    store.Unsubscribe(sub);
  }

  /** A second cell subscribes callback 2 to the same key and gets a new set. */
  method SecondCellSubscribed(store: DataStore, stale: Subscription) returns (live: Subject)
    requires store.Valid() && store.listeners == map[]
    requires stale.listenerSet.members == []
    modifies store`listeners
    ensures fresh(live.listenerSet)
    ensures store.Valid() && store.delivered == old(store.delivered)
    ensures live.key == SubjectKey("self", PATH_KEY)
    ensures store.listeners == map[live.key := live.listenerSet]
    ensures live.listenerSet.Valid() && live.listenerSet.members == [Callback(2)]
    ensures stale.listenerSet.members == []
  {
    live := store.GetSubject("self", PATH_KEY);
    var _ := store.Subscribe(live, Callback(2));
  }

  /** As written: after the double release the second cell's callback is no
      longer registered, and a value for its key does not reach it. */
  method AsWritten(clock: Clock) returns (store: DataStore, live: Subject)
    ensures store.Valid() && live.listenerSet.members == [Callback(2)]
    ensures live.key == SubjectKey("self", PATH_KEY)
    ensures live.key in store.Contents() && store.Contents()[live.key] == []
    ensures forall d | d in store.delivered :: d.callback != Callback(2)
  {
    var sub;
    store, sub := FirstCellReleased();
    live := SecondCellSubscribed(store, sub);
    store.Unsubscribe(sub);
    assert store.listeners == map[];
    SpeedMsgEmissions(clock);
    store.PushDelta(SpeedMsg(), clock);
    NoListenersNoDeliveries(map[], PushEmissions(SpeedMsg(), clock));
    assert KeysOf(PushEmissions(SpeedMsg(), clock)) == {live.key};
  }

  /** As intended: the double release leaves the second cell registered, and
      a value for its key reaches it. */
  method Corrected(clock: Clock) returns (store: DataStore, live: Subject)
    ensures store.Valid() && live.listenerSet.members == [Callback(2)]
    ensures live.key == SubjectKey("self", PATH_KEY)
    ensures live.key in store.Contents() && store.Contents()[live.key] == [Callback(2)]
    ensures Delivery(Callback(2), StoreRecord(SpeedMsg().updates.value[0], PathValue("navigation.speedOverGround", Num(5)), clock))
              in store.delivered
  {
    var sub;
    store, sub := FirstCellReleased();
    live := SecondCellSubscribed(store, sub);
    store.UnsubscribeIfCurrent(sub);
    assert store.listeners == map[live.key := live.listenerSet];
    assert store.Contents() == map[live.key := [Callback(2)]];
    SpeedMsgEmissions(clock);
    store.PushDelta(SpeedMsg(), clock);
    ghost var e := PushEmissions(SpeedMsg(), clock)[0];
    assert Deliveries(map[live.key := [Callback(2)]], [e]) == Fanout([Callback(2)], e.data) by {
      assert [e][..0] == [];
    }
    assert store.delivered[0] == Delivery(Callback(2), e.data);
  }
}
