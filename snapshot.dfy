/** The snapshot `handleMessage` keeps of a delta message in the data
    browser's state: for the message's context, a map from key to the latest
    record, and a map from path to the merged metadata object.

    The state update is specified by the functions `DataFold` and `MetaFold`,
    which walk the updates front to back with the partial maps as
    accumulators; the methods `FoldMessage`, `FoldValues`, `Expand` and
    `FoldMetaEntries` are the loops of the state updater, proved against them.
    `Object.keys(null)` throws a `TypeError`, which aborts the whole state
    update: the data fold then yields `None`. */
module Snapshot {
  import opened Json
  import opened Text
  import opened Delta

  /** The records of one context, by key. */
  type ContextData = map<string, Record>
  /** A metadata object: its fields. */
  type Fields = map<string, Json>
  /** The metadata of one context, by path. */
  type ContextMeta = map<string, Fields>

  /** The state key of a message's context: the server's own vessel becomes
      `'self'`. */
  function BrowserContext(context: string, skSelf: string): (r: string)
    ensures r == "self" <==> context == skSelf || context == "self"
    ensures r != "self" ==> r == context
  {
    if context == skSelf then "self" else context
  }

  /** `x && \`(${x})\``, with an absent or empty text as `None`. */
  function Parenthesised(x: Option<string>): (r: Option<string>)
    ensures r.None? <==> x.None? || x.value == ""
    ensures r.Some? ==> r.value == "(" + x.value + ")"
  {
    match x
    case None => None
    case Some(s) => if s == "" then None else Some("(" + s + ")")
  }

  /** The record `handleMessage` stores for a value of an update: the pgn and
      sentence come from `update.source`, wrapped in parentheses. */
  function BrowserRecord(u: Update, path: string, value: Json, clock: Clock): Record {
    var pgn := if u.sourceRef.Some? then Parenthesised(u.sourceRef.value.pgn) else None;
    var sentence := if u.sourceRef.Some? then Parenthesised(u.sourceRef.value.sentence) else None;
    Record(path, value, u.source, pgn, sentence,
           FormatTimestamp(clock, u.timestamp, BROWSER_TIMESTAMP_FORMAT))
  }

  /** The records an empty path spreads into: one per own field `k` of the
      value, stored under the bare key `k`. */
  function Expanded(u: Update, fields: Fields, clock: Clock): (r: ContextData)
    ensures r.Keys == fields.Keys
    ensures forall k | k in r :: r[k] == BrowserRecord(u, k, fields[k], clock)
  {
    map k | k in fields :: BrowserRecord(u, k, fields[k], clock)
  }

  /** What one value writes into the context's records; `None` when the path
      is empty and the value is `null` or `undefined`, where `Object.keys`
      throws. */
  function ValueWrites(u: Update, vp: PathValue, clock: Clock): (r: Option<ContextData>)
    ensures vp.path != "" ==>
              && r.Some?
              && r.value.Keys == {PathKey(vp.path, u.source)}
              && r.value[PathKey(vp.path, u.source)] == BrowserRecord(u, vp.path, vp.value, clock)
    ensures vp.path == "" ==> (r.None? <==> vp.value.Null?)
    ensures vp.path == "" && r.Some? ==>
              && r.value.Keys == SpreadFields(vp.value).Keys
              && forall k | k in r.value ::
                   r.value[k].path == k && r.value[k].value == SpreadFields(vp.value)[k]
                   && r.value[k].source == u.source
  {
    if vp.path == "" then
      match OwnFields(vp.value)
      case None => None
      case Some(fields) => Some(Expanded(u, fields, clock))
    else
      Some(map[PathKey(vp.path, u.source) := BrowserRecord(u, vp.path, vp.value, clock)])
  }

  // ---------------------------------------------------------------------------
  // The data fold

  /** The values of one update written in order over `m`, later writes
      replacing earlier ones. */
  function ValuesFold(m: ContextData, u: Update, vs: seq<PathValue>, clock: Clock): Option<ContextData>
    decreases |vs|
  {
    if vs == [] then Some(m)
    else
      match ValueWrites(u, vs[0], clock)
      case None => None
      case Some(w) => ValuesFold(m + w, u, vs[1..], clock)
  }

  /** One update's effect on the records: nothing without `values`. */
  function UpdateData(m: ContextData, u: Update, clock: Clock): Option<ContextData> {
    if u.values.None? then Some(m) else ValuesFold(m, u, u.values.value, clock)
  }

  /** The records of the context after the updates `us`, in order. */
  function DataFold(m: ContextData, us: seq<Update>, clock: Clock): Option<ContextData>
    decreases |us|
  {
    if us == [] then Some(m)
    else
      match UpdateData(m, us[0], clock)
      case None => None
      case Some(m') => DataFold(m', us[1..], clock)
  }

  /** The records a message writes, on their own. */
  function Writes(us: seq<Update>, clock: Clock): Option<ContextData> {
    DataFold(map[], us, clock)
  }

  // ---------------------------------------------------------------------------
  // The metadata fold

  /** `{ ...meta[path], ...vp.value }` stored at `vp.path`: the fields named
      by the value are overwritten, every other field of the path is kept,
      and every other path is untouched. */
  function MergeMeta(meta: ContextMeta, vp: PathValue): (r: ContextMeta)
    ensures r.Keys == meta.Keys + {vp.path}
    ensures forall p | p in meta && p != vp.path :: r[p] == meta[p]
    ensures forall f :: f in r[vp.path] <==> f in SpreadFields(vp.value) || (vp.path in meta && f in meta[vp.path])
    ensures forall f | f in SpreadFields(vp.value) :: r[vp.path][f] == SpreadFields(vp.value)[f]
    ensures forall f | vp.path in meta && f in meta[vp.path] && f !in SpreadFields(vp.value) ::
              r[vp.path][f] == meta[vp.path][f]
  {
    var prior := if vp.path in meta then meta[vp.path] else map[];
    meta[vp.path := prior + SpreadFields(vp.value)]
  }

  /** The metadata entries of one update merged in order. */
  function MetaEntries(meta: ContextMeta, vps: seq<PathValue>): ContextMeta
    decreases |vps|
  {
    if vps == [] then meta else MetaEntries(MergeMeta(meta, vps[0]), vps[1..])
  }

  /** The metadata of the context after the updates `us`, in order. */
  function MetaFold(meta: ContextMeta, us: seq<Update>): ContextMeta
    decreases |us|
  {
    if us == [] then meta
    else
      var meta' := if us[0].meta.Some? then MetaEntries(meta, us[0].meta.value) else meta;
      MetaFold(meta', us[1..])
  }

  /** The paths some metadata entry of `us` names. */
  function MetaPathsOf(us: seq<Update>): set<string> {
    set i, j | 0 <= i < |us| && us[i].meta.Some? && 0 <= j < |us[i].meta.value| :: us[i].meta.value[j].path
  }

  // ---------------------------------------------------------------------------
  // Properties of the data fold

  /** The values of an update override the records they are written over:
      whether they fail does not depend on those records, and the result is
      the prior records with the update's own writes laid over them. */
  lemma {:induction false} ValuesOverride(d: ContextData, u: Update, vs: seq<PathValue>, clock: Clock)
    ensures ValuesFold(d, u, vs, clock).Some? <==> ValuesFold(map[], u, vs, clock).Some?
    ensures ValuesFold(d, u, vs, clock).Some? ==>
              ValuesFold(d, u, vs, clock).value == d + ValuesFold(map[], u, vs, clock).value
    decreases |vs|
  {
    if vs != [] {
      match ValueWrites(u, vs[0], clock)
      case None =>
      case Some(w) =>
        ValuesOverride(d + w, u, vs[1..], clock);
        ValuesOverride(w, u, vs[1..], clock);
        assert map[] + w == w;
        if ValuesFold(w, u, vs[1..], clock).Some? {
          var rest := ValuesFold(map[], u, vs[1..], clock).value;
          assert (d + w) + rest == d + (w + rest);
        }
    }
  }

  /** A message overrides the records of its context: it fails or succeeds
      whatever those records are, and on success the result is the prior
      records with the message's own writes laid over them. */
  lemma {:induction false} FoldOverride(d: ContextData, us: seq<Update>, clock: Clock)
    ensures DataFold(d, us, clock).Some? <==> Writes(us, clock).Some?
    ensures DataFold(d, us, clock).Some? ==> DataFold(d, us, clock).value == d + Writes(us, clock).value
    decreases |us|
  {
    if us != [] {
      var u := us[0];
      if u.values.Some? {
        ValuesOverride(d, u, u.values.value, clock);
      }
      var empty: ContextData := map[];
      assert empty + empty == empty;
      match UpdateData(map[], u, clock)
      case None =>
      case Some(w) =>
        if u.values.None? {
          assert d + w == d;
        }
        assert UpdateData(d, u, clock) == Some(d + w);
        FoldOverride(d + w, us[1..], clock);
        FoldOverride(w, us[1..], clock);
        if DataFold(w, us[1..], clock).Some? {
          var rest := Writes(us[1..], clock).value;
          assert (d + w) + rest == d + (w + rest);
        }
    }
  }

  /** A key no value of the message writes keeps its previous record. */
  lemma UnmentionedKeysKept(d: ContextData, us: seq<Update>, clock: Clock, k: string)
    requires Writes(us, clock).Some? && k !in Writes(us, clock).value
    ensures DataFold(d, us, clock).Some?
    ensures k in DataFold(d, us, clock).value <==> k in d
    ensures k in d ==> DataFold(d, us, clock).value[k] == d[k]
  {
    FoldOverride(d, us, clock);
  }

  /** Applying the same message twice leaves the records as applying it
      once. */
  lemma FoldIdempotent(d: ContextData, us: seq<Update>, clock: Clock)
    requires DataFold(d, us, clock).Some?
    ensures DataFold(DataFold(d, us, clock).value, us, clock) == DataFold(d, us, clock)
  {
    var r := DataFold(d, us, clock).value;
    FoldOverride(d, us, clock);
    FoldOverride(r, us, clock);
    var w := Writes(us, clock).value;
    assert (d + w) + w == d + w;
  }

  /** Folding `a + b` is folding `a` and then `b` over the result. */
  lemma {:induction false} ValuesAppend(m: ContextData, u: Update, a: seq<PathValue>, b: seq<PathValue>, clock: Clock)
    ensures ValuesFold(m, u, a + b, clock) ==
              match ValuesFold(m, u, a, clock)
              case None => None
              case Some(m') => ValuesFold(m', u, b, clock)
    decreases |a|
  {
    if a != [] {
      assert (a + b)[0] == a[0] && (a + b)[1..] == a[1..] + b;
      match ValueWrites(u, a[0], clock)
      case None =>
      case Some(w) => ValuesAppend(m + w, u, a[1..], b, clock);
    } else {
      assert a + b == b;
    }
  }

  lemma {:induction false} FoldAppend(m: ContextData, a: seq<Update>, b: seq<Update>, clock: Clock)
    ensures DataFold(m, a + b, clock) ==
              match DataFold(m, a, clock)
              case None => None
              case Some(m') => DataFold(m', b, clock)
    decreases |a|
  {
    if a != [] {
      assert (a + b)[0] == a[0] && (a + b)[1..] == a[1..] + b;
      match UpdateData(m, a[0], clock)
      case None =>
      case Some(m') => FoldAppend(m', a[1..], b, clock);
    } else {
      assert a + b == b;
    }
  }

  /** Within one message a later value for a key overwrites every earlier
      one: a value for a non-empty path stores its record at `path$source`,
      and that record is what the key holds at the end unless a value after
      it, in the same update or a later one, writes the same key. */
  lemma LaterValueWins(d: ContextData, a: seq<Update>, u: Update, b: seq<Update>,
                       vs: seq<PathValue>, vp: PathValue, rest: seq<PathValue>, clock: Clock)
    requires u.values == Some(vs + [vp] + rest) && vp.path != ""
    requires DataFold(d, a + [u] + b, clock).Some?
    requires ValuesFold(map[], u, rest, clock).Some?
    requires PathKey(vp.path, u.source) !in ValuesFold(map[], u, rest, clock).value
    requires Writes(b, clock).Some? && PathKey(vp.path, u.source) !in Writes(b, clock).value
    ensures PathKey(vp.path, u.source) in DataFold(d, a + [u] + b, clock).value
    ensures DataFold(d, a + [u] + b, clock).value[PathKey(vp.path, u.source)] == BrowserRecord(u, vp.path, vp.value, clock)
  {
    var key := PathKey(vp.path, u.source);
    FoldAppend(d, a + [u], b, clock);
    FoldAppend(d, a, [u], clock);
    var m0 := DataFold(d, a, clock).value;
    assert [u][1..] == [];
    // The update's values up to and including `vp`.
    ValuesAppend(m0, u, vs + [vp], rest, clock);
    ValuesAppend(m0, u, vs, [vp], clock);
    assert [vp][1..] == [];
    var m2 := ValuesFold(m0, u, vs + [vp], clock).value;
    assert key in m2 && m2[key] == BrowserRecord(u, vp.path, vp.value, clock);
    // The rest of the update, then the later updates.
    ValuesOverride(m2, u, rest, clock);
    var m1 := DataFold(d, a + [u], clock).value;
    assert m1 == m2 + ValuesFold(map[], u, rest, clock).value;
    FoldOverride(m1, b, clock);
  }

  /** A message whose one update carries one value for a non-empty path
      stores that value's record at `path$source` and changes nothing else. */
  lemma SingleValueStored(d: ContextData, u: Update, vp: PathValue, clock: Clock)
    requires u.values == Some([vp]) && vp.path != ""
    ensures DataFold(d, [u], clock) == Some(d[PathKey(vp.path, u.source) := BrowserRecord(u, vp.path, vp.value, clock)])
  {
    var w := ValueWrites(u, vp, clock).value;
    assert [vp][1..] == [] && [u][1..] == [];
    assert ValuesFold(d, u, [vp], clock) == ValuesFold(d + w, u, [], clock) == Some(d + w);
    assert UpdateData(d, u, clock) == Some(d + w);
    assert d + w == d[PathKey(vp.path, u.source) := BrowserRecord(u, vp.path, vp.value, clock)];
  }

  // ---------------------------------------------------------------------------
  // Properties of the metadata fold

  /** Merging the same metadata entry a second time changes nothing. */
  lemma MergeMetaIdempotent(meta: ContextMeta, vp: PathValue)
    ensures MergeMeta(MergeMeta(meta, vp), vp) == MergeMeta(meta, vp)
  {
    var once := MergeMeta(meta, vp);
    var prior := if vp.path in meta then meta[vp.path] else map[];
    var s := SpreadFields(vp.value);
    assert once[vp.path] == prior + s;
    assert (prior + s) + s == prior + s;
  }

  /** A path no metadata entry of the message names keeps its metadata. */
  lemma {:induction false} MetaUnmentionedKept(meta: ContextMeta, us: seq<Update>, p: string)
    requires p !in MetaPathsOf(us)
    ensures p in MetaFold(meta, us) <==> p in meta
    ensures p in meta ==> MetaFold(meta, us)[p] == meta[p]
    decreases |us|
  {
    if us != [] {
      var meta' := if us[0].meta.Some? then MetaEntries(meta, us[0].meta.value) else meta;
      if us[0].meta.Some? {
        assert us[0].meta.value == us[0].meta.value[0..];
        EntriesUnmentionedKept(meta, us[0].meta.value, p, us, 0);
      }
      forall i, j | 0 <= i < |us[1..]| && us[1..][i].meta.Some? && 0 <= j < |us[1..][i].meta.value|
        ensures us[1..][i].meta.value[j].path != p
      {
        assert us[1..][i] == us[i + 1];
      }
      MetaUnmentionedKept(meta', us[1..], p);
    }
  }

  lemma {:induction false} EntriesUnmentionedKept(meta: ContextMeta, vps: seq<PathValue>, p: string, us: seq<Update>, i: int)
    requires 0 <= i < |us| && us[i].meta.Some? && p !in MetaPathsOf(us)
    requires exists k :: 0 <= k <= |us[i].meta.value| && vps == us[i].meta.value[k..]
    ensures p in MetaEntries(meta, vps) <==> p in meta
    ensures p in meta ==> MetaEntries(meta, vps)[p] == meta[p]
    decreases |vps|
  {
    if vps != [] {
      var k :| 0 <= k <= |us[i].meta.value| && vps == us[i].meta.value[k..];
      assert vps[0] == us[i].meta.value[k];
      assert vps[1..] == us[i].meta.value[k + 1..];
      EntriesUnmentionedKept(MergeMeta(meta, vps[0]), vps[1..], p, us, i);
    }
  }

  // ---------------------------------------------------------------------------
  // The state updater's loops

  /** The records restricted to the keys `ks`. */
  function Restrict(w: ContextData, ks: set<string>): (r: ContextData)
    ensures r.Keys == w.Keys * ks
    ensures forall k | k in r :: r[k] == w[k]
  {
    map k | k in w && k in ks :: w[k]
  }

  /** `Object.keys(vp.value).forEach(k => newDataForContext[k] = …)`: each own
      field, in whatever order, written under its bare key. */
  method Expand(m: ContextData, u: Update, fields: Fields, clock: Clock) returns (r: ContextData)
    ensures r == m + Expanded(u, fields, clock)
  {
    ghost var w := Expanded(u, fields, clock);
    r := m;
    var pending := fields.Keys;
    assert Restrict(w, {}) == map[];
    while pending != {}
      invariant pending <= fields.Keys
      invariant r == m + Restrict(w, fields.Keys - pending)
      decreases pending
    {
      var k :| k in pending;
      ghost var done := fields.Keys - pending;
      r := r[k := BrowserRecord(u, k, fields[k], clock)];
      pending := pending - {k};
      assert Restrict(w, done + {k}) == Restrict(w, done)[k := w[k]];
      assert fields.Keys - pending == done + {k};
    }
    assert Restrict(w, fields.Keys) == w;
  }

  /** `update.values.forEach(…)` over the records of the context; `None` where
      an empty path carries `null` or `undefined`. */
  method FoldValues(m: ContextData, u: Update, vs: seq<PathValue>, clock: Clock) returns (r: Option<ContextData>)
    ensures r == ValuesFold(m, u, vs, clock)
  {
    var cur := m;
    var j := 0;
    while j < |vs|
      invariant 0 <= j <= |vs|
      invariant ValuesFold(m, u, vs, clock) == ValuesFold(cur, u, vs[j..], clock)
    {
      var vp := vs[j];
      assert vs[j..][0] == vp && vs[j..][1..] == vs[j + 1..];
      if vp.path == "" {
        if vp.value.Null? {
          return None;
        }
        cur := Expand(cur, u, SpreadFields(vp.value), clock);
      } else {
        var pathKey := vp.path + "$" + u.source;
        ghost var before := cur;
        cur := cur[pathKey := BrowserRecord(u, vp.path, vp.value, clock)];
        assert cur == before + ValueWrites(u, vp, clock).value;
      }
      j := j + 1;
    }
    assert vs[j..] == [];
    r := Some(cur);
  }

  /** `update.meta.forEach(…)` over the metadata of the context. */
  method FoldMetaEntries(meta: ContextMeta, vps: seq<PathValue>) returns (r: ContextMeta)
    ensures r == MetaEntries(meta, vps)
  {
    r := meta;
    var j := 0;
    while j < |vps|
      invariant 0 <= j <= |vps|
      invariant MetaEntries(meta, vps) == MetaEntries(r, vps[j..])
    {
      var vp := vps[j];
      assert vps[j..][0] == vp && vps[j..][1..] == vps[j + 1..];
      var prior := if vp.path in r then r[vp.path] else map[];
      r := r[vp.path := prior + SpreadFields(vp.value)];
      j := j + 1;
    }
    assert vps[j..] == [];
  }

  /** The `setState` updater of `handleMessage` for one context: the records
      and metadata of that context after the message, or `None` for the
      records where the updater throws. */
  method FoldMessage(d: ContextData, meta: ContextMeta, us: seq<Update>, clock: Clock)
    returns (r: Option<ContextData>, rm: ContextMeta)
    ensures r == DataFold(d, us, clock)
    ensures r.Some? ==> rm == MetaFold(meta, us)
  {
    var cur := d;
    rm := meta;
    var i := 0;
    while i < |us|
      invariant 0 <= i <= |us|
      invariant DataFold(d, us, clock) == DataFold(cur, us[i..], clock)
      invariant MetaFold(meta, us) == MetaFold(rm, us[i..])
    {
      var u := us[i];
      assert us[i..][0] == u && us[i..][1..] == us[i + 1..];
      if u.values.Some? {
        var next := FoldValues(cur, u, u.values.value, clock);
        if next.None? {
          return None, rm;
        }
        cur := next.value;
      }
      if u.meta.Some? {
        rm := FoldMetaEntries(rm, u.meta.value);
      }
      i := i + 1;
    }
    assert us[i..] == [];
    r := Some(cur);
  }
}
