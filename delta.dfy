/** The shape of a Signal K delta message as the data browser reads it, the
    record both files build for one value, and the clock-dependent timestamp
    formatting, which the model takes as parameters. */
module Delta {
  import opened Json
  import opened Text

  /** One `{ path, value }` entry of an update's `values` or `meta` list. */
  datatype PathValue = PathValue(path: string, value: Json)

  /** `update.source`: the protocol details of the device that produced the
      update. `None` stands for a missing or falsy field. */
  datatype SourceRef = SourceRef(pgn: Option<string>, sentence: Option<string>)

  /** One element of `msg.updates`. `source` is `update.$source`; a missing
      `$source` is represented by the text `"undefined"`, which is what the
      key templates print for it. `pgn` and `sentence` are the update's own
      top-level fields, `sourceRef` is `update.source`. */
  datatype Update = Update(
    source: string,
    sourceRef: Option<SourceRef>,
    pgn: Option<string>,
    sentence: Option<string>,
    timestamp: string,
    values: Option<seq<PathValue>>,
    meta: Option<seq<PathValue>>)

  /** A delta message. `None` stands for a missing field. */
  datatype Msg = Msg(context: Option<string>, updates: Option<seq<Update>>)

  /** The latest state of one key: the object both files build per value. */
  datatype Record = Record(
    path: string,
    value: Json,
    source: string,
    pgn: Option<string>,
    sentence: Option<string>,
    timestamp: string)

  /** `!msg.context || !msg.updates`: both files ignore such a message. */
  predicate Ignored(msg: Msg) {
    msg.context.None? || msg.context.value == "" || msg.updates.None?
  }

  /** The clock-dependent parts of `moment`: whether a timestamp falls on the
      current day, and rendering a timestamp with a format pattern. */
  datatype Clock = Clock(sameDay: string -> bool, format: (string, string) -> string)

  const TIME_ONLY_FORMAT := "HH:mm:ss"

  /** The pattern for a timestamp that is not of today, in each file. */
  const STORE_TIMESTAMP_FORMAT := "MMM DD HH:mm:ss"
  const BROWSER_TIMESTAMP_FORMAT := "MM/DD HH:mm:ss"

  /** Time only for a timestamp of today, `otherDay` otherwise. */
  function FormatTimestamp(clock: Clock, timestamp: string, otherDay: string): (r: string)
    ensures clock.sameDay(timestamp) ==> r == clock.format(timestamp, TIME_ONLY_FORMAT)
    ensures !clock.sameDay(timestamp) ==> r == clock.format(timestamp, otherDay)
  {
    clock.format(timestamp, if clock.sameDay(timestamp) then TIME_ONLY_FORMAT else otherDay)
  }

  /** The key a value is stored and published under: `path + '$' + $source`. */
  function PathKey(path: string, source: string): string {
    path + "$" + source
  }

  /** Two values with different paths, or with different sources, never share
      a key, as long as sources contain no `$`. */
  lemma PathKeyInjective(p1: string, s1: string, p2: string, s2: string)
    requires '$' !in s1 && '$' !in s2
    requires PathKey(p1, s1) == PathKey(p2, s2)
    ensures p1 == p2 && s1 == s2
  {
    var k := PathKey(p1, s1);
    assert k[|p1|] == '$' && k[|p2|] == '$';
    assert forall i | |p1| < i < |k| :: k[i] == s1[i - |p1| - 1];
    assert forall i | |p2| < i < |k| :: k[i] == s2[i - |p2| - 1];
    assert |p1| == |p2|;
    assert p1 == k[..|p1|] && p2 == k[..|p2|];
    assert s1 == k[|p1| + 1..] && s2 == k[|p2| + 1..];
  }
}
