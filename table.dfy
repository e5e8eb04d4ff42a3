/** The views the data browser computes from its snapshot: the keys the data
    table shows, the path list of the metadata table, the context picker's
    options and labels, and the source-selection rule of the table's source
    column. */
module Table {
  import opened Json
  import opened Text
  import opened Delta
  import opened Snapshot

  // ---------------------------------------------------------------------------
  // The data table

  /** The search condition: an empty search matches every key, otherwise the
      lower-cased key must contain the lower-cased search. It is tested on the
      whole key, source suffix included. */
  predicate SearchMatches(key: string, search: string) {
    search == "" || IndexOf(Lower(key), Lower(search)) != -1
  }

  /** The source condition: only while the filter is active and some source
      is selected must the record's source be one of the selected ones. */
  predicate SourceAllowed(rec: Record, selected: set<string>, filterActive: bool) {
    filterActive && |selected| > 0 ==> rec.source in selected
  }

  /** The keys of the context's records that the table shows, in ascending
      order: exactly those passing both conditions, each once. */
  ghost function FilteredSortedKeys(data: ContextData, search: string, selected: set<string>, filterActive: bool)
    : (r: seq<string>)
    ensures StrictlySorted(r) && NoRepeats(r)
    ensures forall k :: k in r <==>
              k in data && SearchMatches(k, search) && SourceAllowed(data[k], selected, filterActive)
  {
    var r := SortedSet(set k | k in data && SearchMatches(k, search) && SourceAllowed(data[k], selected, filterActive));
    StrictlySortedNoRepeats(r);
    r
  }

  /** The table's key list is the only ascending list of the shown keys. */
  lemma FilteredSortedKeysUnique(data: ContextData, search: string, selected: set<string>, filterActive: bool,
                                 keys: seq<string>)
    requires StrictlySorted(keys)
    requires forall k :: k in keys <==>
               k in data && SearchMatches(k, search) && SourceAllowed(data[k], selected, filterActive)
    ensures keys == FilteredSortedKeys(data, search, selected, filterActive)
  {
    SortedUnique(keys, FilteredSortedKeys(data, search, selected, filterActive));
  }

  /** The search finds a record's key by its path and by its source alike. */
  lemma SearchMatchesPathAndSource(path: string, source: string)
    ensures SearchMatches(PathKey(path, source), path)
    ensures SearchMatches(PathKey(path, source), source)
  {
    var key := PathKey(path, source);
    assert key[0..|path|] == path;
    LowerKeepsOccurrence(key, path, 0);
    assert key[|path| + 1..|path| + 1 + |source|] == source;
    LowerKeepsOccurrence(key, source, |path| + 1);
  }

  /** With the source filter off, or nothing selected, the table shows every
      key the search matches, whatever the records' sources. */
  lemma NoSourceFilterShowsAllMatches(data: ContextData, search: string, selected: set<string>, filterActive: bool)
    requires !filterActive || selected == {}
    ensures FilteredSortedKeys(data, search, selected, filterActive) == FilteredSortedKeys(data, search, {}, false)
  {
    SortedUnique(FilteredSortedKeys(data, search, selected, filterActive), FilteredSortedKeys(data, search, {}, false));
  }

  // ---------------------------------------------------------------------------
  // The metadata table

  /** The paths the metadata table lists: the distinct paths of the records
      whose key the search matches, in ascending order. */
  ghost function MetaPaths(data: ContextData, search: string): (r: seq<string>)
    ensures StrictlySorted(r) && NoRepeats(r)
    ensures forall k | k in data && SearchMatches(k, search) :: data[k].path in r
    ensures forall i | 0 <= i < |r| :: exists k | k in data && SearchMatches(k, search) :: data[k].path == r[i]
  {
    var paths := set k | k in data && SearchMatches(k, search) :: data[k].path;
    var r := SortedSet(paths);
    StrictlySortedNoRepeats(r);
    assert forall i | 0 <= i < |r| :: r[i] in paths;
    r
  }

  // ---------------------------------------------------------------------------
  // The context picker

  /** `data[ctx]?.name?.value`: the value of the record stored under the bare
      key `name`, which an empty-path value with a `name` field creates. */
  function ContextName(data: map<string, ContextData>, ctx: string): (r: Option<Json>)
    ensures r.Some? <==> ctx in data && "name" in data[ctx]
    ensures r.Some? ==> r.value == data[ctx]["name"].value
  {
    if ctx in data && "name" in data[ctx] then Some(data[ctx]["name"].value) else None
  }

  /** `${contextName || ''} ${ctx}`. */
  function ContextLabel(data: map<string, ContextData>, ctx: string): string {
    var name := ContextName(data, ctx);
    (if name.Some? && Truthy(name.value) then ToText(name.value) else "") + " " + ctx
  }

  /** A context's label ends in a space and the context key, preceded by the
      text of the context's name when that is truthy, and by nothing
      otherwise. */
  lemma ContextLabelParts(data: map<string, ContextData>, ctx: string)
    ensures var r := ContextLabel(data, ctx);
            && |r| > |ctx| && r[|r| - |ctx| - 1..] == " " + ctx
            && var name := ContextName(data, ctx);
               if name.Some? && Truthy(name.value) then r[..|r| - |ctx| - 1] == ToText(name.value)
               else r == " " + ctx
  {
  }

  /** One entry of the context picker. */
  datatype ContextOption = ContextOption(value: string, caption: string)

  /** The elements of `s` other than `x`, in order. */
  function Without(s: seq<string>, x: string): (r: seq<string>)
    ensures forall y :: y in r <==> y in s && y != x
    ensures StrictlySorted(s) ==> StrictlySorted(r)
    decreases |s|
  {
    if s == [] then []
    else
      var last := s[|s| - 1];
      var front := Without(s[..|s| - 1], x);
      assert StrictlySorted(s) ==> forall j | 0 <= j < |front| :: front[j] in s[..|s| - 1] && LexLess(front[j], last);
      front + (if last == x then [] else [last])
  }

  /** Each context with its label. */
  function Labelled(data: map<string, ContextData>, contexts: seq<string>): (r: seq<ContextOption>)
    ensures |r| == |contexts|
    ensures forall i | 0 <= i < |r| :: r[i] == ContextOption(contexts[i], ContextLabel(data, contexts[i]))
  {
    seq(|contexts|, i requires 0 <= i < |contexts| => ContextOption(contexts[i], ContextLabel(data, contexts[i])))
  }

  lemma LabelledAppend(data: map<string, ContextData>, a: seq<string>, b: seq<string>)
    ensures Labelled(data, a + b) == Labelled(data, a) + Labelled(data, b)
  {
  }

  /** The options of the contexts listed in ascending order by `contexts`:
      `'self'` first, then the others in that order. */
  lemma ContextOptionsOfSorted(data: map<string, ContextData>, contexts: seq<string>)
    requires StrictlySorted(contexts)
    requires forall c :: c in contexts <==> c in data
    ensures ContextOptions(data) ==
              (if "self" in contexts then [ContextOption("self", ContextLabel(data, "self"))] else [])
              + Labelled(data, Without(contexts, "self"))
  {
    var sorted := SortedSet(data.Keys);
    SortedUnique(contexts, sorted);
    var head: seq<string> := if "self" in contexts then ["self"] else [];
    assert ContextOptions(data) == Labelled(data, head + Without(contexts, "self"));
    LabelledAppend(data, head, Without(contexts, "self"));
    assert Labelled(data, head) == if "self" in contexts then [ContextOption("self", ContextLabel(data, "self"))] else [];
  }

  function Values(options: seq<ContextOption>): (r: seq<string>)
    ensures |r| == |options|
    ensures forall i | 0 <= i < |r| :: r[i] == options[i].value
  {
    seq(|options|, i requires 0 <= i < |options| => options[i].value)
  }

  /** `getContextOptions()`: `'self'` first when there is such a context, then
      every other context once, in ascending order, each with its label. */
  ghost function ContextOptions(data: map<string, ContextData>): (r: seq<ContextOption>)
    ensures forall c :: c in Values(r) <==> c in data
    ensures NoRepeats(Values(r))
    ensures "self" in data ==> r[0].value == "self" && StrictlySorted(Values(r)[1..])
    ensures "self" !in data ==> StrictlySorted(Values(r))
    ensures forall i | 0 <= i < |r| :: r[i].caption == ContextLabel(data, r[i].value)
  {
    var contexts := SortedSet(data.Keys);
    var others := Without(contexts, "self");
    var ordered := (if "self" in contexts then ["self"] else []) + others;
    var r := Labelled(data, ordered);
    assert Values(r) == ordered;
    StrictlySortedNoRepeats(others);
    assert "self" in data ==> Values(r)[1..] == others;
    r
  }

  /** `getCurrentContextValue()`: the option of the chosen context, if the
      snapshot has that context. */
  ghost function CurrentContextOption(data: map<string, ContextData>, context: string): (r: Option<ContextOption>)
    ensures r.Some? <==> context in data
    ensures r.Some? ==> r.value == ContextOption(context, ContextLabel(data, context))
  {
    var options := ContextOptions(data);
    if context in Values(options) then
      var i :| 0 <= i < |options| && options[i].value == context;
      Some(options[i])
    else None
  }

  // ---------------------------------------------------------------------------
  // The source selection

  /** The selected sources and whether the source filter is on. */
  datatype Selection = Selection(sources: set<string>, filterActive: bool)

  /** `toggleSourceSelection(s)`: `s` changes membership, nothing else does;
      the filter switches on when the first source is selected, off when the
      last one is deselected, and otherwise keeps its state. */
  function Toggled(sel: Selection, s: string): (r: Selection)
    ensures r.sources == if s in sel.sources then sel.sources - {s} else sel.sources + {s}
    ensures sel.sources == {} ==> r.filterActive
    ensures r.sources == {} ==> !r.filterActive
    ensures sel.sources != {} && r.sources != {} ==> r.filterActive == sel.filterActive
  {
    var sources := if s in sel.sources then sel.sources - {s} else sel.sources + {s};
    var activate := |sel.sources| == 0 && |sources| == 1;
    var deactivate := |sources| == 0;
    Selection(sources, if activate then true else if deactivate then false else sel.filterActive)
  }

  /** Toggling a source twice restores the selection. The filter state is
      restored too, except that an empty selection comes back with the
      filter off and a selection of just that source with the filter on. */
  lemma ToggleTwice(sel: Selection, s: string)
    ensures Toggled(Toggled(sel, s), s).sources == sel.sources
    ensures Toggled(Toggled(sel, s), s).filterActive ==
              if sel.sources == {} then false
              else if sel.sources == {s} then true
              else sel.filterActive
  {
    var once := Toggled(sel, s);
    if s in sel.sources {
      assert once.sources + {s} == sel.sources;
      if sel.sources != {s} {
        assert exists y :: y in sel.sources && y != s;
        var y :| y in sel.sources && y != s;
        assert y in once.sources;
      }
    } else {
      assert s in once.sources;
      assert once.sources - {s} == sel.sources;
    }
  }
}
