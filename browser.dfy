/** The data browser component's state and the handlers that change it:
    incoming delta messages, the source selection of the table, the source
    filter switch, the context picker and unmounting. Persisted settings are
    passed to the constructor; writes to persistent storage are not modelled. */
module Browser {
  import opened Json
  import opened Text
  import opened Delta
  import opened Store
  import opened Snapshot
  import opened Table

  /** `m[key] || {}`. */
  function ContextOf<V>(m: map<string, map<string, V>>, key: string): (r: map<string, V>)
    ensures key in m ==> r == m[key]
    ensures key !in m ==> r == map[]
  {
    if key in m then m[key] else map[]
  }

  /** One step of the loop of `getContextOptions`. */
  lemma OptionsStep(data: map<string, ContextData>, contexts: seq<string>, i: int,
                    head: seq<ContextOption>, before: seq<ContextOption>, after: seq<ContextOption>)
    requires 0 <= i < |contexts|
    requires before == head + Labelled(data, Without(contexts[..i], "self"))
    requires after == if contexts[i] != "self" then before + [ContextOption(contexts[i], ContextLabel(data, contexts[i]))] else before
    ensures after == head + Labelled(data, Without(contexts[..i + 1], "self"))
  {
    var done := Without(contexts[..i], "self");
    assert contexts[..i + 1][..i] == contexts[..i];
    if contexts[i] != "self" {
      assert Without(contexts[..i + 1], "self") == done + [contexts[i]];
      LabelledAppend(data, done, [contexts[i]]);
    } else {
      assert Without(contexts[..i + 1], "self") == done + [];
    }
  }

  class DataBrowser {
    /** The shared data store the table cells observe. */
    const store: DataStore
    /** The server's own vessel context, from the websocket handshake. */
    const skSelf: string

    var pause: bool
    var hasData: bool
    /** Per context: key to latest record. */
    var data: map<string, ContextData>
    /** Per context: path to merged metadata. */
    var meta: map<string, ContextMeta>
    var context: string
    var search: string
    var selectedSources: set<string>
    var sourceFilterActive: bool

    /** The initial state; the persisted settings are inputs, and a missing or
        empty stored context selects `'self'`. */
    constructor (store: DataStore, skSelf: string, pause: bool, storedContext: Option<string>,
                 search: string, selectedSources: set<string>, sourceFilterActive: bool)
      ensures this.store == store && this.skSelf == skSelf
      ensures this.pause == pause && !hasData && data == map[] && meta == map[]
      ensures context == if storedContext.Some? && storedContext.value != "" then storedContext.value else "self"
      ensures this.search == search && this.selectedSources == selectedSources
      ensures this.sourceFilterActive == sourceFilterActive
    {
      this.store := store;
      this.skSelf := skSelf;
      this.pause := pause;
      hasData := false;
      data := map[];
      meta := map[];
      context := if storedContext.Some? && storedContext.value != "" then storedContext.value else "self";
      this.search := search;
      this.selectedSources := selectedSources;
      this.sourceFilterActive := sourceFilterActive;
    }

    /** `handleMessage(msg)`. While paused, or for a message without context
        or updates, nothing happens. Otherwise the message is pushed to the
        store, and the records and metadata of the message's context are
        replaced by the folds of its updates over their previous state; every
        other context is left as it was. Where an empty path carries `null`
        or `undefined` the state updater throws; the model then leaves the
        component state as it was, and does not follow the error into
        React's error handling. */
    method HandleMessage(msg: Msg, clock: Clock)
      requires store.Valid()
      modifies this`data, this`meta, this`hasData, store`listeners, store`delivered
      ensures store.Valid()
      ensures pause || Ignored(msg) ==>
                && data == old(data) && meta == old(meta) && hasData == old(hasData)
                && store.listeners == old(store.listeners) && store.delivered == old(store.delivered)
      ensures !pause && !Ignored(msg) ==>
                && store.delivered == old(store.delivered) + Deliveries(old(store.Contents()), PushEmissions(msg, clock))
                && store.Contents() == Touched(old(store.Contents()), PushEmissions(msg, clock))
      ensures !pause && !Ignored(msg) ==>
                var key := BrowserContext(msg.context.value, skSelf);
                var us := msg.updates.value;
                match DataFold(ContextOf(old(data), key), us, clock)
                case Some(records) =>
                  && data == old(data)[key := records]
                  && meta == old(meta)[key := MetaFold(ContextOf(old(meta), key), us)]
                  && hasData
                case None =>
                  data == old(data) && meta == old(meta) && hasData == old(hasData)
    {
      if pause {
        return;
      }
      if msg.context.None? || msg.context.value == "" || msg.updates.None? {
        return;
      }
      store.PushDelta(msg, clock);
      var key := if msg.context.value == skSelf then "self" else msg.context.value;
      ApplyUpdates(key, msg.updates.value, clock);
    }

    /** The `setState` of `handleMessage`: the records and metadata of context
        `key` are replaced by the folds of the updates. Where the updater
        throws it yields no new state, and the model leaves the state as it
        was. */
    method ApplyUpdates(key: string, us: seq<Update>, clock: Clock)
      modifies this`data, this`meta, this`hasData
      ensures match DataFold(ContextOf(old(data), key), us, clock)
              case Some(records) =>
                && data == old(data)[key := records]
                && meta == old(meta)[key := MetaFold(ContextOf(old(meta), key), us)]
                && hasData
              case None =>
                data == old(data) && meta == old(meta) && hasData == old(hasData)
    {
      var records, metadata := FoldMessage(ContextOf(data, key), ContextOf(meta, key), us, clock);
      if records.Some? {
        hasData := true;
        data := data[key := records.value];
        meta := meta[key := metadata];
      }
    }

    /** `toggleSourceSelection(source)`. */
    method ToggleSourceSelection(source: string)
      modifies this`selectedSources, this`sourceFilterActive
      ensures Selection(selectedSources, sourceFilterActive)
                == Toggled(Selection(old(selectedSources), old(sourceFilterActive)), source)
    {
      var newSelectedSources := selectedSources;
      var wasEmpty := |newSelectedSources| == 0;
      if source in newSelectedSources {
        newSelectedSources := newSelectedSources - {source};
      } else {
        newSelectedSources := newSelectedSources + {source};
      }
      var shouldActivateFilter := wasEmpty && |newSelectedSources| == 1;
      var shouldDeactivateFilter := |newSelectedSources| == 0;
      sourceFilterActive :=
        if shouldActivateFilter then true
        else if shouldDeactivateFilter then false
        else sourceFilterActive;
      selectedSources := newSelectedSources;
    }

    /** `toggleSourceFilter(event)`: the filter takes the checkbox's state. */
    method ToggleSourceFilter(checked: bool)
      modifies this`sourceFilterActive
      ensures sourceFilterActive == checked
    {
      sourceFilterActive := checked;
    }

    /** `handleContextChange(option)`: the chosen context, or `'none'` when the
        picker is cleared; the source selection is emptied and the filter
        switched off. */
    method HandleContextChange(option: Option<ContextOption>)
      modifies this`context, this`selectedSources, this`sourceFilterActive
      ensures context == if option.Some? then option.value.value else "none"
      ensures selectedSources == {} && !sourceFilterActive
    {
      context := if option.Some? then option.value.value else "none";
      selectedSources := {};
      sourceFilterActive := false;
    }

    /** `getContextOptions()`, given `Object.keys(this.state.data).sort()`:
        the option for `'self'` if present, then one option per other
        context, in the given order. */
    method GetContextOptions(contexts: seq<string>) returns (options: seq<ContextOption>)
      requires StrictlySorted(contexts)
      requires forall c :: c in contexts <==> c in data
      ensures options == ContextOptions(data)
    {
      options := [];
      if "self" in contexts {
        options := [ContextOption("self", ContextLabel(data, "self"))];
      }
      ghost var head := options;
      assert head == if "self" in contexts then [ContextOption("self", ContextLabel(data, "self"))] else [];
      assert contexts[..0] == [];
      for i := 0 to |contexts|
        invariant options == head + Labelled(data, Without(contexts[..i], "self"))
      {
        ghost var before := options;
        if contexts[i] != "self" {
          options := options + [ContextOption(contexts[i], ContextLabel(data, contexts[i]))];
        }
        OptionsStep(data, contexts, i, head, before, options);
      }
      assert contexts[..|contexts|] == contexts;
      ContextOptionsOfSorted(data, contexts);
    }

    /** `componentWillUnmount()`: the store clears every registered set and
        drops every entry. */
    method ComponentWillUnmount()
      requires store.Valid()
      modifies store`listeners, store.listeners.Values
      ensures store.Valid() && store.Contents() == map[]
      ensures forall ls | ls in old(store.listeners).Values :: ls.members == []
    {
      store.Destroy();
    }
  }
}
