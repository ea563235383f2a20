/**
 Wire ids and registry generations (`src/core/catalog.py`): which id each
 channel gets at an agent start, and which `registry_seq` names that set.

 The SHA-256 over the catalog file and the derived channels is taken as
 injective, so the persisted hash is represented by what it was computed from.
 */
module Catalog {
  import opened Basics
  import opened Wire
  import R = RegistryCache

  datatype ChannelConfig = ChannelConfig(name: string, sourceRef: string, units: string, coding: Coding)

  datatype Derived = Derived(name: string, kind: ValueType, units: string)

  /** What one agent start is configured with; catalog names are distinct keys of one mapping. */
  datatype Setup = Setup(catalog: seq<ChannelConfig>, derived: seq<Derived>)

  const DERIVED_ID_START := 0x8000_0000
  const MAX_SEQ := 0xFFFF_FFFF

  datatype StartError = DuplicateName | DuplicateSource | SeqExhausted

  datatype Outcome<+T> = Started(value: T) | Refused(error: StartError)

  // ----- wire ids ------------------------------------------------------------

  function CatalogChannel(c: ChannelConfig, i: nat): Channel {
    Channel(1 + i, c.name, c.sourceRef, c.units, c.coding)
  }

  function DerivedChannel(d: Derived, i: nat): Channel {
    Channel(DERIVED_ID_START + i, d.name, "derived:" + d.name, d.units, Coding(d.kind, 0.0, 0.0))
  }

  /** The registry's channels in order: catalog entries from id 1, derived ones from 2^31. */
  function ChannelsOf(setup: Setup): (cs: seq<Channel>)
    ensures |cs| == |setup.catalog| + |setup.derived|
  {
    seq(|setup.catalog| + |setup.derived|, i requires 0 <= i < |setup.catalog| + |setup.derived| =>
      if i < |setup.catalog| then CatalogChannel(setup.catalog[i], i)
      else DerivedChannel(setup.derived[i - |setup.catalog|], i - |setup.catalog|))
  }

  ghost predicate DistinctIds(cs: seq<Channel>) {
    forall i, j :: 0 <= i < j < |cs| ==> cs[i].id != cs[j].id
  }

  lemma IdAt(setup: Setup, i: nat)
    requires i < |setup.catalog| + |setup.derived|
    ensures ChannelsOf(setup)[i].id ==
            if i < |setup.catalog| then 1 + i else DERIVED_ID_START + (i - |setup.catalog|)
  {
    var n := |setup.catalog|;
    if i < n {
      assert ChannelsOf(setup)[i] == CatalogChannel(setup.catalog[i], i);
    } else {
      assert ChannelsOf(setup)[i] == DerivedChannel(setup.derived[i - n], i - n);
    }
  }

  /** Ids are distinct exactly while the catalog stays below the derived range. */
  lemma IdsDistinctIffBelowDerivedRange(setup: Setup)
    ensures DistinctIds(ChannelsOf(setup)) <==> setup.derived == [] || |setup.catalog| < DERIVED_ID_START
  {
    var cs, n := ChannelsOf(setup), |setup.catalog|;
    if setup.derived != [] && n >= DERIVED_ID_START {
      IdAt(setup, DERIVED_ID_START - 1);
      IdAt(setup, n);
    } else {
      forall i, j | 0 <= i < j < |cs| ensures cs[i].id != cs[j].id {
        IdAt(setup, i);
        IdAt(setup, j);
      }
    }
  }

  ghost predicate Distinct(s: seq<string>) { forall i, j :: 0 <= i < j < |s| ==> s[i] != s[j] }

  /** The mapping from source reference to wire id that the hot path uses. */
  ghost predicate MapsSources(sourceMap: map<string, nat>, cs: seq<Channel>) {
    && (forall i :: 0 <= i < |cs| ==> cs[i].sourceRef in sourceMap && sourceMap[cs[i].sourceRef] == cs[i].id)
    && (forall ref :: ref in sourceMap ==> exists i :: 0 <= i < |cs| && cs[i].sourceRef == ref)
  }

  function Names(cs: seq<Channel>): (s: seq<string>) { seq(|cs|, i requires 0 <= i < |cs| => cs[i].name) }

  function Sources(cs: seq<Channel>): (s: seq<string>) { seq(|cs|, i requires 0 <= i < |cs| => cs[i].sourceRef) }

  /** Catalog entries have the ids 1, 2, 3, ... in their order, each registered as configured and found by its source. */
  ghost predicate CatalogAsConfigured(setup: Setup, sourceMap: map<string, nat>, cs: seq<Channel>)
    requires |cs| == |setup.catalog| + |setup.derived|
  {
    forall i :: 0 <= i < |setup.catalog| ==>
      var c := setup.catalog[i];
      cs[i] == Channel(i + 1, c.name, c.sourceRef, c.units, c.coding) && c.sourceRef in sourceMap && sourceMap[c.sourceRef] == i + 1
  }

  /** Derived channel `i` has the id 2^31 + `i` and no scale, under a source reference made of its name. */
  ghost predicate DerivedRegistered(setup: Setup, sourceMap: map<string, nat>, cs: seq<Channel>, i: int) {
    0 <= i < |setup.derived| && |cs| == |setup.catalog| + |setup.derived| &&
    var d, c := setup.derived[i], cs[|setup.catalog| + i];
    && c.id == 0x8000_0000 + i && c.name == d.name && c.sourceRef == "derived:" + d.name && c.units == d.units
    && c.coding == Coding(d.kind, 0.0, 0.0)
    && c.sourceRef in sourceMap && sourceMap[c.sourceRef] == c.id
  }

  ghost predicate DerivedAsConfigured(setup: Setup, sourceMap: map<string, nat>, cs: seq<Channel>) {
    forall i :: 0 <= i < |setup.derived| ==> DerivedRegistered(setup, sourceMap, cs, i)
  }

  ghost predicate OnlyConfigured(setup: Setup, sourceMap: map<string, nat>) {
    forall ref :: ref in sourceMap ==>
      (exists i :: 0 <= i < |setup.catalog| && setup.catalog[i].sourceRef == ref) ||
      (exists i :: 0 <= i < |setup.derived| && "derived:" + setup.derived[i].name == ref)
  }

  /** The source map and the registry of a configuration. */
  ghost predicate AsConfigured(setup: Setup, sourceMap: map<string, nat>, cs: seq<Channel>) {
    && |cs| == |setup.catalog| + |setup.derived|
    && CatalogAsConfigured(setup, sourceMap, cs) && DerivedAsConfigured(setup, sourceMap, cs) && OnlyConfigured(setup, sourceMap)
  }

  lemma CatalogMapped(setup: Setup, sourceMap: map<string, nat>)
    requires MapsSources(sourceMap, ChannelsOf(setup))
    ensures CatalogAsConfigured(setup, sourceMap, ChannelsOf(setup))
  {
    var cs := ChannelsOf(setup);
    assert forall i :: 0 <= i < |setup.catalog| ==> cs[i] == CatalogChannel(setup.catalog[i], i);
  }

  lemma DerivedMapped(setup: Setup, sourceMap: map<string, nat>, i: nat)
    requires MapsSources(sourceMap, ChannelsOf(setup)) && i < |setup.derived|
    ensures DerivedRegistered(setup, sourceMap, ChannelsOf(setup), i)
  {
    var k := |setup.catalog| + i;
    assert ChannelsOf(setup)[k] == DerivedChannel(setup.derived[i], i);
    assert ChannelsOf(setup)[k].sourceRef in sourceMap;
  }

  lemma OnlyMapped(setup: Setup, sourceMap: map<string, nat>)
    requires MapsSources(sourceMap, ChannelsOf(setup))
    ensures OnlyConfigured(setup, sourceMap)
  {
    var cs, n := ChannelsOf(setup), |setup.catalog|;
    forall ref | ref in sourceMap
      ensures (exists i :: 0 <= i < n && setup.catalog[i].sourceRef == ref) ||
              (exists i :: 0 <= i < |setup.derived| && "derived:" + setup.derived[i].name == ref)
    {
      var k :| 0 <= k < |cs| && cs[k].sourceRef == ref;
      SourceAtIndex(setup, k);
    }
  }

  lemma SourceAtIndex(setup: Setup, k: nat)
    requires k < |setup.catalog| + |setup.derived|
    ensures ChannelsOf(setup)[k].sourceRef ==
            if k < |setup.catalog| then setup.catalog[k].sourceRef else "derived:" + setup.derived[k - |setup.catalog|].name
  {
    var n := |setup.catalog|;
    if k < n {
      assert ChannelsOf(setup)[k] == CatalogChannel(setup.catalog[k], k);
    } else {
      assert ChannelsOf(setup)[k] == DerivedChannel(setup.derived[k - n], k - n);
    }
  }

  lemma MappedAsConfigured(setup: Setup, sourceMap: map<string, nat>)
    requires MapsSources(sourceMap, ChannelsOf(setup))
    ensures AsConfigured(setup, sourceMap, ChannelsOf(setup))
  {
    CatalogMapped(setup, sourceMap);
    forall i | 0 <= i < |setup.derived| ensures DerivedRegistered(setup, sourceMap, ChannelsOf(setup), i) {
      DerivedMapped(setup, sourceMap, i);
    }
    OnlyMapped(setup, sourceMap);
  }

  /** Everything the two loops have filled in so far. */
  datatype Loading = Loading(sourceMap: map<string, nat>, names: set<string>, channels: seq<Channel>)

  /** The loop over the catalog: refuses a repeated source reference. */
  method LoadCatalog(setup: Setup) returns (r: Outcome<Loading>)
    requires Distinct(Names(ChannelsOf(setup))[..|setup.catalog|])
    ensures r.Refused? ==> !Distinct(Sources(ChannelsOf(setup)))
    ensures r.Started? ==> Loaded(ChannelsOf(setup), |setup.catalog|, r.value.sourceMap, r.value.names, r.value.channels)
  {
    ghost var all := ChannelsOf(setup);
    var l := Loading(map[], {}, []);
    for i := 0 to |setup.catalog|
      invariant Loaded(all, i, l.sourceMap, l.names, l.channels)
    {
      var c := CatalogChannel(setup.catalog[i], i);
      assert all[i] == c;
      if c.sourceRef in l.sourceMap {
        RepeatedSource(all, i, l.sourceMap, l.names, l.channels);
        return Refused(DuplicateSource);
      }
      CatalogNameIsNew(all, |setup.catalog|, i, l.sourceMap, l.names, l.channels);
      LoadOne(all, i, l.sourceMap, l.names, l.channels);
      l := Loading(l.sourceMap[c.sourceRef := c.id], l.names + {c.name}, l.channels + [c]);
    }
    r := Started(l);
  }

  /**
   `build_runtime_catalog`: refuses a repeated source reference or a derived
   name already used, otherwise returns the source map and the registry's
   channels.
   */
  method BuildChannels(setup: Setup) returns (r: Outcome<Loading>)
    requires Distinct(Names(ChannelsOf(setup))[..|setup.catalog|])
    ensures r.Started? <==> Distinct(Names(ChannelsOf(setup))) && Distinct(Sources(ChannelsOf(setup)))
    ensures r.Started? ==> r.value.channels == ChannelsOf(setup) && AsConfigured(setup, r.value.sourceMap, r.value.channels)
  {
    ghost var all := ChannelsOf(setup);
    r := LoadCatalog(setup);
    if r.Refused? {
      return;
    }
    var l := r.value;
    for i := 0 to |setup.derived|
      invariant Loaded(all, |setup.catalog| + i, l.sourceMap, l.names, l.channels)
    {
      var c := DerivedChannel(setup.derived[i], i);
      assert all[|setup.catalog| + i] == c;
      if c.name in l.names {
        RepeatedName(all, |setup.catalog| + i, l.sourceMap, l.names, l.channels);
        return Refused(DuplicateName);
      }
      if c.sourceRef in l.sourceMap {
        RepeatedSource(all, |setup.catalog| + i, l.sourceMap, l.names, l.channels);
        return Refused(DuplicateSource);
      }
      LoadOne(all, |setup.catalog| + i, l.sourceMap, l.names, l.channels);
      l := Loading(l.sourceMap[c.sourceRef := c.id], l.names + {c.name}, l.channels + [c]);
    }
    AllLoaded(setup, l);
    r := Started(l);
  }

  lemma AllLoaded(setup: Setup, l: Loading)
    requires Loaded(ChannelsOf(setup), |ChannelsOf(setup)|, l.sourceMap, l.names, l.channels)
    ensures Distinct(Names(ChannelsOf(setup))) && Distinct(Sources(ChannelsOf(setup)))
    ensures l.channels == ChannelsOf(setup) && AsConfigured(setup, l.sourceMap, l.channels)
  {
    assert ChannelsOf(setup)[..|ChannelsOf(setup)|] == ChannelsOf(setup);
    MappedAsConfigured(setup, l.sourceMap);
  }

  /** The first `n` channels are in: all names and sources distinct, and all mapped. */
  ghost predicate Loaded(all: seq<Channel>, n: nat, sourceMap: map<string, nat>, names: set<string>, channels: seq<Channel>) {
    && n <= |all| && channels == all[..n]
    && Distinct(Names(channels)) && Distinct(Sources(channels))
    && (forall name :: name in names <==> exists i :: 0 <= i < n && all[i].name == name)
    && MapsSources(sourceMap, channels)
  }

  lemma RepeatedSource(all: seq<Channel>, n: nat, sourceMap: map<string, nat>, names: set<string>, channels: seq<Channel>)
    requires Loaded(all, n, sourceMap, names, channels) && n < |all| && all[n].sourceRef in sourceMap
    ensures !Distinct(Sources(all))
  {
    var i :| 0 <= i < |channels| && channels[i].sourceRef == all[n].sourceRef;
    assert Sources(all)[i] == Sources(all)[n];
  }

  lemma RepeatedName(all: seq<Channel>, n: nat, sourceMap: map<string, nat>, names: set<string>, channels: seq<Channel>)
    requires Loaded(all, n, sourceMap, names, channels) && n < |all| && all[n].name in names
    ensures !Distinct(Names(all))
  {
    var i :| 0 <= i < n && all[i].name == all[n].name;
    assert Names(all)[i] == Names(all)[n];
  }

  lemma CatalogNameIsNew(all: seq<Channel>, k: nat, n: nat, sourceMap: map<string, nat>, used: set<string>, channels: seq<Channel>)
    requires Loaded(all, n, sourceMap, used, channels) && n < k <= |all| && Distinct(Names(all)[..k])
    ensures all[n].name !in used
  {
    var names := Names(all)[..k];
    forall i | 0 <= i < n ensures all[i].name != all[n].name {
      assert names[i] != names[n];
    }
  }

  lemma LoadOne(all: seq<Channel>, n: nat, sourceMap: map<string, nat>, names: set<string>, channels: seq<Channel>)
    requires Loaded(all, n, sourceMap, names, channels) && n < |all|
    requires all[n].name !in names && all[n].sourceRef !in sourceMap
    ensures Loaded(all, n + 1, sourceMap[all[n].sourceRef := all[n].id], names + {all[n].name}, channels + [all[n]])
  {
    var more, sources, named := channels + [all[n]], sourceMap[all[n].sourceRef := all[n].id], names + {all[n].name};
    assert more == all[..n + 1];
    assert Names(more) == Names(channels) + [all[n].name];
    assert Sources(more) == Sources(channels) + [all[n].sourceRef];
    forall i | 0 <= i < n ensures Names(channels)[i] != all[n].name && Sources(channels)[i] != all[n].sourceRef {
      assert channels[i] == all[i];
    }
    forall ref | ref in sources ensures exists i :: 0 <= i < |more| && more[i].sourceRef == ref {
      if ref == all[n].sourceRef {
        assert more[n].sourceRef == ref;
      } else {
        var i :| 0 <= i < |channels| && channels[i].sourceRef == ref;
        assert more[i].sourceRef == ref;
      }
    }
    forall name ensures name in named <==> exists i :: 0 <= i < n + 1 && all[i].name == name {
      if name == all[n].name {
        assert all[n].name == name;
      }
    }
  }

  // ----- generations ---------------------------------------------------------

  /** The persisted record, if any. */
  datatype Persisted = Persisted(content: Setup, registrySeq: int)

  /** `_update_registry_state_locked`: keep the generation for an unchanged set, else take the next one. */
  function Generation(state: Option<Persisted>, content: Setup): Outcome<int> {
    var next := if state == None then 1
                else if state.value.content == content then state.value.registrySeq
                else state.value.registrySeq + 1;
    if 1 <= next <= MAX_SEQ then Started(next) else Refused(SeqExhausted)
  }

  /** The record left behind; a refused start leaves it alone. */
  function StateAfter(state: Option<Persisted>, content: Setup): Option<Persisted> {
    match Generation(state, content)
    case Started(n) => Some(Persisted(content, n))
    case Refused(_) => state
  }

  function RunState(state: Option<Persisted>, starts: seq<Setup>): (s: Option<Persisted>)
  {
    if |starts| == 0 then state
    else StateAfter(RunState(state, starts[..|starts| - 1]), starts[|starts| - 1])
  }

  /** The generation start `k` of a sequence of starts comes up with. */
  function GenerationAt(state: Option<Persisted>, starts: seq<Setup>, k: nat): Outcome<int>
    requires k < |starts|
  {
    Generation(RunState(state, starts[..k]), starts[k])
  }

  /** The record never goes back, and while its number stays its content stays. */
  lemma {:induction false} StateOnlyAdvances(state: Option<Persisted>, starts: seq<Setup>, i: nat, j: nat)
    requires i <= j <= |starts| && RunState(state, starts[..i]).Some?
    ensures var a, b := RunState(state, starts[..i]), RunState(state, starts[..j]);
            && b.Some? && a.value.registrySeq <= b.value.registrySeq
            && (a.value.registrySeq == b.value.registrySeq ==> a == b)
    decreases j
  {
    if i < j {
      StateOnlyAdvances(state, starts, i, j - 1);
      assert starts[..j][..j - 1] == starts[..j - 1];
    }
  }

  /**
   Over any sequence of agent starts on one persisted record, generations never
   decrease and no `registry_seq` ever names two channel sets.
   */
  lemma SeqNamesOneSet(state: Option<Persisted>, starts: seq<Setup>, i: nat, j: nat)
    requires i < j < |starts| && GenerationAt(state, starts, i).Started? && GenerationAt(state, starts, j).Started?
    ensures GenerationAt(state, starts, i).value <= GenerationAt(state, starts, j).value
    ensures GenerationAt(state, starts, i) == GenerationAt(state, starts, j) ==> starts[i] == starts[j]
  {
    assert starts[..i + 1][..i] == starts[..i];
    assert starts[..j + 1][..j] == starts[..j];
    assert RunState(state, starts[..i + 1]) == Some(Persisted(starts[i], GenerationAt(state, starts, i).value));
    assert RunState(state, starts[..j + 1]) == Some(Persisted(starts[j], GenerationAt(state, starts, j).value));
    StateOnlyAdvances(state, starts, i + 1, j + 1);
  }

  /** How often the channel set changed from one start to the next, up to start `k`. */
  function Changes(starts: seq<Setup>, k: nat): (n: nat)
    requires k < |starts|
  {
    if k == 0 then 0 else Changes(starts, k - 1) + if starts[k] == starts[k - 1] then 0 else 1
  }

  lemma {:induction false} RecordCountsChanges(starts: seq<Setup>, k: nat)
    requires k < |starts| && 1 + Changes(starts, k) <= MAX_SEQ
    ensures RunState(None, starts[..k + 1]) == Some(Persisted(starts[k], 1 + Changes(starts, k)))
    ensures GenerationAt(None, starts, k) == Started(1 + Changes(starts, k))
  {
    assert starts[..k + 1][..k] == starts[..k];
    if k > 0 {
      RecordCountsChanges(starts, k - 1);
    }
  }

  /**
   From no record, every start whose number still fits comes up, and its
   generation is one more than the changes of the channel set so far: it moves on
   at every change and at nothing else.
   */
  lemma GenerationCountsChanges(starts: seq<Setup>, k: nat)
    requires k < |starts| && 1 + Changes(starts, k) <= MAX_SEQ
    ensures GenerationAt(None, starts, k) == Started(1 + Changes(starts, k))
  {
    RecordCountsChanges(starts, k);
  }

  /** Start `i` came up with generation `n`. */
  ghost predicate CameUpAs(starts: seq<Setup>, i: int, n: int) {
    0 <= i < |starts| && GenerationAt(None, starts, i) == Started(n)
  }

  /** The record is that of some earlier start, its number in range. */
  lemma {:induction false} RecordIsOfAStart(starts: seq<Setup>, k: nat)
    requires 0 < k <= |starts|
    ensures var record := RunState(None, starts[..k]);
            && record.Some? && 1 <= record.value.registrySeq <= MAX_SEQ
            && exists i :: 0 <= i < k && CameUpAs(starts, i, record.value.registrySeq) && starts[i] == record.value.content
  {
    assert starts[..k][..k - 1] == starts[..k - 1];
    if GenerationAt(None, starts, k - 1).Started? {
      assert CameUpAs(starts, k - 1, GenerationAt(None, starts, k - 1).value);
    } else {
      RecordIsOfAStart(starts, k - 1);
    }
  }

  lemma LastGenerationStays(starts: seq<Setup>, i: nat, k: nat)
    requires i < k <= |starts| && CameUpAs(starts, i, MAX_SEQ)
    ensures RunState(None, starts[..k]) == Some(Persisted(starts[i], MAX_SEQ))
  {
    assert starts[..i + 1][..i] == starts[..i];
    StateOnlyAdvances(None, starts, i + 1, k);
    RecordIsOfAStart(starts, k);
  }

  /** A start is refused exactly when an earlier one used the last generation for another set. */
  lemma RefusedIffExhausted(starts: seq<Setup>, k: nat)
    requires k < |starts|
    ensures GenerationAt(None, starts, k) == Refused(SeqExhausted) <==>
            exists i :: 0 <= i < k && CameUpAs(starts, i, MAX_SEQ) && starts[i] != starts[k]
  {
    if GenerationAt(None, starts, k).Refused? {
      RecordIsOfAStart(starts, k);
    }
    if i :| 0 <= i < k && CameUpAs(starts, i, MAX_SEQ) && starts[i] != starts[k] {
      LastGenerationStays(starts, i, k);
    }
  }

  /** The persisted record as an object. */
  class RegistryState {
    var state: Option<Persisted>

    constructor ()
      ensures state == None
    {
      state := None;
    }

    /** `_update_registry_state_locked`: writes only when the set changed. */
    method Update(content: Setup) returns (r: Outcome<int>)
      modifies this
      ensures r == Generation(old(state), content) && state == StateAfter(old(state), content)
    {
      var previousSeq := 0;
      var sameSet := false;
      if state.Some? {
        previousSeq := state.value.registrySeq;
        sameSet := state.value.content == content;
      }
      var registrySeq := if sameSet then previousSeq else previousSeq + 1;
      if !(1 <= registrySeq <= MAX_SEQ) {
        return Refused(SeqExhausted);
      }
      if !sameSet {
        state := Some(Persisted(content, registrySeq));
      }
      return Started(registrySeq);
    }
  }

  // ----- decoding across starts ----------------------------------------------

  /** The registry start `k` publishes. */
  function RegistryAt(state: Option<Persisted>, starts: seq<Setup>, k: nat): ChannelRegistry
    requires k < |starts| && GenerationAt(state, starts, k).Started? && GenerationAt(state, starts, k).value >= 0
  {
    ChannelRegistry(GenerationAt(state, starts, k).value, ChannelsOf(starts[k]))
  }

  /** A consumer that has received the registries of the starts listed in `heard`, in that order, with repeats. */
  function Heard(state: Option<Persisted>, starts: seq<Setup>, heard: seq<nat>): (g: R.Generations)
    requires forall k :: 0 <= k < |heard| ==> heard[k] < |starts| && GenerationAt(state, starts, heard[k]).Started?
  {
    if |heard| == 0 then map[]
    else R.Added(Heard(state, starts, heard[..|heard| - 1]), RegistryAt(state, starts, heard[|heard| - 1]))
  }

  /**
   Whatever registries a consumer has heard, in whatever order: if it holds a
   generation under the number start `k` encoded with, it holds start `k`'s own
   channels, so every wire id of that start resolves to the channel it was
   encoded for.
   */
  lemma {:induction false} IdsResolveAsEncoded(state: Option<Persisted>, starts: seq<Setup>, heard: seq<nat>, k: nat, c: nat)
    requires forall i :: 0 <= i < |heard| ==> heard[i] < |starts| && GenerationAt(state, starts, heard[i]).Started?
    requires k < |starts| && GenerationAt(state, starts, k).Started? && c < |ChannelsOf(starts[k])|
    requires starts[k].derived == [] || |starts[k].catalog| < DERIVED_ID_START
    requires GenerationAt(state, starts, k).value in Heard(state, starts, heard)
    ensures var channels := Heard(state, starts, heard)[GenerationAt(state, starts, k).value];
            var channel := ChannelsOf(starts[k])[c];
            channel.id in channels && channels[channel.id] == channel
  {
    var last := heard[|heard| - 1];
    if GenerationAt(state, starts, last) == GenerationAt(state, starts, k) {
      if last < k {
        SeqNamesOneSet(state, starts, last, k);
      } else if k < last {
        SeqNamesOneSet(state, starts, k, last);
      }
      IdsDistinctIffBelowDerivedRange(starts[k]);
      R.ChannelFound(ChannelsOf(starts[k]), c);
    } else {
      IdsResolveAsEncoded(state, starts, heard[..|heard| - 1], k, c);
    }
  }
}
