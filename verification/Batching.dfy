/**
 What one pipeline flush does, as functions (`src/agent/pipeline.py`, `flush`,
 with `src/core/batcher.py`): sort by capture stamp, cut into tick windows,
 group each window by source class, encode.
 */
module Batching {
  import opened Basics
  import opened Wire
  import opened Rbe

  /** One staged sample. */
  datatype Entry = Entry(source: string, channel: nat, sample: Sample)

  datatype Config = Config(registrySeq: nat, codings: map<nat, Coding>, tickMs: int) {
    function TickNs(): int { tickMs * 1_000_000 }

    /** What the batcher's constructor and the configuration accept. */
    ghost predicate Valid() {
      10 <= tickMs <= 50 && forall id :: id in codings ==> codings[id].Configured()
    }

    ghost predicate Knows(s: seq<Entry>) { forall k :: 0 <= k < |s| ==> s[k].channel in codings }
  }

  // ----- stable sort ---------------------------------------------------------

  /** Place `x` behind every entry that is not later than it. */
  function Insert(s: seq<Entry>, x: Entry): (r: seq<Entry>)
  {
    if |s| == 0 || s[|s| - 1].sample.t <= x.sample.t then s + [x]
    else Insert(s[..|s| - 1], x) + [s[|s| - 1]]
  }

  function Sort(s: seq<Entry>): (r: seq<Entry>)
  {
    if |s| == 0 then [] else Insert(Sort(s[..|s| - 1]), s[|s| - 1])
  }

  ghost predicate Ordered(s: seq<Entry>) {
    forall i, j :: 0 <= i < j < |s| ==> s[i].sample.t <= s[j].sample.t
  }

  /** The entries stamped `t`, in order. */
  function At(s: seq<Entry>, t: int): (r: seq<Entry>)
  {
    if |s| == 0 then []
    else At(s[..|s| - 1], t) + (if s[|s| - 1].sample.t == t then [s[|s| - 1]] else [])
  }

  lemma AtSnoc(s: seq<Entry>, x: Entry, t: int)
    ensures At(s + [x], t) == At(s, t) + (if x.sample.t == t then [x] else [])
  {
    assert (s + [x])[..|s|] == s;
  }

  lemma {:induction false} InsertIsStable(s: seq<Entry>, x: Entry, t: int)
    ensures At(Insert(s, x), t) == At(s, t) + (if x.sample.t == t then [x] else [])
  {
    if |s| == 0 || s[|s| - 1].sample.t <= x.sample.t {
      AtSnoc(s, x, t);
    } else {
      // x goes in front of a strictly later entry, so at most one of the two is stamped t
      InsertIsStable(s[..|s| - 1], x, t);
      AtSnoc(Insert(s[..|s| - 1], x), s[|s| - 1], t);
    }
  }

  ghost predicate NoLater(s: seq<Entry>, t: int) { forall k :: 0 <= k < |s| ==> s[k].sample.t <= t }

  lemma {:induction false} InsertNoLater(s: seq<Entry>, x: Entry, t: int)
    requires NoLater(s, t) && x.sample.t <= t
    ensures NoLater(Insert(s, x), t)
  {
    if |s| != 0 && s[|s| - 1].sample.t > x.sample.t {
      InsertNoLater(s[..|s| - 1], x, t);
    }
  }

  lemma {:induction false} InsertOrders(s: seq<Entry>, x: Entry)
    requires Ordered(s)
    ensures Ordered(Insert(s, x))
  {
    if |s| != 0 && s[|s| - 1].sample.t > x.sample.t {
      InsertOrders(s[..|s| - 1], x);
      InsertNoLater(s[..|s| - 1], x, s[|s| - 1].sample.t);
    }
  }

  lemma {:induction false} InsertKeepsAll(s: seq<Entry>, x: Entry)
    ensures multiset(Insert(s, x)) == multiset(s) + multiset{x} && |Insert(s, x)| == |s| + 1
  {
    if |s| != 0 && s[|s| - 1].sample.t > x.sample.t {
      InsertKeepsAll(s[..|s| - 1], x);
      assert s == s[..|s| - 1] + [s[|s| - 1]];
    }
  }

  /** Sorted by stamp, and nothing added or lost. */
  lemma {:induction false} SortOrders(s: seq<Entry>)
    ensures Ordered(Sort(s)) && multiset(Sort(s)) == multiset(s) && |Sort(s)| == |s|
  {
    if |s| > 0 {
      SortOrders(s[..|s| - 1]);
      InsertOrders(Sort(s[..|s| - 1]), s[|s| - 1]);
      InsertKeepsAll(Sort(s[..|s| - 1]), s[|s| - 1]);
      assert s == s[..|s| - 1] + [s[|s| - 1]];
    }
  }

  /** Entries with equal stamps keep the order they were staged in. */
  lemma {:induction false} SortIsStable(s: seq<Entry>, t: int)
    ensures At(Sort(s), t) == At(s, t)
  {
    if |s| > 0 {
      SortIsStable(s[..|s| - 1], t);
      InsertIsStable(Sort(s[..|s| - 1]), s[|s| - 1], t);
    }
  }

  // ----- tick windows --------------------------------------------------------

  /** The end of the window opened at stamp `epoch`: the first entry a whole tick later. */
  function WindowEnd(s: seq<Entry>, i: nat, epoch: int, tickNs: int): (j: nat)
    requires i <= |s|
    ensures i <= j <= |s|
    ensures forall k :: i <= k < j ==> s[k].sample.t - epoch < tickNs
    ensures j < |s| ==> s[j].sample.t - epoch >= tickNs
    decreases |s| - i
  {
    if i < |s| && s[i].sample.t - epoch < tickNs then WindowEnd(s, i + 1, epoch, tickNs) else i
  }

  /** The tick windows of `s` from position `i` on. */
  function Windows(s: seq<Entry>, i: nat, tickNs: int): (ws: seq<seq<Entry>>)
    requires i <= |s| && tickNs > 0
    decreases |s| - i
  {
    if i == |s| then []
    else
      var j := WindowEnd(s, i + 1, s[i].sample.t, tickNs);
      [s[i..j]] + Windows(s, j, tickNs)
  }

  function Flatten(ws: seq<seq<Entry>>): (s: seq<Entry>)
  {
    if |ws| == 0 then [] else ws[0] + Flatten(ws[1..])
  }

  /** The windows cut the sequence up and leave nothing out. */
  lemma {:induction false} WindowsPartition(s: seq<Entry>, i: nat, tickNs: int)
    requires i <= |s| && tickNs > 0
    ensures Flatten(Windows(s, i, tickNs)) == s[i..]
    decreases |s| - i
  {
    if i < |s| {
      var j := WindowEnd(s, i + 1, s[i].sample.t, tickNs);
      WindowsPartition(s, j, tickNs);
      assert ([s[i..j]] + Windows(s, j, tickNs))[1..] == Windows(s, j, tickNs);
    }
  }

  /** A window as the batcher wants it: not empty, ordered, and less than a tick long. */
  ghost predicate WellCut(w: seq<Entry>, tickNs: int) {
    && |w| > 0 && Ordered(w)
    && forall k :: 0 <= k < |w| ==> 0 <= w[k].sample.t - w[0].sample.t < tickNs
  }

  /** Every window is well cut, and each opens at least a tick after the one before. */
  ghost predicate AllWellCut(ws: seq<seq<Entry>>, tickNs: int) {
    && (forall k :: 0 <= k < |ws| ==> WellCut(ws[k], tickNs))
    && (forall k, l :: 0 <= k < l < |ws| ==> ws[l][0].sample.t - ws[k][0].sample.t >= tickNs)
  }

  lemma {:induction false} WindowsWellCut(s: seq<Entry>, i: nat, tickNs: int)
    requires i <= |s| && tickNs > 0 && Ordered(s)
    ensures AllWellCut(Windows(s, i, tickNs), tickNs)
    ensures forall k :: 0 <= k < |Windows(s, i, tickNs)| ==> Windows(s, i, tickNs)[k][0].sample.t >= s[i].sample.t
    decreases |s| - i
  {
    if i < |s| {
      var j := WindowEnd(s, i + 1, s[i].sample.t, tickNs);
      WindowsWellCut(s, j, tickNs);
      var w := s[i..j];
      assert WellCut(w, tickNs) by {
        assert forall k :: 0 <= k < |w| ==> w[k] == s[i + k];
      }
    }
  }

  // ----- grouping by source class --------------------------------------------

  /** One key of the batcher's insertion-ordered `_pending` dictionary. */
  datatype Group = Group(source: string, entries: seq<Entry>)

  function AddTo(gs: seq<Group>, x: Entry): (r: seq<Group>)
  {
    if |gs| == 0 then [Group(x.source, [x])]
    else if gs[0].source == x.source then [Group(x.source, gs[0].entries + [x])] + gs[1..]
    else [gs[0]] + AddTo(gs[1..], x)
  }

  function GroupAll(w: seq<Entry>): (gs: seq<Group>)
  {
    if |w| == 0 then [] else AddTo(GroupAll(w[..|w| - 1]), w[|w| - 1])
  }

  /** The entries of one source class, in order. */
  function OfSource(w: seq<Entry>, source: string): (r: seq<Entry>)
  {
    if |w| == 0 then []
    else OfSource(w[..|w| - 1], source) + (if w[|w| - 1].source == source then [w[|w| - 1]] else [])
  }

  ghost predicate DistinctSources(gs: seq<Group>) {
    forall i, j :: 0 <= i < j < |gs| ==> gs[i].source != gs[j].source
  }

  function Has(gs: seq<Group>, source: string): bool { exists k :: 0 <= k < |gs| && gs[k].source == source }

  /** Adding to an ordered dictionary touches only its own key, which it creates at the end if missing. */
  lemma {:induction false} AddToOneKey(gs: seq<Group>, x: Entry)
    requires DistinctSources(gs)
    ensures var r := AddTo(gs, x);
      && DistinctSources(r) && |r| == |gs| + (if Has(gs, x.source) then 0 else 1)
      && (forall k :: 0 <= k < |gs| ==>
            r[k] == if gs[k].source == x.source then Group(x.source, gs[k].entries + [x]) else gs[k])
      && (!Has(gs, x.source) ==> r[|gs|] == Group(x.source, [x]))
  {
    if |gs| > 0 && gs[0].source != x.source {
      var rest := gs[1..];
      AddToOneKey(rest, x);
      assert Has(gs, x.source) == Has(rest, x.source) by {
        if Has(gs, x.source) {
          var k :| 0 <= k < |gs| && gs[k].source == x.source;
          assert rest[k - 1].source == x.source;
        }
        if Has(rest, x.source) {
          var k :| 0 <= k < |rest| && rest[k].source == x.source;
          assert gs[k + 1].source == x.source;
        }
      }
      var r := AddTo(gs, x);
      assert r == [gs[0]] + AddTo(rest, x);
      forall k | 1 <= k < |r| ensures r[k].source != gs[0].source {
        if k - 1 < |rest| {
          assert r[k].source == rest[k - 1].source == gs[k].source;
        }
      }
    } else if |gs| > 0 {
      assert gs[0].source == x.source;
    }
  }

  /** The groups of `w` are its source classes, each with exactly its own entries in order. */
  ghost predicate Grouped(gs: seq<Group>, w: seq<Entry>) {
    && DistinctSources(gs)
    && (forall k :: 0 <= k < |gs| ==> gs[k].entries == OfSource(w, gs[k].source) && gs[k].entries != [])
    && (forall k :: 0 <= k < |w| ==> Has(gs, w[k].source))
  }

  lemma {:induction false} NoneOfSource(w: seq<Entry>, source: string)
    requires forall k :: 0 <= k < |w| ==> w[k].source != source
    ensures OfSource(w, source) == []
  {
    if |w| > 0 {
      NoneOfSource(w[..|w| - 1], source);
    }
  }

  lemma GroupedStep(gs: seq<Group>, front: seq<Entry>, x: Entry)
    requires Grouped(gs, front)
    ensures Grouped(AddTo(gs, x), front + [x])
  {
    AddToOneKey(gs, x);
    EntriesStep(gs, front, x);
    forall k | 0 <= k < |front + [x]| ensures Has(AddTo(gs, x), (front + [x])[k].source) {
      AddToHas(gs, x, (front + [x])[k].source);
    }
  }

  lemma AddToHas(gs: seq<Group>, x: Entry, source: string)
    requires DistinctSources(gs) && (source == x.source || Has(gs, source))
    ensures Has(AddTo(gs, x), source)
  {
    var r := AddTo(gs, x);
    AddToOneKey(gs, x);
    if Has(gs, source) {
      var k :| 0 <= k < |gs| && gs[k].source == source;
      assert r[k].source == source;
    } else {
      assert r[|gs|].source == source;
    }
  }

  lemma EntriesStep(gs: seq<Group>, front: seq<Entry>, x: Entry)
    requires Grouped(gs, front)
    ensures var r := AddTo(gs, x);
            forall k :: 0 <= k < |r| ==> r[k].entries == OfSource(front + [x], r[k].source) && r[k].entries != []
  {
    var r := AddTo(gs, x);
    AddToOneKey(gs, x);
    assert (front + [x])[..|front|] == front;
    if !Has(gs, x.source) {
      NoneOfSource(front, x.source);
    }
  }

  lemma {:induction false} GroupsAreSources(w: seq<Entry>)
    ensures Grouped(GroupAll(w), w)
  {
    if |w| > 0 {
      GroupsAreSources(w[..|w| - 1]);
      GroupedStep(GroupAll(w[..|w| - 1]), w[..|w| - 1], w[|w| - 1]);
      assert w == w[..|w| - 1] + [w[|w| - 1]];
    }
  }

  // ----- order within a window -----------------------------------------------

  lemma {:induction false} AtConcat(a: seq<Entry>, b: seq<Entry>, t: int)
    ensures At(a + b, t) == At(a, t) + At(b, t)
  {
    if |b| == 0 {
      assert a + b == a;
    } else {
      AtConcat(a, b[..|b| - 1], t);
      assert (a + b)[..|a + b| - 1] == a + b[..|b| - 1];
    }
  }

  lemma {:induction false} NoneAt(s: seq<Entry>, t: int)
    requires forall k :: 0 <= k < |s| ==> s[k].sample.t != t
    ensures At(s, t) == []
  {
    if |s| > 0 {
      NoneAt(s[..|s| - 1], t);
    }
  }

  lemma {:induction false} AllNoneAt(ws: seq<seq<Entry>>, t: int)
    requires forall i, k :: 0 <= i < |ws| && 0 <= k < |ws[i]| ==> ws[i][k].sample.t != t
    ensures At(Flatten(ws), t) == []
  {
    if |ws| > 0 {
      NoneAt(ws[0], t);
      assert forall i, k :: 0 <= i < |ws[1..]| && 0 <= k < |ws[1..][i]| ==> ws[1..][i][k] == ws[i + 1][k];
      AllNoneAt(ws[1..], t);
      AtConcat(ws[0], Flatten(ws[1..]), t);
    }
  }

  /** Of the stamps in its tick, window `w` has all the entries of `all`, in the same order. */
  ghost predicate Captures(w: seq<Entry>, all: seq<Entry>, tickNs: int)
    requires |w| > 0
  {
    forall t :: w[0].sample.t <= t < w[0].sample.t + tickNs ==> At(w, t) == At(all, t)
  }

  lemma {:induction false} OnlyWindowAt(ws: seq<seq<Entry>>, k: nat, t: int)
    requires k < |ws|
    requires forall i, j :: 0 <= i < |ws| && i != k && 0 <= j < |ws[i]| ==> ws[i][j].sample.t != t
    ensures At(Flatten(ws), t) == At(ws[k], t)
  {
    var rest := ws[1..];
    assert forall i :: 0 <= i < |rest| ==> rest[i] == ws[i + 1];
    AtConcat(ws[0], Flatten(rest), t);
    if k == 0 {
      AllNoneAt(rest, t);
    } else {
      NoneAt(ws[0], t);
      OnlyWindowAt(rest, k - 1, t);
    }
  }

  lemma WindowCaptures(ws: seq<seq<Entry>>, k: nat, tickNs: int)
    requires AllWellCut(ws, tickNs) && k < |ws|
    ensures Captures(ws[k], Flatten(ws), tickNs)
  {
    forall t | ws[k][0].sample.t <= t < ws[k][0].sample.t + tickNs ensures At(ws[k], t) == At(Flatten(ws), t) {
      forall i, j | 0 <= i < |ws| && i != k && 0 <= j < |ws[i]| ensures ws[i][j].sample.t != t {
        assert WellCut(ws[i], tickNs);
      }
      OnlyWindowAt(ws, k, t);
    }
  }

  lemma {:induction false} SourceAt(w: seq<Entry>, source: string, t: int)
    ensures At(OfSource(w, source), t) == OfSource(At(w, t), source)
  {
    if |w| > 0 {
      var front, x := w[..|w| - 1], w[|w| - 1];
      SourceAt(front, source, t);
      SourceSnoc(At(front, t), x, source);
      AtSnoc(OfSource(front, source), x, t);
      assert At(front, t) + [] == At(front, t) && OfSource(front, source) + [] == OfSource(front, source);
    }
  }

  lemma SourceSnoc(s: seq<Entry>, x: Entry, source: string)
    ensures OfSource(s + [x], source) == OfSource(s, source) + (if x.source == source then [x] else [])
  {
    assert (s + [x])[..|s|] == s;
  }

  lemma SourceCaptures(w: seq<Entry>, all: seq<Entry>, tickNs: int, source: string)
    requires |w| > 0 && Captures(w, all, tickNs)
    ensures forall t :: w[0].sample.t <= t < w[0].sample.t + tickNs ==> At(OfSource(w, source), t) == OfSource(At(all, t), source)
  {
    forall t | w[0].sample.t <= t < w[0].sample.t + tickNs ensures At(OfSource(w, source), t) == OfSource(At(all, t), source) {
      SourceAt(w, source, t);
    }
  }

  lemma {:induction false} OfSourceNoLater(w: seq<Entry>, source: string, t: int)
    requires NoLater(w, t)
    ensures NoLater(OfSource(w, source), t)
  {
    if |w| > 0 {
      OfSourceNoLater(w[..|w| - 1], source, t);
    }
  }

  lemma {:induction false} OfSourceOrdered(w: seq<Entry>, source: string)
    requires Ordered(w)
    ensures Ordered(OfSource(w, source))
  {
    if |w| > 0 {
      OfSourceOrdered(w[..|w| - 1], source);
      OfSourceNoLater(w[..|w| - 1], source, w[|w| - 1].sample.t);
    }
  }

  function Ungroup(gs: seq<Group>): (s: seq<Entry>)
  {
    if |gs| == 0 then [] else gs[0].entries + Ungroup(gs[1..])
  }

  lemma {:induction false} AddToKeepsAll(gs: seq<Group>, x: Entry)
    ensures multiset(Ungroup(AddTo(gs, x))) == multiset(Ungroup(gs)) + multiset{x}
  {
    if |gs| == 0 {
      var r := AddTo(gs, x);
      assert r[1..] == [] && Ungroup(r) == [x] + [];
    } else if gs[0].source == x.source {
      assert AddTo(gs, x)[1..] == gs[1..];
    } else {
      AddToKeepsAll(gs[1..], x);
      assert AddTo(gs, x)[1..] == AddTo(gs[1..], x);
    }
  }

  /** Grouping rearranges a window and nothing more. */
  lemma {:induction false} GroupingKeepsAll(w: seq<Entry>)
    ensures multiset(Ungroup(GroupAll(w))) == multiset(w)
  {
    if |w| > 0 {
      GroupingKeepsAll(w[..|w| - 1]);
      AddToKeepsAll(GroupAll(w[..|w| - 1]), w[|w| - 1]);
      assert w == w[..|w| - 1] + [w[|w| - 1]];
    }
  }

  // ----- encoding ------------------------------------------------------------

  datatype MsgId = MsgId(source: string, epochUnixMs: int)

  datatype TickBatch = TickBatch(source: string, payload: SampleBatch, epochUnixMs: int, epochMonoNs: int, msgId: MsgId)

  /** One sample into its batch, or the error that costs the window. */
  function EncodeEntry(cfg: Config, epochNs: int, x: Entry): Result<WireSample>
    requires x.channel in cfg.codings && cfg.codings[x.channel].Configured()
  {
    var offsetNs := x.sample.t - epochNs;
    if !(0 <= offsetNs < cfg.TickNs()) then Err(ValueError)
    else
      match Encode(x.sample.value, cfg.codings[x.channel])
      case Err(e) => Err(e)
      case Ok(v) => Ok(WireSample(x.channel, offsetNs / 1000, Some(v)))
  }

  function EncodeEntries(cfg: Config, epochNs: int, es: seq<Entry>): (r: Result<seq<WireSample>>)
    requires cfg.Valid() && cfg.Knows(es)
  {
    if |es| == 0 then Ok([])
    else
      match EncodeEntries(cfg, epochNs, es[..|es| - 1])
      case Err(e) => Err(e)
      case Ok(front) =>
        match EncodeEntry(cfg, epochNs, es[|es| - 1])
        case Err(e) => Err(e)
        case Ok(last) => Ok(front + [last])
  }

  ghost predicate GroupsKnown(cfg: Config, gs: seq<Group>) { forall k :: 0 <= k < |gs| ==> cfg.Knows(gs[k].entries) }

  function EncodeGroups(cfg: Config, epochMs: int, epochNs: int, gs: seq<Group>): (r: Result<seq<TickBatch>>)
    requires cfg.Valid() && GroupsKnown(cfg, gs)
  {
    if |gs| == 0 then Ok([])
    else
      match EncodeGroups(cfg, epochMs, epochNs, gs[..|gs| - 1])
      case Err(e) => Err(e)
      case Ok(front) =>
        var g := gs[|gs| - 1];
        match EncodeEntries(cfg, epochNs, g.entries)
        case Err(e) => Err(e)
        case Ok(samples) =>
          Ok(front + [TickBatch(g.source, SampleBatch(cfg.registrySeq, epochMs, epochNs, 1, samples), epochMs, epochNs,
                                MsgId(g.source, epochMs))])
  }

  /** An entry whose value its channel can carry. */
  ghost predicate Encodable(cfg: Config, x: Entry)
    requires x.channel in cfg.codings && cfg.codings[x.channel].Configured()
  {
    Carriable(x.sample.value, cfg.codings[x.channel])
  }

  ghost predicate AllEncodable(cfg: Config, es: seq<Entry>)
    requires cfg.Valid() && cfg.Knows(es)
  {
    forall k :: 0 <= k < |es| ==> Encodable(cfg, es[k])
  }

  ghost predicate InWindow(cfg: Config, epochNs: int, es: seq<Entry>) {
    forall k :: 0 <= k < |es| ==> 0 <= es[k].sample.t - epochNs < cfg.TickNs()
  }

  /** Inside the window the only way to fail is a value the channel cannot carry; otherwise one wire sample each. */
  lemma {:induction false} EntriesEncode(cfg: Config, epochNs: int, es: seq<Entry>)
    requires cfg.Valid() && cfg.Knows(es) && InWindow(cfg, epochNs, es)
    ensures EncodeEntries(cfg, epochNs, es).Ok? <==> AllEncodable(cfg, es)
    ensures AllEncodable(cfg, es) ==>
      && |EncodeEntries(cfg, epochNs, es).value| == |es|
      && forall k :: 0 <= k < |es| ==> EncodeEntry(cfg, epochNs, es[k]) == Ok(EncodeEntries(cfg, epochNs, es).value[k])
  {
    if |es| > 0 {
      EntriesEncode(cfg, epochNs, es[..|es| - 1]);
      EncodesIffCarriable(es[|es| - 1].sample.value, cfg.codings[es[|es| - 1].channel]);
    }
  }

  /** Batch `b` carries group `g`: its source, the window's epoch, and its entries encoded in order. */
  ghost predicate Carries(cfg: Config, epochMs: int, epochNs: int, b: TickBatch, g: Group)
    requires cfg.Valid() && cfg.Knows(g.entries)
  {
    && b.source == g.source && b.epochUnixMs == epochMs && b.epochMonoNs == epochNs && b.msgId == MsgId(g.source, epochMs)
    && b.payload.(samples := []) == SampleBatch(cfg.registrySeq, epochMs, epochNs, 1, [])
    && EncodeEntries(cfg, epochNs, g.entries) == Ok(b.payload.samples)
  }

  lemma {:induction false} GroupsEncodeIff(cfg: Config, epochMs: int, epochNs: int, gs: seq<Group>)
    requires cfg.Valid() && GroupsKnown(cfg, gs) && forall k :: 0 <= k < |gs| ==> InWindow(cfg, epochNs, gs[k].entries)
    ensures EncodeGroups(cfg, epochMs, epochNs, gs).Ok? <==> forall k :: 0 <= k < |gs| ==> AllEncodable(cfg, gs[k].entries)
  {
    if |gs| > 0 {
      GroupsEncodeIff(cfg, epochMs, epochNs, gs[..|gs| - 1]);
      EntriesEncode(cfg, epochNs, gs[|gs| - 1].entries);
    }
  }

  lemma {:induction false} GroupsEncode(cfg: Config, epochMs: int, epochNs: int, gs: seq<Group>)
    requires cfg.Valid() && GroupsKnown(cfg, gs) && EncodeGroups(cfg, epochMs, epochNs, gs).Ok?
    ensures var r := EncodeGroups(cfg, epochMs, epochNs, gs);
            |r.value| == |gs| && forall k :: 0 <= k < |gs| ==> Carries(cfg, epochMs, epochNs, r.value[k], gs[k])
  {
    if |gs| > 0 {
      GroupsEncode(cfg, epochMs, epochNs, gs[..|gs| - 1]);
    }
  }
}
