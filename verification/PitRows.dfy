/**
 From measurement to database row: what the `samples` table holds for a batch
 the vehicle emitted (`src/agent/pipeline.py`, `src/core/batcher.py`,
 `src/pit/registry_cache.py` and `src/pit/ingest_writer/writer.py` end to end).
 */
module PitRows {
  import opened Basics
  import opened Wire
  import opened Batching
  import opened RegistryCache
  import opened IngestModel
  import opened IngestContents
  import P = Pipeline

  /** The row shows the value measured on a channel coded `c`: exactly, except within half a step where a scale is set. */
  ghost predicate ShowsValue(v: Value, c: Coding, row: Row) {
    match v
    case Str(s) => row.text == Some(s) && row.number == None
    case Flag(b) => row.text == None && row.number == Some(if b then 1.0 else 0.0)
    case Real(r) => row.text == None && Near(r, c, row.number)
    case Integer(i) => row.text == None && Near(i as real, c, row.number)
  }

  ghost predicate Near(x: real, c: Coding, number: Option<real>) {
    if c.scale == 0.0 then number == Some(x) else number.Some? && Abs(number.value - x) <= c.scale / 2.0
  }

  /** The row of entry `x`: its channel by name, its value, and its time to within 0.501 ms. */
  ghost predicate RowMeasures(cfg: Config, wall: P.WallClock, r: ChannelRegistry, x: Entry, row: Row)
    requires x.channel in cfg.codings
  {
    && NameOf(ChannelsById(r.channels), x.channel) == Some(row.key)
    && ShowsValue(x.sample.value, cfg.codings[x.channel], row)
    && Abs(row.timeMs - wall(x.sample.t)) <= 0.501
  }

  /** One row per entry, in order. */
  ghost predicate RowsMeasure(cfg: Config, wall: P.WallClock, r: ChannelRegistry, es: seq<Entry>, rows: seq<Row>) {
    cfg.Knows(es) && |rows| == |es| && forall i :: 0 <= i < |es| ==> RowMeasures(cfg, wall, r, es[i], rows[i])
  }

  /** A value that came back from the wire faithfully is shown by its row. */
  lemma FaithfulRow(v: Value, c: Coding, s: DecodedSample, generation: nat, keys: map<WireKey, string>)
    requires c.Configured() && Carriable(v, c) && Keeps(generation, s, keys) && Faithful(v, c, s.value.value)
    ensures ShowsValue(v, c, RowFor(generation, s, keys))
  {
  }

  /** Entry `x` is carried as decoded sample `d`, whose key the catalogue has: the row is `x`'s. */
  lemma EntryRow(cfg: Config, wall: P.WallClock, r: ChannelRegistry, cat: Catalogue, x: Entry, d: DecodedSample)
    requires cfg.Valid() && x.channel in cfg.codings && Encodable(cfg, x)
    requires KnowsAs(cat, r) && P.Agree(cfg, ChannelsById(r.channels))
    requires P.Recovered(cfg, wall, ChannelsById(r.channels), x, d)
    ensures Keeps(r.registrySeq, d, cat.keys)
    ensures RowMeasures(cfg, wall, r, x, RowFor(r.registrySeq, d, cat.keys))
  {
    assert KeyOf(cat.keys, r.registrySeq, x.channel) == NameOf(ChannelsById(r.channels), x.channel);
    FaithfulRow(x.sample.value, cfg.codings[x.channel], d, r.registrySeq, cat.keys);
  }

  lemma {:induction false} AllKept(generation: nat, samples: seq<DecodedSample>, keys: map<WireKey, string>)
    requires forall i :: 0 <= i < |samples| ==> Keeps(generation, samples[i], keys)
    ensures Kept(generation, samples, keys) == samples
  {
    if |samples| > 0 {
      AllKept(generation, samples[..|samples| - 1], keys);
    }
  }

  /** The entries of a batch the vehicle emitted. */
  function EntriesOf(cfg: Config, wall: P.WallClock, w: seq<Entry>, n: nat): seq<Entry>
    requires P.Ready(cfg, w) && P.WindowBatches(cfg, wall, w).Ok? && n < |P.WindowBatches(cfg, wall, w).value|
  {
    OfSource(w, P.WindowBatches(cfg, wall, w).value[n].source)
  }

  lemma EntriesEncodable(cfg: Config, wall: P.WallClock, w: seq<Entry>, n: nat)
    requires P.Ready(cfg, w) && WellCut(w, cfg.TickNs()) && P.WindowBatches(cfg, wall, w).Ok?
    requires n < |P.WindowBatches(cfg, wall, w).value|
    ensures cfg.Knows(EntriesOf(cfg, wall, w, n)) && AllEncodable(cfg, EntriesOf(cfg, wall, w, n))
  {
    P.WindowOutcome(cfg, wall, w);
    var source := P.WindowBatches(cfg, wall, w).value[n].source;
    var mine := OfSource(w, source);
    P.SourceKnown(cfg, w, source);
    forall i | 0 <= i < |mine| ensures Encodable(cfg, mine[i]) {
      P.InSource(w, source, mine[i]);
      var j :| 0 <= j < |w| && w[j] == mine[i];
      assert Encodable(cfg, w[j]);
    }
  }

  /** Decoded under the registry it was encoded under, with that registry's keys, an emitted batch gives its entries' rows. */
  lemma BatchRowsMeasure(cfg: Config, wall: P.WallClock, w: seq<Entry>, n: nat, r: ChannelRegistry, cat: Catalogue)
    requires P.Ready(cfg, w) && WellCut(w, cfg.TickNs()) && P.UnitRate(wall) && P.WindowBatches(cfg, wall, w).Ok?
    requires n < |P.WindowBatches(cfg, wall, w).value|
    requires r.registrySeq == cfg.registrySeq && KnowsAs(cat, r) && P.Agree(cfg, ChannelsById(r.channels))
    ensures var d := DecodeBatch(cat.generations, P.WindowBatches(cfg, wall, w).value[n].payload);
            d.Decoded? && d.batch.registrySeq == r.registrySeq &&
            RowsMeasure(cfg, wall, r, EntriesOf(cfg, wall, w, n), RowsShown(r.registrySeq, d.batch.samples, cat.keys))
  {
    var mine := EntriesOf(cfg, wall, w, n);
    EntriesEncodable(cfg, wall, w, n);
    P.BatchRecovered(cfg, wall, w, n, cat.generations);
    NamesItsGeneration(cfg, wall, w, n);
    var samples := DecodeBatch(cat.generations, P.WindowBatches(cfg, wall, w).value[n].payload).batch.samples;
    forall i | 0 <= i < |mine|
      ensures Keeps(r.registrySeq, samples[i], cat.keys)
      ensures RowMeasures(cfg, wall, r, mine[i], RowFor(r.registrySeq, samples[i], cat.keys))
    {
      assert Encodable(cfg, mine[i]);
      EntryRow(cfg, wall, r, cat, mine[i], samples[i]);
    }
    AllKept(r.registrySeq, samples, cat.keys);
  }

  lemma NamesItsGeneration(cfg: Config, wall: P.WallClock, w: seq<Entry>, n: nat)
    requires P.Ready(cfg, w) && WellCut(w, cfg.TickNs()) && P.WindowBatches(cfg, wall, w).Ok?
    requires n < |P.WindowBatches(cfg, wall, w).value|
    ensures P.WindowBatches(cfg, wall, w).value[n].payload.registrySeq == cfg.registrySeq
  {
    P.WindowOutcome(cfg, wall, w);
    assert Carries(cfg, P.EpochMs(wall, w), w[0].sample.t, P.WindowBatches(cfg, wall, w).value[n], GroupAll(w)[n]);
  }

  /**
   Over every run of the writer, with any redeliveries, crashes and database
   failures: if the stream names one channel set per `registry_seq`, and the
   message behind a logged contribution is a batch the vehicle emitted under
   the registry at stream position `p`, then the rows it put into the `samples`
   table are, one for one and in order, the samples of that source class: the
   channel, the value to within its coding, and the capture time.
   */
  lemma LoggedRowsAreMeasurements(env: Env, trace: seq<System>, steps: seq<Step>, k: nat, i: nat, p: nat,
                                  cfg: Config, wall: P.WallClock, w: seq<Entry>, n: nat)
    requires Run(env, trace, steps) && k < |trace| && i < |trace[k].db.log| && OneSetPerSeq(env)
    requires P.Ready(cfg, w) && WellCut(w, cfg.TickNs()) && P.UnitRate(wall) && P.WindowBatches(cfg, wall, w).Ok?
    requires n < |P.WindowBatches(cfg, wall, w).value|
    requires env.stream(trace[k].db.log[i].sequence) == BatchMsg(P.WindowBatches(cfg, wall, w).value[n].payload)
    requires env.stream(p).RegistryMsg? && env.stream(p).registry.registrySeq == cfg.registrySeq
    requires P.Agree(cfg, ChannelsById(env.stream(p).registry.channels))
    ensures RowsMeasure(cfg, wall, env.stream(p).registry, EntriesOf(cfg, wall, w, n), trace[k].db.log[i].rows)
  {
    var c, r := trace[k].db.log[i], env.stream(p).registry;
    RunSourced(env, trace, steps, k);
    assert Genuine(env, c);
    NamesItsGeneration(cfg, wall, w, n);
    GenuineIsDetermined(env, c, p);
    LearnSame(NoCatalogue, r);
    BatchRowsMeasure(cfg, wall, w, n, r, Learn(NoCatalogue, r));
  }
}
