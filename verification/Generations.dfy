/**
 From one agent start to any consumer: a batch encoded under the generation of
 one start, decoded by a consumer that has heard any registries of any starts.
 */
module Generations {
  import opened Basics
  import opened Wire
  import opened Catalog
  import opened Batching
  import P = Pipeline
  import R = RegistryCache

  /** The batcher's `policies_by_id` for a channel list. */
  function CodingsOf(cs: seq<Channel>): (m: map<nat, Coding>)
  {
    if |cs| == 0 then map[]
    else var last := cs[|cs| - 1]; CodingsOf(cs[..|cs| - 1])[last.id := last.coding]
  }

  lemma {:induction false} CodingHasChannel(cs: seq<Channel>, id: nat) returns (c: nat)
    requires id in CodingsOf(cs)
    ensures c < |cs| && cs[c].id == id && cs[c].coding == CodingsOf(cs)[id]
  {
    var last := |cs| - 1;
    if cs[last].id == id {
      c := last;
    } else {
      c := CodingHasChannel(cs[..last], id);
    }
  }

  /** What the agent of start `k` batches with. */
  function ConfigOf(state: Option<Persisted>, starts: seq<Setup>, k: nat, tickMs: int): Config
    requires k < |starts| && GenerationAt(state, starts, k).Started?
  {
    Config(GenerationAt(state, starts, k).value, CodingsOf(ChannelsOf(starts[k])), tickMs)
  }

  ghost predicate AllStarted(state: Option<Persisted>, starts: seq<Setup>, heard: seq<nat>) {
    forall i :: 0 <= i < |heard| ==> heard[i] < |starts| && GenerationAt(state, starts, heard[i]).Started?
  }

  /** `channel` is, name, source, units and coding included, the one that start gave wire id `id`. */
  ghost predicate IsChannelOf(setup: Setup, id: nat, channel: Channel) {
    exists c :: 0 <= c < |ChannelsOf(setup)| && ChannelsOf(setup)[c].id == id && channel == ChannelsOf(setup)[c]
  }

  /** Each sample has the channel that start encoded it for, its value to within the coding, and its time. */
  ghost predicate RecoveredUnder(setup: Setup, cfg: Config, wall: P.WallClock, es: seq<Entry>, ds: seq<R.DecodedSample>) {
    && cfg.Knows(es) && |ds| == |es|
    && forall i :: 0 <= i < |es| ==> (
         && IsChannelOf(setup, es[i].channel, ds[i].channel)
         && P.Measured(cfg, wall, es[i], ds[i]))
  }

  lemma ChannelIsOwn(state: Option<Persisted>, starts: seq<Setup>, heard: seq<nat>, k: nat, id: nat)
    requires AllStarted(state, starts, heard) && k < |starts| && GenerationAt(state, starts, k).Started?
    requires starts[k].derived == [] || |starts[k].catalog| < DERIVED_ID_START
    requires GenerationAt(state, starts, k).value in Heard(state, starts, heard) && id in CodingsOf(ChannelsOf(starts[k]))
    ensures id in Heard(state, starts, heard)[GenerationAt(state, starts, k).value]
    ensures IsChannelOf(starts[k], id, Heard(state, starts, heard)[GenerationAt(state, starts, k).value][id])
  {
    var c := CodingHasChannel(ChannelsOf(starts[k]), id);
    IdsResolveAsEncoded(state, starts, heard, k, c);
  }

  lemma HeardAgrees(state: Option<Persisted>, starts: seq<Setup>, heard: seq<nat>, k: nat, tickMs: int)
    requires AllStarted(state, starts, heard) && k < |starts| && GenerationAt(state, starts, k).Started?
    requires starts[k].derived == [] || |starts[k].catalog| < DERIVED_ID_START
    requires GenerationAt(state, starts, k).value in Heard(state, starts, heard)
    ensures P.Agree(ConfigOf(state, starts, k, tickMs), Heard(state, starts, heard)[GenerationAt(state, starts, k).value])
  {
    var cs := ChannelsOf(starts[k]);
    forall id | id in CodingsOf(cs)
      ensures var channels := Heard(state, starts, heard)[GenerationAt(state, starts, k).value];
              id in channels && channels[id].id == id && channels[id].coding == CodingsOf(cs)[id]
    {
      var c := CodingHasChannel(cs, id);
      IdsResolveAsEncoded(state, starts, heard, k, c);
    }
  }

  /**
   Whatever starts there have been and whatever registries the consumer has
   heard, a batch emitted under start `k` is either held back for want of its
   generation or decodes to exactly the entries that went into it: channel,
   order, value to within the coding, time to within 0.501 ms.
   */
  lemma BatchSurvivesRestarts(state: Option<Persisted>, starts: seq<Setup>, heard: seq<nat>, k: nat, tickMs: int,
                              wall: P.WallClock, w: seq<Entry>, n: nat)
    requires AllStarted(state, starts, heard) && k < |starts| && GenerationAt(state, starts, k).Started?
    requires starts[k].derived == [] || |starts[k].catalog| < DERIVED_ID_START
    requires P.Ready(ConfigOf(state, starts, k, tickMs), w) && P.UnitRate(wall)
    requires WellCut(w, ConfigOf(state, starts, k, tickMs).TickNs())
    requires P.WindowBatches(ConfigOf(state, starts, k, tickMs), wall, w).Ok?
    requires n < |P.WindowBatches(ConfigOf(state, starts, k, tickMs), wall, w).value|
    ensures var cfg := ConfigOf(state, starts, k, tickMs);
            var b := P.WindowBatches(cfg, wall, w).value[n];
            var mine := OfSource(w, b.source);
            match R.DecodeBatch(Heard(state, starts, heard), b.payload)
            case BadVersion => false
            case UnknownSeq => cfg.registrySeq !in Heard(state, starts, heard)
            case Decoded(d) => RecoveredUnder(starts[k], cfg, wall, mine, d.samples)
  {
    var cfg, g := ConfigOf(state, starts, k, tickMs), Heard(state, starts, heard);
    if cfg.registrySeq in g {
      HeardAgrees(state, starts, heard, k, tickMs);
      P.BatchRecovered(cfg, wall, w, n, g);
      var mine := OfSource(w, P.WindowBatches(cfg, wall, w).value[n].source);
      forall i | 0 <= i < |mine| ensures IsChannelOf(starts[k], mine[i].channel, g[cfg.registrySeq][mine[i].channel]) {
        ChannelIsOwn(state, starts, heard, k, mine[i].channel);
      }
    } else {
      P.WindowOutcome(cfg, wall, w);
      assert Carries(cfg, P.EpochMs(wall, w), w[0].sample.t, P.WindowBatches(cfg, wall, w).value[n], GroupAll(w)[n]);
    }
  }
}
