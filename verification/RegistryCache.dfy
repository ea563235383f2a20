/**
 Decoding at the pit (`src/pit/registry_cache.py`): the registry generations
 received so far, and batches resolved against the one they name and no other.
 */
module RegistryCache {
  import opened Basics
  import opened Wire

  datatype DecodedSample = DecodedSample(captureMs: real, channel: Channel, value: Option<Value>)

  datatype DecodedBatch = DecodedBatch(registrySeq: nat, epochUnixMs: int, epochMonoNs: int, samples: seq<DecodedSample>)

  datatype Decoding = Decoded(batch: DecodedBatch) | UnknownSeq | BadVersion

  /** Generation to wire id to channel. */
  type Generations = map<nat, map<nat, Channel>>

  /** The dictionary a registry's channel list becomes; a repeated id keeps its last channel. */
  function ChannelsById(channels: seq<Channel>): (m: map<nat, Channel>)
  {
    if |channels| == 0 then map[]
    else var last := channels[|channels| - 1]; ChannelsById(channels[..|channels| - 1])[last.id := last]
  }

  /** With distinct ids every channel is found under its own id, and nothing else is found. */
  lemma {:induction false} ChannelFound(channels: seq<Channel>, k: nat)
    requires forall i, j :: 0 <= i < j < |channels| ==> channels[i].id != channels[j].id
    requires k < |channels|
    ensures channels[k].id in ChannelsById(channels) && ChannelsById(channels)[channels[k].id] == channels[k]
  {
    if k < |channels| - 1 {
      ChannelFound(channels[..|channels| - 1], k);
    }
  }

  function Added(g: Generations, registry: ChannelRegistry): Generations {
    g[registry.registrySeq := ChannelsById(registry.channels)]
  }

  function DecodeValue(s: WireSample, c: Channel): Option<Value> {
    match s.value
    case None => None
    case Some(w) => Some(Decode(w, c.coding))
  }

  /** The samples of a batch whose wire id the generation knows, in order. */
  function DecodeSamples(channels: map<nat, Channel>, epochUnixMs: int, samples: seq<WireSample>): (r: seq<DecodedSample>)
  {
    if |samples| == 0 then []
    else
      var s := samples[|samples| - 1];
      DecodeSamples(channels, epochUnixMs, samples[..|samples| - 1]) +
      if s.channelId in channels then [DecodeOne(channels, epochUnixMs, s)] else []
  }

  function DecodeOne(channels: map<nat, Channel>, epochUnixMs: int, s: WireSample): DecodedSample
    requires s.channelId in channels
  {
    DecodedSample(epochUnixMs as real + s.offsetUs as real / 1000.0, channels[s.channelId],
                  DecodeValue(s, channels[s.channelId]))
  }

  lemma DecodeSnoc(channels: map<nat, Channel>, epochUnixMs: int, samples: seq<WireSample>, s: WireSample)
    requires s.channelId in channels
    ensures DecodeSamples(channels, epochUnixMs, samples + [s]) ==
            DecodeSamples(channels, epochUnixMs, samples) + [DecodeOne(channels, epochUnixMs, s)]
  {
    assert (samples + [s])[..|samples|] == samples;
  }

  predicate Supported(formatVersion: nat) { formatVersion == 0 || formatVersion == 1 }

  function DecodeBatch(g: Generations, batch: SampleBatch): Decoding {
    if !Supported(batch.formatVersion) then BadVersion
    else if batch.registrySeq !in g then UnknownSeq
    else Decoded(DecodedBatch(batch.registrySeq, batch.epochUnixMs, batch.epochMonoNs,
                              DecodeSamples(g[batch.registrySeq], batch.epochUnixMs, batch.samples)))
  }

  /** The cache object: `_channels`, the first-seen sets behind the log lines, and the reject counters. */
  class Cache {
    var channels: Generations
    var unknownSeqs: set<nat>
    var badVersions: set<nat>
    var unknownSeqBatches: nat
    var badVersionBatches: nat

    constructor ()
      ensures channels == map[] && unknownSeqs == {} && badVersions == {}
      ensures unknownSeqBatches == 0 && badVersionBatches == 0
    {
      channels, unknownSeqs, badVersions, unknownSeqBatches, badVersionBatches := map[], {}, {}, 0, 0;
    }

    /** `add_registry`. */
    method AddRegistry(registry: ChannelRegistry) returns (generation: nat)
      modifies this`channels, this`unknownSeqs
      ensures generation == registry.registrySeq && channels == Added(old(channels), registry)
      ensures unknownSeqs == old(unknownSeqs) - {generation}
    {
      var byId: map<nat, Channel> := map[];
      for i := 0 to |registry.channels|
        invariant byId == ChannelsById(registry.channels[..i])
      {
        assert registry.channels[..i + 1][..i] == registry.channels[..i];
        byId := byId[registry.channels[i].id := registry.channels[i]];
      }
      assert registry.channels[..|registry.channels|] == registry.channels;
      channels := channels[registry.registrySeq := byId];
      unknownSeqs := unknownSeqs - {registry.registrySeq};
      generation := registry.registrySeq;
    }

    /** `decode_batch`: the result, and one reject counted for each refusal. */
    method DecodeOrReason(batch: SampleBatch) returns (r: Decoding)
      modifies this`unknownSeqs, this`badVersions, this`unknownSeqBatches, this`badVersionBatches
      ensures r == DecodeBatch(channels, batch)
      ensures badVersionBatches == old(badVersionBatches) + (if r.BadVersion? then 1 else 0)
      ensures unknownSeqBatches == old(unknownSeqBatches) + (if r.UnknownSeq? then 1 else 0)
      ensures badVersions == old(badVersions) + (if r.BadVersion? then {batch.formatVersion} else {})
      ensures unknownSeqs == old(unknownSeqs) + (if r.UnknownSeq? then {batch.registrySeq} else {})
    {
      if !Supported(batch.formatVersion) {
        badVersionBatches := badVersionBatches + 1;
        badVersions := badVersions + {batch.formatVersion};
        return BadVersion;
      }
      if batch.registrySeq !in channels {
        unknownSeqBatches := unknownSeqBatches + 1;
        unknownSeqs := unknownSeqs + {batch.registrySeq};
        return UnknownSeq;
      }
      var known := channels[batch.registrySeq];
      var samples: seq<DecodedSample> := [];
      for i := 0 to |batch.samples|
        invariant samples == DecodeSamples(known, batch.epochUnixMs, batch.samples[..i])
      {
        var s := batch.samples[i];
        assert batch.samples[..i + 1][..i] == batch.samples[..i];
        if s.channelId in known {
          samples := samples + [DecodedSample(batch.epochUnixMs as real + s.offsetUs as real / 1000.0,
                                              known[s.channelId], DecodeValue(s, known[s.channelId]))];
        }
      }
      assert batch.samples[..|batch.samples|] == batch.samples;
      r := Decoded(DecodedBatch(batch.registrySeq, batch.epochUnixMs, batch.epochMonoNs, samples));
    }
  }
}
