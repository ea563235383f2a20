/**
 What a batch's contribution is made of. Every record the writer buffers, logs
 or drops holds exactly the rows and lap events its stream message decodes to,
 against registries that are on the stream; and where the stream names one
 channel set per `registry_seq`, that is a function of the stream alone.
 */
module IngestContents {
  import opened Basics
  import opened Wire
  import opened RegistryCache
  import opened IngestModel

  // ----- what a decoded batch should leave -----------------------------------

  /** A sample with a channel key and a value leaves a row. */
  predicate Keeps(generation: nat, s: DecodedSample, keys: map<WireKey, string>) {
    WireKey(generation, s.channel.id) in keys && s.value.Some?
  }

  function Kept(generation: nat, samples: seq<DecodedSample>, keys: map<WireKey, string>): (r: seq<DecodedSample>)
    ensures forall i :: 0 <= i < |r| ==> Keeps(generation, r[i], keys)
  {
    if |samples| == 0 then []
    else
      var front, s := Kept(generation, samples[..|samples| - 1], keys), samples[|samples| - 1];
      if Keeps(generation, s, keys) then front + [s] else front
  }

  /** Its capture time, the key of its channel, and its value: numbers as they are, flags as 1 or 0, text as text. */
  function RowFor(generation: nat, s: DecodedSample, keys: map<WireKey, string>): Row
    requires Keeps(generation, s, keys)
  {
    var key := keys[WireKey(generation, s.channel.id)];
    match s.value.value
    case Real(r) => Row(s.captureMs, key, Some(r), None)
    case Integer(i) => Row(s.captureMs, key, Some(i as real), None)
    case Flag(b) => Row(s.captureMs, key, Some(if b then 1.0 else 0.0), None)
    case Str(text) => Row(s.captureMs, key, None, Some(text))
  }

  predicate IsLapEvent(s: DecodedSample) { s.channel.name == "lap.event" && s.value.Some? && s.value.value.Str? }

  function LapTexts(samples: seq<DecodedSample>): (texts: seq<string>)
  {
    if |samples| == 0 then []
    else
      var front, s := LapTexts(samples[..|samples| - 1]), samples[|samples| - 1];
      if IsLapEvent(s) then front + [s.value.value.s] else front
  }

  function RowsShown(generation: nat, samples: seq<DecodedSample>, keys: map<WireKey, string>): (rows: seq<Row>) {
    var kept := Kept(generation, samples, keys);
    seq(|kept|, i requires 0 <= i < |kept| => RowFor(generation, kept[i], keys))
  }

  /** The samples with no channel key. */
  function Unkeyed(generation: nat, samples: seq<DecodedSample>, keys: map<WireKey, string>): (r: seq<DecodedSample>)
    ensures forall i :: 0 <= i < |r| ==> WireKey(generation, r[i].channel.id) !in keys
  {
    if |samples| == 0 then []
    else
      var front, s := Unkeyed(generation, samples[..|samples| - 1], keys), samples[|samples| - 1];
      if WireKey(generation, s.channel.id) in keys then front else front + [s]
  }

  ghost predicate HasStatus(samples: seq<DecodedSample>) {
    exists i :: 0 <= i < |samples| && samples[i].channel.name == "sys.agent.status"
  }

  lemma StatusSnoc(samples: seq<DecodedSample>, s: DecodedSample)
    ensures HasStatus(samples + [s]) <==> HasStatus(samples) || s.channel.name == "sys.agent.status"
  {
    var all := samples + [s];
    assert all[|samples|] == s;
    if i :| 0 <= i < |samples| && samples[i].channel.name == "sys.agent.status" {
      assert all[i].channel.name == "sys.agent.status";
    }
  }

  /** Whether the batch reports agent status, and how many of its samples had no key. */
  lemma {:induction false} RestIsCounted(generation: nat, samples: seq<DecodedSample>, keys: map<WireKey, string>)
    ensures var b := RowsFromSamples(generation, samples, keys);
            (b.agentStatus <==> HasStatus(Kept(generation, samples, keys))) && b.unresolved == |Unkeyed(generation, samples, keys)|
  {
    if |samples| > 0 {
      var front, s := samples[..|samples| - 1], samples[|samples| - 1];
      RestIsCounted(generation, front, keys);
      StatusSnoc(Kept(generation, front, keys), s);
    }
  }

  /** `rows_from_batch` yields one row per kept sample, in order, and the texts of the kept lap events. */
  lemma {:induction false} RowsAreKeptSamples(generation: nat, samples: seq<DecodedSample>, keys: map<WireKey, string>)
    ensures var b := RowsFromSamples(generation, samples, keys);
            b.rows == RowsShown(generation, samples, keys) && b.lapEvents == LapTexts(Kept(generation, samples, keys))
  {
    if |samples| > 0 {
      var front, s := samples[..|samples| - 1], samples[|samples| - 1];
      RowsAreKeptSamples(generation, front, keys);
      if Keeps(generation, s, keys) {
        var kept := Kept(generation, front, keys);
        assert (kept + [s])[..|kept|] == kept;
        assert RowsShown(generation, samples, keys) == RowsShown(generation, front, keys) + [RowFor(generation, s, keys)];
      }
    }
  }

  // ----- genuine contributions -----------------------------------------------

  ghost predicate Registries(env: Env, ps: seq<nat>) { forall i :: 0 <= i < |ps| ==> env.stream(ps[i]).RegistryMsg? }

  /** The catalogue after applying the registries at stream positions `ps`, in that order. */
  function LearnAll(env: Env, ps: seq<nat>): (cat: Catalogue)
    requires Registries(env, ps)
  {
    if |ps| == 0 then NoCatalogue
    else Learn(LearnAll(env, ps[..|ps| - 1]), env.stream(ps[|ps| - 1]).registry)
  }

  ghost predicate Learnt(env: Env, cat: Catalogue) { exists ps :: Registries(env, ps) && LearnAll(env, ps) == cat }

  lemma LearntOneMore(env: Env, cat: Catalogue, q: nat)
    requires Learnt(env, cat) && env.stream(q).RegistryMsg?
    ensures Learnt(env, Learn(cat, env.stream(q).registry))
  {
    var ps :| Registries(env, ps) && LearnAll(env, ps) == cat;
    var more := LearnAllSnoc(env, ps, q);
    assert Registries(env, more) && LearnAll(env, more) == Learn(cat, env.stream(q).registry);
  }

  lemma LearnAllSnoc(env: Env, ps: seq<nat>, q: nat) returns (more: seq<nat>)
    requires Registries(env, ps) && env.stream(q).RegistryMsg?
    ensures Registries(env, more) && LearnAll(env, more) == Learn(LearnAll(env, ps), env.stream(q).registry)
  {
    more := ps + [q];
    assert more[..|more| - 1] == ps && more[|more| - 1] == q;
  }

  lemma NothingLearnt(env: Env)
    ensures Learnt(env, NoCatalogue)
  {
    var none: seq<nat> := [];
    assert Registries(env, none) && LearnAll(env, none) == NoCatalogue;
  }

  /** `c` has the row of every kept sample of its message decoded against `cat`, in order, and its lap events parsed. */
  ghost predicate Shows(env: Env, cat: Catalogue, c: Contribution) {
    && Decodes(env, cat, c.sequence)
    && (var d := DecodeBatch(cat.generations, env.stream(c.sequence).batch).batch;
        && c.rows == RowsShown(d.registrySeq, d.samples, cat.keys)
        && c.events == ParseAll(env, LapTexts(Kept(d.registrySeq, d.samples, cat.keys))))
  }

  /** `c` is what the stream's message of that sequence decodes to, against some registries of the stream. */
  ghost predicate Genuine(env: Env, c: Contribution) { exists cat :: Learnt(env, cat) && Shows(env, cat, c) }

  lemma ShowsIffContents(env: Env, cat: Catalogue, c: Contribution)
    ensures Shows(env, cat, c) <==> Decodes(env, cat, c.sequence) && c == Contents(env, cat, c.sequence)
  {
    if Decodes(env, cat, c.sequence) {
      var d := DecodeBatch(cat.generations, env.stream(c.sequence).batch).batch;
      RowsAreKeptSamples(d.registrySeq, d.samples, cat.keys);
    }
  }

  ghost predicate AllGenuine(env: Env, cs: seq<Contribution>) { forall i :: 0 <= i < |cs| ==> Genuine(env, cs[i]) }

  ghost predicate Sourced(env: Env, s: System) {
    && Learnt(env, s.w.cat) && AllGenuine(env, s.db.log) && AllGenuine(env, s.w.buf)
    && forall i :: 0 <= i < |s.past| ==> Genuine(env, s.past[i].c)
  }

  lemma TakenIsGenuine(env: Env, w: Writer, q: nat)
    requires Learnt(env, w.cat) && Classify(env, w, q).Buffered?
    ensures Genuine(env, Taken(env, w, q))
  {
    ShowsIffContents(env, w.cat, Taken(env, w, q));
  }

  lemma HandleSourced(env: Env, s: System, q: nat)
    requires Sourced(env, s)
    ensures Sourced(env, Handle(env, s, q))
  {
    match Classify(env, s.w, q)
    case Buffered =>
      TakenIsGenuine(env, s.w, q);
      GenuineSnoc(env, s.w.buf, Taken(env, s.w, q));
    case Applied => LearntOneMore(env, s.w.cat, q);
    case _ =>
  }

  lemma GenuineSnoc(env: Env, cs: seq<Contribution>, c: Contribution)
    requires AllGenuine(env, cs) && Genuine(env, c)
    ensures AllGenuine(env, cs + [c])
  {
  }

  lemma {:induction false} HandleAllSourced(env: Env, s: System, ms: seq<nat>)
    requires Sourced(env, s)
    ensures Sourced(env, HandleAll(env, s, ms))
    decreases |ms|
  {
    if |ms| > 0 && !Classify(env, s.w, ms[0]).Stalled? {
      HandleSourced(env, s, ms[0]);
      HandleAllSourced(env, Handle(env, s, ms[0]), ms[1..]);
    }
  }

  lemma FlushSourced(env: Env, s: System, outcome: Outcome)
    requires Sourced(env, s)
    ensures Sourced(env, Flush(s, outcome))
  {
    assert forall i :: 0 <= i < |s.w.buf| ==> Genuine(env, s.w.buf[i]);
  }

  lemma StepSourced(env: Env, s: System, step: Step)
    requires Sourced(env, s) && Enabled(env, s, step)
    ensures Sourced(env, Next(env, s, step))
  {
    match step
    case Fetch(ms) => HandleAllSourced(env, s, ms);
    case Resume => HandleAllSourced(env, s.(w := s.w.(held := [])), s.w.held);
    case DoFlush(outcome) => FlushSourced(env, s, outcome);
    case Scan(at) => LearntOneMore(env, s.w.cat, at);
    case Crash => NothingLearnt(env);
  }

  /** Over every run, everything logged, buffered or dropped is genuine. */
  lemma {:induction false} RunSourced(env: Env, trace: seq<System>, steps: seq<Step>, k: nat)
    requires Run(env, trace, steps) && k < |trace|
    ensures Sourced(env, trace[k])
  {
    if k > 0 {
      RunSourced(env, trace, steps, k - 1);
      StepSourced(env, trace[k - 1], steps[k - 1]);
    } else {
      NothingLearnt(env);
    }
  }

  // ----- determined by the stream --------------------------------------------

  /** What the agent guarantees of its registries: no `registry_seq` names two channel sets. */
  ghost predicate OneSetPerSeq(env: Env) {
    forall p, q :: env.stream(p).RegistryMsg? && env.stream(q).RegistryMsg? &&
                   env.stream(p).registry.registrySeq == env.stream(q).registry.registrySeq ==>
                     env.stream(p).registry == env.stream(q).registry
  }

  function KeyOf(keys: map<WireKey, string>, generation: nat, id: nat): Option<string> {
    if WireKey(generation, id) in keys then Some(keys[WireKey(generation, id)]) else None
  }

  function NameOf(channels: map<nat, Channel>, id: nat): Option<string> {
    if id in channels then Some(channels[id].name) else None
  }

  /** The catalogue knows generation `r` as it was published, keys included. */
  ghost predicate KnowsAs(cat: Catalogue, r: ChannelRegistry) {
    && r.registrySeq in cat.generations && cat.generations[r.registrySeq] == ChannelsById(r.channels)
    && forall id: nat :: KeyOf(cat.keys, r.registrySeq, id) == NameOf(ChannelsById(r.channels), id)
  }

  ghost predicate KnowsNot(cat: Catalogue, generation: nat) {
    generation !in cat.generations && forall id: nat :: KeyOf(cat.keys, generation, id) == None
  }

  lemma LearnKeys(cat: Catalogue, r: ChannelRegistry, generation: nat, id: nat)
    ensures var keys, channels := Learn(cat, r).keys, ChannelsById(r.channels);
            KeyOf(keys, generation, id) ==
              if generation == r.registrySeq && id in channels then NameOf(channels, id) else KeyOf(cat.keys, generation, id)
  {
    var byId := ChannelsById(r.channels);
    assert WireKey(generation, id) in (set i | i in byId :: WireKey(r.registrySeq, i)) <==>
           generation == r.registrySeq && id in byId;
  }

  lemma LearnSame(cat: Catalogue, r: ChannelRegistry)
    requires KnowsAs(cat, r) || KnowsNot(cat, r.registrySeq)
    ensures KnowsAs(Learn(cat, r), r)
  {
    forall id: nat ensures KeyOf(Learn(cat, r).keys, r.registrySeq, id) == NameOf(ChannelsById(r.channels), id) {
      LearnKeys(cat, r, r.registrySeq, id);
    }
  }

  lemma LearnOther(cat: Catalogue, r: ChannelRegistry, other: ChannelRegistry)
    requires other.registrySeq != r.registrySeq
    ensures KnowsAs(cat, r) ==> KnowsAs(Learn(cat, other), r)
    ensures KnowsNot(cat, r.registrySeq) ==> KnowsNot(Learn(cat, other), r.registrySeq)
  {
    forall id: nat ensures KeyOf(Learn(cat, other).keys, r.registrySeq, id) == KeyOf(cat.keys, r.registrySeq, id) {
      LearnKeys(cat, other, r.registrySeq, id);
    }
  }

  lemma {:induction false} LearntAsPublished(env: Env, ps: seq<nat>, p: nat)
    requires OneSetPerSeq(env) && Registries(env, ps) && env.stream(p).RegistryMsg?
    ensures var r := env.stream(p).registry;
            KnowsAs(LearnAll(env, ps), r) || KnowsNot(LearnAll(env, ps), r.registrySeq)
  {
    if |ps| > 0 {
      var cat, last, r := LearnAll(env, ps[..|ps| - 1]), env.stream(ps[|ps| - 1]).registry, env.stream(p).registry;
      LearntAsPublished(env, ps[..|ps| - 1], p);
      if last.registrySeq == r.registrySeq {
        assert last == r;
        LearnSame(cat, r);
      } else {
        LearnOther(cat, r, last);
      }
    }
  }

  lemma {:induction false} RowsAlike(generation: nat, samples: seq<DecodedSample>, keys: map<WireKey, string>, keys': map<WireKey, string>)
    requires forall id: nat :: KeyOf(keys, generation, id) == KeyOf(keys', generation, id)
    ensures RowsFromSamples(generation, samples, keys) == RowsFromSamples(generation, samples, keys')
  {
    if |samples| > 0 {
      RowsAlike(generation, samples[..|samples| - 1], keys, keys');
      var id := samples[|samples| - 1].channel.id;
      assert KeyOf(keys, generation, id) == KeyOf(keys', generation, id);
    }
  }

  lemma ContentsAlike(env: Env, cat: Catalogue, cat': Catalogue, q: nat, r: ChannelRegistry)
    requires KnowsAs(cat, r) && KnowsAs(cat', r) && Decodes(env, cat, q) && env.stream(q).batch.registrySeq == r.registrySeq
    ensures Decodes(env, cat', q) && Contents(env, cat, q) == Contents(env, cat', q)
  {
    var d := DecodeBatch(cat.generations, env.stream(q).batch).batch;
    assert DecodeBatch(cat'.generations, env.stream(q).batch) == DecodeBatch(cat.generations, env.stream(q).batch);
    forall id: nat ensures KeyOf(cat.keys, r.registrySeq, id) == KeyOf(cat'.keys, r.registrySeq, id) {
      assert KeyOf(cat.keys, r.registrySeq, id) == NameOf(ChannelsById(r.channels), id);
    }
    RowsAlike(r.registrySeq, d.samples, cat.keys, cat'.keys);
  }

  /** The registry at `p` is the one batch `q` was encoded under. */
  ghost predicate RegistryFor(env: Env, p: nat, q: nat) {
    env.stream(p).RegistryMsg? && env.stream(q).BatchMsg? && env.stream(p).registry.registrySeq == env.stream(q).batch.registrySeq
  }

  /**
   Where no `registry_seq` names two sets, a genuine contribution is the
   message decoded against its own registry, whatever else was learnt and in
   whatever order: the stream alone determines it.
   */
  lemma GenuineIsDetermined(env: Env, c: Contribution, p: nat)
    requires OneSetPerSeq(env) && Genuine(env, c) && RegistryFor(env, p, c.sequence)
    ensures Shows(env, Learn(NoCatalogue, env.stream(p).registry), c)
  {
    var cat :| Learnt(env, cat) && Shows(env, cat, c);
    ShowsIffContents(env, cat, c);
    var ps :| Registries(env, ps) && LearnAll(env, ps) == cat;
    var r := env.stream(p).registry;
    LearntAsPublished(env, ps, p);
    LearnSame(NoCatalogue, r);
    ContentsAlike(env, cat, Learn(NoCatalogue, r), c.sequence, r);
    ShowsIffContents(env, Learn(NoCatalogue, r), c);
  }
}
