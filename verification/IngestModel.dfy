/**
 The pit's durable consumer as a step system (`src/pit/ingest_writer/writer.py`
 with `src/pit/ingest_writer/store.py` as one atomic database step).

 A message is named by its stream sequence, so a redelivery is the same message
 again. The system keeps, beside the writer and the database, what became of
 every batch this run has taken in; the theorems read their claims off that.
 */
module IngestModel {
  import opened Basics
  import opened Wire
  import opened RegistryCache
  import T = LapTable

  datatype Body = RegistryMsg(registry: ChannelRegistry) | BatchMsg(batch: SampleBatch)

  /** The stream's content by sequence, and the parser for `lap.event` payloads. */
  datatype Env = Env(stream: nat -> Body, parse: string -> T.Payload)

  // ----- rows of a batch -----------------------------------------------------

  /** One `samples` row; channel keys are per channel name. */
  datatype Row = Row(timeMs: real, key: string, number: Option<real>, text: Option<string>)

  datatype WireKey = WireKey(generation: nat, id: nat)

  datatype BatchRows = BatchRows(rows: seq<Row>, lapEvents: seq<string>, agentStatus: bool, dropped: nat, unresolved: nat)

  function NumberOf(v: Value): Option<real> {
    match v
    case Real(r) => Some(r)
    case Integer(i) => Some(i as real)
    case Flag(b) => Some(if b then 1.0 else 0.0)
    case Str(_) => None
  }

  function AddSample(b: BatchRows, generation: nat, s: DecodedSample, keys: map<WireKey, string>): BatchRows {
    var k := WireKey(generation, s.channel.id);
    if k !in keys then b.(unresolved := b.unresolved + 1)
    else if s.value.None? then b.(dropped := b.dropped + 1)
    else
      var v := s.value.value;
      var text := if v.Str? then Some(v.s) else None;
      var isLap := s.channel.name == "lap.event" && v.Str?;
      b.(rows := b.rows + [Row(s.captureMs, keys[k], NumberOf(v), text)],
         lapEvents := if isLap then b.lapEvents + [v.s] else b.lapEvents,
         agentStatus := b.agentStatus || (!isLap && s.channel.name == "sys.agent.status"))
  }

  /** `rows_from_batch`. */
  function RowsFromSamples(generation: nat, samples: seq<DecodedSample>, keys: map<WireKey, string>): (b: BatchRows)
    ensures |b.rows| + b.dropped + b.unresolved == |samples|
  {
    if |samples| == 0 then BatchRows([], [], false, 0, 0)
    else AddSample(RowsFromSamples(generation, samples[..|samples| - 1], keys), generation, samples[|samples| - 1], keys)
  }

  // ----- the writer and the database -----------------------------------------

  /** Registry generations with the channel keys recorded for them. */
  datatype Catalogue = Catalogue(generations: Generations, keys: map<WireKey, string>)

  function Learn(cat: Catalogue, r: ChannelRegistry): Catalogue {
    var byId := ChannelsById(r.channels);
    Catalogue(Added(cat.generations, r),
              cat.keys + map k: WireKey | k in (set id | id in byId :: WireKey(r.registrySeq, id)) :: byId[k.id].name)
  }

  /** What one batch puts into the buffer: its rows, and the lap events folded for it. */
  datatype Contribution = Contribution(sequence: nat, rows: seq<Row>, events: seq<T.Payload>)

  /** `buf` names the batches behind `rows`, `pending` and `buffered`; the writer itself does not keep it. */
  datatype Writer = Writer(
    cat: Catalogue, cursor: nat, maxSeq: nat, rows: seq<Row>, pending: seq<nat>, buffered: set<nat>,
    buf: seq<Contribution>, table: T.Table, lapRows: seq<T.LapRow>, pitUpdates: seq<T.Output>, held: seq<nat>,
    droppedFlushes: nat, lapsDropped: nat)

  /** `log`: the batches whose rows make up the `samples` table, in commit order. */
  datatype Db = Db(samples: seq<Row>, log: seq<Contribution>, laps: seq<T.LapRow>, pits: seq<T.Output>, cursor: nat)

  function Seqs(cs: seq<Contribution>): (r: seq<nat>) { seq(|cs|, i requires 0 <= i < |cs| => cs[i].sequence) }

  function RowsOf(cs: seq<Contribution>): (rows: seq<Row>)
  {
    if |cs| == 0 then [] else RowsOf(cs[..|cs| - 1]) + cs[|cs| - 1].rows
  }

  function EventsOf(cs: seq<Contribution>): (es: seq<T.Payload>)
  {
    if |cs| == 0 then [] else EventsOf(cs[..|cs| - 1]) + cs[|cs| - 1].events
  }

  const NoCatalogue := Catalogue(map[], map[])

  function Fresh(cursor: nat): Writer {
    Writer(NoCatalogue, cursor, cursor, [], [], {}, [], T.Empty, [], [], [], 0, 0)
  }

  function ParseAll(env: Env, texts: seq<string>): (ps: seq<T.Payload>) {
    seq(|texts|, i requires 0 <= i < |texts| => env.parse(texts[i]))
  }

  function Contributed(env: Env, cat: Catalogue, q: nat, d: DecodedBatch): Contribution {
    var b := RowsFromSamples(d.registrySeq, d.samples, cat.keys);
    Contribution(q, b.rows, ParseAll(env, b.lapEvents))
  }

  /** The pit-status updates folding `ps` gives. */
  function Pits(t: T.Table, ps: seq<T.Payload>): (out: seq<T.Output>)
  {
    if |ps| == 0 then []
    else
      var o := T.Observe(T.Run(t, ps[..|ps| - 1]), ps[|ps| - 1]).1;
      Pits(t, ps[..|ps| - 1]) + if o.PitUpdate? then [o] else []
  }

  // ----- the system ----------------------------------------------------------

  /** What became of a batch once its flush was over. */
  datatype Fate = Fate(c: Contribution, committed: bool)

  /**
   `start`: the cursor this run began with. `past`: batches of this run whose
   flush is over. `bad`: sequences dropped for their format version. `heard`:
   every message handled to the end this run, in order. `acks`: what this run
   has acknowledged; `before`: what earlier runs had. `book`: what became of the
   lap rows and pit updates of this run.
   */
  datatype System = System(
    w: Writer, db: Db, start: nat, past: seq<Fate>, bad: set<nat>, heard: seq<nat>, acks: set<nat>, before: set<nat>,
    book: Book)

  /** One lap row or pit update whose flush is over, and whether it was written. */
  datatype Filed<X> = Filed(x: X, written: bool)

  /** `lapsAt`, `pitsAt`: how much of the two tables was there when this run began. */
  datatype Book = Book(lapsAt: nat, laps: seq<Filed<T.LapRow>>, pitsAt: nat, pits: seq<Filed<T.Output>>)

  function File<X>(xs: seq<X>, written: bool): (fs: seq<Filed<X>>) {
    seq(|xs|, i requires 0 <= i < |xs| => Filed(xs[i], written))
  }

  /** Every message ever acknowledged; the stream does not deliver these again of its own accord. */
  function Acked(s: System): set<nat> { s.before + s.acks }

  function Boot(db: Db, acked: set<nat>): System {
    System(Fresh(db.cursor), db, db.cursor, [], {}, [], {}, acked, Book(|db.laps|, [], |db.pits|, []))
  }

  const Genesis := Boot(Db([], [], [], [], 0), {})

  /** The batches this run has taken in, in the order it took them in. */
  function Order(s: System): seq<Contribution> { seq(|s.past|, i requires 0 <= i < |s.past| => s.past[i].c) + s.w.buf }

  // ----- handling ------------------------------------------------------------

  datatype Handling = Skipped | Applied | Refused | Buffered | Stalled

  function Classify(env: Env, w: Writer, q: nat): Handling {
    if q <= w.cursor || q in w.buffered then Skipped
    else
      match env.stream(q)
      case RegistryMsg(_) => Applied
      case BatchMsg(b) =>
        match DecodeBatch(w.cat.generations, b)
        case BadVersion => Refused
        case UnknownSeq => Stalled
        case Decoded(_) => Buffered
  }

  predicate Decodes(env: Env, cat: Catalogue, q: nat) {
    env.stream(q).BatchMsg? && DecodeBatch(cat.generations, env.stream(q).batch).Decoded?
  }

  /** What the batch at `q` contributes when decoded against `cat`. */
  function Contents(env: Env, cat: Catalogue, q: nat): Contribution
    requires Decodes(env, cat, q)
  {
    Contributed(env, cat, q, DecodeBatch(cat.generations, env.stream(q).batch).batch)
  }

  /** The contribution of a batch that can be decoded now. */
  function Taken(env: Env, w: Writer, q: nat): Contribution
    requires Classify(env, w, q).Buffered?
  {
    Contents(env, w.cat, q)
  }

  function Take(w: Writer, c: Contribution): Writer {
    w.(rows := w.rows + c.rows, pending := w.pending + [c.sequence], buffered := w.buffered + {c.sequence},
       buf := w.buf + [c], table := T.Run(w.table, c.events), lapRows := w.lapRows + T.Rows(w.table, c.events),
       pitUpdates := w.pitUpdates + Pits(w.table, c.events), maxSeq := Max(w.maxSeq, c.sequence))
  }

  /** `_handle`: one message; a stalled one changes nothing. */
  function Handle(env: Env, s: System, q: nat): System {
    match Classify(env, s.w, q)
    case Stalled => s
    case Skipped => s.(heard := s.heard + [q], acks := s.acks + {q})
    case Applied =>
      s.(w := s.w.(cat := Learn(s.w.cat, env.stream(q).registry)), heard := s.heard + [q], acks := s.acks + {q})
    case Refused =>
      s.(w := s.w.(maxSeq := Max(s.w.maxSeq, q)), bad := s.bad + {q}, heard := s.heard + [q], acks := s.acks + {q})
    case Buffered => s.(w := Take(s.w, Taken(env, s.w, q)), heard := s.heard + [q])
  }

  /** `_handle_all`: in order, up to the first stall; that message and the rest are held. */
  function HandleAll(env: Env, s: System, ms: seq<nat>): (s': System)
    decreases |ms|
  {
    if |ms| == 0 then s
    else if Classify(env, s.w, ms[0]).Stalled? then s.(w := s.w.(held := ms))
    else HandleAll(env, Handle(env, s, ms[0]), ms[1..])
  }

  // ----- flushing ------------------------------------------------------------

  /**
   What the database did with a flush: committed it; was unavailable; rejected
   it and then committed, was unavailable for, or rejected the retry without
   lap rows. `Landed` is the case the writer does not provide for: the commit,
   with lap rows or (on the retry) without, took effect and the connection
   failed before saying so.
   */
  datatype Outcome = Committed | Unavailable | RetryCommitted | RetryUnavailable | RejectedTwice | Landed(laps: bool)

  predicate PendingWork(w: Writer) {
    w.rows != [] || w.lapRows != [] || w.pitUpdates != [] || w.maxSeq > w.cursor
  }

  /** The database transaction: rows in, and the cursor up to `maxSeq` if that is further. */
  function Commit(db: Db, w: Writer, laps: bool): Db {
    Db(db.samples + w.rows, db.log + w.buf, if laps then db.laps + w.lapRows else db.laps, if laps then db.pits + w.pitUpdates else db.pits,
       if w.maxSeq > 0 then Max(db.cursor, w.maxSeq) else db.cursor)
  }

  function Discard(w: Writer): Writer {
    w.(cursor := Max(w.cursor, w.maxSeq), rows := [], pending := [], buffered := {}, buf := [], lapRows := [], pitUpdates := [])
  }

  function Fates(cs: seq<Contribution>, committed: bool): (fs: seq<Fate>) {
    seq(|cs|, i requires 0 <= i < |cs| => Fate(cs[i], committed))
  }

  function Settle(s: System, db: Db, committed: bool, laps: bool): System {
    s.(w := Discard(s.w), db := db, past := s.past + Fates(s.w.buf, committed), acks := s.acks + s.w.buffered,
       book := s.book.(laps := s.book.laps + File(s.w.lapRows, laps), pits := s.book.pits + File(s.w.pitUpdates, laps)))
  }

  /** `_flush`. */
  function Flush(s: System, outcome: Outcome): System {
    if !PendingWork(s.w) then s
    else
      match outcome
      case Committed => Settle(s, Commit(s.db, s.w, true), true, true)
      case RetryCommitted =>
        var s' := Settle(s, Commit(s.db, s.w, false), true, false);
        s'.(w := s'.w.(lapsDropped := s.w.lapsDropped + |s.w.lapRows|))
      case RejectedTwice =>
        var s' := Settle(s, s.db, false, false);
        s'.(w := s'.w.(lapsDropped := s.w.lapsDropped + |s.w.lapRows|, droppedFlushes := s.w.droppedFlushes + 1))
      case Unavailable => s
      case RetryUnavailable => s
      case Landed(laps) => s.(db := Commit(s.db, s.w, laps))
  }

  // ----- steps and runs ------------------------------------------------------

  /** A fetch; another pass over the held messages; a flush; a registry a scan finds on the stream; a crash with restart. */
  datatype Step = Fetch(ms: seq<nat>) | Resume | DoFlush(outcome: Outcome) | Scan(at: nat) | Crash

  /** While messages are held nothing new is fetched. */
  predicate Enabled(env: Env, s: System, step: Step) {
    match step
    case Fetch(_) => s.w.held == []
    case Resume => s.w.held != []
    case Scan(at) => env.stream(at).RegistryMsg?
    case _ => true
  }

  function Next(env: Env, s: System, step: Step): System
    requires Enabled(env, s, step)
  {
    match step
    case Fetch(ms) => HandleAll(env, s, ms)
    case Resume => HandleAll(env, s.(w := s.w.(held := [])), s.w.held)
    case DoFlush(outcome) => Flush(s, outcome)
    case Scan(at) => s.(w := s.w.(cat := Learn(s.w.cat, env.stream(at).registry)))
    case Crash => Boot(s.db, Acked(s))
  }

  /** Assumption (a): a flush that raises has committed nothing. */
  predicate Atomic(step: Step) { !(step.DoFlush? && step.outcome.Landed?) }

  ghost predicate Run(env: Env, trace: seq<System>, steps: seq<Step>) {
    && |trace| == |steps| + 1 && trace[0] == Genesis
    && forall k :: 0 <= k < |steps| ==>
         Enabled(env, trace[k], steps[k]) && Atomic(steps[k]) && trace[k + 1] == Next(env, trace[k], steps[k])
  }

  /** A run without assumption (a): flushes may land and raise all the same. */
  ghost predicate AnyRun(env: Env, trace: seq<System>, steps: seq<Step>) {
    && |trace| == |steps| + 1 && trace[0] == Genesis
    && forall k :: 0 <= k < |steps| ==> Enabled(env, trace[k], steps[k]) && trace[k + 1] == Next(env, trace[k], steps[k])
  }
}
