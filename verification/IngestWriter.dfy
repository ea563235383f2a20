/**
 The ingest writer and its store as objects (`src/pit/ingest_writer/writer.py`,
 `src/pit/ingest_writer/store.py`), doing step by step what `IngestModel`
 describes.

 The writer carries the run of the step system it has performed so far; each
 pass of its loop extends that run. Everything proved about runs therefore
 holds of the objects at every pass.
 */
module IngestWriter {
  import opened Basics
  import opened Wire
  import opened RegistryCache
  import opened IngestModel
  import C = IngestContents
  import S = IngestSafety
  import T = LapTable

  // ----- the store -----------------------------------------------------------

  datatype Status = Ok | Down | Refuses

  class TimescaleStore {
    var samples: seq<Row>
    var laps: seq<T.LapRow>
    var pits: seq<T.Output>
    var cursor: nat
    /** Which batches the `samples` rows came from. */
    ghost var log: seq<Contribution>

    ghost function View(): Db
      reads this
    {
      Db(samples, log, laps, pits, cursor)
    }

    constructor ()
      ensures View() == Db([], [], [], [], 0)
    {
      samples, laps, pits, cursor, log := [], [], [], 0, [];
    }

    /** `read_cursor`. */
    method ReadCursor() returns (n: nat)
      ensures n == cursor
    {
      n := cursor;
    }

    /**
     `flush`: one transaction. What the database decides is not ours to choose;
     it commits everything or, if it raises, nothing.
     */
    method Flush(rows: seq<Row>, lapRows: seq<T.LapRow>, pitUpdates: seq<T.Output>, streamSeq: nat,
                 ghost batch: seq<Contribution>) returns (status: Status)
      modifies this
      ensures status.Ok? ==>
        View() == Db(old(samples) + rows, old(log) + batch, old(laps) + lapRows, old(pits) + pitUpdates,
                     if streamSeq > 0 then Max(old(cursor), streamSeq) else old(cursor))
      ensures !status.Ok? ==> View() == old(View())
    {
      status := *;
      if status.Ok? {
        samples := samples + rows;
        laps := laps + lapRows;
        pits := pits + pitUpdates;
        if streamSeq > 0 && cursor < streamSeq {
          cursor := streamSeq;
        }
        log := log + batch;
      }
    }
  }

  // ----- rows_from_batch -----------------------------------------------------

  /** `rows_from_batch`. */
  method RowsFromBatch(d: DecodedBatch, keys: map<WireKey, string>) returns (b: BatchRows)
    ensures b == RowsFromSamples(d.registrySeq, d.samples, keys)
  {
    b := BatchRows([], [], false, 0, 0);
    for i := 0 to |d.samples|
      invariant b == RowsFromSamples(d.registrySeq, d.samples[..i], keys)
    {
      assert d.samples[..i + 1][..i] == d.samples[..i];
      var s := d.samples[i];
      var k := WireKey(d.registrySeq, s.channel.id);
      if k !in keys {
        b := b.(unresolved := b.unresolved + 1);
      } else if s.value.None? {
        b := b.(dropped := b.dropped + 1);
      } else {
        var v := s.value.value;
        var text := if v.Str? then Some(v.s) else None;
        b := b.(rows := b.rows + [Row(s.captureMs, keys[k], NumberOf(v), text)]);
        if s.channel.name == "lap.event" && v.Str? {
          b := b.(lapEvents := b.lapEvents + [v.s]);
        } else if s.channel.name == "sys.agent.status" {
          b := b.(agentStatus := true);
        }
      }
    }
    assert d.samples[..|d.samples|] == d.samples;
  }

  /** The loop over `_materialise_lap`: fold the events, collect the rows and updates they complete. */
  method MaterialiseLaps(env: Env, table: T.Table, texts: seq<string>)
    returns (table': T.Table, lapRows: seq<T.LapRow>, pits: seq<T.Output>)
    ensures table' == T.Run(table, ParseAll(env, texts))
    ensures lapRows == T.Rows(table, ParseAll(env, texts)) && pits == Pits(table, ParseAll(env, texts))
  {
    ghost var all := ParseAll(env, texts);
    table', lapRows, pits := table, [], [];
    for i := 0 to |texts|
      invariant table' == T.Run(table, all[..i]) && lapRows == T.Rows(table, all[..i]) && pits == Pits(table, all[..i])
    {
      assert all[..i + 1][..i] == all[..i] && all[..i + 1][i] == env.parse(texts[i]);
      var (next, out) := T.Observe(table', env.parse(texts[i]));
      table' := next;
      if out.Lap? {
        lapRows := lapRows + [out.row];
      } else if out.PitUpdate? {
        pits := pits + [out];
      }
    }
    assert all[..|texts|] == all;
  }

  // ----- the writer ----------------------------------------------------------

  /** What a flush carries and `_discard` clears: `_rows`, `_lap_rows`, `_pit_updates`, `_pending` and `_buffered`. */
  datatype Buffer = Buffer(rows: seq<Row>, lapRows: seq<T.LapRow>, pitUpdates: seq<T.Output>, pending: seq<nat>,
                           buffered: set<nat>)

  const EmptyBuffer := Buffer([], [], [], [], {})

  /** The steps grew by one flush. */
  ghost predicate Flushed(before: seq<Step>, after: seq<Step>) {
    before <= after && |after| == |before| + 1 && after[|before|].DoFlush?
  }

  ghost predicate Landing(outcome: Outcome) { outcome.Committed? || outcome.RetryCommitted? }

  /** The steps grew by `first` and, if `flush`, by one flush after it. */
  ghost predicate Passed(before: seq<Step>, after: seq<Step>, first: Step, flush: bool) {
    if flush then Flushed(before + [first], after) else after == before + [first]
  }

  /** One scan step for each registry found. */
  ghost function Scans(found: seq<nat>): (steps: seq<Step>) { seq(|found|, i requires 0 <= i < |found| => Scan(found[i])) }

  lemma ScansMore(before: seq<Step>, found: seq<nat>, i: nat)
    requires i < |found|
    ensures before + Scans(found[..i + 1]) == before + Scans(found[..i]) + [Scan(found[i])]
  {
  }

  lemma PassedWithFlush(before: seq<Step>, handled: seq<Step>, after: seq<Step>, first: Step)
    requires handled == before + [first] && Flushed(handled, after)
    ensures Passed(before, after, first, true)
  {
  }

  class Writer {
    const env: Env
    const store: TimescaleStore
    const cache: Cache
    /** The state of the lap materialiser, whose `observe` is `LapTable.Observe`. */
    var laps: T.Table
    var keys: map<WireKey, string>
    var cursor: nat
    var maxSeq: nat
    var buffer: Buffer
    var held: seq<nat>
    var droppedFlushes: nat
    var lapsDropped: nat
    ghost var sys: System
    ghost var trace: seq<System>
    ghost var steps: seq<Step>

    /** The fields are those of the model's writer. */
    ghost predicate Tied()
      reads this, store, cache
    {
      && store.View() == sys.db
      && Catalogue(cache.channels, keys) == sys.w.cat
      && cursor == sys.w.cursor && maxSeq == sys.w.maxSeq && held == sys.w.held
      && buffer == Buffer(sys.w.rows, sys.w.lapRows, sys.w.pitUpdates, sys.w.pending, sys.w.buffered)
      && laps == sys.w.table
      && droppedFlushes == sys.w.droppedFlushes && lapsDropped == sys.w.lapsDropped
    }

    /** ... and the model has got here by a run of the step system. */
    ghost predicate Valid()
      reads this, store, cache
    {
      Tied() && Run(env, trace, steps) && sys == trace[|steps|]
    }

    /** A process start: read the cursor, forget everything else. */
    constructor (env: Env, store: TimescaleStore, ghost trace0: seq<System>, ghost steps0: seq<Step>)
      requires Run(env, trace0, steps0) && store.View() == trace0[|steps0|].db
      ensures Valid() && this.store == store && this.env == env && fresh(cache) && cursor == store.cursor && held == []
      ensures steps == steps0 + [Crash] && sys == Boot(store.View(), Acked(trace0[|steps0|]))
    {
      this.env, this.store := env, store;
      cache := new Cache();
      keys, buffer, laps, held := map[], EmptyBuffer, T.Empty, [];
      droppedFlushes, lapsDropped := 0, 0;
      sys := Boot(trace0[|steps0|].db, Acked(trace0[|steps0|]));
      trace := trace0 + [Boot(trace0[|steps0|].db, Acked(trace0[|steps0|]))];
      steps := steps0 + [Crash];
      var c := store.ReadCursor();
      cursor, maxSeq := c, c;
      new;
      S.RunExtends(env, trace0, steps0, Crash);
    }

    /** `_apply_registry`, once the database has recorded the generation. */
    method ApplyRegistry(r: ChannelRegistry)
      requires Tied()
      modifies this`keys, this`sys, cache
      ensures Tied() && sys == old(sys).(w := old(sys).w.(cat := Learn(old(sys).w.cat, r)))
    {
      var g := cache.AddRegistry(r);
      var byId := cache.channels[r.registrySeq];
      keys := keys + map k: WireKey | k in (set id | id in byId :: WireKey(r.registrySeq, id)) :: byId[k.id].name;
      sys := sys.(w := sys.w.(cat := Learn(sys.w.cat, r)));
    }

    /** The last part of `_handle`: a converted batch goes into the buffer and its lap events are folded. */
    method BufferBatch(q: nat, converted: BatchRows)
      requires Tied()
      modifies this`buffer, this`maxSeq, this`sys, this`laps
      ensures Tied()
      ensures var c := Contribution(q, converted.rows, ParseAll(env, converted.lapEvents));
              sys == old(sys).(w := Take(old(sys).w, c), heard := old(sys).heard + [q])
    {
      var table, lapRows, pits := MaterialiseLaps(env, laps, converted.lapEvents);
      buffer := Buffer(buffer.rows + converted.rows, buffer.lapRows + lapRows, buffer.pitUpdates + pits,
                       buffer.pending + [q], buffer.buffered + {q});
      laps, maxSeq := table, Max(maxSeq, q);
      sys := sys.(w := Take(sys.w, Contribution(q, converted.rows, ParseAll(env, converted.lapEvents))),
                  heard := sys.heard + [q]);
    }

    /** The batch part of `_handle`, past the two duplicate checks. */
    method HandleBatch(q: nat, b: SampleBatch) returns (stalled: bool)
      requires Tied() && q > sys.w.cursor && q !in sys.w.buffered && env.stream(q) == BatchMsg(b)
      modifies this, cache
      ensures Tied() && stalled == Classify(env, old(sys).w, q).Stalled? && sys == IngestModel.Handle(env, old(sys), q)
      ensures trace == old(trace) && steps == old(steps)
    {
      var decoded := cache.DecodeOrReason(b);
      stalled := false;
      match decoded {
        case UnknownSeq =>
          stalled := true;
        case BadVersion =>
          maxSeq := Max(maxSeq, q);
          sys := IngestModel.Handle(env, sys, q);
        case Decoded(d) =>
          var converted := RowsFromBatch(d, keys);
          BufferBatch(q, converted);
      }
    }

    /** `_handle`: one message; true if it must wait for its registry. */
    method Handle(q: nat) returns (stalled: bool)
      requires Tied()
      modifies this, cache
      ensures Tied() && stalled == Classify(env, old(sys).w, q).Stalled? && sys == IngestModel.Handle(env, old(sys), q)
      ensures trace == old(trace) && steps == old(steps)
    {
      stalled := false;
      if q <= cursor || q in buffer.buffered {
        sys := IngestModel.Handle(env, sys, q);
      } else if env.stream(q).RegistryMsg? {
        ApplyRegistry(env.stream(q).registry);
        sys := sys.(heard := sys.heard + [q], acks := sys.acks + {q});
      } else {
        stalled := HandleBatch(q, env.stream(q).batch);
      }
    }

    /** The loop of `_handle_all`: in order up to the first stall, holding that message and the rest. */
    method HandleAll(ms: seq<nat>) returns (stalled: bool)
      requires Tied() && held == []
      modifies this, cache
      ensures Tied() && sys == IngestModel.HandleAll(env, old(sys), ms) && stalled == (held != [])
      ensures trace == old(trace) && steps == old(steps)
    {
      ghost var s0 := sys;
      for i := 0 to |ms|
        invariant Tied() && held == [] && trace == old(trace) && steps == old(steps)
        invariant IngestModel.HandleAll(env, s0, ms) == IngestModel.HandleAll(env, sys, ms[i..])
      {
        ghost var before := sys;
        assert ms[i..][1..] == ms[i + 1..];
        var stall := Handle(ms[i]);
        if stall {
          held := ms[i..];
          sys := sys.(w := sys.w.(held := ms[i..]));
          return true;
        }
      }
      assert ms[|ms|..] == [];
      stalled := false;
    }

    /** Everything but the buffer is that of the model's writer, and the database is `db`. */
    ghost predicate TiedBut(db: Db)
      reads this, store, cache
    {
      && store.View() == db
      && Catalogue(cache.channels, keys) == sys.w.cat
      && cursor == sys.w.cursor && maxSeq == sys.w.maxSeq && held == sys.w.held && laps == sys.w.table
      && droppedFlushes == sys.w.droppedFlushes && lapsDropped == sys.w.lapsDropped
    }

    /** `_discard`, with the cursor moved and every pending message acknowledged. */
    method Finish(ghost db: Db, ghost committed: bool, ghost withLaps: bool)
      requires TiedBut(db)
      modifies this`cursor, this`buffer, this`sys
      ensures Tied() && sys == Settle(old(sys), db, committed, withLaps)
    {
      cursor := Max(cursor, maxSeq);
      buffer := EmptyBuffer;
      sys := Settle(sys, db, committed, withLaps);
    }

    /** `_pending_work`. */
    method HasWork() returns (work: bool)
      requires Tied()
      ensures work == PendingWork(sys.w)
    {
      work := buffer.rows != [] || buffer.lapRows != [] || buffer.pitUpdates != [] || maxSeq > cursor;
    }

    /** `_write`, with or without the lap rows and pit updates. */
    method Write(withLaps: bool) returns (status: Status)
      requires Tied()
      modifies store
      ensures if status.Ok? then TiedBut(Commit(sys.db, sys.w, withLaps)) else Tied()
    {
      if withLaps {
        status := store.Flush(buffer.rows, buffer.lapRows, buffer.pitUpdates, maxSeq, sys.w.buf);
      } else {
        status := store.Flush(buffer.rows, [], [], maxSeq, sys.w.buf);
      }
    }

    /** `_flush`: true unless the database refused; `outcome` is what it did. */
    method FlushBuffer() returns (ok: bool, ghost outcome: Outcome)
      requires Tied()
      modifies this, store
      ensures Tied() && sys == Flush(old(sys), outcome) && !outcome.Landed?
      ensures trace == old(trace) && steps == old(steps)
      ensures ok <==> !PendingWork(old(sys).w) || outcome.Committed? || outcome.RetryCommitted?
    {
      var work := HasWork();
      if !work {
        return true, Committed;
      }
      var status := Write(true);
      match status {
        case Down =>
          ok, outcome := false, Unavailable;
        case Ok =>
          Finish(Commit(sys.db, sys.w, true), true, true);
          ok, outcome := true, Committed;
        case Refuses =>
          ok, outcome := RetrySamplesOnly();
      }
    }

    /** The second attempt, without lap rows; refused again, the flush is dropped and counted. */
    method RetrySamplesOnly() returns (ok: bool, ghost outcome: Outcome)
      requires Tied() && PendingWork(sys.w)
      modifies this, store
      ensures Tied() && sys == Flush(old(sys), outcome)
      ensures outcome == RetryCommitted || outcome == RetryUnavailable || outcome == RejectedTwice
      ensures trace == old(trace) && steps == old(steps)
      ensures ok <==> outcome.RetryCommitted?
    {
      var retry := Write(false);
      match retry {
        case Down =>
          ok, outcome := false, RetryUnavailable;
        case Ok =>
          FinishWithoutLaps(Commit(sys.db, sys.w, false), true, 0);
          ok, outcome := true, RetryCommitted;
        case Refuses =>
          FinishWithoutLaps(sys.db, false, 1);
          ok, outcome := false, RejectedTwice;
      }
    }

    /** As `Finish`, counting the lap rows as dropped, and the flush too if it was. */
    method FinishWithoutLaps(ghost db: Db, ghost committed: bool, flushes: nat)
      requires TiedBut(db) && buffer.lapRows == sys.w.lapRows
      modifies this
      ensures Tied() && trace == old(trace) && steps == old(steps)
      ensures sys == Settle(old(sys), db, committed, false).(w := Discard(old(sys).w).(
                       lapsDropped := old(sys).w.lapsDropped + |old(sys).w.lapRows|,
                       droppedFlushes := old(sys).w.droppedFlushes + flushes))
    {
      var dropped := |buffer.lapRows|;
      Finish(db, committed, false);
      droppedFlushes := droppedFlushes + flushes;
      lapsDropped := lapsDropped + dropped;
      sys := sys.(w := sys.w.(lapsDropped := lapsDropped, droppedFlushes := droppedFlushes));
    }

    /** Record a finished step in the run. */
    ghost method Extend(step: Step)
      requires Tied() && Run(env, trace, steps) && Enabled(env, trace[|steps|], step) && Atomic(step)
      requires sys == Next(env, trace[|steps|], step)
      modifies this`trace, this`steps
      ensures Valid() && steps == old(steps) + [step] && sys == old(sys)
    {
      S.RunExtends(env, trace, steps, step);
      trace, steps := trace + [sys], steps + [step];
    }

    /** A flush as one step of the run. */
    method FlushStep() returns (ok: bool)
      requires Valid()
      modifies this, store
      ensures Valid() && Flushed(old(steps), steps)
      ensures ok <==> !PendingWork(old(sys).w) || Landing(steps[|old(steps)|].outcome)
    {
      ghost var outcome;
      ok, outcome := FlushBuffer();
      Extend(DoFlush(outcome));
    }

    /**
     One pass of `_consume`: the held messages if there are any, nothing while
     the buffer is full, otherwise what was fetched; then a flush if the pass
     stalled, the buffer is full, or one is due.
     */
    method Pass(fetched: seq<nat>, maxBuffered: nat, flushDue: bool) returns (stalled: bool)
      requires Valid()
      modifies this, store, cache
      ensures Valid()
      ensures if old(held) == [] && |old(buffer).rows| >= maxBuffered then Flushed(old(steps), steps)
              else Passed(old(steps), steps, if old(held) != [] then Resume else Fetch(fetched), stalled || flushDue)
    {
      stalled := false;
      if held == [] && |buffer.rows| >= maxBuffered {
        var ok := FlushStep();
        return;
      }
      stalled := HandleStep(fetched);
      if stalled || flushDue {
        ghost var handled := steps;
        var ok := FlushStep();
        PassedWithFlush(old(steps), handled, steps, if old(held) != [] then Resume else Fetch(fetched));
      }
    }

    /** `_scan_registries`: every retained generation is applied, in stream order. */
    method ScanRegistries(found: seq<nat>)
      requires Valid() && forall k :: 0 <= k < |found| ==> env.stream(found[k]).RegistryMsg?
      modifies this, cache
      ensures Valid() && steps == old(steps) + Scans(found)
    {
      for i := 0 to |found|
        invariant Valid() && steps == old(steps) + Scans(found[..i])
      {
        ScanOne(found[i]);
        ScansMore(old(steps), found, i);
      }
      assert found[..|found|] == found;
    }

    method ScanOne(at: nat)
      requires Valid() && env.stream(at).RegistryMsg?
      modifies this, cache
      ensures Valid() && steps == old(steps) + [Scan(at)]
    {
      ApplyRegistry(env.stream(at).registry);
      Extend(Scan(at));
    }

    /** The held messages if there are any, otherwise what was fetched. */
    method HandleStep(fetched: seq<nat>) returns (stalled: bool)
      requires Valid()
      modifies this, cache
      ensures Valid() && steps == old(steps) + [if old(held) != [] then Resume else Fetch(fetched)]
      ensures stalled == (held != [])
    {
      if held != [] {
        var messages := held;
        held := [];
        sys := sys.(w := sys.w.(held := []));
        stalled := HandleAll(messages);
        Extend(Resume);
      } else {
        stalled := HandleAll(fetched);
        Extend(Fetch(fetched));
      }
    }
  }

  /** What a valid writer object is good for: the whole-run guarantees hold of the database it writes to. */
  lemma WriterIsSafe(w: Writer)
    requires w.Valid()
    ensures w.store.samples == RowsOf(w.store.log) && C.AllGenuine(w.env, w.store.log)
    ensures S.DistinctSeqs(w.store.log) && S.AtMost(w.store.log, w.store.cursor)
    ensures forall q :: w.sys.start < q <= w.cursor && S.IsBatch(w.env, q) && S.InOrder(w.env, w.sys.start, S.Fetched(w.sys)) ==>
              S.AccountedFor(w.env, w.sys, q)
  {
    S.RowsAtMostOnce(w.env, w.trace, w.steps, |w.steps|, |w.steps|);
    forall q | w.sys.start < q <= w.cursor && S.IsBatch(w.env, q) && S.InOrder(w.env, w.sys.start, S.Fetched(w.sys))
      ensures S.AccountedFor(w.env, w.sys, q)
    {
      S.NoBatchIsLost(w.env, w.trace, w.steps, |w.steps|, q);
    }
  }
}
