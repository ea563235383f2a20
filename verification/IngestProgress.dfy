/**
 The other side of the ingest guarantees: what the writer must do. In every
 reachable state a fetched batch it can decode reaches the `samples` table with
 the next committed flush, and the only message it ever waits for is a batch
 whose registry it has not heard.
 */
module IngestProgress {
  import opened Basics
  import opened Wire
  import opened RegistryCache
  import opened IngestModel
  import opened IngestSafety

  /** A batch of a format the consumer reads. */
  predicate ReadableBatch(env: Env, q: nat) { env.stream(q).BatchMsg? && env.stream(q).batch.formatVersion <= 1 }

  /** Taken in, or at or below the cursor already; nothing is asked of other messages. */
  ghost predicate Dealt(env: Env, s: System, q: nat) {
    ReadableBatch(env, q) ==> q <= s.w.cursor || Holds(s.w.buf, q)
  }

  /** A batch above the cursor that names a generation not heard yet. */
  ghost predicate Waits(env: Env, s: System, q: nat) {
    ReadableBatch(env, q) && q > s.w.cursor && !Holds(s.w.buf, q) && env.stream(q).batch.registrySeq !in s.w.cat.generations
  }

  lemma HandleDeals(env: Env, s: System, q: nat)
    requires Tallied(s) && !Classify(env, s.w, q).Stalled?
    ensures Dealt(env, Handle(env, s, q), q)
  {
    if Classify(env, s.w, q).Buffered? {
      HoldsSnoc(s.w.buf, Taken(env, s.w, q), q);
    } else if q in s.w.buffered {
      BufferedIsHeld(s, q);
    }
  }

  lemma BufferedIsHeld(s: System, q: nat)
    requires Tallied(s) && q in s.w.buffered
    ensures Holds(s.w.buf, q)
  {
    var i :| 0 <= i < |s.w.pending| && s.w.pending[i] == q;
    assert s.w.buf[i].sequence == q;
  }

  lemma NotHeld(s: System, q: nat)
    requires Safe(s) && q !in s.w.buffered
    ensures !Holds(s.w.buf, q)
  {
  }

  lemma DealtGrows(env: Env, s: System, q: nat, p: nat)
    requires Dealt(env, s, p)
    ensures Dealt(env, Handle(env, s, q), p)
  {
    if Classify(env, s.w, q).Buffered? {
      HoldsSnoc(s.w.buf, Taken(env, s.w, q), p);
    }
  }

  lemma StalledWaits(env: Env, s: System, q: nat)
    requires Safe(s) && Classify(env, s.w, q).Stalled?
    ensures Waits(env, s, q)
  {
    NotHeld(s, q);
  }

  /** The first `n` of `ms` are dealt with; the rest is held, behind a batch that has to wait. */
  ghost predicate HandledUpTo(env: Env, s: System, ms: seq<nat>, n: nat) {
    && n <= |ms| && s.w.held == ms[n..]
    && (forall i :: 0 <= i < n ==> Dealt(env, s, ms[i]))
    && (n < |ms| ==> Waits(env, s, ms[n]))
  }

  lemma HandleOne(env: Env, s: System, q: nat)
    requires Safe(s) && Tallied(s) && s.w.held == [] && !Classify(env, s.w, q).Stalled?
    ensures var next := Handle(env, s, q);
            Safe(next) && Tallied(next) && next.w.held == [] && Dealt(env, next, q)
  {
    HandleSafe(env, s, q);
    HandleTallied(env, s, q);
    HandleDeals(env, s, q);
    HandleFrame(env, s, q);
  }

  lemma {:induction false} HandleAllDeals(env: Env, s: System, ms: seq<nat>) returns (n: nat)
    requires Safe(s) && Tallied(s) && s.w.held == []
    ensures HandledUpTo(env, HandleAll(env, s, ms), ms, n)
    decreases |ms|
  {
    if |ms| == 0 {
      n := 0;
    } else if Classify(env, s.w, ms[0]).Stalled? {
      StalledWaits(env, s, ms[0]);
      n := 0;
    } else {
      var next := Handle(env, s, ms[0]);
      HandleOne(env, s, ms[0]);
      var m := HandleAllDeals(env, next, ms[1..]);
      StillDealt(env, next, ms[1..], ms[0]);
      n := m + 1;
      DealtFromFirst(env, HandleAll(env, next, ms[1..]), ms, m);
    }
  }

  lemma DealtFromFirst(env: Env, s: System, ms: seq<nat>, m: nat)
    requires ms != [] && Dealt(env, s, ms[0]) && HandledUpTo(env, s, ms[1..], m)
    ensures HandledUpTo(env, s, ms, m + 1)
  {
    assert ms[1..][m..] == ms[m + 1..];
    forall i | 0 <= i < m + 1 ensures Dealt(env, s, ms[i]) {
      assert i > 0 ==> ms[i] == ms[1..][i - 1];
    }
  }

  lemma {:induction false} StillDealt(env: Env, s: System, ms: seq<nat>, p: nat)
    requires Dealt(env, s, p)
    ensures Dealt(env, HandleAll(env, s, ms), p)
    decreases |ms|
  {
    if |ms| > 0 && !Classify(env, s.w, ms[0]).Stalled? {
      DealtGrows(env, s, ms[0], p);
      StillDealt(env, Handle(env, s, ms[0]), ms[1..], p);
    }
  }

  /** A committed flush empties the buffer into the log and takes the cursor past all of it. */
  lemma CommitStores(s: System)
    requires Safe(s)
    ensures var s' := Flush(s, Committed);
            && s'.w.buf == [] && (forall q: nat :: Holds(s.w.buf, q) ==> Holds(s'.db.log, q) && q <= s'.db.cursor)
            && s'.w.held == s.w.held
  {
    var s' := Flush(s, Committed);
    if s.w.buf != [] {
      assert s.w.buf[0].sequence > s.w.cursor;
      assert PendingWork(s.w) && s'.db == Commit(s.db, s.w, true);
    }
    forall q: nat | Holds(s.w.buf, q) ensures Holds(s'.db.log, q) && q <= s'.db.cursor {
      CommitHolds(s.db, s.w, q);
    }
  }

  lemma CommitHolds(db: Db, w: Writer, q: nat)
    requires Holds(w.buf, q) && AtMost(w.buf, w.maxSeq) && Above(w.buf, w.cursor)
    ensures Holds(Commit(db, w, true).log, q) && q <= Commit(db, w, true).cursor
  {
    var i :| 0 <= i < |w.buf| && w.buf[i].sequence == q;
    assert (db.log + w.buf)[|db.log| + i].sequence == q;
  }

  lemma {:induction false} HandleAllKeepsCursor(env: Env, s: System, ms: seq<nat>)
    ensures HandleAll(env, s, ms).w.cursor == s.w.cursor
    decreases |ms|
  {
    if |ms| > 0 && !Classify(env, s.w, ms[0]).Stalled? {
      HandleFrame(env, s, ms[0]);
      HandleAllKeepsCursor(env, Handle(env, s, ms[0]), ms[1..]);
    }
  }

  /**
   Tried in state `before`, `ms` led to `tried` and a committed flush to `after`:
   the first `n` messages are done with, each batch of a readable format among
   them in the database's log unless the cursor had passed it before; message
   `n`, if there is one, is a batch whose registry has not been heard, and from
   there on all are held for another try.
   */
  ghost predicate StoredUpTo(env: Env, before: System, tried: System, after: System, ms: seq<nat>, n: nat) {
    && n <= |ms| && after.w.held == ms[n..] && after.w.buf == []
    && (n < |ms| ==> Waits(env, tried, ms[n]))
    && forall i :: 0 <= i < n && ReadableBatch(env, ms[i]) ==> ms[i] <= before.w.cursor || Holds(after.db.log, ms[i])
  }

  lemma TriedIsStored(env: Env, s: System, ms: seq<nat>) returns (n: nat)
    requires Safe(s) && Tallied(s) && s.w.held == []
    ensures StoredUpTo(env, s, HandleAll(env, s, ms), Flush(HandleAll(env, s, ms), Committed), ms, n)
  {
    n := HandleAllDeals(env, s, ms);
    HandleAllSafe(env, s, ms);
    HandleAllKeepsCursor(env, s, ms);
    CommitStores(HandleAll(env, s, ms));
  }

  /** In every reachable state with nothing held: fetch any messages, and commit the flush that follows. */
  lemma FetchedIsStored(env: Env, trace: seq<System>, steps: seq<Step>, k: nat, ms: seq<nat>) returns (n: nat)
    requires Run(env, trace, steps) && k < |trace| && trace[k].w.held == []
    ensures var fetched := Next(env, trace[k], Fetch(ms));
            StoredUpTo(env, trace[k], fetched, Next(env, fetched, DoFlush(Committed)), ms, n)
  {
    RunSafe(env, trace, steps, k);
    RunTallied(env, trace, steps, k);
    n := TriedIsStored(env, trace[k], ms);
  }

  /** In every reachable state with messages held: try them again, and commit the flush that follows. */
  lemma ResumedIsStored(env: Env, trace: seq<System>, steps: seq<Step>, k: nat) returns (n: nat)
    requires Run(env, trace, steps) && k < |trace| && trace[k].w.held != []
    ensures var resumed := Next(env, trace[k], Resume);
            StoredUpTo(env, trace[k], resumed, Next(env, resumed, DoFlush(Committed)), trace[k].w.held, n)
  {
    RunSafe(env, trace, steps, k);
    RunTallied(env, trace, steps, k);
    n := TriedIsStored(env, trace[k].(w := trace[k].w.(held := [])), trace[k].w.held);
  }

  /** A registry found on the stream lets the batches of its generation through. */
  lemma ScanFreesBatch(env: Env, s: System, at: nat, q: nat)
    requires env.stream(at).RegistryMsg? && ReadableBatch(env, q)
    requires env.stream(q).batch.registrySeq == env.stream(at).registry.registrySeq
    ensures !Waits(env, Next(env, s, Scan(at)), q) && !Classify(env, Next(env, s, Scan(at)).w, q).Stalled?
  {
  }
}
