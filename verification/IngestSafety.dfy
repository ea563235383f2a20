/**
 What the ingest writer guarantees over every run of `IngestModel`.

 Across runs, whatever the delivery order: a sequence's rows are in the
 database at most once and the database cursor never goes back. Within a run: a
 batch the cursor has passed is accounted for exactly if the writer took it in
 before the cursor passed it, and with in-order, gap-free first deliveries that
 is every batch.
 */
module IngestSafety {
  import opened Basics
  import opened RegistryCache
  import opened IngestModel
  import opened IngestContents
  import T = LapTable

  // ----- across runs ---------------------------------------------------------

  ghost predicate DistinctSeqs(cs: seq<Contribution>) {
    forall i, j :: 0 <= i < j < |cs| ==> cs[i].sequence != cs[j].sequence
  }

  ghost predicate AtMost(cs: seq<Contribution>, n: nat) { forall i :: 0 <= i < |cs| ==> cs[i].sequence <= n }

  ghost predicate Above(cs: seq<Contribution>, n: nat) { forall i :: 0 <= i < |cs| ==> cs[i].sequence > n }

  ghost predicate Safe(s: System) {
    && s.db.cursor <= s.w.cursor <= s.w.maxSeq
    && AtMost(s.db.log, s.db.cursor) && DistinctSeqs(s.db.log)
    && Above(s.w.buf, s.w.cursor) && AtMost(s.w.buf, s.w.maxSeq) && DistinctSeqs(s.w.buf)
    && (forall i :: 0 <= i < |s.w.buf| ==> s.w.buf[i].sequence in s.w.buffered)
    && (forall q :: q in s.w.buffered ==> q <= s.w.maxSeq)
  }

  lemma HandleSafe(env: Env, s: System, q: nat)
    requires Safe(s)
    ensures Safe(Handle(env, s, q)) && Handle(env, s, q).db == s.db
  {
    if Classify(env, s.w, q).Buffered? {
      TakeSafe(s, Taken(env, s.w, q), Handle(env, s, q));
    }
  }

  lemma TakeSafe(s: System, c: Contribution, s': System)
    requires Safe(s) && c.sequence > s.w.cursor && c.sequence !in s.w.buffered
    requires s'.db == s.db && s'.w.cursor == s.w.cursor && s'.w.maxSeq == Max(s.w.maxSeq, c.sequence)
    requires s'.w.buf == s.w.buf + [c] && s'.w.buffered == s.w.buffered + {c.sequence}
    ensures Safe(s')
  {
  }

  lemma {:induction false} HandleAllSafe(env: Env, s: System, ms: seq<nat>)
    requires Safe(s)
    ensures Safe(HandleAll(env, s, ms)) && HandleAll(env, s, ms).db == s.db
    decreases |ms|
  {
    if |ms| > 0 && !Classify(env, s.w, ms[0]).Stalled? {
      HandleSafe(env, s, ms[0]);
      HandleAllSafe(env, Handle(env, s, ms[0]), ms[1..]);
    }
  }

  lemma FlushSafe(s: System, outcome: Outcome)
    requires Safe(s) && !outcome.Landed?
    ensures Safe(Flush(s, outcome)) && s.db.log <= Flush(s, outcome).db.log && s.db.cursor <= Flush(s, outcome).db.cursor
  {
  }

  lemma StepSafe(env: Env, s: System, step: Step)
    requires Safe(s) && Enabled(env, s, step) && Atomic(step)
    ensures Safe(Next(env, s, step)) && s.db.log <= Next(env, s, step).db.log
    ensures s.db.cursor <= Next(env, s, step).db.cursor
  {
    match step
    case Fetch(ms) => HandleAllSafe(env, s, ms);
    case Resume => HandleAllSafe(env, s.(w := s.w.(held := [])), s.w.held);
    case DoFlush(outcome) => FlushSafe(s, outcome);
    case _ =>
  }

  lemma {:induction false} RunSafe(env: Env, trace: seq<System>, steps: seq<Step>, k: nat)
    requires Run(env, trace, steps) && k < |trace|
    ensures Safe(trace[k])
  {
    if k > 0 {
      RunSafe(env, trace, steps, k - 1);
      StepSafe(env, trace[k - 1], steps[k - 1]);
    }
  }

  /** The rows on both sides are exactly those of the batches named: nothing in `samples` has another origin. */
  ghost predicate Tallied(s: System) {
    && s.db.samples == RowsOf(s.db.log) && s.w.rows == RowsOf(s.w.buf) && s.w.pending == Seqs(s.w.buf)
    && (forall q :: q in s.w.buffered ==> q in s.w.pending)
  }

  lemma {:induction false} RowsOfConcat(a: seq<Contribution>, b: seq<Contribution>)
    ensures RowsOf(a + b) == RowsOf(a) + RowsOf(b)
  {
    if |b| == 0 {
      assert a + b == a;
    } else {
      var front, last := b[..|b| - 1], b[|b| - 1];
      RowsOfConcat(a, front);
      assert (a + b)[..|a + b| - 1] == a + front;
    }
  }

  lemma HandleTallied(env: Env, s: System, q: nat)
    requires Tallied(s)
    ensures Tallied(Handle(env, s, q))
  {
    if Classify(env, s.w, q).Buffered? {
      var buf, c := s.w.buf, Taken(env, s.w, q);
      assert (buf + [c])[..|buf|] == buf;
      assert Seqs(buf + [c]) == Seqs(buf) + [q];
    }
  }

  lemma {:induction false} HandleAllTallied(env: Env, s: System, ms: seq<nat>)
    requires Tallied(s)
    ensures Tallied(HandleAll(env, s, ms))
    decreases |ms|
  {
    if |ms| > 0 && !Classify(env, s.w, ms[0]).Stalled? {
      HandleTallied(env, s, ms[0]);
      HandleAllTallied(env, Handle(env, s, ms[0]), ms[1..]);
    }
  }

  lemma FlushTallied(s: System, outcome: Outcome)
    requires Tallied(s) && !outcome.Landed?
    ensures Tallied(Flush(s, outcome))
  {
    RowsOfConcat(s.db.log, s.w.buf);
    assert RowsOf([]) == [] && Seqs([]) == [];
  }

  lemma {:induction false} RunTallied(env: Env, trace: seq<System>, steps: seq<Step>, k: nat)
    requires Run(env, trace, steps) && k < |trace|
    ensures Tallied(trace[k])
  {
    if k > 0 {
      var s, step := trace[k - 1], steps[k - 1];
      RunTallied(env, trace, steps, k - 1);
      match step {
        case Fetch(ms) => HandleAllTallied(env, s, ms);
        case Resume => HandleAllTallied(env, s.(w := s.w.(held := [])), s.w.held);
        case DoFlush(outcome) => FlushTallied(s, outcome);
        case _ =>
      }
    }
  }

  lemma {:induction false} DatabaseOnlyGrows(env: Env, trace: seq<System>, steps: seq<Step>, j: nat, k: nat)
    requires Run(env, trace, steps) && j <= k < |trace|
    ensures trace[j].db.log <= trace[k].db.log && trace[j].db.cursor <= trace[k].db.cursor
    decreases k
  {
    if j < k {
      DatabaseOnlyGrows(env, trace, steps, j, k - 1);
      RunSafe(env, trace, steps, k - 1);
      StepSafe(env, trace[k - 1], steps[k - 1]);
      PrefixTransitive(trace[j].db.log, trace[k - 1].db.log, trace[k].db.log);
    }
  }

  lemma PrefixTransitive(a: seq<Contribution>, b: seq<Contribution>, c: seq<Contribution>)
    requires a <= b <= c
    ensures a <= c
  {
  }

  /**
   Over every run, with crashes and restarts, deliveries in any order, and
   failed or rejected flushes: the `samples` table is the rows of the batches in
   the log, each of them what its stream message decodes to, no two of one
   stream sequence, none above the cursor; the log only grows and the cursor
   never decreases.
   */
  lemma RowsAtMostOnce(env: Env, trace: seq<System>, steps: seq<Step>, j: nat, k: nat)
    requires Run(env, trace, steps) && j <= k < |trace|
    ensures trace[k].db.samples == RowsOf(trace[k].db.log) && AllGenuine(env, trace[k].db.log)
    ensures DistinctSeqs(trace[k].db.log) && AtMost(trace[k].db.log, trace[k].db.cursor)
    ensures trace[j].db.log <= trace[k].db.log && trace[j].db.cursor <= trace[k].db.cursor
  {
    RunTallied(env, trace, steps, k);
    RunSourced(env, trace, steps, k);
    RunSafe(env, trace, steps, k);
    DatabaseOnlyGrows(env, trace, steps, j, k);
  }

  // ----- within a run --------------------------------------------------------

  predicate IsBatch(env: Env, q: nat) { env.stream(q).BatchMsg? }

  predicate Readable(env: Env, q: nat) { IsBatch(env, q) && Supported(env.stream(q).batch.formatVersion) }

  ghost predicate Holds(cs: seq<Contribution>, q: nat) { exists i :: 0 <= i < |cs| && cs[i].sequence == q }

  /** Some batch of this run with sequence `q` was in a flush that ended this way. */
  ghost predicate Ended(s: System, q: nat, committed: bool) {
    exists i :: 0 <= i < |s.past| && s.past[i].c.sequence == q && s.past[i].committed == committed
  }

  /** The writer took the batch in while it was still above its cursor. */
  ghost predicate TakenIn(s: System, q: nat) { q in s.bad || Holds(Order(s), q) }

  ghost predicate PastSettled(s: System) {
    forall i :: 0 <= i < |s.past| ==> (
      && s.start < s.past[i].c.sequence <= s.w.cursor
      && (if s.past[i].committed then s.past[i].c in s.db.log
          else !Holds(s.db.log, s.past[i].c.sequence) && s.w.droppedFlushes > 0))
  }

  /** What this run has put into the database is what its past says was committed. */
  ghost predicate LogExplained(s: System) {
    forall j :: 0 <= j < |s.db.log| && s.db.log[j].sequence > s.start ==> Ended(s, s.db.log[j].sequence, true)
  }

  ghost predicate Ledger(env: Env, s: System) {
    && s.start <= s.w.cursor
    && PastSettled(s) && LogExplained(s)
    && DistinctSeqs(Order(s)) && s.w.table == T.Run(T.Empty, EventsOf(Order(s)))
    && (forall i :: 0 <= i < |Order(s)| ==> Readable(env, Order(s)[i].sequence))
    && (forall q :: q in s.bad ==> s.start < q && IsBatch(env, q) && !Readable(env, q))
  }

  lemma OrderTake(s: System, c: Contribution, s': System)
    requires s'.past == s.past && s'.w.buf == s.w.buf + [c]
    ensures Order(s') == Order(s) + [c]
  {
  }

  lemma OrderIndex(s: System, i: nat)
    requires i < |Order(s)|
    ensures Order(s)[i] == if i < |s.past| then s.past[i].c else s.w.buf[i - |s.past|]
  {
  }

  lemma EventsSnoc(cs: seq<Contribution>, c: Contribution)
    ensures EventsOf(cs + [c]) == EventsOf(cs) + c.events
  {
    assert (cs + [c])[..|cs|] == cs;
  }

  /** A batch above the cursor and not buffered has not been taken in by this run. */
  lemma NotTakenYet(env: Env, s: System, q: nat)
    requires Safe(s) && Ledger(env, s) && q > s.w.cursor && q !in s.w.buffered
    ensures forall i :: 0 <= i < |Order(s)| ==> Order(s)[i].sequence != q
  {
    forall i | 0 <= i < |Order(s)| ensures Order(s)[i].sequence != q {
      OrderIndex(s, i);
    }
  }

  lemma BufferedTable(s: System, c: Contribution)
    requires s.w.table == T.Run(T.Empty, EventsOf(Order(s)))
    ensures T.Run(s.w.table, c.events) == T.Run(T.Empty, EventsOf(Order(s) + [c]))
  {
    EventsSnoc(Order(s), c);
    T.RunConcat(T.Empty, EventsOf(Order(s)), c.events);
  }

  lemma BufferedLedger(env: Env, s: System, q: nat)
    requires Safe(s) && Ledger(env, s) && Classify(env, s.w, q).Buffered?
    ensures Ledger(env, Handle(env, s, q))
  {
    var c, s' := Taken(env, s.w, q), Handle(env, s, q);
    NotTakenYet(env, s, q);
    BufferedTable(s, c);
    SettledAlike(s, s');
    LedgerGrows(env, s, c, s');
  }

  /** One more batch in the buffer, not taken in before, keeps the rest of the ledger. */
  lemma LedgerGrows(env: Env, s: System, c: Contribution, s': System)
    requires Ledger(env, s) && PastSettled(s') && LogExplained(s') && Readable(env, c.sequence)
    requires forall i :: 0 <= i < |Order(s)| ==> Order(s)[i].sequence != c.sequence
    requires s'.past == s.past && s'.w.buf == s.w.buf + [c] && s'.start == s.start && s'.w.cursor == s.w.cursor && s'.bad == s.bad
    requires s'.w.table == T.Run(T.Empty, EventsOf(Order(s) + [c]))
    ensures Ledger(env, s')
  {
    OrderTake(s, c, s');
    DistinctSnoc(Order(s), c);
  }

  lemma DistinctSnoc(cs: seq<Contribution>, c: Contribution)
    requires DistinctSeqs(cs) && forall i :: 0 <= i < |cs| ==> cs[i].sequence != c.sequence
    ensures DistinctSeqs(cs + [c])
  {
  }

  /** The settled past depends only on these fields. */
  lemma SettledAlike(s: System, s': System)
    requires PastSettled(s) && LogExplained(s)
    requires s'.past == s.past && s'.start == s.start && s'.db.log == s.db.log
    requires s'.w.cursor == s.w.cursor && s'.w.droppedFlushes == s.w.droppedFlushes
    ensures PastSettled(s') && LogExplained(s')
  {
  }

  /** Nor does the rest of the ledger depend on anything but the buffer, the table and the refused. */
  lemma LedgerAlike(env: Env, s: System, s': System)
    requires Ledger(env, s)
    requires s'.past == s.past && s'.start == s.start && s'.db.log == s.db.log && s'.w.buf == s.w.buf
    requires s'.w.cursor == s.w.cursor && s'.w.droppedFlushes == s.w.droppedFlushes && s'.w.table == s.w.table
    requires forall q :: q in s'.bad && q !in s.bad ==> s.start < q && IsBatch(env, q) && !Readable(env, q)
    ensures Ledger(env, s') && Order(s') == Order(s)
  {
    SettledAlike(s, s');
    assert Order(s') == Order(s);
  }

  lemma HandleLedger(env: Env, s: System, q: nat)
    requires Safe(s) && Ledger(env, s)
    ensures Ledger(env, Handle(env, s, q)) && Handle(env, s, q).start == s.start
  {
    var s' := Handle(env, s, q);
    if Classify(env, s.w, q).Buffered? {
      BufferedLedger(env, s, q);
    } else {
      LedgerAlike(env, s, s');
    }
  }

  lemma {:induction false} HandleAllLedger(env: Env, s: System, ms: seq<nat>)
    requires Safe(s) && Ledger(env, s)
    ensures Ledger(env, HandleAll(env, s, ms)) && HandleAll(env, s, ms).start == s.start
    decreases |ms|
  {
    if |ms| > 0 {
      if Classify(env, s.w, ms[0]).Stalled? {
        HeldLedger(env, s, ms);
      } else {
        HandleSafe(env, s, ms[0]);
        HandleLedger(env, s, ms[0]);
        HandleAllLedger(env, Handle(env, s, ms[0]), ms[1..]);
      }
    }
  }

  /** What is held plays no part in the ledger. */
  lemma HeldLedger(env: Env, s: System, held: seq<nat>)
    requires Ledger(env, s)
    ensures Ledger(env, s.(w := s.w.(held := held)))
  {
    LedgerAlike(env, s, s.(w := s.w.(held := held)));
  }

  lemma LearnLedger(env: Env, s: System, cat: Catalogue)
    requires Ledger(env, s)
    ensures Ledger(env, s.(w := s.w.(cat := cat)))
  {
    LedgerAlike(env, s, s.(w := s.w.(cat := cat)));
  }

  lemma SettledOrder(s: System, db: Db, committed: bool, laps: bool)
    ensures Order(Settle(s, db, committed, laps)) == Order(s)
  {
  }

  /** Committing the buffer: it moves from the buffer into the past and the log, and nothing else changes. */
  lemma CommitSettles(s: System, db: Db, laps: bool)
    requires Safe(s) && PastSettled(s) && LogExplained(s) && DistinctSeqs(Order(s)) && s.start <= s.w.cursor
    requires db.log == s.db.log + s.w.buf
    ensures PastSettled(Settle(s, db, true, laps)) && LogExplained(Settle(s, db, true, laps))
  {
    var s', n := Settle(s, db, true, laps), |s.past|;
    forall i | 0 <= i < |s'.past|
      ensures s'.start < s'.past[i].c.sequence <= s'.w.cursor
      ensures if s'.past[i].committed then s'.past[i].c in db.log
              else !Holds(db.log, s'.past[i].c.sequence) && s'.w.droppedFlushes > 0
    {
      if i >= n {
        assert s'.past[i].c == s.w.buf[i - n] && s.w.buf[i - n] in db.log;
      } else if !s.past[i].committed {
        NotInLog(s, i);
      }
    }
    forall j | 0 <= j < |db.log| && db.log[j].sequence > s.start ensures Ended(s', db.log[j].sequence, true) {
      if j < |s.db.log| {
        var i :| 0 <= i < n && s.past[i].c.sequence == s.db.log[j].sequence && s.past[i].committed;
        assert s'.past[i] == s.past[i];
      } else {
        var b := j - |s.db.log|;
        assert s'.past[n + b] == Fate(s.w.buf[b], true);
      }
    }
  }

  lemma NotInLog(s: System, i: nat)
    requires PastSettled(s) && DistinctSeqs(Order(s)) && i < |s.past| && !s.past[i].committed
    ensures !Holds(s.db.log + s.w.buf, s.past[i].c.sequence)
  {
    var log, q := s.db.log + s.w.buf, s.past[i].c.sequence;
    OrderIndex(s, i);
    forall j | 0 <= j < |log| ensures log[j].sequence != q {
      if j < |s.db.log| {
        assert log[j] == s.db.log[j];
      } else {
        var b := j - |s.db.log|;
        OrderIndex(s, |s.past| + b);
        assert Order(s)[i].sequence != Order(s)[|s.past| + b].sequence;
      }
    }
  }

  /** Dropping the buffer: it moves into the past as not committed. */
  lemma DropSettles(s: System, s': System)
    requires Safe(s) && PastSettled(s) && LogExplained(s) && s.start <= s.w.cursor
    requires s' == Settle(s, s.db, false, false).(w := s'.w) && s'.w.cursor == Discard(s.w).cursor && s'.w.droppedFlushes > 0
    ensures PastSettled(s') && LogExplained(s')
  {
    var n := |s.past|;
    forall i | n <= i < |s'.past| ensures !Holds(s.db.log, s'.past[i].c.sequence) {
      assert s'.past[i].c == s.w.buf[i - n];
      assert AtMost(s.db.log, s.db.cursor) && s.w.buf[i - n].sequence > s.w.cursor;
    }
    forall j | 0 <= j < |s.db.log| && s.db.log[j].sequence > s.start ensures Ended(s', s.db.log[j].sequence, true) {
      var i :| 0 <= i < n && s.past[i].c.sequence == s.db.log[j].sequence && s.past[i].committed;
      assert s'.past[i] == s.past[i];
    }
  }

  lemma FlushLedger(env: Env, s: System, outcome: Outcome)
    requires Safe(s) && Ledger(env, s) && !outcome.Landed?
    ensures Ledger(env, Flush(s, outcome)) && Order(Flush(s, outcome)) == Order(s)
  {
    if PendingWork(s.w) {
      var s' := Flush(s, outcome);
      match outcome {
        case Committed =>
          SettledOrder(s, s'.db, true, true);
          CommitSettles(s, s'.db, true);
        case RetryCommitted =>
          SettledOrder(s, s'.db, true, false);
          CommitSettles(s, s'.db, false);
          var s1 := Settle(s, s'.db, true, false);
          assert Order(s') == Order(s1);
          assert PastSettled(s') && LogExplained(s');
        case RejectedTwice =>
          SettledOrder(s, s.db, false, false);
          assert Order(s') == Order(Settle(s, s.db, false, false));
          DropSettles(s, s');
        case _ =>
      }
    }
  }

  lemma StepLedger(env: Env, s: System, step: Step)
    requires Safe(s) && Ledger(env, s) && Enabled(env, s, step) && Atomic(step)
    ensures Ledger(env, Next(env, s, step))
  {
    match step
    case Fetch(ms) => HandleAllLedger(env, s, ms);
    case Resume =>
      HeldLedger(env, s, []);
      HandleAllLedger(env, s.(w := s.w.(held := [])), s.w.held);
    case DoFlush(outcome) => FlushLedger(env, s, outcome);
    case Scan(at) => LearnLedger(env, s, Learn(s.w.cat, env.stream(at).registry));
    case Crash => assert Order(Next(env, s, step)) == [];
  }

  lemma {:induction false} RunLedger(env: Env, trace: seq<System>, steps: seq<Step>, k: nat)
    requires Run(env, trace, steps) && k < |trace|
    ensures Safe(trace[k]) && Ledger(env, trace[k])
  {
    RunSafe(env, trace, steps, k);
    if k > 0 {
      RunLedger(env, trace, steps, k - 1);
      StepLedger(env, trace[k - 1], steps[k - 1]);
    } else {
      assert Order(trace[0]) == [];
    }
  }

  /** The log has, for sequence `q`, what its message decodes to. */
  ghost predicate Written(env: Env, s: System, q: nat) {
    exists j :: 0 <= j < |s.db.log| && s.db.log[j].sequence == q && Genuine(env, s.db.log[j])
  }

  /** A batch the cursor has passed: in the database once, unsupported, or in a counted dropped flush. */
  ghost predicate AccountedFor(env: Env, s: System, q: nat) {
    || (Written(env, s, q) && DistinctSeqs(s.db.log))
    || !Readable(env, q)
    || (Ended(s, q, false) && !Holds(s.db.log, q) && s.w.droppedFlushes > 0)
  }

  /** A readable batch the cursor has passed is accounted for exactly if this run took it in. */
  lemma AccountedIffTakenIn(env: Env, trace: seq<System>, steps: seq<Step>, k: nat, q: nat)
    requires Run(env, trace, steps) && k < |trace| && Readable(env, q)
    requires trace[k].start < q <= trace[k].w.cursor
    ensures AccountedFor(env, trace[k], q) <==> TakenIn(trace[k], q)
  {
    var s := trace[k];
    RunLedger(env, trace, steps, k);
    RunSourced(env, trace, steps, k);
    if TakenIn(s, q) {
      var i :| 0 <= i < |Order(s)| && Order(s)[i].sequence == q;
      OrderIndex(s, i);
      assert i < |s.past|;
      if s.past[i].committed {
        var j :| 0 <= j < |s.db.log| && s.db.log[j] == s.past[i].c;
        assert s.db.log[j].sequence == q && Genuine(env, s.db.log[j]);
      } else {
        assert Ended(s, q, false);
      }
    }
    if AccountedFor(env, s, q) {
      EndedIsTakenIn(env, s, q);
    }
  }

  lemma EndedIsTakenIn(env: Env, s: System, q: nat)
    requires Ledger(env, s) && q > s.start && (Holds(s.db.log, q) || Ended(s, q, false))
    ensures Holds(Order(s), q)
  {
    if Holds(s.db.log, q) {
      var j :| 0 <= j < |s.db.log| && s.db.log[j].sequence == q;
      assert Ended(s, q, true);
    }
    var i :| 0 <= i < |s.past| && s.past[i].c.sequence == q;
    OrderIndex(s, i);
  }

  // ----- in-order deliveries -------------------------------------------------

  function Frontier(start: nat, xs: seq<nat>): (f: nat)
  {
    if |xs| == 0 then start else Max(Frontier(start, xs[..|xs| - 1]), xs[|xs| - 1])
  }

  /** No readable batch lies strictly between `f` and `q`. */
  ghost predicate NoneBetween(env: Env, f: nat, q: nat) { forall p :: f < p < q ==> !Readable(env, p) }

  /**
   Assumption (b): every delivery is a redelivery or goes on from all delivered
   so far without passing over a readable batch.
   */
  ghost predicate InOrder(env: Env, start: nat, xs: seq<nat>) {
    forall i :: 0 <= i < |xs| ==> NoneBetween(env, Frontier(start, xs[..i]), xs[i])
  }

  lemma InOrderPrefix(env: Env, start: nat, xs: seq<nat>, ys: seq<nat>)
    requires InOrder(env, start, ys) && xs <= ys
    ensures InOrder(env, start, xs)
  {
    forall i | 0 <= i < |xs| ensures NoneBetween(env, Frontier(start, xs[..i]), xs[i]) {
      assert ys[..i] == xs[..i] && ys[i] == xs[i];
    }
  }

  ghost predicate Rising(cs: seq<Contribution>) { forall i, j :: 0 <= i < j < |cs| ==> cs[i].sequence < cs[j].sequence }

  /** Everything up to the frontier of what was heard has been dealt with, in stream order. */
  ghost predicate Complete(env: Env, s: System) {
    var f := Frontier(s.start, s.heard);
    && s.w.maxSeq <= f && AtMost(Order(s), f) && Rising(Order(s))
    && forall q :: s.start < q <= f && Readable(env, q) ==> TakenIn(s, q)
  }

  lemma FrontierSnoc(start: nat, xs: seq<nat>, q: nat)
    ensures Frontier(start, xs + [q]) == Max(Frontier(start, xs), q)
  {
    assert (xs + [q])[..|xs|] == xs;
  }

  lemma HoldsSnoc(cs: seq<Contribution>, c: Contribution, q: nat)
    ensures Holds(cs + [c], q) <==> Holds(cs, q) || c.sequence == q
  {
    if Holds(cs, q) {
      var i :| 0 <= i < |cs| && cs[i].sequence == q;
      assert (cs + [c])[i].sequence == q;
    }
    assert (cs + [c])[|cs|] == c;
  }

  /** A batch that gets buffered lies beyond all delivered so far. */
  lemma BufferedIsNext(env: Env, s: System, q: nat)
    requires Safe(s) && Ledger(env, s) && Complete(env, s) && Classify(env, s.w, q).Buffered?
    ensures q > Frontier(s.start, s.heard)
  {
    NotTakenYet(env, s, q);
    assert !TakenIn(s, q);
  }

  lemma BufferedComplete(env: Env, s: System, q: nat)
    requires Safe(s) && Ledger(env, s) && Complete(env, s) && Classify(env, s.w, q).Buffered?
    requires NoneBetween(env, Frontier(s.start, s.heard), q)
    ensures Complete(env, Handle(env, s, q))
  {
    var s', c := Handle(env, s, q), Taken(env, s.w, q);
    BufferedIsNext(env, s, q);
    OrderTake(s, c, s');
    FrontierSnoc(s.start, s.heard, q);
    forall p | s.start < p <= q && Readable(env, p) ensures TakenIn(s', p) {
      HoldsSnoc(Order(s), c, p);
    }
  }

  lemma HandleComplete(env: Env, s: System, q: nat)
    requires Safe(s) && Ledger(env, s) && Complete(env, s)
    requires NoneBetween(env, Frontier(s.start, s.heard), q) && !Classify(env, s.w, q).Stalled?
    ensures Complete(env, Handle(env, s, q))
  {
    if Classify(env, s.w, q).Buffered? {
      BufferedComplete(env, s, q);
    } else {
      PassedComplete(env, s, q);
    }
  }

  lemma PassedComplete(env: Env, s: System, q: nat)
    requires Safe(s) && Ledger(env, s) && Complete(env, s) && NoneBetween(env, Frontier(s.start, s.heard), q)
    requires !Classify(env, s.w, q).Stalled? && !Classify(env, s.w, q).Buffered?
    ensures Complete(env, Handle(env, s, q))
  {
    var s' := Handle(env, s, q);
    LedgerAlike(env, s, s');
    // beyond the frontier nothing is committed or buffered, so a message that passed there is no readable batch
    CompleteGrows(env, s, s', q);
  }

  lemma CompleteGrows(env: Env, s: System, s': System, q: nat)
    requires Complete(env, s) && NoneBetween(env, Frontier(s.start, s.heard), q)
    requires s'.start == s.start && s'.heard == s.heard + [q] && Order(s') == Order(s) && s.bad <= s'.bad
    requires s'.w.maxSeq <= Max(s.w.maxSeq, q)
    requires q > Frontier(s.start, s.heard) ==> !Readable(env, q)
    ensures Complete(env, s')
  {
    FrontierSnoc(s.start, s.heard, q);
  }

  /** What was fetched this run: the messages handled, then the messages held. */
  function Fetched(s: System): seq<nat> { s.heard + s.w.held }

  /** The guarantee under assumption (b), as an invariant. */
  ghost predicate CompleteIfInOrder(env: Env, s: System) {
    InOrder(env, s.start, Fetched(s)) ==> Complete(env, s)
  }

  lemma {:induction false} HandleAllComplete(env: Env, s: System, ms: seq<nat>)
    requires Safe(s) && Ledger(env, s) && s.w.held == []
    ensures var s' := HandleAll(env, s, ms);
            && Fetched(s') == s.heard + ms && s'.start == s.start
            && (Complete(env, s) && InOrder(env, s.start, s.heard + ms) ==> Complete(env, s'))
    decreases |ms|
  {
    if |ms| == 0 {
      assert s.heard + ms == s.heard && Fetched(s) == s.heard;
    } else if Classify(env, s.w, ms[0]).Stalled? {
      HeldComplete(env, s, ms);
    } else {
      HandleNext(env, s, ms);
      HandleAllComplete(env, Handle(env, s, ms[0]), ms[1..]);
    }
  }

  lemma HandleFrame(env: Env, s: System, q: nat)
    requires !Classify(env, s.w, q).Stalled?
    ensures var s' := Handle(env, s, q);
            s'.start == s.start && s'.w.held == s.w.held && s'.heard == s.heard + [q]
  {
  }

  lemma HandleNext(env: Env, s: System, ms: seq<nat>)
    requires Safe(s) && Ledger(env, s) && ms != [] && !Classify(env, s.w, ms[0]).Stalled?
    ensures var s' := Handle(env, s, ms[0]);
            && Safe(s') && Ledger(env, s') && s'.start == s.start && s'.w.held == s.w.held
            && s'.heard + ms[1..] == s.heard + ms
            && (Complete(env, s) && InOrder(env, s.start, s.heard + ms) ==> Complete(env, s'))
  {
    HandleSafe(env, s, ms[0]);
    HandleLedger(env, s, ms[0]);
    HandleHears(env, s, ms);
    NextComplete(env, s, ms);
  }

  lemma HandleHears(env: Env, s: System, ms: seq<nat>)
    requires ms != [] && !Classify(env, s.w, ms[0]).Stalled?
    ensures var s' := Handle(env, s, ms[0]);
            s'.start == s.start && s'.w.held == s.w.held && s'.heard + ms[1..] == s.heard + ms
  {
    HandleFrame(env, s, ms[0]);
    assert s.heard + [ms[0]] + ms[1..] == s.heard + ms;
  }

  lemma NextComplete(env: Env, s: System, ms: seq<nat>)
    requires Safe(s) && Ledger(env, s) && ms != [] && !Classify(env, s.w, ms[0]).Stalled?
    ensures Complete(env, s) && InOrder(env, s.start, s.heard + ms) ==> Complete(env, Handle(env, s, ms[0]))
  {
    if Complete(env, s) && InOrder(env, s.start, s.heard + ms) {
      NextInOrder(env, s.start, s.heard, ms);
      HandleComplete(env, s, ms[0]);
    }
  }

  lemma NextInOrder(env: Env, start: nat, heard: seq<nat>, ms: seq<nat>)
    requires InOrder(env, start, heard + ms) && ms != []
    ensures NoneBetween(env, Frontier(start, heard), ms[0])
  {
    assert (heard + ms)[|heard|] == ms[0] && (heard + ms)[..|heard|] == heard;
  }

  lemma HeldComplete(env: Env, s: System, held: seq<nat>)
    ensures Complete(env, s.(w := s.w.(held := held))) <==> Complete(env, s)
  {
    var s' := s.(w := s.w.(held := held));
    assert Order(s') == Order(s);
    assert forall q :: TakenIn(s', q) <==> TakenIn(s, q);
  }

  lemma FlushComplete(env: Env, s: System, outcome: Outcome)
    requires Safe(s) && Ledger(env, s) && !outcome.Landed? && Complete(env, s)
    ensures Complete(env, Flush(s, outcome))
  {
    var s' := Flush(s, outcome);
    FlushLedger(env, s, outcome);
    assert forall q :: TakenIn(s', q) <==> TakenIn(s, q);
  }

  lemma FetchComplete(env: Env, s: System, ms: seq<nat>)
    requires Safe(s) && Ledger(env, s) && CompleteIfInOrder(env, s) && s.w.held == []
    ensures CompleteIfInOrder(env, HandleAll(env, s, ms))
  {
    HandleAllComplete(env, s, ms);
    assert Fetched(s) == s.heard;
    if InOrder(env, s.start, s.heard + ms) {
      InOrderPrefix(env, s.start, s.heard, s.heard + ms);
    }
  }

  lemma ResumeComplete(env: Env, s: System)
    requires Safe(s) && Ledger(env, s) && CompleteIfInOrder(env, s)
    ensures CompleteIfInOrder(env, HandleAll(env, s.(w := s.w.(held := [])), s.w.held))
  {
    HeldLedger(env, s, []);
    HeldComplete(env, s, []);
    HandleAllComplete(env, s.(w := s.w.(held := [])), s.w.held);
  }

  lemma FlushKeepsComplete(env: Env, s: System, outcome: Outcome)
    requires Safe(s) && Ledger(env, s) && CompleteIfInOrder(env, s) && !outcome.Landed?
    ensures CompleteIfInOrder(env, Flush(s, outcome))
  {
    if Complete(env, s) {
      FlushComplete(env, s, outcome);
    }
  }

  lemma ScanComplete(env: Env, s: System, cat: Catalogue)
    requires CompleteIfInOrder(env, s)
    ensures CompleteIfInOrder(env, s.(w := s.w.(cat := cat)))
  {
    var s' := s.(w := s.w.(cat := cat));
    assert Order(s') == Order(s);
    assert forall q :: TakenIn(s', q) <==> TakenIn(s, q);
  }

  lemma BootComplete(env: Env, db: Db, acked: set<nat>)
    ensures CompleteIfInOrder(env, Boot(db, acked))
  {
    assert Order(Boot(db, acked)) == [];
  }

  lemma StepComplete(env: Env, s: System, step: Step)
    requires Safe(s) && Ledger(env, s) && CompleteIfInOrder(env, s) && Enabled(env, s, step) && Atomic(step)
    ensures CompleteIfInOrder(env, Next(env, s, step))
  {
    match step
    case Fetch(ms) => FetchComplete(env, s, ms);
    case Resume => ResumeComplete(env, s);
    case DoFlush(outcome) => FlushKeepsComplete(env, s, outcome);
    case Scan(at) => ScanComplete(env, s, Learn(s.w.cat, env.stream(at).registry));
    case Crash => BootComplete(env, s.db, Acked(s));
  }

  lemma {:induction false} RunComplete(env: Env, trace: seq<System>, steps: seq<Step>, k: nat)
    requires Run(env, trace, steps) && k < |trace|
    ensures CompleteIfInOrder(env, trace[k])
  {
    if k > 0 {
      RunComplete(env, trace, steps, k - 1);
      RunLedger(env, trace, steps, k - 1);
      StepComplete(env, trace[k - 1], steps[k - 1]);
    } else {
      assert Order(trace[0]) == [];
    }
  }

  /**
   No loss: with first deliveries in order and passing over no readable batch,
   and any redeliveries, stalls, failed and rejected flushes, every batch above
   the run's starting cursor and at or below its current one is in the database
   exactly once, with the rows its message decodes to, of an unsupported
   version, or in a counted dropped flush.
   */
  lemma NoBatchIsLost(env: Env, trace: seq<System>, steps: seq<Step>, k: nat, q: nat)
    requires Run(env, trace, steps) && k < |trace| && InOrder(env, trace[k].start, Fetched(trace[k]))
    requires trace[k].start < q <= trace[k].w.cursor && IsBatch(env, q)
    ensures AccountedFor(env, trace[k], q)
  {
    RunComplete(env, trace, steps, k);
    RunLedger(env, trace, steps, k);
    if Readable(env, q) {
      AccountedIffTakenIn(env, trace, steps, k, q);
    }
  }

  lemma OrderGenuine(env: Env, s: System)
    requires Sourced(env, s)
    ensures AllGenuine(env, Order(s))
  {
    forall i | 0 <= i < |Order(s)| ensures Genuine(env, Order(s)[i]) {
      OrderIndex(s, i);
    }
  }

  /**
   Lap events: under the same assumption the materialiser has been fed the
   events of exactly the readable batches up to the frontier, each batch once,
   with the lap events its message carries, and in stream order.
   */
  lemma LapEventsFoldedInStreamOrder(env: Env, trace: seq<System>, steps: seq<Step>, k: nat)
    requires Run(env, trace, steps) && k < |trace| && InOrder(env, trace[k].start, Fetched(trace[k]))
    ensures var s := trace[k];
      && s.w.table == T.Run(T.Empty, EventsOf(Order(s))) && Rising(Order(s)) && AllGenuine(env, Order(s))
      && forall q :: s.start < q <= Frontier(s.start, s.heard) ==> (Holds(Order(s), q) <==> Readable(env, q))
  {
    var s := trace[k];
    RunComplete(env, trace, steps, k);
    RunLedger(env, trace, steps, k);
    RunSourced(env, trace, steps, k);
    OrderGenuine(env, s);
    forall q | s.start < q <= Frontier(s.start, s.heard) ensures Holds(Order(s), q) <==> Readable(env, q) {
      if Holds(Order(s), q) {
        var i :| 0 <= i < |Order(s)| && Order(s)[i].sequence == q;
      }
    }
  }

  // ----- building runs -------------------------------------------------------

  lemma RunExtends(env: Env, trace: seq<System>, steps: seq<Step>, step: Step)
    requires Run(env, trace, steps) && Enabled(env, trace[|steps|], step) && Atomic(step)
    ensures Run(env, trace + [Next(env, trace[|steps|], step)], steps + [step])
  {
    var trace', steps' := trace + [Next(env, trace[|steps|], step)], steps + [step];
    forall k | 0 <= k < |steps'|
      ensures Enabled(env, trace'[k], steps'[k]) && Atomic(steps'[k]) && trace'[k + 1] == Next(env, trace'[k], steps'[k])
    {
      assert trace'[k] == trace[k];
      if k < |steps| {
        assert trace'[k + 1] == trace[k + 1] && steps'[k] == steps[k];
      }
    }
  }
}
