/**
 What becomes of a message, read off its deliveries: which batches the cursor
 passes are accounted for, which acknowledged batches a crash can lose, and what
 the drop counter counts. At the end, runs that show what the two assumptions
 of the ingest theorems are for.
 */
module IngestFates {
  import opened Basics
  import opened Wire
  import opened IngestModel
  import opened IngestContents
  import opened IngestSafety

  // ----- deliveries that met the cursor test ---------------------------------

  ghost predicate Occurs(xs: seq<nat>, q: nat) { exists i :: 0 <= i < |xs| && xs[i] == q }

  lemma OccursSnoc(xs: seq<nat>, x: nat, q: nat)
    ensures Occurs(xs + [x], q) <==> Occurs(xs, q) || x == q
  {
    if Occurs(xs, q) {
      var i :| 0 <= i < |xs| && xs[i] == q;
      assert (xs + [x])[i] == q;
    }
    assert (xs + [x])[|xs|] == x;
  }

  /** Between `s` and `s'` message `q` was handled to the end while above the cursor of `s`. */
  ghost predicate Admits(s: System, s': System, q: nat) {
    |s.heard| <= |s'.heard| && Occurs(s'.heard[|s.heard|..], q) && q > s.w.cursor
  }

  ghost predicate SameRun(steps: seq<Step>, j: nat, k: nat)
    requires k <= |steps|
  {
    forall i :: j <= i < k ==> steps[i] != Crash
  }

  /** Since the last start some step handled `q` while it was above the cursor. */
  ghost predicate MetAboveCursor(trace: seq<System>, steps: seq<Step>, k: nat, q: nat)
    requires |trace| == |steps| + 1 && k <= |steps|
  {
    exists j :: 0 <= j < k && SameRun(steps, j, k) && Admits(trace[j], trace[j + 1], q)
  }

  lemma BufferedIsHeld(s: System, q: nat)
    requires Tallied(s) && q in s.w.buffered
    ensures Holds(s.w.buf, q) && Holds(Order(s), q)
  {
    var i :| 0 <= i < |s.w.pending| && s.w.pending[i] == q;
    assert s.w.buf[i].sequence == q;
    OrderIndex(s, |s.past| + i);
  }

  lemma HandleTakes(env: Env, s: System, q: nat, p: nat)
    requires Tallied(s) && Readable(env, p) && !Classify(env, s.w, q).Stalled?
    ensures var s' := Handle(env, s, q);
            Holds(Order(s'), p) <==> Holds(Order(s), p) || (p == q && p > s.w.cursor)
  {
    var s' := Handle(env, s, q);
    if Classify(env, s.w, q).Buffered? {
      OrderTake(s, Taken(env, s.w, q), s');
      HoldsSnoc(Order(s), Taken(env, s.w, q), p);
    } else {
      assert Order(s') == Order(s);
      if p == q && p > s.w.cursor {
        BufferedIsHeld(s, p);
      }
    }
  }

  lemma {:induction false} HandleAllTakes(env: Env, s: System, ms: seq<nat>, p: nat)
    requires Tallied(s) && Readable(env, p)
    ensures var s' := HandleAll(env, s, ms);
      && |s.heard| <= |s'.heard| && s'.w.cursor == s.w.cursor
      && (Holds(Order(s'), p) <==> Holds(Order(s), p) || (Occurs(s'.heard[|s.heard|..], p) && p > s.w.cursor))
    decreases |ms|
  {
    var s' := HandleAll(env, s, ms);
    if |ms| == 0 || Classify(env, s.w, ms[0]).Stalled? {
      assert Order(s') == Order(s) && s'.heard[|s.heard|..] == [];
    } else {
      var s1 := Handle(env, s, ms[0]);
      HandleTallied(env, s, ms[0]);
      HandleTakes(env, s, ms[0], p);
      HandleFrame(env, s, ms[0]);
      HandleAllTakes(env, s1, ms[1..], p);
      HandleAllHears(env, s1, ms[1..]);
      HeardTail(s.heard, ms[0], s'.heard, p);
    }
  }

  lemma {:induction false} HandleAllHears(env: Env, s: System, ms: seq<nat>)
    ensures s.heard <= HandleAll(env, s, ms).heard
    decreases |ms|
  {
    if |ms| > 0 && !Classify(env, s.w, ms[0]).Stalled? {
      HandleFrame(env, s, ms[0]);
      HandleAllHears(env, Handle(env, s, ms[0]), ms[1..]);
    }
  }

  lemma HeardTail(xs: seq<nat>, x: nat, ys: seq<nat>, q: nat)
    requires xs + [x] <= ys
    ensures Occurs(ys[|xs|..], q) <==> x == q || Occurs(ys[|xs| + 1..], q)
  {
    var tail, rest := ys[|xs|..], ys[|xs| + 1..];
    assert tail == [x] + rest;
    if Occurs(rest, q) {
      var i :| 0 <= i < |rest| && rest[i] == q;
      assert tail[i + 1] == q;
    }
    assert tail[0] == x;
  }

  lemma StepTakes(env: Env, s: System, step: Step, p: nat)
    requires Safe(s) && Tallied(s) && Ledger(env, s) && Readable(env, p)
    requires Enabled(env, s, step) && Atomic(step) && step != Crash
    ensures var s' := Next(env, s, step);
            Holds(Order(s'), p) <==> Holds(Order(s), p) || Admits(s, s', p)
  {
    match step
    case Fetch(ms) => HandleAllTakes(env, s, ms, p);
    case Resume =>
      var s0 := s.(w := s.w.(held := []));
      assert Order(s0) == Order(s);
      HandleAllTakes(env, s0, s.w.held, p);
    case DoFlush(outcome) =>
      FlushLedger(env, s, outcome);
      assert Flush(s, outcome).heard[|s.heard|..] == [];
    case Scan(at) =>
      var s' := Next(env, s, step);
      assert Order(s') == Order(s) && s'.heard[|s.heard|..] == [];
  }

  lemma RunStepTakes(env: Env, trace: seq<System>, steps: seq<Step>, k: nat, q: nat)
    requires Run(env, trace, steps) && k < |steps| && Readable(env, q) && steps[k] != Crash
    ensures Holds(Order(trace[k + 1]), q) <==> Holds(Order(trace[k]), q) || Admits(trace[k], trace[k + 1], q)
  {
    RunLedger(env, trace, steps, k);
    RunTallied(env, trace, steps, k);
    StepTakes(env, trace[k], steps[k], q);
  }

  lemma MetOneMore(trace: seq<System>, steps: seq<Step>, k: nat, q: nat)
    requires |trace| == |steps| + 1 && 0 < k <= |steps|
    ensures MetAboveCursor(trace, steps, k, q) <==>
            steps[k - 1] != Crash && (MetAboveCursor(trace, steps, k - 1, q) || Admits(trace[k - 1], trace[k], q))
  {
    if MetAboveCursor(trace, steps, k, q) {
      var j :| 0 <= j < k && SameRun(steps, j, k) && Admits(trace[j], trace[j + 1], q);
      assert SameRun(steps, j, k - 1);
    }
    if steps[k - 1] != Crash && MetAboveCursor(trace, steps, k - 1, q) {
      var j :| 0 <= j < k - 1 && SameRun(steps, j, k - 1) && Admits(trace[j], trace[j + 1], q);
      assert SameRun(steps, j, k);
    }
    if steps[k - 1] != Crash && Admits(trace[k - 1], trace[k], q) {
      assert SameRun(steps, k - 1, k);
    }
  }

  /** What a run has taken in is what it handled while above its cursor. */
  lemma {:induction false} TakenIffMet(env: Env, trace: seq<System>, steps: seq<Step>, k: nat, q: nat)
    requires Run(env, trace, steps) && k < |trace| && Readable(env, q)
    ensures Holds(Order(trace[k]), q) <==> MetAboveCursor(trace, steps, k, q)
  {
    if k == 0 || steps[k - 1] == Crash {
      RunStarts(env, trace, steps, k, q);
    } else {
      TakenIffMet(env, trace, steps, k - 1, q);
      MetOneMore(trace, steps, k, q);
      RunStepTakes(env, trace, steps, k - 1, q);
    }
  }

  lemma RunStarts(env: Env, trace: seq<System>, steps: seq<Step>, k: nat, q: nat)
    requires Run(env, trace, steps) && k < |trace| && (k == 0 || steps[k - 1] == Crash)
    ensures !Holds(Order(trace[k]), q) && !MetAboveCursor(trace, steps, k, q)
  {
    assert Order(trace[k]) == [];
    if k > 0 {
      MetOneMore(trace, steps, k, q);
    }
  }

  /**
   For deliveries in any order: a readable batch between the starting cursor
   and the current one is accounted for exactly if some delivery of it since
   the start was handled while it was above the cursor. One that comes later is
   skipped as already committed, and lost.
   */
  lemma AccountedIffMetAboveCursor(env: Env, trace: seq<System>, steps: seq<Step>, k: nat, q: nat)
    requires Run(env, trace, steps) && k < |trace| && Readable(env, q)
    requires trace[k].start < q <= trace[k].w.cursor
    ensures AccountedFor(env, trace[k], q) <==> MetAboveCursor(trace, steps, k, q)
  {
    RunLedger(env, trace, steps, k);
    AccountedIffTakenIn(env, trace, steps, k, q);
    TakenIffMet(env, trace, steps, k, q);
  }

  // ----- acknowledged batches ------------------------------------------------

  ghost predicate Twice(xs: seq<nat>, q: nat) { exists i, j :: 0 <= i < j < |xs| && xs[i] == q && xs[j] == q }

  lemma TwiceSnoc(xs: seq<nat>, x: nat, q: nat)
    ensures Twice(xs + [x], q) <==> Twice(xs, q) || (x == q && Occurs(xs, q))
  {
    var ys := xs + [x];
    if Twice(xs, q) {
      var i, j :| 0 <= i < j < |xs| && xs[i] == q && xs[j] == q;
      assert ys[i] == q && ys[j] == q;
    }
    if x == q && Occurs(xs, q) {
      var i :| 0 <= i < |xs| && xs[i] == q;
      assert ys[i] == q && ys[|xs|] == q;
    }
  }

  /** A message heard this run is at or below the cursor, in the buffer, or nothing to write. */
  ghost predicate Disposed(env: Env, s: System, q: nat) {
    q <= s.w.cursor || q in s.w.buffered || !Readable(env, q)
  }

  /** A buffered batch was heard, and is acknowledged exactly if it was heard again. */
  ghost predicate InFlight(env: Env, s: System, q: nat) {
    Readable(env, q) && Occurs(s.heard, q) && (q in s.acks <==> Twice(s.heard, q))
  }

  ghost predicate AcksOk(env: Env, s: System) {
    && (forall i :: 0 <= i < |s.heard| ==> Disposed(env, s, s.heard[i]))
    && (forall q :: q in s.acks ==> Occurs(s.heard, q))
    && (forall q :: q in s.w.buffered ==> InFlight(env, s, q))
  }

  lemma HandleAcks(env: Env, s: System, q: nat)
    requires AcksOk(env, s) && !Classify(env, s.w, q).Stalled?
    ensures AcksOk(env, Handle(env, s, q))
  {
    var s' := Handle(env, s, q);
    HandleFrame(env, s, q);
    forall i | 0 <= i < |s'.heard| ensures Disposed(env, s', s'.heard[i]) {
      if i < |s.heard| {
        assert Disposed(env, s, s.heard[i]);
      }
    }
    forall p | p in s'.acks ensures Occurs(s'.heard, p) {
      OccursSnoc(s.heard, q, p);
    }
    forall p | p in s'.w.buffered ensures InFlight(env, s', p) {
      HandleInFlight(env, s, q, p);
    }
  }

  lemma HandleInFlight(env: Env, s: System, q: nat, p: nat)
    requires AcksOk(env, s) && !Classify(env, s.w, q).Stalled? && p in Handle(env, s, q).w.buffered
    ensures InFlight(env, Handle(env, s, q), p)
  {
    OccursSnoc(s.heard, q, p);
    TwiceSnoc(s.heard, q, p);
    if p in s.w.buffered {
      assert InFlight(env, s, p);
    } else {
      // buffered just now, so never heard before
      FirstHearing(env, s, q);
    }
  }

  lemma FirstHearing(env: Env, s: System, q: nat)
    requires AcksOk(env, s) && Classify(env, s.w, q).Buffered?
    ensures !Occurs(s.heard, q) && !Twice(s.heard, q) && q !in s.acks && Readable(env, q)
  {
    assert !Disposed(env, s, q);
  }

  lemma {:induction false} HandleAllAcks(env: Env, s: System, ms: seq<nat>)
    requires AcksOk(env, s)
    ensures AcksOk(env, HandleAll(env, s, ms))
    decreases |ms|
  {
    if |ms| > 0 {
      if Classify(env, s.w, ms[0]).Stalled? {
        AcksAlike(env, s, s.(w := s.w.(held := ms)));
      } else {
        HandleAcks(env, s, ms[0]);
        HandleAllAcks(env, Handle(env, s, ms[0]), ms[1..]);
      }
    }
  }

  lemma AcksAlike(env: Env, s: System, s': System)
    requires AcksOk(env, s) && s'.heard == s.heard && s'.acks == s.acks
    requires s'.w.buffered == s.w.buffered && s'.w.cursor == s.w.cursor
    ensures AcksOk(env, s')
  {
    forall i | 0 <= i < |s'.heard| ensures Disposed(env, s', s'.heard[i]) {
      assert Disposed(env, s, s.heard[i]);
    }
    forall q | q in s'.w.buffered ensures InFlight(env, s', q) {
      assert InFlight(env, s, q);
    }
  }

  /** A flush that is over: what was buffered is at or below the cursor now. */
  lemma SettledAcks(env: Env, s: System, s': System)
    requires Safe(s) && AcksOk(env, s) && s'.heard == s.heard && s'.acks == s.acks + s.w.buffered
    requires s'.w.buffered == {} && s'.w.cursor == Max(s.w.cursor, s.w.maxSeq)
    ensures AcksOk(env, s')
  {
    forall i | 0 <= i < |s'.heard| ensures Disposed(env, s', s'.heard[i]) {
      assert Disposed(env, s, s.heard[i]);
    }
    forall q | q in s'.acks ensures Occurs(s'.heard, q) {
      if q in s.w.buffered {
        assert InFlight(env, s, q);
      }
    }
  }

  lemma FlushAcks(env: Env, s: System, outcome: Outcome)
    requires Safe(s) && AcksOk(env, s) && !outcome.Landed?
    ensures AcksOk(env, Flush(s, outcome))
  {
    if PendingWork(s.w) && !outcome.Unavailable? && !outcome.RetryUnavailable? {
      SettledAcks(env, s, Flush(s, outcome));
    }
  }

  lemma StepAcks(env: Env, s: System, step: Step)
    requires Safe(s) && AcksOk(env, s) && Enabled(env, s, step) && Atomic(step)
    ensures AcksOk(env, Next(env, s, step))
  {
    match step
    case Fetch(ms) => HandleAllAcks(env, s, ms);
    case Resume =>
      AcksAlike(env, s, s.(w := s.w.(held := [])));
      HandleAllAcks(env, s.(w := s.w.(held := [])), s.w.held);
    case DoFlush(outcome) => FlushAcks(env, s, outcome);
    case Scan(at) => AcksAlike(env, s, Next(env, s, step));
    case Crash =>
  }

  lemma {:induction false} RunAcks(env: Env, trace: seq<System>, steps: seq<Step>, k: nat)
    requires Run(env, trace, steps) && k < |trace|
    ensures AcksOk(env, trace[k])
  {
    if k > 0 {
      RunAcks(env, trace, steps, k - 1);
      RunSafe(env, trace, steps, k - 1);
      StepAcks(env, trace[k - 1], steps[k - 1]);
    }
  }

  /** Acknowledged and so not delivered again, written by the next flush that commits, gone after a crash now. */
  ghost predicate CrashLoses(env: Env, s: System, q: nat) {
    q in Acked(s) && Holds(Flush(s, Committed).db.log, q) && !Holds(Next(env, s, Crash).db.log, q)
  }

  lemma NextFlushWrites(s: System, q: nat)
    requires Safe(s) && Tallied(s)
    ensures Holds(Flush(s, Committed).db.log, q) && !Holds(s.db.log, q) <==> q in s.w.buffered
  {
    var log := s.db.log + s.w.buf;
    if q in s.w.buffered {
      BufferedIsHeld(s, q);
      var i :| 0 <= i < |s.w.buf| && s.w.buf[i].sequence == q;
      assert PendingWork(s.w) && log[|s.db.log| + i].sequence == q;
    }
    if Holds(Flush(s, Committed).db.log, q) && !Holds(s.db.log, q) {
      var j :| 0 <= j < |log| && log[j].sequence == q;
      assert j >= |s.db.log|;
      assert s.w.buf[j - |s.db.log|].sequence in s.w.buffered;
    }
  }

  /**
   Exactly when a crash loses an acknowledged batch, in every reachable state:
   it is acknowledged while buffered, that is, it was delivered again while
   waiting for its flush, or had been acknowledged before this run.
   */
  lemma CrashLosesIffAckedInFlight(env: Env, trace: seq<System>, steps: seq<Step>, k: nat, q: nat)
    requires Run(env, trace, steps) && k < |trace|
    ensures var s := trace[k];
      && (CrashLoses(env, s, q) <==> q in Acked(s) && q in s.w.buffered)
      && (CrashLoses(env, s, q) <==> q in s.w.buffered && (q in s.before || Twice(s.heard, q)))
  {
    var s := trace[k];
    RunSafe(env, trace, steps, k);
    RunTallied(env, trace, steps, k);
    RunAcks(env, trace, steps, k);
    NextFlushWrites(s, q);
    if q in s.w.buffered {
      assert InFlight(env, s, q);
    }
  }

  /**
   And otherwise an acknowledgement can be relied on: a readable batch this run
   has acknowledged, unless it was delivered again while buffered and still is,
   is in the log, in a counted dropped flush, or was never above the cursor
   when delivered.
   */
  lemma AckedIsAccountedFor(env: Env, trace: seq<System>, steps: seq<Step>, k: nat, q: nat)
    requires Run(env, trace, steps) && k < |trace| && Readable(env, q) && q in trace[k].acks
    requires q !in trace[k].w.buffered || !Twice(trace[k].heard, q)
    ensures AccountedFor(env, trace[k], q) || (q <= trace[k].w.cursor && !MetAboveCursor(trace, steps, k, q))
  {
    var s := trace[k];
    RunAcks(env, trace, steps, k);
    RunLedger(env, trace, steps, k);
    TakenIffMet(env, trace, steps, k, q);
    assert q in s.w.buffered ==> InFlight(env, s, q);
    var i :| 0 <= i < |s.heard| && s.heard[i] == q;
    assert Disposed(env, s, s.heard[i]);
    if Holds(Order(s), q) {
      var j :| 0 <= j < |Order(s)| && Order(s)[j].sequence == q;
      OrderIndex(s, j);
      assert q > s.start;
      AccountedIffTakenIn(env, trace, steps, k, q);
    }
  }

  // ----- what the drop counter counts ----------------------------------------

  predicate Drops(s: System, step: Step) { step == DoFlush(RejectedTwice) && PendingWork(s.w) }

  /** The flushes dropped since the last start. */
  function DroppedSince(trace: seq<System>, steps: seq<Step>, k: nat): (n: nat)
    requires |trace| == |steps| + 1 && k <= |steps|
  {
    if k == 0 || steps[k - 1] == Crash then 0
    else DroppedSince(trace, steps, k - 1) + if Drops(trace[k - 1], steps[k - 1]) then 1 else 0
  }

  lemma {:induction false} HandleAllCounts(env: Env, s: System, ms: seq<nat>)
    ensures HandleAll(env, s, ms).w.droppedFlushes == s.w.droppedFlushes
    decreases |ms|
  {
    if |ms| > 0 && !Classify(env, s.w, ms[0]).Stalled? {
      HandleAllCounts(env, Handle(env, s, ms[0]), ms[1..]);
    }
  }

  lemma StepCounts(env: Env, s: System, step: Step)
    requires Enabled(env, s, step) && step != Crash
    ensures Next(env, s, step).w.droppedFlushes == s.w.droppedFlushes + if Drops(s, step) then 1 else 0
  {
    match step
    case Fetch(ms) => HandleAllCounts(env, s, ms);
    case Resume => HandleAllCounts(env, s.(w := s.w.(held := [])), s.w.held);
    case _ =>
  }

  /** Every dropped flush is counted, once. */
  lemma {:induction false} DroppedFlushesAreCounted(env: Env, trace: seq<System>, steps: seq<Step>, k: nat)
    requires Run(env, trace, steps) && k < |trace|
    ensures trace[k].w.droppedFlushes == DroppedSince(trace, steps, k)
  {
    if k > 0 && steps[k - 1] != Crash {
      DroppedFlushesAreCounted(env, trace, steps, k - 1);
      StepCounts(env, trace[k - 1], steps[k - 1]);
    }
  }

  // ----- what the assumptions are for ----------------------------------------

  /** The writer has just learned the generation that messages 1 and 2 need. */
  lemma Ready(env: Env, at: nat) returns (trace: seq<System>, steps: seq<Step>)
    requires env.stream(at).RegistryMsg?
    ensures Run(env, trace, steps)
    ensures trace[|steps|] == Genesis.(w := Genesis.w.(cat := Learn(Genesis.w.cat, env.stream(at).registry)))
  {
    trace, steps := [Genesis], [];
    RunExtends(env, trace, steps, Scan(at));
    trace, steps := trace + [Next(env, Genesis, Scan(at))], [Scan(at)];
  }

  lemma TakesOne(env: Env, s: System, r: ChannelRegistry, q: nat)
    requires s == Genesis.(w := Genesis.w.(cat := Learn(Genesis.w.cat, r)))
    requires q > 0 && Readable(env, q) && env.stream(q).batch.registrySeq == r.registrySeq
    ensures Classify(env, s.w, q).Buffered?
    ensures HandleAll(env, s, [q]) == s.(w := Take(s.w, Taken(env, s.w, q)), heard := [q])
  {
    assert Classify(env, s.w, q).Buffered?;
    HandleAllOne(env, s, q);
  }

  lemma HandleAllOne(env: Env, s: System, q: nat)
    requires !Classify(env, s.w, q).Stalled?
    ensures HandleAll(env, s, [q]) == Handle(env, s, q)
  {
    assert [q][1..] == [];
  }

  /** Without in-order delivery a batch is lost: 2 arrives and commits first, then 1 is skipped as already committed. */
  lemma LateFirstDeliveryIsLost(env: Env, at: nat) returns (trace: seq<System>, steps: seq<Step>)
    requires Readable(env, 1) && Readable(env, 2) && RegistryFor(env, at, 1) && RegistryFor(env, at, 2)
    ensures Run(env, trace, steps)
    ensures var s := trace[|steps|];
            s.start < 1 <= s.w.cursor && 1 in s.heard && 1 in Acked(s) && !Holds(s.db.log, 1) && !AccountedFor(env, s, 1)
  {
    trace, steps := Ready(env, at);
    var s1 := trace[|steps|];
    TakesOne(env, s1, env.stream(at).registry, 2);
    RunExtends(env, trace, steps, Fetch([2]));
    var s2 := Next(env, s1, Fetch([2]));
    trace, steps := trace + [s2], steps + [Fetch([2])];
    RunExtends(env, trace, steps, DoFlush(Committed));
    var s3 := Flush(s2, Committed);
    trace, steps := trace + [s3], steps + [DoFlush(Committed)];
    assert s3.w.cursor == 2 && s3.db.log == [Taken(env, s1.w, 2)];
    RunExtends(env, trace, steps, Fetch([1]));
    assert [1][1..] == [];
    var s4 := Next(env, s3, Fetch([1]));
    assert s4 == s3.(heard := s3.heard + [1], acks := s3.acks + {1});
    trace, steps := trace + [s4], steps + [Fetch([1])];
    assert s4.past == [Fate(Taken(env, s1.w, 2), true)];
  }

  /** An acknowledgement is not a commit: a duplicate of a buffered batch is acked, and a crash then loses the batch. */
  lemma AckedDuplicateCanBeLost(env: Env, at: nat) returns (trace: seq<System>, steps: seq<Step>)
    requires Readable(env, 1) && RegistryFor(env, at, 1)
    ensures Run(env, trace, steps)
    ensures var s := trace[|steps|]; 1 in Acked(s) && s.db.log == [] && s.w.buf == []
  {
    trace, steps := Ready(env, at);
    var s1 := trace[|steps|];
    TakesOne(env, s1, env.stream(at).registry, 1);
    RunExtends(env, trace, steps, Fetch([1]));
    var s2 := Next(env, s1, Fetch([1]));
    trace, steps := trace + [s2], steps + [Fetch([1])];
    assert 1 in s2.w.buffered;
    RunExtends(env, trace, steps, Fetch([1]));
    assert [1][1..] == [];
    var s3 := Next(env, s2, Fetch([1]));
    assert 1 in Acked(s3) && s3.db == s2.db;
    trace, steps := trace + [s3], steps + [Fetch([1])];
    RunExtends(env, trace, steps, Crash);
    trace, steps := trace + [Boot(s3.db, Acked(s3))], steps + [Crash];
  }
}
