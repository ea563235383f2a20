/**
 The ingest writer without the assumption that a flush which raises has
 committed nothing: exactly when a batch is written twice.

 A landed flush puts the buffer into the log while the writer still holds it.
 `Shown` follows how many buffered batches the log has got that way; a later
 write with any of them still buffered is what duplicates, and nothing else is.
 */
module IngestDuplicates {
  import opened Basics
  import opened IngestModel
  import opened IngestContents
  import opened IngestSafety
  import Fates = IngestFates

  /** The flush reaches the database. */
  predicate Writes(s: System, step: Step) {
    step.DoFlush? && PendingWork(s.w) && (step.outcome.Committed? || step.outcome.RetryCommitted? || step.outcome.Landed?)
  }

  /** How many buffered batches are in the log already, after a step from a state where it was `n`. */
  function ShownAfter(s: System, step: Step, n: nat): nat {
    if step == Crash then 0
    else if !step.DoFlush? || !PendingWork(s.w) then n
    else
      match step.outcome
      case Landed(_) => |s.w.buf|
      case Unavailable => n
      case RetryUnavailable => n
      case _ => 0
  }

  function Shown(trace: seq<System>, steps: seq<Step>, k: nat): (n: nat)
    requires |trace| == |steps| + 1 && k <= |steps|
  {
    if k == 0 then 0 else ShownAfter(trace[k - 1], steps[k - 1], Shown(trace, steps, k - 1))
  }

  /** Some step before `k` wrote although part of its buffer was in the log already. */
  ghost predicate Rewritten(trace: seq<System>, steps: seq<Step>, k: nat)
    requires |trace| == |steps| + 1 && k <= |steps|
  {
    exists j :: 0 <= j < k && Writes(trace[j], steps[j]) && Shown(trace, steps, j) > 0
  }

  // ----- what every run keeps ------------------------------------------------

  /** `Safe` without the bounds that need the assumption. */
  ghost predicate Loose(s: System) {
    && s.w.cursor <= s.w.maxSeq && s.db.cursor <= s.w.maxSeq && AtMost(s.db.log, s.db.cursor)
    && Above(s.w.buf, s.w.cursor) && AtMost(s.w.buf, s.w.maxSeq) && DistinctSeqs(s.w.buf)
    && (forall i :: 0 <= i < |s.w.buf| ==> s.w.buf[i].sequence in s.w.buffered)
    && (forall q :: q in s.w.buffered ==> q <= s.w.maxSeq)
  }

  /** The log is distinct, and is what lies at or below the cursor followed by the first `n` buffered batches. */
  ghost predicate Layered(s: System, n: nat) {
    && n <= |s.w.buf| && n <= |s.db.log| && DistinctSeqs(s.db.log)
    && s.db.log[|s.db.log| - n..] == s.w.buf[..n]
    && AtMost(s.db.log[..|s.db.log| - n], s.w.cursor)
  }

  lemma HandleLoose(env: Env, s: System, q: nat)
    requires Loose(s)
    ensures var s' := Handle(env, s, q);
            Loose(s') && s'.db == s.db && s'.w.cursor == s.w.cursor && s.w.buf <= s'.w.buf
  {
    if Classify(env, s.w, q).Buffered? {
      DistinctSnoc(s.w.buf, Taken(env, s.w, q));
    }
  }

  lemma {:induction false} HandleAllLoose(env: Env, s: System, ms: seq<nat>)
    requires Loose(s)
    ensures var s' := HandleAll(env, s, ms);
            Loose(s') && s'.db == s.db && s'.w.cursor == s.w.cursor && s.w.buf <= s'.w.buf
    decreases |ms|
  {
    if |ms| > 0 && !Classify(env, s.w, ms[0]).Stalled? {
      HandleLoose(env, s, ms[0]);
      HandleAllLoose(env, Handle(env, s, ms[0]), ms[1..]);
    }
  }

  /** Taking in more batches leaves the layers where they are. */
  lemma LayersStay(s: System, s': System, n: nat)
    requires Layered(s, n) && s'.db == s.db && s'.w.cursor == s.w.cursor && s.w.buf <= s'.w.buf
    ensures Layered(s', n)
  {
    assert s'.w.buf[..n] == s.w.buf[..n];
  }

  /** A buffer above everything in the log goes in once. */
  lemma WriteOnce(log: seq<Contribution>, buf: seq<Contribution>, cursor: nat)
    requires DistinctSeqs(log) && DistinctSeqs(buf) && AtMost(log, cursor) && Above(buf, cursor)
    ensures DistinctSeqs(log + buf)
  {
  }

  /** One that is in the log in part goes in twice in that part. */
  lemma WriteAgain(log: seq<Contribution>, buf: seq<Contribution>, n: nat)
    requires 0 < n <= |buf| && n <= |log| && log[|log| - n..] == buf[..n]
    ensures !DistinctSeqs(log + buf)
  {
    var both := log + buf;
    assert both[|log| - n] == log[|log| - n..][0] == buf[..n][0] == both[|log|];
  }

  lemma FlushLoose(s: System, outcome: Outcome)
    requires Loose(s)
    ensures Loose(Flush(s, outcome)) && s.db.log <= Flush(s, outcome).db.log
  {
  }

  lemma CommitLayers(s: System, outcome: Outcome, n: nat)
    requires Loose(s) && Layered(s, n) && Writes(s, DoFlush(outcome))
    ensures n == 0 ==> Layered(Flush(s, outcome), ShownAfter(s, DoFlush(outcome), n))
    ensures n > 0 ==> !DistinctSeqs(Flush(s, outcome).db.log)
  {
    if n > 0 {
      WriteAgain(s.db.log, s.w.buf, n);
    } else {
      assert s.db.log[..|s.db.log|] == s.db.log;
      WriteOnce(s.db.log, s.w.buf, s.w.cursor);
      var s' := Flush(s, outcome);
      assert s'.db.log[..|s'.db.log|] == s'.db.log;
      assert outcome.Landed? ==> s'.db.log[..|s.db.log|] == s.db.log && s'.db.log[|s.db.log|..] == s.w.buf[..|s.w.buf|];
    }
  }

  lemma DropLayers(s: System, n: nat)
    requires Loose(s) && Layered(s, n) && PendingWork(s.w)
    ensures Layered(Flush(s, RejectedTwice), 0)
  {
    var log, at := s.db.log, |s.db.log| - n;
    forall i | 0 <= i < |log| ensures log[i].sequence <= Max(s.w.cursor, s.w.maxSeq) {
      if i < at {
        assert log[i] == log[..at][i];
      } else {
        assert log[i] == log[at..][i - at] == s.w.buf[..n][i - at];
      }
    }
    assert log[..|log|] == log;
  }

  lemma FlushLayers(s: System, outcome: Outcome, n: nat)
    requires Loose(s) && Layered(s, n) && !(Writes(s, DoFlush(outcome)) && n > 0)
    ensures Layered(Flush(s, outcome), ShownAfter(s, DoFlush(outcome), n))
  {
    if Writes(s, DoFlush(outcome)) {
      CommitLayers(s, outcome, n);
    } else if PendingWork(s.w) && outcome.RejectedTwice? {
      DropLayers(s, n);
    }
  }

  lemma StepLoose(env: Env, s: System, step: Step)
    requires Loose(s) && Enabled(env, s, step)
    ensures Loose(Next(env, s, step)) && s.db.log <= Next(env, s, step).db.log
  {
    match step
    case Fetch(ms) => HandleAllLoose(env, s, ms);
    case Resume => HandleAllLoose(env, s.(w := s.w.(held := [])), s.w.held);
    case DoFlush(outcome) => FlushLoose(s, outcome);
    case _ =>
  }

  lemma StepLayers(env: Env, s: System, step: Step, n: nat)
    requires Loose(s) && Layered(s, n) && Enabled(env, s, step) && !(Writes(s, step) && n > 0)
    ensures Layered(Next(env, s, step), ShownAfter(s, step, n))
  {
    match step
    case Fetch(ms) =>
      HandleAllLoose(env, s, ms);
      LayersStay(s, HandleAll(env, s, ms), n);
    case Resume =>
      var s0 := s.(w := s.w.(held := []));
      HandleAllLoose(env, s0, s.w.held);
      LayersStay(s, HandleAll(env, s0, s.w.held), n);
    case DoFlush(outcome) => FlushLayers(s, outcome, n);
    case Scan(at) => LayersStay(s, Next(env, s, step), n);
    case Crash => assert s.db.log[..|s.db.log|] == s.db.log;
  }

  lemma StepRewrites(env: Env, s: System, step: Step, n: nat)
    requires Loose(s) && Layered(s, n) && Writes(s, step) && n > 0 && Enabled(env, s, step)
    ensures !DistinctSeqs(Next(env, s, step).db.log)
  {
    CommitLayers(s, step.outcome, n);
  }

  lemma RewrittenOneMore(trace: seq<System>, steps: seq<Step>, k: nat)
    requires |trace| == |steps| + 1 && 0 < k <= |steps|
    ensures Rewritten(trace, steps, k) <==>
            Rewritten(trace, steps, k - 1) || (Writes(trace[k - 1], steps[k - 1]) && Shown(trace, steps, k - 1) > 0)
  {
  }

  lemma StaysDuplicated(log: seq<Contribution>, log': seq<Contribution>)
    requires log <= log' && !DistinctSeqs(log)
    ensures !DistinctSeqs(log')
  {
    var i, j :| 0 <= i < j < |log| && log[i].sequence == log[j].sequence;
    assert log'[i] == log[i] && log'[j] == log[j];
  }

  lemma {:induction false} RunLayers(env: Env, trace: seq<System>, steps: seq<Step>, k: nat)
    requires AnyRun(env, trace, steps) && k < |trace|
    ensures Loose(trace[k])
    ensures if Rewritten(trace, steps, k) then !DistinctSeqs(trace[k].db.log) else Layered(trace[k], Shown(trace, steps, k))
  {
    if k > 0 {
      var s, step, n := trace[k - 1], steps[k - 1], Shown(trace, steps, k - 1);
      RunLayers(env, trace, steps, k - 1);
      StepLoose(env, s, step);
      RewrittenOneMore(trace, steps, k);
      if Rewritten(trace, steps, k - 1) {
        StaysDuplicated(s.db.log, trace[k].db.log);
      } else if Writes(s, step) && n > 0 {
        StepRewrites(env, s, step, n);
      } else {
        StepLayers(env, s, step, n);
      }
    }
  }

  /**
   Over every run, flushes that land and raise included: each stream sequence is
   in the log at most once exactly if no flush wrote while the log already had
   part of its buffer from an earlier one that landed.
   */
  lemma AtMostOnceIffNotRewritten(env: Env, trace: seq<System>, steps: seq<Step>, k: nat)
    requires AnyRun(env, trace, steps) && k < |trace|
    ensures DistinctSeqs(trace[k].db.log) <==> !Rewritten(trace, steps, k)
  {
    RunLayers(env, trace, steps, k);
  }

  // ----- such a run ----------------------------------------------------------

  lemma AnyRunExtends(env: Env, trace: seq<System>, steps: seq<Step>, step: Step)
    requires AnyRun(env, trace, steps) && Enabled(env, trace[|steps|], step)
    ensures AnyRun(env, trace + [Next(env, trace[|steps|], step)], steps + [step])
  {
    var trace', steps' := trace + [Next(env, trace[|steps|], step)], steps + [step];
    forall k | 0 <= k < |steps'| ensures Enabled(env, trace'[k], steps'[k]) && trace'[k + 1] == Next(env, trace'[k], steps'[k]) {
      assert trace'[k] == trace[k];
      if k < |steps| {
        assert trace'[k + 1] == trace[k + 1] && steps'[k] == steps[k];
      }
    }
  }

  /** Batch 1 is taken in and waits for its flush. */
  lemma OneTaken(env: Env, at: nat) returns (trace: seq<System>, steps: seq<Step>, c: Contribution)
    requires Readable(env, 1) && RegistryFor(env, at, 1)
    ensures AnyRun(env, trace, steps) && c.sequence == 1
    ensures var s := trace[|steps|];
            s.w.buf == [c] && s.w.rows == c.rows && PendingWork(s.w) && s.db == Genesis.db
  {
    trace, steps := Fates.Ready(env, at);
    var s := trace[|steps|];
    Fates.TakesOne(env, s, env.stream(at).registry, 1);
    c := Taken(env, s.w, 1);
    AnyRunExtends(env, trace, steps, Fetch([1]));
    trace, steps := trace + [Next(env, s, Fetch([1]))], steps + [Fetch([1])];
  }

  /** Its flush lands and raises, and the retry commits: its rows are in the table twice. */
  lemma LandedFlushDuplicates(env: Env, at: nat) returns (trace: seq<System>, steps: seq<Step>, c: Contribution)
    requires Readable(env, 1) && RegistryFor(env, at, 1)
    ensures AnyRun(env, trace, steps) && c.sequence == 1
    ensures trace[|steps|].db.log == [c, c] && trace[|steps|].db.samples == c.rows + c.rows
  {
    trace, steps, c := OneTaken(env, at);
    var s := trace[|steps|];
    AnyRunExtends(env, trace, steps, DoFlush(Landed(true)));
    var s1 := Flush(s, Landed(true));
    trace, steps := trace + [s1], steps + [DoFlush(Landed(true))];
    AnyRunExtends(env, trace, steps, DoFlush(Committed));
    trace, steps := trace + [Flush(s1, Committed)], steps + [DoFlush(Committed)];
    assert s1.db.log == [] + [c] && s1.db.samples == [] + c.rows;
  }
}
