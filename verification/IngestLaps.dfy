/**
 What becomes of lap rows and pit updates: within a run, every row the folded
 lap events give is, once and in order, in the `laps` table, counted as
 dropped, or still waiting for its flush.
 */
module IngestLaps {
  import opened IngestModel
  import opened IngestSafety
  import T = LapTable

  function AllOf<X>(fs: seq<Filed<X>>): (xs: seq<X>) { seq(|fs|, i requires 0 <= i < |fs| => fs[i].x) }

  /** Those that were written, in order. */
  function WrittenOf<X>(fs: seq<Filed<X>>): (xs: seq<X>)
  {
    if |fs| == 0 then []
    else WrittenOf(fs[..|fs| - 1]) + (if fs[|fs| - 1].written then [fs[|fs| - 1].x] else [])
  }

  lemma {:induction false} WrittenMore<X>(fs: seq<Filed<X>>, xs: seq<X>, written: bool)
    ensures WrittenOf(fs + File(xs, written)) == WrittenOf(fs) + if written then xs else []
  {
    if |xs| == 0 {
      assert fs + File(xs, written) == fs;
    } else {
      var front, last := xs[..|xs| - 1], xs[|xs| - 1];
      WrittenMore(fs, front, written);
      FileSnoc(fs, front, last, written);
      WrittenSnoc(fs + File(front, written), Filed(last, written));
      assert xs == front + [last];
    }
  }

  lemma FileSnoc<X>(fs: seq<Filed<X>>, xs: seq<X>, x: X, written: bool)
    ensures fs + File(xs + [x], written) == fs + File(xs, written) + [Filed(x, written)]
  {
  }

  lemma WrittenSnoc<X>(fs: seq<Filed<X>>, f: Filed<X>)
    ensures WrittenOf(fs + [f]) == WrittenOf(fs) + if f.written then [f.x] else []
  {
    assert (fs + [f])[..|fs|] == fs;
  }

  lemma AllMore<X>(fs: seq<Filed<X>>, xs: seq<X>, written: bool)
    ensures AllOf(fs + File(xs, written)) == AllOf(fs) + xs
  {
  }

  /** Over a table that began with `at` entries: what came since is what was written. */
  ghost predicate TableHas<X>(table: seq<X>, at: nat, fs: seq<Filed<X>>) {
    at <= |table| && table[at..] == WrittenOf(fs)
  }

  lemma TableMore<X>(table: seq<X>, at: nat, fs: seq<Filed<X>>, xs: seq<X>, written: bool)
    requires TableHas(table, at, fs)
    ensures TableHas(if written then table + xs else table, at, fs + File(xs, written))
  {
    WrittenMore(fs, xs, written);
    assert (table + xs)[at..] == table[at..] + xs;
    assert table[at..] + [] == table[at..];
  }

  // ----- the invariant -------------------------------------------------------

  ghost predicate LapsFiled(s: System) {
    && AllOf(s.book.laps) + s.w.lapRows == T.Rows(T.Empty, EventsOf(Order(s)))
    && TableHas(s.db.laps, s.book.lapsAt, s.book.laps)
    && s.w.lapsDropped + |WrittenOf(s.book.laps)| == |s.book.laps|
  }

  ghost predicate PitsFiled(s: System) {
    && AllOf(s.book.pits) + s.w.pitUpdates == Pits(T.Empty, EventsOf(Order(s)))
    && TableHas(s.db.pits, s.book.pitsAt, s.book.pits)
  }

  ghost predicate InBook(s: System) {
    LapsFiled(s) && PitsFiled(s) && s.w.table == T.Run(T.Empty, EventsOf(Order(s)))
  }

  lemma {:induction false} PitsConcat(t: T.Table, a: seq<T.Payload>, b: seq<T.Payload>)
    ensures Pits(t, a + b) == Pits(t, a) + Pits(T.Run(t, a), b)
  {
    if |b| == 0 {
      assert a + b == a;
    } else {
      PitsConcat(t, a, b[..|b| - 1]);
      T.RunConcat(t, a, b[..|b| - 1]);
      assert (a + b)[..|a + b| - 1] == a + b[..|b| - 1];
    }
  }

  lemma InBookAlike(s: System, s': System)
    requires InBook(s) && s'.book == s.book && s'.db == s.db && s'.past == s.past && s'.w.buf == s.w.buf
    requires s'.w.lapRows == s.w.lapRows && s'.w.pitUpdates == s.w.pitUpdates && s'.w.table == s.w.table
    requires s'.w.lapsDropped == s.w.lapsDropped
    ensures InBook(s')
  {
    assert Order(s') == Order(s);
  }

  lemma TakeInBook(s: System, c: Contribution, s': System)
    requires InBook(s) && s'.book == s.book && s'.db == s.db && s'.past == s.past && s'.w == Take(s.w, c)
    ensures InBook(s')
  {
    var es := EventsOf(Order(s));
    OrderTake(s, c, s');
    EventsSnoc(Order(s), c);
    T.RunConcat(T.Empty, es, c.events);
    PitsConcat(T.Empty, es, c.events);
    assert AllOf(s.book.laps) + (s.w.lapRows + T.Rows(s.w.table, c.events)) ==
           AllOf(s.book.laps) + s.w.lapRows + T.Rows(s.w.table, c.events);
    assert AllOf(s.book.pits) + (s.w.pitUpdates + Pits(s.w.table, c.events)) ==
           AllOf(s.book.pits) + s.w.pitUpdates + Pits(s.w.table, c.events);
  }

  lemma HandleInBook(env: Env, s: System, q: nat)
    requires InBook(s)
    ensures InBook(Handle(env, s, q))
  {
    if Classify(env, s.w, q).Buffered? {
      TakeInBook(s, Taken(env, s.w, q), Handle(env, s, q));
    } else {
      InBookAlike(s, Handle(env, s, q));
    }
  }

  lemma {:induction false} HandleAllInBook(env: Env, s: System, ms: seq<nat>)
    requires InBook(s)
    ensures InBook(HandleAll(env, s, ms))
    decreases |ms|
  {
    if |ms| > 0 {
      if Classify(env, s.w, ms[0]).Stalled? {
        InBookAlike(s, s.(w := s.w.(held := ms)));
      } else {
        HandleInBook(env, s, ms[0]);
        HandleAllInBook(env, Handle(env, s, ms[0]), ms[1..]);
      }
    }
  }

  /** A flush that is over: the waiting rows go into the book, and into the tables or the drop count. */
  lemma SettledInBook(s: System, s': System, withLaps: bool)
    requires InBook(s) && Order(s') == Order(s) && s'.w.table == s.w.table
    requires s'.book.lapsAt == s.book.lapsAt && s'.book.laps == s.book.laps + File(s.w.lapRows, withLaps)
    requires s'.book.pitsAt == s.book.pitsAt && s'.book.pits == s.book.pits + File(s.w.pitUpdates, withLaps)
    requires s'.w.lapRows == [] && s'.w.pitUpdates == []
    requires s'.db.laps == if withLaps then s.db.laps + s.w.lapRows else s.db.laps
    requires s'.db.pits == if withLaps then s.db.pits + s.w.pitUpdates else s.db.pits
    requires s'.w.lapsDropped == s.w.lapsDropped + if withLaps then 0 else |s.w.lapRows|
    ensures InBook(s')
  {
    AllMore(s.book.laps, s.w.lapRows, withLaps);
    AllMore(s.book.pits, s.w.pitUpdates, withLaps);
    WrittenMore(s.book.laps, s.w.lapRows, withLaps);
    TableMore(s.db.laps, s.book.lapsAt, s.book.laps, s.w.lapRows, withLaps);
    TableMore(s.db.pits, s.book.pitsAt, s.book.pits, s.w.pitUpdates, withLaps);
  }

  lemma FlushInBook(s: System, outcome: Outcome)
    requires InBook(s) && !outcome.Landed?
    ensures InBook(Flush(s, outcome))
  {
    if PendingWork(s.w) && !outcome.Unavailable? && !outcome.RetryUnavailable? {
      var s' := Flush(s, outcome);
      SettledOrder(s, s'.db, !outcome.RejectedTwice?, outcome.Committed?);
      assert Order(s') == Order(Settle(s, s'.db, !outcome.RejectedTwice?, outcome.Committed?));
      SettledInBook(s, s', outcome.Committed?);
    }
  }

  lemma BootInBook(db: Db, acked: set<nat>)
    ensures InBook(Boot(db, acked))
  {
    var s := Boot(db, acked);
    assert Order(s) == [] && EventsOf(Order(s)) == [];
    assert db.laps[|db.laps|..] == [] && db.pits[|db.pits|..] == [];
  }

  lemma StepInBook(env: Env, s: System, step: Step)
    requires InBook(s) && Enabled(env, s, step) && Atomic(step)
    ensures InBook(Next(env, s, step))
  {
    match step
    case Fetch(ms) => HandleAllInBook(env, s, ms);
    case Resume =>
      InBookAlike(s, s.(w := s.w.(held := [])));
      HandleAllInBook(env, s.(w := s.w.(held := [])), s.w.held);
    case DoFlush(outcome) => FlushInBook(s, outcome);
    case Scan(at) => InBookAlike(s, Next(env, s, step));
    case Crash => BootInBook(s.db, Acked(s));
  }

  lemma {:induction false} RunInBook(env: Env, trace: seq<System>, steps: seq<Step>, k: nat)
    requires Run(env, trace, steps) && k < |trace|
    ensures InBook(trace[k])
  {
    if k > 0 {
      RunInBook(env, trace, steps, k - 1);
      StepInBook(env, trace[k - 1], steps[k - 1]);
    } else {
      BootInBook(Genesis.db, {});
    }
  }

  /**
   Within a run: the rows that folding its lap events gives are those of the
   flushes that are over followed by those still waiting. Of the former, in
   order, exactly the written ones are what the `laps` table gained since the
   start, and the drop counter is the number of the others. Pit updates
   likewise, except that nothing counts the dropped ones.
   */
  lemma LapRowsAccountedFor(env: Env, trace: seq<System>, steps: seq<Step>, k: nat)
    requires Run(env, trace, steps) && k < |trace|
    ensures var s := trace[k];
      var es := EventsOf(Order(s));
      && T.Rows(T.Empty, es) == AllOf(s.book.laps) + s.w.lapRows
      && s.book.lapsAt <= |s.db.laps| && s.db.laps[s.book.lapsAt..] == WrittenOf(s.book.laps)
      && s.w.lapsDropped == |s.book.laps| - |WrittenOf(s.book.laps)|
      && Pits(T.Empty, es) == AllOf(s.book.pits) + s.w.pitUpdates
      && s.book.pitsAt <= |s.db.pits| && s.db.pits[s.book.pitsAt..] == WrittenOf(s.book.pits)
  {
    RunInBook(env, trace, steps, k);
  }
}
