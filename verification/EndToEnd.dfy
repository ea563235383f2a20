/**
 From GPS fixes to lap rows: the timing engine's events, encoded as
 `lap.event` payloads (`src/agent/timing_app.py`, `_encode_event`) and folded
 by the materialiser in stream order, over any number of engine runs.

 The engine reuses a lap number when it abandons a partial lap, and a rebuilt
 engine starts again at lap 1, so the materialiser may hold sectors of another
 attempt under the number of the running lap. The theorems say exactly which
 sectors each row gets, and that a valid lap's row is its own sectors 1..n
 unless a rebuilt engine on a shorter track found itself in lap 1 again.
 */
module EndToEnd {
  import opened Basics
  import opened LapClock
  import T = LapTable
  import E = TimingEngine

  function KindOf(k: EventKind): T.Kind {
    match k
    case SectorCompleted => T.SectorEvent
    case LapCompleted => T.LapEvent
    case PitEntry => T.PitEntryEvent
    case PitExit => T.PitExitEvent
  }

  function Encode(e: Event): T.Payload {
    T.Payload(KindOf(e.kind), e.time, e.lapNumber, Some(e.sector), Some(e.splitTime), Some(e.lapTime), Some(e.valid),
              Some(if e.pit == Track then "track" else "pit"))
  }

  function EncodeAll(es: seq<Event>): (ps: seq<T.Payload>) { seq(|es|, i requires 0 <= i < |es| => Encode(es[i])) }

  // ----- what the buffer holds while the engine runs -------------------------

  ghost predicate Filed(sectors: map<T.Key, T.SectorRow>, lap: int, n: nat) {
    forall k :: k in sectors ==>
      k.lap == lap && 1 <= k.sector <= n && sectors[k].sector == k.sector && sectors[k].splitTime.Some?
  }

  /** Sector `s` of a lap that crossed its lap points at `xs`, the opening first: its own split, at its own time. */
  function OwnRow(xs: seq<real>, s: nat): T.SectorRow
    requires 0 < s < |xs|
  {
    T.SectorRow(s, Some(xs[s] - xs[s - 1]), xs[s])
  }

  ghost predicate Own(sectors: map<T.Key, T.SectorRow>, lap: int, xs: seq<real>) {
    forall s :: 0 < s < |xs| ==> T.Key(lap, s) in sectors && sectors[T.Key(lap, s)] == OwnRow(xs, s)
  }

  /** The clock's own bookkeeping for a lap that may still be valid. */
  ghost predicate Coherent(r: Rules, c: Clock) {
    && (c.lapStart == 0.0 ==> c.lapNumber == 0)
    && (c.lapStart != 0.0 && c.lapValid ==>
          r.n > 0 && c.sectorsDone < r.n && c.expectedIdx == if c.sectorsDone + 1 == r.n then 0 else c.sectorsDone + 1)
  }

  /** What the events report for lap `lap`: per sector number, the last sector event. */
  function LastFiled(es: seq<Event>, lap: int): (m: map<T.Key, T.SectorRow>)
  {
    if |es| == 0 then map[]
    else
      var front, e := LastFiled(es[..|es| - 1], lap), es[|es| - 1];
      if e.kind == SectorCompleted && e.lapNumber == lap then front[T.Key(lap, e.sector) := RowFrom(e)] else front
  }

  function RowFrom(e: Event): T.SectorRow { T.SectorRow(e.sector, Some(e.splitTime), e.time) }

  /** What an earlier engine run left buffered matters until this run has completed its first lap. */
  function Base(c: Clock, stale: map<T.Key, T.SectorRow>): map<T.Key, T.SectorRow> {
    if c.lapNumber <= 1 then stale else map[]
  }

  /** The crossing times of the running lap, against the clock. */
  ghost predicate Timed(c: Clock, xs: seq<real>) {
    if c.lapStart == 0.0 then xs == []
    else |xs| == c.sectorsDone + 1 && xs[0] == c.lapStart && xs[|xs| - 1] == c.segmentStart && c.lapNumber >= 1
  }

  /**
   The table holds what the events of this run report for the running lap, over
   what was stale when the run began; while the lap may still be valid, that
   includes all its own sectors so far.
   */
  ghost predicate InStep(r: Rules, c: Clock, t: T.Table, xs: seq<real>, es: seq<Event>, stale: map<T.Key, T.SectorRow>) {
    && (t.highest.Some? ==> 0 <= t.highest.value <= c.lapNumber)
    && (t.sectors != map[] ==> t.highest == Some(c.lapNumber) && c.lapNumber >= 1)
    && (forall i :: 0 <= i < |es| ==> es[i].lapNumber <= c.lapNumber)
    && Filed(t.sectors, c.lapNumber, T.MAX_BUFFERED - 1)
    && t.sectors == Base(c, stale) + LastFiled(es, c.lapNumber)
    && Filed(LastFiled(es, c.lapNumber), c.lapNumber, if r.n == 0 then 0 else r.n - 1)
    && Timed(c, xs) && (c.lapStart == 0.0 ==> t.sectors == map[])
    && (c.lapStart != 0.0 && c.lapValid ==> Own(LastFiled(es, c.lapNumber), c.lapNumber, xs))
  }

  lemma {:induction false} TimedRun(r: Rules, ms: seq<Mark>)
    requires Sound(r, ms)
    ensures Timed(RunClock(r, ms), Crossed(ms))
    ensures RunEvents(r, ms) == [] ==> RunClock(r, ms).sectorsDone == 0 && RunClock(r, ms).lapNumber <= 1
  {
    if |ms| > 0 {
      var last := |ms| - 1;
      assert ms[last] in ms;
      TimedRun(r, ms[..last]);
    }
  }

  lemma CoherentRun(r: Rules, ms: seq<Mark>)
    requires Sound(r, ms)
    ensures Coherent(r, RunClock(r, ms))
  {
    ClockFollowsMarks(r, ms);
    if Opened(ms).Some? {
      CleanHasRoom(r, ms, Opened(ms).value);
    }
  }

  // ----- one event at a time -------------------------------------------------

  lemma {:induction false} KeysCount(keys: set<T.Key>, lap: int, n: nat)
    requires forall k :: k in keys ==> k.lap == lap && 1 <= k.sector <= n
    ensures |keys| <= n
  {
    if n == 0 {
      assert keys == {};
    } else {
      KeysCount(keys - {T.Key(lap, n)}, lap, n - 1);
    }
  }

  lemma FiledCount(sectors: map<T.Key, T.SectorRow>, lap: int, n: nat)
    requires Filed(sectors, lap, n)
    ensures |sectors| <= n
  {
    KeysCount(sectors.Keys, lap, n);
  }

  /** A sector event within the cap is simply filed. */
  lemma FileSector(t: T.Table, e: Event, n: nat)
    requires e.kind == SectorCompleted && Filed(t.sectors, e.lapNumber, n) && n < T.MAX_BUFFERED
    requires t.highest.Some? ==> t.highest.value <= e.lapNumber
    ensures var t' := T.Observe(t, Encode(e)).0;
            && t'.sectors == t.sectors[T.Key(e.lapNumber, e.sector) := T.SectorRow(e.sector, Some(e.splitTime), e.time)]
            && t'.highest == Some(T.MaxOf(e.lapNumber, t.highest))
  {
    FiledCount(t.sectors, e.lapNumber, n);
  }

  /**
   `row` reports lap event `lap`, which crossed its lap points at `xs`, and has
   the sectors of `filing` in order; if the lap is valid these include its own.
   */
  ghost predicate RowOf(n: nat, row: T.LapRow, lap: Event, xs: seq<real>, filing: map<T.Key, T.SectorRow>) {
    && row.lapNumber == lap.lapNumber && row.crossedAt == lap.time && row.lapTime == Some(lap.lapTime)
    && row.valid == lap.valid && row.sectors == T.RowsFor(filing, lap.lapNumber)
    && |xs| > 1 && lap.time == xs[|xs| - 1] && lap.lapTime == xs[|xs| - 1] - xs[0]
    && (forall k :: k in filing ==> k.lap == lap.lapNumber && k.sector >= 1)
    && (lap.valid ==> |xs| == n + 1 && Own(filing, lap.lapNumber, xs))
  }

  function SplitsOfRow(row: T.LapRow): (s: seq<real>) {
    seq(|row.sectors|, i requires 0 <= i < |row.sectors| =>
      if row.sectors[i].splitTime.Some? then row.sectors[i].splitTime.value else 0.0)
  }

  /**
   Exactly sectors 1..n in order, sector `i` with the time and the split of the
   lap's own `i`-th crossing, and the splits sum to the lap time.
   */
  ghost predicate Complete(n: nat, row: T.LapRow, xs: seq<real>) {
    && |xs| == n + 1 && |row.sectors| == n
    && (forall i :: 0 <= i < n ==> row.sectors[i] == OwnRow(xs, i + 1))
    && row.lapTime == Some(Sum(SplitsOfRow(row)))
  }

  /** Differences of successive times sum to the difference of the ends. */
  lemma {:induction false} DifferencesTelescope(xs: seq<real>, ds: seq<real>)
    requires |xs| == |ds| + 1 && forall i :: 0 <= i < |ds| ==> ds[i] == xs[i + 1] - xs[i]
    ensures Sum(ds) == xs[|ds|] - xs[0]
  {
    if |ds| > 0 {
      DifferencesTelescope(xs[..|ds|], ds[..|ds| - 1]);
    }
  }

  ghost predicate OnlyUpTo(sectors: map<T.Key, T.SectorRow>, lap: int, n: nat) {
    forall k :: k in sectors ==> k.lap == lap && 1 <= k.sector <= n
  }

  /** With sectors 1..n filed and nothing else, the rows of the lap are those, in order. */
  lemma RowsOfFullLap(sectors: map<T.Key, T.SectorRow>, lap: int, n: nat)
    requires OnlyUpTo(sectors, lap, n) && forall s :: 0 < s <= n ==> T.Key(lap, s) in sectors
    ensures var rows := T.RowsFor(sectors, lap);
            |rows| == n && forall i :: 0 <= i < n ==> rows[i] == sectors[T.Key(lap, i + 1)]
  {
    var numbers := T.Buffered(sectors, lap);
    forall x ensures x in numbers <==> 0 < x <= n {
      T.BufferedIn(sectors, lap, x);
    }
    T.AscendingRange(numbers, 0, n);
    assert T.Upto(n)[0..] == T.Upto(n);
  }

  lemma RowsAreOwn(sectors: map<T.Key, T.SectorRow>, lap: int, n: nat, xs: seq<real>)
    requires OnlyUpTo(sectors, lap, n) && |xs| == n + 1 && Own(sectors, lap, xs)
    ensures var rows := T.RowsFor(sectors, lap);
            |rows| == n && forall i :: 0 <= i < n ==> rows[i] == OwnRow(xs, i + 1)
  {
    RowsOfFullLap(sectors, lap, n);
    forall i | 0 <= i < n ensures T.RowsFor(sectors, lap)[i] == OwnRow(xs, i + 1) {
      assert sectors[T.Key(lap, i + 1)] == OwnRow(xs, i + 1);
    }
  }

  lemma OwnRowsSum(n: nat, row: T.LapRow, xs: seq<real>)
    requires |xs| == n + 1 && |row.sectors| == n && forall i :: 0 <= i < n ==> row.sectors[i] == OwnRow(xs, i + 1)
    ensures Sum(SplitsOfRow(row)) == xs[n] - xs[0]
  {
    DifferencesTelescope(xs, SplitsOfRow(row));
  }

  lemma LapClearsBuffer(t: T.Table, e: Event, n: nat)
    requires e.kind == LapCompleted && OnlyUpTo(t.sectors, e.lapNumber, n)
    requires t.highest.Some? ==> t.highest.value <= e.lapNumber
    ensures T.Observe(t, Encode(e)).0.sectors == map[]
    ensures T.Observe(t, Encode(e)).0.highest == Some(T.MaxOf(e.lapNumber, t.highest))
  {
  }

  // ----- one mark at a time --------------------------------------------------

  lemma EncodeOne(t: T.Table, e: Event)
    ensures T.Run(t, EncodeAll([e])) == T.Observe(t, Encode(e)).0
    ensures T.Rows(t, EncodeAll([e])) == match T.Observe(t, Encode(e)).1 { case Lap(row) => [row] case _ => [] }
  {
    var ps := EncodeAll([e]);
    assert ps == [Encode(e)] && ps[..0] == [];
    assert T.Run(t, ps[..0]) == t;
  }

  lemma EncodeTwo(t: T.Table, e: Event, f: Event)
    requires T.Observe(t, Encode(e)).1.Nothing?
    ensures var t1 := T.Observe(t, Encode(e)).0;
            && T.Run(t, EncodeAll([e, f])) == T.Observe(t1, Encode(f)).0
            && T.Rows(t, EncodeAll([e, f])) == match T.Observe(t1, Encode(f)).1 { case Lap(row) => [row] case _ => [] }
  {
    EncodeOne(t, e);
    EncodeOne(T.Observe(t, Encode(e)).0, f);
    assert EncodeAll([e, f]) == EncodeAll([e]) + EncodeAll([f]);
    T.RunConcat(t, EncodeAll([e]), EncodeAll([f]));
  }

  /** A sector from beyond the track. */
  ghost predicate Beyond(filing: map<T.Key, T.SectorRow>, n: nat) { exists k :: k in filing && k.sector > n }

  lemma {:induction false} MoreThan(s: set<int>, n: nat, x: int)
    requires (forall i :: 1 <= i <= n ==> i in s) && x > n && x in s
    ensures |s| > n
  {
    if n > 0 {
      var rest := s - {n as int};
      MoreThan(rest, n - 1, x);
      assert |s| == |rest| + 1;
    }
  }

  /** A valid lap's row is complete exactly if nothing from beyond the track was filed under its number. */
  lemma CompleteIffNothingBeyond(n: nat, row: T.LapRow, lap: Event, xs: seq<real>, filing: map<T.Key, T.SectorRow>)
    requires RowOf(n, row, lap, xs, filing) && lap.valid
    ensures Complete(n, row, xs) <==> !Beyond(filing, n)
  {
    if !Beyond(filing, n) {
      RowsAreOwn(filing, lap.lapNumber, n, xs);
      OwnRowsSum(n, row, xs);
    } else {
      var k :| k in filing && k.sector > n;
      var numbers := T.Buffered(filing, lap.lapNumber);
      forall i | i == k.sector || 1 <= i <= n ensures i in numbers {
        assert T.Key(lap.lapNumber, i) in filing;
        T.BufferedIn(filing, lap.lapNumber, i);
      }
      MoreThan(numbers, n, k.sector);
    }
  }

  // ----- filing --------------------------------------------------------------

  lemma LastFiledSnoc(es: seq<Event>, e: Event, lap: int)
    ensures LastFiled(es + [e], lap) ==
            if e.kind == SectorCompleted && e.lapNumber == lap then LastFiled(es, lap)[T.Key(lap, e.sector) := RowFrom(e)]
            else LastFiled(es, lap)
  {
    assert (es + [e])[..|es|] == es;
  }

  lemma {:induction false} NothingFiledYet(es: seq<Event>, lap: int)
    requires forall i :: 0 <= i < |es| ==> es[i].lapNumber < lap
    ensures LastFiled(es, lap) == map[]
  {
    if |es| > 0 {
      NothingFiledYet(es[..|es| - 1], lap);
    }
  }

  /** Filing the next own sector of the lap. */
  lemma OwnGrows(sectors: map<T.Key, T.SectorRow>, lap: int, xs: seq<real>, time: real)
    requires xs != [] && Own(sectors, lap, xs)
    ensures Own(sectors[T.Key(lap, |xs|) := OwnRow(xs + [time], |xs|)], lap, xs + [time])
  {
    var xs' := xs + [time];
    assert forall s :: 0 < s < |xs| ==> OwnRow(xs', s) == OwnRow(xs, s);
  }

  lemma OwnOver(stale: map<T.Key, T.SectorRow>, sectors: map<T.Key, T.SectorRow>, lap: int, xs: seq<real>)
    requires Own(sectors, lap, xs)
    ensures Own(stale + sectors, lap, xs)
  {
  }

  // ----- one mark at a time --------------------------------------------------

  /** What is filed for the lap a mark completes, its final sector included. */
  function FilingOf(c: Clock, es: seq<Event>, stale: map<T.Key, T.SectorRow>, e: Event): map<T.Key, T.SectorRow> {
    Base(c, stale) + LastFiled(es + [e], c.lapNumber)
  }

  lemma FinalOwn(r: Rules, c: Clock, m: Mark, t: T.Table, xs: seq<real>, es: seq<Event>, stale: map<T.Key, T.SectorRow>, e: Event)
    requires InStep(r, c, t, xs, es, stale) && Coherent(r, c) && m.LapMark? && m.idx == 0 < r.n && c.lapStart != 0.0
    requires |HandleFinish(r, c, m).1| == 2 && HandleFinish(r, c, m).1[0] == e && e.valid
    ensures |xs| == r.n && Own(FilingOf(c, es, stale, e), c.lapNumber, xs + [m.time])
  {
    LastFiledSnoc(es, e, c.lapNumber);
    OwnGrows(LastFiled(es, c.lapNumber), c.lapNumber, xs, m.time);
    OwnOver(Base(c, stale), LastFiled(es + [e], c.lapNumber), c.lapNumber, xs + [m.time]);
  }

  lemma FinalFiled(r: Rules, c: Clock, t: T.Table, xs: seq<real>, es: seq<Event>, stale: map<T.Key, T.SectorRow>, e: Event)
    requires r.n <= T.MAX_BUFFERED && InStep(r, c, t, xs, es, stale)
    requires e.kind == SectorCompleted && e.lapNumber == c.lapNumber && e.sector == r.n > 0
    ensures var t1 := T.Observe(t, Encode(e)).0;
      && t1.sectors == FilingOf(c, es, stale, e) && t1.highest == Some(c.lapNumber)
      && OnlyUpTo(t1.sectors, c.lapNumber, T.MAX_BUFFERED)
  {
    FileSector(t, e, T.MAX_BUFFERED - 1);
    LastFiledSnoc(es, e, c.lapNumber);
    PutOver(Base(c, stale), LastFiled(es, c.lapNumber), T.Key(c.lapNumber, e.sector), RowFrom(e));
    PutUpTo(t.sectors, c.lapNumber, e.sector, RowFrom(e));
  }

  lemma PutOver(base: map<T.Key, T.SectorRow>, m: map<T.Key, T.SectorRow>, k: T.Key, row: T.SectorRow)
    ensures (base + m)[k := row] == base + m[k := row]
  {
  }

  lemma PutUpTo(sectors: map<T.Key, T.SectorRow>, lap: int, x: int, row: T.SectorRow)
    requires Filed(sectors, lap, T.MAX_BUFFERED - 1) && 1 <= x <= T.MAX_BUFFERED
    ensures OnlyUpTo(sectors[T.Key(lap, x) := row], lap, T.MAX_BUFFERED)
  {
  }

  lemma FinishRow(r: Rules, c: Clock, m: Mark, t: T.Table, xs: seq<real>, es: seq<Event>, stale: map<T.Key, T.SectorRow>,
                  e: Event, f: Event, filing: map<T.Key, T.SectorRow>, row: T.LapRow)
    requires InStep(r, c, t, xs, es, stale) && Coherent(r, c)
    requires m.LapMark? && m.idx == 0 < r.n && c.lapStart != 0.0 && HandleFinish(r, c, m).1 == [e, f]
    requires filing == FilingOf(c, es, stale, e) && OnlyUpTo(filing, c.lapNumber, T.MAX_BUFFERED)
    requires row.sectors == T.RowsFor(filing, f.lapNumber) && row.lapTime == Some(f.lapTime)
    requires row.lapNumber == f.lapNumber && row.crossedAt == f.time && row.valid == f.valid
    ensures RowOf(r.n, row, f, xs + [m.time], filing)
  {
    if f.valid {
      FinalOwn(r, c, m, t, xs, es, stale, e);
    }
  }

  /** A lap event yields a row with what is buffered for its lap. */
  lemma LapReads(t: T.Table, e: Event)
    requires e.kind == LapCompleted && (t.highest.Some? ==> t.highest.value <= e.lapNumber)
    ensures T.Observe(t, Encode(e)).1.Lap?
    ensures var row := T.Observe(t, Encode(e)).1.row;
      && row.sectors == T.RowsFor(t.sectors, e.lapNumber) && row.lapTime == Some(e.lapTime)
      && row.lapNumber == e.lapNumber && row.crossedAt == e.time && row.valid == e.valid
  {
  }

  lemma FinishInStep(r: Rules, c: Clock, m: Mark, t: T.Table, xs: seq<real>, es: seq<Event>, stale: map<T.Key, T.SectorRow>)
    requires r.n <= T.MAX_BUFFERED && InStep(r, c, t, xs, es, stale) && Coherent(r, c) && m.time > 0.0
    requires m.LapMark? && m.idx == 0 < r.n && c.lapStart != 0.0 && HandleFinish(r, c, m).1 != []
    ensures var (c', more) := HandleFinish(r, c, m);
            && InStep(r, c', T.Run(t, EncodeAll(more)), [m.time], es + more, stale)
            && |T.Rows(t, EncodeAll(more))| == 1
            && RowOf(r.n, T.Rows(t, EncodeAll(more))[0], more[1], xs + [m.time], FilingOf(c, es, stale, more[0]))
  {
    var more := HandleFinish(r, c, m).1;
    var e, f := more[0], more[1];
    assert more == [e, f];
    FinalFiled(r, c, t, xs, es, stale, e);
    var t1 := T.Observe(t, Encode(e)).0;
    LapReads(t1, f);
    FinishRow(r, c, m, t, xs, es, stale, e, f, t1.sectors, T.Observe(t1, Encode(f)).1.row);
    EncodeTwo(t, e, f);
    LapClearsBuffer(t1, f, T.MAX_BUFFERED);
    Restarts(r, c, m, t, xs, es, stale, T.Observe(t1, Encode(f)).0);
  }

  /** After a completed lap the buffer is empty and the next lap has only its opening. */
  lemma Restarts(r: Rules, c: Clock, m: Mark, t: T.Table, xs: seq<real>, es: seq<Event>, stale: map<T.Key, T.SectorRow>, t': T.Table)
    requires InStep(r, c, t, xs, es, stale) && m.LapMark? && m.idx == 0 < r.n && c.lapStart != 0.0 && m.time > 0.0
    requires HandleFinish(r, c, m).1 != [] && t'.sectors == map[] && t'.highest == Some(c.lapNumber)
    ensures InStep(r, HandleFinish(r, c, m).0, t', [m.time], es + HandleFinish(r, c, m).1, stale)
  {
    NothingFiledYet(es + HandleFinish(r, c, m).1, c.lapNumber + 1);
  }

  lemma SectorInStep(r: Rules, c: Clock, m: Mark, t: T.Table, xs: seq<real>, es: seq<Event>, stale: map<T.Key, T.SectorRow>)
    requires r.n <= T.MAX_BUFFERED && InStep(r, c, t, xs, es, stale) && Coherent(r, c)
    requires m.LapMark? && 0 < m.idx < r.n && c.lapStart != 0.0
    ensures var (c', more) := HandleSector(r, c, m);
            InStep(r, c', T.Run(t, EncodeAll(more)), xs + [m.time], es + more, stale) && T.Rows(t, EncodeAll(more)) == []
  {
    var (c', more) := HandleSector(r, c, m);
    var e := more[0];
    assert more == [e];
    EncodeOne(t, e);
    FileSector(t, e, T.MAX_BUFFERED - 1);
    SectorFiled(r, c, m, t, xs, es, stale, e, T.Observe(t, Encode(e)).0);
  }

  lemma SectorFiled(r: Rules, c: Clock, m: Mark, t: T.Table, xs: seq<real>, es: seq<Event>, stale: map<T.Key, T.SectorRow>,
                    e: Event, t': T.Table)
    requires r.n <= T.MAX_BUFFERED && InStep(r, c, t, xs, es, stale) && Coherent(r, c)
    requires m.LapMark? && 0 < m.idx < r.n && c.lapStart != 0.0 && HandleSector(r, c, m).1 == [e]
    requires t'.sectors == t.sectors[T.Key(c.lapNumber, m.idx) := RowFrom(e)]
    requires t'.highest == Some(T.MaxOf(c.lapNumber, t.highest))
    ensures InStep(r, HandleSector(r, c, m).0, t', xs + [m.time], es + [e], stale)
  {
    LastFiledSnoc(es, e, c.lapNumber);
    PutOver(Base(c, stale), LastFiled(es, c.lapNumber), T.Key(c.lapNumber, m.idx), RowFrom(e));
    PutFiled(t.sectors, c.lapNumber, T.MAX_BUFFERED - 1, e);
    PutFiled(LastFiled(es, c.lapNumber), c.lapNumber, r.n - 1, e);
    if HandleSector(r, c, m).0.lapValid {
      SectorIsOwn(r, c, m, xs, e);
      OwnGrows(LastFiled(es, c.lapNumber), c.lapNumber, xs, m.time);
    }
  }

  lemma PutFiled(sectors: map<T.Key, T.SectorRow>, lap: int, n: nat, e: Event)
    requires Filed(sectors, lap, n) && 1 <= e.sector <= n
    ensures Filed(sectors[T.Key(lap, e.sector) := RowFrom(e)], lap, n)
  {
  }

  /** In a lap still valid the sector reported is the next own one. */
  lemma SectorIsOwn(r: Rules, c: Clock, m: Mark, xs: seq<real>, e: Event)
    requires Timed(c, xs) && Coherent(r, c) && m.LapMark? && 0 < m.idx < r.n && c.lapStart != 0.0
    requires HandleSector(r, c, m).1 == [e] && HandleSector(r, c, m).0.lapValid
    ensures m.idx == |xs| == e.sector && RowFrom(e) == OwnRow(xs + [m.time], |xs|)
  {
  }

  lemma PitInStep(r: Rules, c: Clock, m: Mark, t: T.Table, xs: seq<real>, es: seq<Event>, stale: map<T.Key, T.SectorRow>)
    requires InStep(r, c, t, xs, es, stale) && m.PitMark?
    ensures var (c', more) := HandlePit(c, m);
            InStep(r, c', T.Run(t, EncodeAll(more)), xs, es + more, stale) && T.Rows(t, EncodeAll(more)) == []
  {
    var (c', more) := HandlePit(c, m);
    assert more == [more[0]];
    EncodeOne(t, more[0]);
    LastFiledSnoc(es, more[0], c.lapNumber);
    PitChangesNothing(r, c, c', t, T.Observe(t, Encode(more[0])).0, xs, es, more[0], stale);
  }

  lemma PitChangesNothing(r: Rules, c: Clock, c': Clock, t: T.Table, t': T.Table, xs: seq<real>, es: seq<Event>, e: Event,
                          stale: map<T.Key, T.SectorRow>)
    requires InStep(r, c, t, xs, es, stale) && e.lapNumber == c.lapNumber && LastFiled(es + [e], c.lapNumber) == LastFiled(es, c.lapNumber)
    requires c' == c.(pit := c'.pit, lapValid := c'.lapValid) && (c'.lapValid ==> c.lapValid)
    requires t'.sectors == t.sectors && t'.highest == Some(c.lapNumber)
    ensures InStep(r, c', t', xs, es + [e], stale)
  {
  }

  /** A lap point that opens a lap without reporting one. */
  lemma OpensInStep(r: Rules, c: Clock, m: Mark, t: T.Table, xs: seq<real>, es: seq<Event>, stale: map<T.Key, T.SectorRow>)
    requires InStep(r, c, t, xs, es, stale) && Coherent(r, c) && Fits(r, m) && m.LapMark? && m.time > 0.0
    requires c.lapStart == 0.0 || (m.idx == 0 && HandleFinish(r, c, m).1 == [])
    ensures InStep(r, Handle(r, c, m).0, t, [m.time], es, stale)
  {
    if c.lapStart == 0.0 {
      NothingFiledYet(es, 1);
      NothingFiledAt(es, 0, t, c, stale);
    }
  }

  lemma NothingFiledAt(es: seq<Event>, lap: int, t: T.Table, c: Clock, stale: map<T.Key, T.SectorRow>)
    requires t.sectors == map[] && t.sectors == Base(c, stale) + LastFiled(es, lap) && c.lapNumber <= 1
    ensures stale == map[]
  {
  }

  lemma QuietInStep(r: Rules, c: Clock, m: Mark, t: T.Table, xs: seq<real>, es: seq<Event>, stale: map<T.Key, T.SectorRow>)
    requires InStep(r, c, t, xs, es, stale) && Coherent(r, c) && Fits(r, m) && m.time > 0.0
    requires m.PitMark? || c.lapStart == 0.0 || (m.idx == 0 && HandleFinish(r, c, m).1 == [])
    ensures var (c', more) := Handle(r, c, m);
            InStep(r, c', T.Run(t, EncodeAll(more)), CrossedNext(xs, m), es + more, stale) && T.Rows(t, EncodeAll(more)) == []
  {
    if m.PitMark? {
      PitInStep(r, c, m, t, xs, es, stale);
    } else {
      OpensInStep(r, c, m, t, xs, es, stale);
      assert EncodeAll([]) == [] && es + [] == es;
    }
  }

  /** Folding what mark `m` reports keeps the table in step and yields a row exactly for a completed lap. */
  ghost predicate MarkFolded(r: Rules, c: Clock, m: Mark, t: T.Table, xs: seq<real>, es: seq<Event>, stale: map<T.Key, T.SectorRow>)
    requires Fits(r, m)
  {
    var (c', more) := Handle(r, c, m);
    && InStep(r, c', T.Run(t, EncodeAll(more)), CrossedNext(xs, m), es + more, stale)
    && AllRows(r.n, T.Rows(t, EncodeAll(more)), Laps(more), Finished(more, xs, m), Filings(c, es, more, stale))
  }

  lemma QuietFolded(r: Rules, c: Clock, m: Mark, t: T.Table, xs: seq<real>, es: seq<Event>, stale: map<T.Key, T.SectorRow>)
    requires InStep(r, c, t, xs, es, stale) && Coherent(r, c) && Fits(r, m) && m.time > 0.0
    requires m.PitMark? || c.lapStart == 0.0 || (m.idx == 0 && HandleFinish(r, c, m).1 == [])
    ensures MarkFolded(r, c, m, t, xs, es, stale)
  {
    QuietInStep(r, c, m, t, xs, es, stale);
    LapsOfQuiet(Handle(r, c, m).1);
  }

  lemma FinishFolded(r: Rules, c: Clock, m: Mark, t: T.Table, xs: seq<real>, es: seq<Event>, stale: map<T.Key, T.SectorRow>)
    requires r.n <= T.MAX_BUFFERED && InStep(r, c, t, xs, es, stale) && Coherent(r, c) && m.time > 0.0
    requires m.LapMark? && m.idx == 0 < r.n && c.lapStart != 0.0 && HandleFinish(r, c, m).1 != []
    ensures MarkFolded(r, c, m, t, xs, es, stale)
  {
    FinishInStep(r, c, m, t, xs, es, stale);
    var more := HandleFinish(r, c, m).1;
    LapsOfTwo(more);
    OneRow(r.n, T.Rows(t, EncodeAll(more)), more[1], xs + [m.time], FilingOf(c, es, stale, more[0]));
  }

  lemma OneRow(n: nat, rows: seq<T.LapRow>, lap: Event, xs: seq<real>, filing: map<T.Key, T.SectorRow>)
    requires |rows| == 1 && RowOf(n, rows[0], lap, xs, filing)
    ensures AllRows(n, rows, [lap], [xs], [filing])
  {
  }

  lemma SectorFolded(r: Rules, c: Clock, m: Mark, t: T.Table, xs: seq<real>, es: seq<Event>, stale: map<T.Key, T.SectorRow>)
    requires r.n <= T.MAX_BUFFERED && InStep(r, c, t, xs, es, stale) && Coherent(r, c)
    requires m.LapMark? && 0 < m.idx < r.n && c.lapStart != 0.0
    ensures MarkFolded(r, c, m, t, xs, es, stale)
  {
    SectorInStep(r, c, m, t, xs, es, stale);
    LapsOfQuiet(HandleSector(r, c, m).1);
  }

  lemma MarkInStep(r: Rules, c: Clock, m: Mark, t: T.Table, xs: seq<real>, es: seq<Event>, stale: map<T.Key, T.SectorRow>)
    requires r.n <= T.MAX_BUFFERED && InStep(r, c, t, xs, es, stale) && Coherent(r, c) && Fits(r, m) && m.time > 0.0
    ensures MarkFolded(r, c, m, t, xs, es, stale)
  {
    if m.PitMark? || c.lapStart == 0.0 || (m.idx == 0 && HandleFinish(r, c, m).1 == []) {
      QuietFolded(r, c, m, t, xs, es, stale);
    } else if m.idx == 0 {
      FinishFolded(r, c, m, t, xs, es, stale);
    } else {
      SectorFolded(r, c, m, t, xs, es, stale);
    }
  }

  lemma LapsOfQuiet(es: seq<Event>)
    requires |es| <= 1 && forall i :: 0 <= i < |es| ==> es[i].kind != LapCompleted
    ensures Laps(es) == []
  {
    if |es| == 1 {
      assert es[..0] == [];
    }
  }

  /** The crossing times of the lap a mark completes, from its opening to that mark. */
  function Finished(es: seq<Event>, xs: seq<real>, m: Mark): (laps: seq<seq<real>>) {
    if Laps(es) == [] then [] else [xs + [m.time]]
  }

  /** What is filed for it. */
  function Filings(c: Clock, es: seq<Event>, more: seq<Event>, stale: map<T.Key, T.SectorRow>): (fs: seq<map<T.Key, T.SectorRow>>) {
    if Laps(more) == [] then [] else [FilingOf(c, es, stale, more[0])]
  }

  /** The crossing times of every completed lap. */
  function LapCrossings(r: Rules, ms: seq<Mark>): (laps: seq<seq<real>>)
    requires AllFit(r, ms)
  {
    if |ms| == 0 then []
    else
      var front, m := ms[..|ms| - 1], ms[|ms| - 1];
      LapCrossings(r, front) + Finished(Handle(r, RunClock(r, front), m).1, Crossed(front), m)
  }

  /** What is filed for every completed lap: the last event per sector under its number, for the first lap over `stale`. */
  function LapFilings(r: Rules, ms: seq<Mark>, stale: map<T.Key, T.SectorRow>): (fs: seq<map<T.Key, T.SectorRow>>)
    requires AllFit(r, ms)
  {
    if |ms| == 0 then []
    else
      var front, m := ms[..|ms| - 1], ms[|ms| - 1];
      var c := RunClock(r, front);
      LapFilings(r, front, stale) + Filings(c, RunEvents(r, front), Handle(r, c, m).1, stale)
  }

  /** One row per completed lap, in order. */
  ghost predicate AllRows(n: nat, rows: seq<T.LapRow>, laps: seq<Event>, crossings: seq<seq<real>>,
                          filings: seq<map<T.Key, T.SectorRow>>) {
    && |rows| == |laps| == |crossings| == |filings|
    && forall i :: 0 <= i < |rows| ==> RowOf(n, rows[i], laps[i], crossings[i], filings[i])
  }

  lemma AllRowsConcat(n: nat, rows: seq<T.LapRow>, laps: seq<Event>, xss: seq<seq<real>>, fs: seq<map<T.Key, T.SectorRow>>,
                      rows': seq<T.LapRow>, laps': seq<Event>, xss': seq<seq<real>>, fs': seq<map<T.Key, T.SectorRow>>)
    requires AllRows(n, rows, laps, xss, fs) && AllRows(n, rows', laps', xss', fs')
    ensures AllRows(n, rows + rows', laps + laps', xss + xss', fs + fs')
  {
  }

  lemma FoldReport(t: T.Table, events: seq<Event>, es: seq<Event>)
    ensures var t1 := T.Run(t, EncodeAll(events));
            && T.Run(t, EncodeAll(events + es)) == T.Run(t1, EncodeAll(es))
            && T.Rows(t, EncodeAll(events + es)) == T.Rows(t, EncodeAll(events)) + T.Rows(t1, EncodeAll(es))
  {
    EncodeMore(events, es);
    T.RunConcat(t, EncodeAll(events), EncodeAll(es));
  }

  lemma EncodeMore(a: seq<Event>, b: seq<Event>)
    ensures EncodeAll(a + b) == EncodeAll(a) + EncodeAll(b)
  {
  }

  // ----- one engine run on a table left by others ----------------------------

  /** What engine runs leave behind: sectors of one lap, the highest one seen. */
  ghost predicate LeftBehind(t: T.Table) {
    && (t.highest.Some? ==> t.highest.value >= 0)
    && forall k :: k in t.sectors ==> t.highest == Some(k.lap) && k.lap >= 1 && 1 <= k.sector < T.MAX_BUFFERED
                                      && t.sectors[k].sector == k.sector && t.sectors[k].splitTime.Some?
  }

  /** A rebuilt engine is noticed by its first event, if that is of an earlier lap; then nothing stale is kept. */
  function Stale(t: T.Table, es: seq<Event>): map<T.Key, T.SectorRow> {
    if es == [] then map[] else T.Adopt(t, es[0].lapNumber).sectors
  }

  /** The table a run folds into: the given one, with the lap number of its first event adopted. */
  function Met(t: T.Table, es: seq<Event>): T.Table { if es == [] then t else T.Adopt(t, es[0].lapNumber) }

  lemma AdoptTwice(t: T.Table, e: Event)
    ensures T.Observe(T.Adopt(t, e.lapNumber), Encode(e)) == T.Observe(t, Encode(e))
    requires t.highest.Some? ==> t.highest.value >= 0
  {
  }

  /** Adopting the first event's lap number beforehand changes nothing. */
  lemma FirstAdopts(t: T.Table, es: seq<Event>)
    requires t.highest.Some? ==> t.highest.value >= 0
    ensures T.Run(Met(t, es), EncodeAll(es)) == T.Run(t, EncodeAll(es)) && T.Rows(Met(t, es), EncodeAll(es)) == T.Rows(t, EncodeAll(es))
  {
    if es != [] {
      AdoptTwice(t, es[0]);
      assert es == [es[0]] + es[1..];
      FoldReport(t, [es[0]], es[1..]);
      FoldReport(Met(t, es), [es[0]], es[1..]);
      EncodeOne(t, es[0]);
      EncodeOne(Met(t, es), es[0]);
    }
  }

  /** A run that has reported nothing yet is in step with the table its first event meets. */
  lemma Enters(r: Rules, c: Clock, t: T.Table, xs: seq<real>)
    requires LeftBehind(t) && Timed(c, xs) && c.sectorsDone == 0 && c.lapNumber <= 1
    requires c.lapStart == 0.0 ==> c.lapNumber == 0
    ensures InStep(r, c, T.Adopt(t, c.lapNumber), xs, [], T.Adopt(t, c.lapNumber).sectors)
  {
  }

  /** In step once something was reported; before that, whatever the table is. */
  ghost predicate InStepIfReported(r: Rules, ms: seq<Mark>, t: T.Table, stale: map<T.Key, T.SectorRow>)
    requires AllFit(r, ms)
  {
    RunEvents(r, ms) != [] ==>
      InStep(r, RunClock(r, ms), T.Run(t, EncodeAll(RunEvents(r, ms))), Crossed(ms), RunEvents(r, ms), stale)
  }

  /** All rows of a run folded into `t`. */
  ghost predicate RunRows(r: Rules, ms: seq<Mark>, t: T.Table, stale: map<T.Key, T.SectorRow>)
    requires AllFit(r, ms)
  {
    AllRows(r.n, T.Rows(t, EncodeAll(RunEvents(r, ms))), Laps(RunEvents(r, ms)), LapCrossings(r, ms), LapFilings(r, ms, stale))
  }

  lemma StepInStep(r: Rules, front: seq<Mark>, m: Mark, t: T.Table, stale: map<T.Key, T.SectorRow>)
    requires Sound(r, front) && Fits(r, m) && m.time > 0.0 && r.n <= T.MAX_BUFFERED && AllFit(r, front + [m])
    requires InStep(r, RunClock(r, front), T.Run(t, EncodeAll(RunEvents(r, front))), Crossed(front), RunEvents(r, front), stale)
    requires RunRows(r, front, t, stale)
    ensures InStep(r, RunClock(r, front + [m]), T.Run(t, EncodeAll(RunEvents(r, front + [m]))), Crossed(front + [m]),
                   RunEvents(r, front + [m]), stale)
    ensures RunRows(r, front + [m], t, stale)
  {
    var c, events, xs := RunClock(r, front), RunEvents(r, front), Crossed(front);
    var more := Handle(r, c, m).1;
    var t1 := T.Run(t, EncodeAll(events));
    Snoc(front, m);
    CoherentRun(r, front);
    MarkInStep(r, c, m, t1, xs, events, stale);
    FoldReport(t, events, more);
    LapsConcat(events, more);
    AllRowsConcat(r.n, T.Rows(t, EncodeAll(events)), Laps(events), LapCrossings(r, front), LapFilings(r, front, stale),
                  T.Rows(t1, EncodeAll(more)), Laps(more), Finished(more, xs, m), Filings(c, events, more, stale));
  }

  /** The first report of a run comes from the clock it was in step with. */
  lemma EntersRun(r: Rules, front: seq<Mark>, t: T.Table, m: Mark)
    requires Sound(r, front) && LeftBehind(t) && RunEvents(r, front) == [] && Fits(r, m) && Handle(r, RunClock(r, front), m).1 != []
    ensures var c, e := RunClock(r, front), Handle(r, RunClock(r, front), m).1[0];
      && e.lapNumber == c.lapNumber
      && InStep(r, c, T.Run(T.Adopt(t, e.lapNumber), EncodeAll([])), Crossed(front), [], T.Adopt(t, e.lapNumber).sectors)
  {
    TimedRun(r, front);
    CoherentRun(r, front);
    var c := RunClock(r, front);
    Enters(r, c, t, Crossed(front));
    assert EncodeAll([]) == [];
  }

  lemma {:induction false} NothingReported(r: Rules, ms: seq<Mark>, stale: map<T.Key, T.SectorRow>)
    requires AllFit(r, ms) && RunEvents(r, ms) == []
    ensures LapCrossings(r, ms) == [] && LapFilings(r, ms, stale) == []
  {
    if |ms| > 0 {
      NothingReported(r, ms[..|ms| - 1], stale);
    }
  }

  lemma QuietRows(r: Rules, ms: seq<Mark>, t: T.Table, stale: map<T.Key, T.SectorRow>)
    requires AllFit(r, ms) && RunEvents(r, ms) == []
    ensures RunRows(r, ms, t, stale)
  {
    NothingReported(r, ms, stale);
    assert EncodeAll([]) == [];
  }

  lemma {:induction false} RunInStep(r: Rules, ms: seq<Mark>, t: T.Table, first: Event)
    requires Sound(r, ms) && r.n <= T.MAX_BUFFERED && LeftBehind(t)
    requires RunEvents(r, ms) != [] ==> RunEvents(r, ms)[0] == first
    ensures InStepIfReported(r, ms, T.Adopt(t, first.lapNumber), T.Adopt(t, first.lapNumber).sectors)
    ensures RunRows(r, ms, T.Adopt(t, first.lapNumber), T.Adopt(t, first.lapNumber).sectors)
  {
    var t0 := T.Adopt(t, first.lapNumber);
    if RunEvents(r, ms) == [] {
      QuietRows(r, ms, t0, t0.sectors);
    } else {
      var front, m := ms[..|ms| - 1], ms[|ms| - 1];
      assert ms == front + [m] && m in ms;
      FirstOfRun(r, front, m);
      RunInStep(r, front, t, first);
      if RunEvents(r, front) == [] {
        EntersRun(r, front, t, m);
      }
      StepInStep(r, front, m, t0, t0.sectors);
    }
  }

  lemma FirstOfRun(r: Rules, front: seq<Mark>, m: Mark)
    requires AllFit(r, front + [m])
    ensures var es, more := RunEvents(r, front), Handle(r, RunClock(r, front), m).1;
      && RunEvents(r, front + [m]) == es + more
      && (es != [] ==> RunEvents(r, front + [m])[0] == es[0])
      && (es == [] && more != [] ==> RunEvents(r, front + [m])[0] == more[0])
  {
    Snoc(front, m);
  }

  /** One engine run, folded into whatever earlier ones left. */
  lemma RunFolded(r: Rules, ms: seq<Mark>, t: T.Table)
    requires Sound(r, ms) && r.n <= T.MAX_BUFFERED && LeftBehind(t)
    ensures var es := RunEvents(r, ms);
            LeftBehind(T.Run(t, EncodeAll(es))) && RunRows(r, ms, t, Stale(t, es))
  {
    var es := RunEvents(r, ms);
    if es == [] {
      QuietRows(r, ms, t, Stale(t, es));
      assert EncodeAll(es) == [];
    } else {
      FirstAdopts(t, es);
      RunInStep(r, ms, t, es[0]);
      Leaves(r, RunClock(r, ms), T.Run(Met(t, es), EncodeAll(es)), Crossed(ms), es, Stale(t, es));
    }
  }

  lemma Leaves(r: Rules, c: Clock, t: T.Table, xs: seq<real>, es: seq<Event>, stale: map<T.Key, T.SectorRow>)
    requires InStep(r, c, t, xs, es, stale)
    ensures LeftBehind(t)
  {
  }

  // ----- which rows are complete ---------------------------------------------

  /** Only the first completed lap of a run can have anything filed from beyond the track: what was stale. */
  lemma {:induction false} BeyondOnlyStale(r: Rules, ms: seq<Mark>, stale: map<T.Key, T.SectorRow>)
    requires Sound(r, ms) && r.n <= T.MAX_BUFFERED
    requires forall k :: k in stale ==> k.lap == 1
    ensures forall i :: 0 <= i < |LapFilings(r, ms, stale)| ==>
              (Beyond(LapFilings(r, ms, stale)[i], r.n) <==> i == 0 && Beyond(stale, r.n))
  {
    if |ms| > 0 {
      var front, m := ms[..|ms| - 1], ms[|ms| - 1];
      BeyondOnlyStale(r, front, stale);
      assert m in ms;
      LapsAreTallied(r, front);
      FilingsCounted(r, front, stale);
      var c, es := RunClock(r, front), RunEvents(r, front);
      var more := Handle(r, c, m).1;
      if Laps(more) != [] {
        ReportsTwo(r, c, m);
        SectorsWithin(r, front, c.lapNumber);
        FilingBeyond(r, c, es, more[0], stale);
      }
    }
  }

  lemma {:induction false} FilingsCounted(r: Rules, ms: seq<Mark>, stale: map<T.Key, T.SectorRow>)
    requires AllFit(r, ms)
    ensures |LapFilings(r, ms, stale)| == |Laps(RunEvents(r, ms))|
  {
    if |ms| > 0 {
      var front, m := ms[..|ms| - 1], ms[|ms| - 1];
      FilingsCounted(r, front, stale);
      var more := Handle(r, RunClock(r, front), m).1;
      LapsConcat(RunEvents(r, front), more);
      if |more| == 2 {
        LapsOfTwo(more);
      } else {
        LapsOfQuiet(more);
      }
    }
  }

  lemma ReportsTwo(r: Rules, c: Clock, m: Mark)
    requires Fits(r, m) && Laps(Handle(r, c, m).1) != []
    ensures m.LapMark? && m.idx == 0 && c.lapStart != 0.0 && |Handle(r, c, m).1| == 2
    ensures Handle(r, c, m).1[0].sector == r.n && Handle(r, c, m).1[0].lapNumber == c.lapNumber
  {
    var more := Handle(r, c, m).1;
    if |more| <= 1 {
      LapsOfQuiet(more);
    }
  }

  /** Every reported sector is one of the track. */
  lemma {:induction false} SectorsWithin(r: Rules, ms: seq<Mark>, lap: int)
    requires AllFit(r, ms)
    ensures forall k :: k in LastFiled(RunEvents(r, ms), lap) ==> k.sector <= r.n
  {
    if |ms| > 0 {
      var front, m := ms[..|ms| - 1], ms[|ms| - 1];
      assert m in ms;
      SectorsWithin(r, front, lap);
      var es, more := RunEvents(r, front), Handle(r, RunClock(r, front), m).1;
      if |more| == 1 {
        LastFiledSnoc(es, more[0], lap);
        assert more == [more[0]];
      } else if |more| == 2 {
        LastFiledSnoc(es, more[0], lap);
        LastFiledSnoc(es + [more[0]], more[1], lap);
        assert es + more == es + [more[0]] + [more[1]];
      } else {
        assert es + more == es;
      }
    }
  }

  lemma FilingBeyond(r: Rules, c: Clock, es: seq<Event>, e: Event, stale: map<T.Key, T.SectorRow>)
    requires e.sector == r.n && e.lapNumber == c.lapNumber
    requires forall k :: k in LastFiled(es, c.lapNumber) ==> k.sector <= r.n
    ensures Beyond(FilingOf(c, es, stale, e), r.n) <==> c.lapNumber <= 1 && Beyond(stale, r.n)
  {
    LastFiledSnoc(es, e, c.lapNumber);
    if c.lapNumber <= 1 && Beyond(stale, r.n) {
      var k :| k in stale && k.sector > r.n;
      assert k in FilingOf(c, es, stale, e);
    }
  }

  // ----- engine runs in sequence ---------------------------------------------

  /** An engine built for a track, and the fixes it was given. */
  datatype EngineRun = EngineRun(cfg: E.Settings, fixes: seq<E.GpsPoint>) {
    ghost predicate Valid() { E.Timed(fixes) && |cfg.lapPoints| <= 64 }

    function Marks(): seq<Mark> { E.MarksOf(cfg, fixes) }

    function Events(): seq<Event>
      requires Valid()
    {
      E.MarksAreSound(cfg, fixes);
      RunEvents(cfg.Rules(), Marks())
    }
  }

  ghost predicate AllValid(runs: seq<EngineRun>) { forall i :: 0 <= i < |runs| ==> runs[i].Valid() }

  /** One materialiser, over the events of all runs in turn. */
  function TableAfter(runs: seq<EngineRun>): (t: T.Table)
    requires AllValid(runs)
  {
    if |runs| == 0 then T.Empty else T.Run(TableAfter(runs[..|runs| - 1]), EncodeAll(runs[|runs| - 1].Events()))
  }

  lemma {:induction false} RunsLeaveBehind(runs: seq<EngineRun>)
    requires AllValid(runs)
    ensures LeftBehind(TableAfter(runs))
  {
    if |runs| > 0 {
      var last := runs[|runs| - 1];
      RunsLeaveBehind(runs[..|runs| - 1]);
      E.MarksAreSound(last.cfg, last.fixes);
      RunFolded(last.cfg.Rules(), last.Marks(), TableAfter(runs[..|runs| - 1]));
    }
  }

  /** The rows the last run yields. */
  function RowsOfLast(runs: seq<EngineRun>): seq<T.LapRow>
    requires AllValid(runs) && runs != []
  {
    T.Rows(TableAfter(runs[..|runs| - 1]), EncodeAll(runs[|runs| - 1].Events()))
  }

  /** What earlier runs left under lap 1, if the last one finds itself there too. */
  function StaleForLast(runs: seq<EngineRun>): map<T.Key, T.SectorRow>
    requires AllValid(runs) && runs != []
  {
    Stale(TableAfter(runs[..|runs| - 1]), runs[|runs| - 1].Events())
  }

  /**
   End to end, over any engine runs on tracks of at most 64 lap points, given
   fixes with positive, non-decreasing timestamps and folded by one
   materialiser. Each run yields one row per completed lap, in order, with the
   lap time of its own crossings and the last reported sector per number. The
   row of a valid lap is exactly its own sectors 1..n, with its own crossing
   times and splits summing to its time, unless it is the first lap of its run
   and an earlier run had left a sector beyond n under lap 1.
   */
  lemma GpsRunsToLapRows(runs: seq<EngineRun>)
    requires AllValid(runs) && runs != []
    ensures var run := runs[|runs| - 1];
      var r, laps, rows := run.cfg.Rules(), Laps(run.Events()), RowsOfLast(runs);
      && AllFit(r, run.Marks()) && var xss, fs := LapCrossings(r, run.Marks()), LapFilings(r, run.Marks(), StaleForLast(runs));
      && AllRows(r.n, rows, laps, xss, fs)
      && forall i :: 0 <= i < |laps| && laps[i].valid ==>
           (Complete(r.n, rows[i], xss[i]) <==> !(i == 0 && Beyond(StaleForLast(runs), r.n)))
  {
    var run, before := runs[|runs| - 1], TableAfter(runs[..|runs| - 1]);
    var r, ms := run.cfg.Rules(), run.Marks();
    E.MarksAreSound(run.cfg, run.fixes);
    RunsLeaveBehind(runs[..|runs| - 1]);
    RunFolded(r, ms, before);
    StaleIsLapOne(r, ms, before);
    var stale := StaleForLast(runs);
    BeyondOnlyStale(r, ms, stale);
    var laps, rows, xss, fs := Laps(run.Events()), RowsOfLast(runs), LapCrossings(r, ms), LapFilings(r, ms, stale);
    forall i | 0 <= i < |laps| && laps[i].valid
      ensures Complete(r.n, rows[i], xss[i]) <==> !(i == 0 && Beyond(stale, r.n))
    {
      assert RowOf(r.n, rows[i], laps[i], xss[i], fs[i]);
      CompleteIffNothingBeyond(r.n, rows[i], laps[i], xss[i], fs[i]);
    }
  }

  lemma StaleIsLapOne(r: Rules, ms: seq<Mark>, t: T.Table)
    requires Sound(r, ms) && r.n <= T.MAX_BUFFERED && LeftBehind(t)
    ensures forall k :: k in Stale(t, RunEvents(r, ms)) ==> k.lap == 1
  {
    if RunEvents(r, ms) != [] {
      FirstLapNumber(r, ms);
    }
  }

  lemma {:induction false} FirstLapNumber(r: Rules, ms: seq<Mark>)
    requires Sound(r, ms) && RunEvents(r, ms) != []
    ensures RunEvents(r, ms)[0].lapNumber <= 1
  {
    var front, m := ms[..|ms| - 1], ms[|ms| - 1];
    assert ms == front + [m] && m in ms;
    FirstOfRun(r, front, m);
    if RunEvents(r, front) != [] {
      FirstLapNumber(r, front);
    } else {
      TimedRun(r, front);
    }
  }

  /** A single run, folded by a fresh materialiser: every valid lap's row is complete. */
  lemma GpsRunToLapRows(run: EngineRun)
    requires run.Valid()
    ensures var r, laps, rows := run.cfg.Rules(), Laps(run.Events()), T.Rows(T.Empty, EncodeAll(run.Events()));
      && AllFit(r, run.Marks()) && |rows| == |laps| == |LapCrossings(r, run.Marks())|
      && forall i :: 0 <= i < |laps| && laps[i].valid ==> Complete(r.n, rows[i], LapCrossings(r, run.Marks())[i])
  {
    var none: seq<EngineRun> := [];
    assert none + [run] == [run] && [run][..0] == none;
    GpsRunsToLapRows([run]);
  }

  /** The bound is exact: on a longer track no lap row is ever complete, whatever the crossings. */
  lemma LongTrackNeverComplete(n: nat, ps: seq<T.Payload>, row: T.LapRow, xs: seq<real>)
    requires n > 64 && row in T.Rows(T.Empty, ps)
    ensures !Complete(n, row, xs)
  {
    T.RowsAreCapped(ps, row);
  }
}
