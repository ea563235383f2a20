/**
 The lap state machine behind the timing engine (`src/timing/timing_core.py`,
 `_handle_pit`, `_start_new_lap`, `_handle_lap_point`), driven by accepted line
 crossings ("marks").

 `Handle` is the machine. Beside it stands an account of a run read off the
 marks alone: where the current lap opened, which lap points followed, and
 whether the pit lane was entered. The theorems say that every lap the machine
 reports, its time, its validity, its number and its splits, is the one that
 account gives.
 */
module LapClock {
  import opened Basics

  datatype PitStatus = Track | Pit

  /** One accepted crossing: of a pit line, or of lap point `idx` (0 is start/finish). */
  datatype Mark =
    | PitMark(entry: bool, line: string, time: real, sign: int)
    | LapMark(idx: nat, line: string, time: real, sign: int)

  datatype EventKind = SectorCompleted | LapCompleted | PitEntry | PitExit

  datatype Event = Event(
    kind: EventKind, time: real, line: string, lapNumber: nat, sector: nat,
    splitTime: real, lapTime: real, valid: bool, sign: int, pit: PitStatus)

  /** Number of lap points, and the shortest lap that counts. */
  datatype Rules = Rules(n: nat, minLap: real)

  /** `TimingState` without the per-line dictionaries. */
  datatype Clock = Clock(
    lapNumber: nat, expectedIdx: nat, lapStart: real, segmentStart: real, sectorsDone: nat,
    pit: PitStatus, lapValid: bool, bestLap: real, lastLap: real)

  const Fresh := Clock(0, 0, 0.0, 0.0, 0, Track, true, 0.0, 0.0)

  // ----- the machine ---------------------------------------------------------

  function StartLap(r: Rules, c: Clock, time: real): Clock
    requires r.n > 0
  {
    c.(lapStart := time, segmentStart := time, expectedIdx := 1 % r.n, sectorsDone := 0, lapValid := c.pit == Track)
  }

  function HandlePit(c: Clock, m: Mark): (Clock, seq<Event>)
    requires m.PitMark?
  {
    var c' := if m.entry then c.(pit := Pit, lapValid := false) else c.(pit := Track);
    (c', [Event(if m.entry then PitEntry else PitExit, m.time, m.line, c.lapNumber, 0, 0.0, 0.0, true, m.sign, c'.pit)])
  }

  function HandleFirst(r: Rules, c: Clock, m: Mark): Clock
    requires m.LapMark? && m.idx < r.n
  {
    var c' := StartLap(r, c, m.time).(lapNumber := 1, expectedIdx := (m.idx + 1) % r.n);
    if m.idx != 0 then c'.(lapValid := false) else c'
  }

  function HandleFinish(r: Rules, c: Clock, m: Mark): (Clock, seq<Event>)
    requires m.LapMark? && m.idx == 0 < r.n
  {
    var lapTime := m.time - c.lapStart;
    if c.sectorsDone == 0 || lapTime < r.minLap then (StartLap(r, c, m.time), [])
    else
      var valid := c.lapValid && c.expectedIdx == 0 && c.pit == Track;
      var best := if valid && (c.bestLap == 0.0 || lapTime < c.bestLap) then lapTime else c.bestLap;
      (StartLap(r, c.(lastLap := lapTime, bestLap := best, lapNumber := c.lapNumber + 1), m.time),
       [Event(SectorCompleted, m.time, m.line, c.lapNumber, r.n, m.time - c.segmentStart, 0.0, valid, m.sign, c.pit),
        Event(LapCompleted, m.time, m.line, c.lapNumber, 0, 0.0, lapTime, valid, m.sign, c.pit)])
  }

  function HandleSector(r: Rules, c: Clock, m: Mark): (Clock, seq<Event>)
    requires m.LapMark? && 0 < m.idx < r.n
  {
    var inOrder := m.idx == c.expectedIdx;
    (c.(lapValid := c.lapValid && inOrder, sectorsDone := c.sectorsDone + 1, segmentStart := m.time,
        expectedIdx := (m.idx + 1) % r.n),
     [Event(SectorCompleted, m.time, m.line, c.lapNumber, m.idx, m.time - c.segmentStart, 0.0,
            inOrder && c.pit == Track, m.sign, c.pit)])
  }

  predicate Fits(r: Rules, m: Mark) { m.LapMark? ==> m.idx < r.n }

  function Handle(r: Rules, c: Clock, m: Mark): (Clock, seq<Event>)
    requires Fits(r, m)
  {
    if m.PitMark? then HandlePit(c, m)
    else if c.lapStart == 0.0 then (HandleFirst(r, c, m), [])
    else if m.idx == 0 then HandleFinish(r, c, m)
    else HandleSector(r, c, m)
  }

  ghost predicate AllFit(r: Rules, ms: seq<Mark>) { forall m :: m in ms ==> Fits(r, m) }

  function RunClock(r: Rules, ms: seq<Mark>): (c: Clock)
    requires AllFit(r, ms)
  {
    if |ms| == 0 then Fresh else Handle(r, RunClock(r, ms[..|ms| - 1]), ms[|ms| - 1]).0
  }

  function RunEvents(r: Rules, ms: seq<Mark>): (es: seq<Event>)
    requires AllFit(r, ms)
  {
    if |ms| == 0 then []
    else RunEvents(r, ms[..|ms| - 1]) + Handle(r, RunClock(r, ms[..|ms| - 1]), ms[|ms| - 1]).1
  }

  // ----- a run read off its marks --------------------------------------------

  /** The position at which the current lap opened: the first lap mark, then every start/finish mark. */
  function Opened(ms: seq<Mark>): (k: Option<nat>)
    ensures k.Some? ==> k.value < |ms| && ms[k.value].LapMark?
  {
    if |ms| == 0 then None
    else
      var last := |ms| - 1;
      var before := Opened(ms[..last]);
      if ms[last].LapMark? && (ms[last].idx == 0 || before.None?) then Some(last) else before
  }

  /** Which lap points were crossed after position `k`, in order. */
  function PointsAfter(ms: seq<Mark>, k: nat): (s: seq<nat>)
  {
    if |ms| <= k + 1 then []
    else
      var last := |ms| - 1;
      PointsAfter(ms[..last], k) + (if ms[last].LapMark? then [ms[last].idx] else [])
  }

  /** One more mark in the times of the lap points crossed since the lap opened. */
  function CrossedNext(xs: seq<real>, m: Mark): seq<real> {
    if m.PitMark? then xs else if m.idx == 0 || xs == [] then [m.time] else xs + [m.time]
  }

  /** When the current lap opened and crossed its lap points, in order. */
  function Crossed(ms: seq<Mark>): (xs: seq<real>)
  {
    if |ms| == 0 then [] else CrossedNext(Crossed(ms[..|ms| - 1]), ms[|ms| - 1])
  }

  /** These are the opening mark and the lap points after it. */
  lemma {:induction false} CrossedSinceOpening(ms: seq<Mark>)
    ensures match Opened(ms)
            case None => Crossed(ms) == []
            case Some(k) => |Crossed(ms)| == |PointsAfter(ms, k)| + 1 && Crossed(ms)[0] == ms[k].time
  {
    if |ms| > 0 {
      CrossedSinceOpening(ms[..|ms| - 1]);
    }
  }

  /** In the pit lane from a pit entry until the next pit exit. */
  function StatusAfter(ms: seq<Mark>): PitStatus
  {
    if |ms| == 0 then Track
    else
      var m := ms[|ms| - 1];
      if m.PitMark? then (if m.entry then Pit else Track) else StatusAfter(ms[..|ms| - 1])
  }

  ghost predicate PitEntered(ms: seq<Mark>, k: nat) {
    exists i :: k < i < |ms| && ms[i].PitMark? && ms[i].entry
  }

  ghost predicate CountsUp(s: seq<nat>) { forall i :: 0 <= i < |s| ==> s[i] == i + 1 }

  /** So far nothing has spoilt the lap opened at `k`. */
  ghost predicate Clean(ms: seq<Mark>, k: nat)
    requires k < |ms| && ms[k].LapMark?
  {
    ms[k].idx == 0 && StatusAfter(ms[..k]) == Track && CountsUp(PointsAfter(ms, k)) && !PitEntered(ms, k)
  }

  /** The lap opened at `k` deserves to count: from start/finish on track, through every lap point in order. */
  ghost predicate Faultless(r: Rules, ms: seq<Mark>, k: nat)
    requires k < |ms| && ms[k].LapMark?
  {
    Clean(ms, k) && |PointsAfter(ms, k)| + 1 == r.n
  }

  /** Marks a run can contain: lap points of the track, at positive times. */
  ghost predicate Sound(r: Rules, ms: seq<Mark>) {
    AllFit(r, ms) && forall m :: m in ms ==> m.time > 0.0
  }

  // ----- the machine keeps this account --------------------------------------

  ghost predicate Agrees(r: Rules, ms: seq<Mark>, c: Clock)
  {
    && c.pit == StatusAfter(ms)
    && match Opened(ms)
       case None => c.lapStart == 0.0 && c.lapNumber == 0
       case Some(k) =>
         && c.lapStart == ms[k].time > 0.0 && r.n > 0
         && c.sectorsDone == |PointsAfter(ms, k)|
         && (c.lapValid <==> Clean(ms, k))
         && (Clean(ms, k) ==> c.expectedIdx == (|PointsAfter(ms, k)| + 1) % r.n)
  }

  lemma Snoc(ms: seq<Mark>, m: Mark)
    ensures (ms + [m])[..|ms|] == ms && |ms + [m]| == |ms| + 1 && (ms + [m])[|ms|] == m
    ensures forall k: nat :: k < |ms| ==> (ms + [m])[..k] == ms[..k]
  {
  }

  /** One more mark inside the lap opened at `k` keeps it clean iff the mark is the next lap point or a pit exit. */
  lemma CleanStep(ms: seq<Mark>, m: Mark, k: nat)
    requires k < |ms| && ms[k].LapMark?
    ensures Clean(ms + [m], k) <==>
            (Clean(ms, k) && if m.LapMark? then m.idx == |PointsAfter(ms, k)| + 1 else !m.entry)
  {
    Snoc(ms, m);
    var ms' := ms + [m];
    assert PointsAfter(ms', k) == PointsAfter(ms, k) + (if m.LapMark? then [m.idx] else []);
    assert CountsUp(PointsAfter(ms', k)) <==>
      CountsUp(PointsAfter(ms, k)) && (m.LapMark? ==> m.idx == |PointsAfter(ms, k)| + 1) by {
      var s, s' := PointsAfter(ms, k), PointsAfter(ms', k);
      assert forall i :: 0 <= i < |s| ==> s'[i] == s[i];
      assert m.LapMark? ==> s'[|s|] == m.idx;
    }
    assert PitEntered(ms', k) <==> PitEntered(ms, k) || (m.PitMark? && m.entry) by {
      if i :| k < i < |ms'| && ms'[i].PitMark? && ms'[i].entry && i < |ms| {
        assert ms[i] == ms'[i];
      }
      if i :| k < i < |ms| && ms[i].PitMark? && ms[i].entry {
        assert ms'[i] == ms[i];
      }
      assert ms'[|ms|] == m;
    }
  }

  lemma CleanAtOpening(ms: seq<Mark>, m: Mark)
    requires m.LapMark?
    ensures Clean(ms + [m], |ms|) <==> m.idx == 0 && StatusAfter(ms) == Track
    ensures PointsAfter(ms + [m], |ms|) == []
  {
    Snoc(ms, m);
  }

  lemma {:induction false} PointsFit(r: Rules, ms: seq<Mark>, k: nat)
    requires AllFit(r, ms) && k < |ms| && ms[k].LapMark?
    ensures forall i :: 0 <= i < |PointsAfter(ms, k)| ==> PointsAfter(ms, k)[i] < r.n
  {
    if |ms| > k + 1 {
      var last := |ms| - 1;
      assert ms[last] in ms;
      PointsFit(r, ms[..last], k);
    }
  }

  lemma Wrap(a: nat, n: nat)
    requires a <= n && n > 0
    ensures a % n == if a == n then 0 else a
  {
  }

  /** A clean lap has crossed at most the `n - 1` lap points there are, so the next one is expected or the finish is. */
  lemma CleanHasRoom(r: Rules, ms: seq<Mark>, k: nat)
    requires AllFit(r, ms) && k < |ms| && ms[k].LapMark?
    ensures var s := |PointsAfter(ms, k)|;
            Clean(ms, k) ==> s < r.n && (s + 1) % r.n == if s + 1 == r.n then 0 else s + 1
  {
    PointsFit(r, ms, k);
    assert ms[k] in ms;
    var points := PointsAfter(ms, k);
    if Clean(ms, k) {
      assert |points| > 0 ==> points[|points| - 1] == |points|;
      Wrap(|points| + 1, r.n);
    }
  }

  lemma AgreesStep(r: Rules, ms: seq<Mark>, m: Mark, c: Clock)
    requires Sound(r, ms + [m]) && Fits(r, m) && m.time > 0.0 && Agrees(r, ms, c)
    ensures Agrees(r, ms + [m], Handle(r, c, m).0)
  {
    Snoc(ms, m);
    var before := Opened(ms);
    if m.LapMark? && (m.idx == 0 || before.None?) {
      CleanAtOpening(ms, m);
      assert Opened(ms + [m]) == Some(|ms|);
    } else {
      assert Opened(ms + [m]) == before;
      if before.Some? {
        CleanStep(ms, m, before.value);
        CleanHasRoom(r, ms, before.value);
      }
    }
  }

  /** Over every run, the clock's fields are what the marks say they should be. */
  lemma {:induction false} ClockFollowsMarks(r: Rules, ms: seq<Mark>)
    requires Sound(r, ms)
    ensures Agrees(r, ms, RunClock(r, ms))
  {
    if |ms| > 0 {
      var last := |ms| - 1;
      ClockFollowsMarks(r, ms[..last]);
      assert ms == ms[..last] + [ms[last]];
      assert ms[last] in ms;
      AgreesStep(r, ms[..last], ms[last], RunClock(r, ms[..last]));
    }
  }

  /**
   What a start/finish crossing reports, over every run: nothing if the lap
   that opened at `k` had no lap point crossed or was shorter than the minimum;
   otherwise its final sector and the lap, timed from the opening mark and
   valid exactly if it was faultless.
   */
  lemma LapIsWhatHappened(r: Rules, ms: seq<Mark>, m: Mark, k: nat)
    requires Sound(r, ms) && m.LapMark? && m.idx == 0 < r.n && Opened(ms) == Some(k)
    ensures var reported := Handle(r, RunClock(r, ms), m).1;
            if PointsAfter(ms, k) == [] || m.time - ms[k].time < r.minLap then reported == []
            else ReportsLap(r, reported, m.time - ms[k].time, Faultless(r, ms, k))
  {
    ClockFollowsMarks(r, ms);
    CleanHasRoom(r, ms, k);
    var c := RunClock(r, ms);
    assert (c.lapValid && c.expectedIdx == 0 && c.pit == Track) <==> Faultless(r, ms, k) by {
      if Clean(ms, k) {
        CleanOnTrack(ms, k);
      }
    }
  }

  /** A final sector and a completed lap of the given time and validity. */
  ghost predicate ReportsLap(r: Rules, es: seq<Event>, lapTime: real, valid: bool) {
    && |es| == 2
    && es[0].kind == SectorCompleted && es[0].sector == r.n && es[0].valid == valid
    && es[1].kind == LapCompleted && es[1].lapTime == lapTime >= r.minLap && es[1].valid == valid
  }

  /** On track at the opening and no pit entry since: still on track. */
  lemma {:induction false} CleanOnTrack(ms: seq<Mark>, k: nat)
    requires k < |ms| && ms[k].LapMark? && StatusAfter(ms[..k]) == Track && !PitEntered(ms, k)
    ensures StatusAfter(ms) == Track
  {
    var last := |ms| - 1;
    if k < last {
      assert ms[..last][..k] == ms[..k];
      assert !PitEntered(ms[..last], k);
      CleanOnTrack(ms[..last], k);
      assert ms[last].PitMark? ==> !ms[last].entry;
    }
  }

  // ----- lap numbers and the best lap ----------------------------------------

  function Laps(es: seq<Event>): (laps: seq<Event>)
  {
    if |es| == 0 then []
    else Laps(es[..|es| - 1]) + (if es[|es| - 1].kind == LapCompleted then [es[|es| - 1]] else [])
  }

  lemma {:induction false} LapsConcat(a: seq<Event>, b: seq<Event>)
    ensures Laps(a + b) == Laps(a) + Laps(b)
  {
    if |b| == 0 {
      assert a + b == a;
    } else {
      var last := |b| - 1;
      LapsConcat(a, b[..last]);
      assert (a + b)[..|a + b| - 1] == a + b[..last];
    }
  }

  /** `best` is the least time among the valid laps, or 0 if there is none. */
  ghost predicate IsBest(best: real, laps: seq<Event>) {
    if forall i :: 0 <= i < |laps| ==> !laps[i].valid then best == 0.0
    else
      && (exists i :: 0 <= i < |laps| && laps[i].valid && laps[i].lapTime == best)
      && (forall i :: 0 <= i < |laps| && laps[i].valid ==> best <= laps[i].lapTime)
  }

  /** The best-lap field after these laps: a faster valid lap replaces it, and 0 is "none yet". */
  function BestOf(laps: seq<Event>): (best: real)
  {
    if |laps| == 0 then 0.0
    else
      var best, lap := BestOf(laps[..|laps| - 1]), laps[|laps| - 1];
      if lap.valid && (best == 0.0 || lap.lapTime < best) then lap.lapTime else best
  }

  ghost predicate Tallied(r: Rules, c: Clock, laps: seq<Event>) {
    && (c.lapStart == 0.0 ==> laps == [] && c.lapNumber == 0)
    && (c.lapStart != 0.0 ==> c.lapNumber == |laps| + 1)
    && (forall i :: 0 <= i < |laps| ==> laps[i].lapNumber == i + 1 && laps[i].lapTime >= r.minLap)
    && c.bestLap == BestOf(laps)
  }

  lemma TalliedLap(r: Rules, c: Clock, laps: seq<Event>, m: Mark)
    requires Tallied(r, c, laps) && m.LapMark? && m.idx == 0 < r.n && m.time > 0.0 && c.lapStart != 0.0
    ensures Tallied(r, HandleFinish(r, c, m).0, laps + Laps(HandleFinish(r, c, m).1))
  {
    var (c', es) := HandleFinish(r, c, m);
    if es == [] {
      assert laps + Laps(es) == laps;
    } else {
      LapsOfTwo(es);
      assert (laps + [es[1]])[..|laps|] == laps;
    }
  }

  lemma LapsOfTwo(es: seq<Event>)
    requires |es| == 2 && es[0].kind != LapCompleted && es[1].kind == LapCompleted
    ensures Laps(es) == [es[1]]
  {
    assert es[..1][..0] == [] && es[..1] == [es[0]];
    assert Laps(es[..1]) == [];
  }

  /** Over every run completed laps are numbered 1, 2, 3, ..., and none is shorter than the minimum. */
  lemma {:induction false} LapsAreTallied(r: Rules, ms: seq<Mark>)
    requires Sound(r, ms)
    ensures Tallied(r, RunClock(r, ms), Laps(RunEvents(r, ms)))
  {
    if |ms| > 0 {
      var last := |ms| - 1;
      var m, c := ms[last], RunClock(r, ms[..last]);
      LapsAreTallied(r, ms[..last]);
      assert m in ms;
      LapsConcat(RunEvents(r, ms[..last]), Handle(r, c, m).1);
      TalliedStep(r, c, Laps(RunEvents(r, ms[..last])), m);
    }
  }

  lemma TalliedStep(r: Rules, c: Clock, laps: seq<Event>, m: Mark)
    requires Tallied(r, c, laps) && Fits(r, m) && m.time > 0.0
    ensures Tallied(r, Handle(r, c, m).0, laps + Laps(Handle(r, c, m).1))
  {
    if m.LapMark? && m.idx == 0 && c.lapStart != 0.0 {
      TalliedLap(r, c, laps, m);
    } else {
      var es := Handle(r, c, m).1;
      assert |es| <= 1 && (|es| == 1 ==> es[..0] == [] && es[0].kind != LapCompleted);
      assert Laps(es) == [];
      assert laps + Laps(es) == laps;
    }
  }

  // ----- the best lap --------------------------------------------------------

  /** A valid lap that took no time; the best-lap field cannot tell it from "none yet". */
  predicate Instant(lap: Event) { lap.valid && lap.lapTime == 0.0 }

  ghost predicate HasInstant(laps: seq<Event>) { exists i :: 0 <= i < |laps| && Instant(laps[i]) }

  /** The latest valid lap. */
  function LatestValid(laps: seq<Event>): (lap: Option<Event>)
  {
    if |laps| == 0 then None
    else if laps[|laps| - 1].valid then Some(laps[|laps| - 1])
    else LatestValid(laps[..|laps| - 1])
  }

  lemma {:induction false} LatestValidExists(laps: seq<Event>, i: nat)
    requires i < |laps| && laps[i].valid
    ensures LatestValid(laps).Some?
  {
    if !laps[|laps| - 1].valid {
      LatestValidExists(laps[..|laps| - 1], i);
    }
  }

  /** A valid lap took no time and the latest valid one did not. */
  ghost predicate ForgetsInstant(laps: seq<Event>) {
    HasInstant(laps) && LatestValid(laps).Some? && !Instant(LatestValid(laps).value)
  }

  ghost predicate NoneNegative(laps: seq<Event>) { forall i :: 0 <= i < |laps| ==> laps[i].lapTime >= 0.0 }

  lemma {:induction false} BestIsZeroIff(laps: seq<Event>)
    requires NoneNegative(laps)
    ensures BestOf(laps) >= 0.0
    ensures BestOf(laps) == 0.0 <==> LatestValid(laps).None? || Instant(LatestValid(laps).value)
  {
    if |laps| > 0 {
      BestIsZeroIff(laps[..|laps| - 1]);
    }
  }

  lemma BestOfOneMore(best: real, laps: seq<Event>, lap: Event)
    requires IsBest(best, laps) && (lap.valid ==> lap.lapTime > 0.0)
    requires forall i :: 0 <= i < |laps| && laps[i].valid ==> laps[i].lapTime > 0.0
    ensures IsBest(if lap.valid && (best == 0.0 || lap.lapTime < best) then lap.lapTime else best, laps + [lap])
  {
    var laps' := laps + [lap];
    assert forall i :: 0 <= i < |laps| ==> laps'[i] == laps[i];
    assert laps'[|laps|] == lap;
    if i :| 0 <= i < |laps| && laps[i].valid && laps[i].lapTime == best {
      assert laps'[i].valid && laps'[i].lapTime == best;
    } else {
      assert forall i :: 0 <= i < |laps| ==> !laps[i].valid;
    }
  }

  lemma {:induction false} BestWithoutInstants(laps: seq<Event>)
    requires NoneNegative(laps) && !HasInstant(laps)
    ensures IsBest(BestOf(laps), laps)
  {
    if |laps| > 0 {
      var front, lap := laps[..|laps| - 1], laps[|laps| - 1];
      assert !HasInstant(front);
      BestWithoutInstants(front);
      assert laps == front + [lap];
      BestOfOneMore(BestOf(front), front, lap);
    }
  }

  /** The field is the minimum exactly if no valid lap took no time, or the latest valid one took none. */
  lemma BestIsMinimumIff(laps: seq<Event>)
    requires NoneNegative(laps)
    ensures IsBest(BestOf(laps), laps) <==> !ForgetsInstant(laps)
  {
    BestIsZeroIff(laps);
    if !HasInstant(laps) {
      BestWithoutInstants(laps);
    } else {
      var i :| 0 <= i < |laps| && Instant(laps[i]);
      LatestValidExists(laps, i);
      if !ForgetsInstant(laps) {
        assert laps[i].lapTime == BestOf(laps);
      }
    }
  }

  /**
   So in every state a run can reach (`LapsAreTallied`) `bestLap` is the minimum
   over the valid laps, 0 if none, exactly unless a valid lap took no time and
   the latest valid one did not; with a positive minimum lap time, always.
   */
  lemma BestLapIsMinimumIff(r: Rules, c: Clock, laps: seq<Event>)
    requires Tallied(r, c, laps) && r.minLap >= 0.0
    ensures IsBest(c.bestLap, laps) <==> !ForgetsInstant(laps)
    ensures r.minLap > 0.0 ==> IsBest(c.bestLap, laps)
  {
    BestIsMinimumIff(laps);
  }

  lemma RunOneMore(r: Rules, ms: seq<Mark>, m: Mark)
    requires AllFit(r, ms) && Fits(r, m)
    ensures AllFit(r, ms + [m]) && RunClock(r, ms + [m]) == Handle(r, RunClock(r, ms), m).0
    ensures Laps(RunEvents(r, ms + [m])) == Laps(RunEvents(r, ms)) + Laps(Handle(r, RunClock(r, ms), m).1)
  {
    Snoc(ms, m);
    LapsConcat(RunEvents(r, ms), Handle(r, RunClock(r, ms), m).1);
  }

  // ----- splits --------------------------------------------------------------

  /** The split times carried by a list of events. */
  function SplitsOf(es: seq<Event>): (s: seq<real>)
  {
    if |es| == 0 then []
    else SplitsOf(es[..|es| - 1]) + (if es[|es| - 1].kind == SectorCompleted then [es[|es| - 1].splitTime] else [])
  }

  /** The splits emitted after position `k`. */
  function SplitsAfter(r: Rules, ms: seq<Mark>, k: nat): (s: seq<real>)
    requires AllFit(r, ms)
  {
    if |ms| <= k + 1 then []
    else
      var last := |ms| - 1;
      SplitsAfter(r, ms[..last], k) + SplitsOf(Handle(r, RunClock(r, ms[..last]), ms[last]).1)
  }

  lemma {:induction false} SumConcat(a: seq<real>, b: seq<real>)
    ensures Sum(a + b) == Sum(a) + Sum(b)
  {
    if |b| == 0 {
      assert a + b == a;
    } else {
      SumConcat(a, b[..|b| - 1]);
      assert (a + b)[..|a + b| - 1] == a + b[..|b| - 1];
    }
  }

  lemma SplitsOfTwo(es: seq<Event>)
    requires |es| == 2 && es[0].kind == SectorCompleted && es[1].kind != SectorCompleted
    ensures Sum(SplitsOf(es)) == es[0].splitTime
  {
    assert es[..1] == [es[0]];
    SplitsOfOne(es[0]);
  }

  lemma SplitsOfOne(e: Event)
    ensures Sum(SplitsOf([e])) == if e.kind == SectorCompleted then e.splitTime else 0.0
  {
    assert [e][..0] == [];
    assert [e.splitTime][..0] == [];
  }

  lemma SplitsOfReport(r: Rules, c: Clock, m: Mark)
    requires Fits(r, m)
    ensures Sum(SplitsOf(Handle(r, c, m).1)) ==
            if m.PitMark? || c.lapStart == 0.0 || Handle(r, c, m).1 == [] then 0.0 else m.time - c.segmentStart
  {
    var es := Handle(r, c, m).1;
    if |es| == 2 {
      SplitsOfTwo(es);
    } else if |es| == 1 {
      assert es == [es[0]];
      SplitsOfOne(es[0]);
    }
  }

  /** While a lap is open its splits add up to the time from its opening to its last lap point. */
  lemma {:induction false} OpenSplitsAddUp(r: Rules, ms: seq<Mark>, k: nat)
    requires Sound(r, ms) && Opened(ms) == Some(k)
    ensures Sum(SplitsAfter(r, ms, k)) == RunClock(r, ms).segmentStart - ms[k].time
  {
    var last := |ms| - 1;
    var m, c := ms[last], RunClock(r, ms[..last]);
    assert m in ms;
    ClockFollowsMarks(r, ms[..last]);
    if k < last {
      OpenSplitsAddUp(r, ms[..last], k);
      SplitsOfReport(r, c, m);
      SumConcat(SplitsAfter(r, ms[..last], k), SplitsOf(Handle(r, c, m).1));
    }
  }

  /**
   For every completed lap, valid or not, the splits emitted since its clock
   started, the final one included, sum exactly to its time.
   */
  lemma LapSplitsSumToLapTime(r: Rules, ms: seq<Mark>, m: Mark, k: nat)
    requires Sound(r, ms) && Sound(r, ms + [m]) && m.LapMark? && m.idx == 0 < r.n && Opened(ms) == Some(k)
    requires Handle(r, RunClock(r, ms), m).1 != []
    ensures Sum(SplitsAfter(r, ms + [m], k)) == Handle(r, RunClock(r, ms), m).1[1].lapTime
  {
    ClockFollowsMarks(r, ms);
    OpenSplitsAddUp(r, ms, k);
    SplitsAfterSnoc(r, ms, m, k);
    FinishReport(r, RunClock(r, ms), m);
  }

  /** A reported lap: its own split is the running segment, its time runs from the lap's start. */
  lemma FinishReport(r: Rules, c: Clock, m: Mark)
    requires m.LapMark? && m.idx == 0 < r.n && c.lapStart != 0.0 && Handle(r, c, m).1 != []
    ensures var es := Handle(r, c, m).1;
            |es| == 2 && es[1].lapTime == m.time - c.lapStart && Sum(SplitsOf(es)) == m.time - c.segmentStart
  {
    SplitsOfReport(r, c, m);
  }

  lemma SplitsAfterSnoc(r: Rules, ms: seq<Mark>, m: Mark, k: nat)
    requires AllFit(r, ms) && AllFit(r, ms + [m]) && Fits(r, m) && k < |ms|
    ensures Sum(SplitsAfter(r, ms + [m], k)) == Sum(SplitsAfter(r, ms, k)) + Sum(SplitsOf(Handle(r, RunClock(r, ms), m).1))
  {
    Snoc(ms, m);
    SumConcat(SplitsAfter(r, ms, k), SplitsOf(Handle(r, RunClock(r, ms), m).1));
  }

  /** Lap points are crossed in time order. */
  ghost predicate InTimeOrder(ms: seq<Mark>) {
    forall i, j :: 0 <= i < j < |ms| && ms[i].LapMark? && ms[j].LapMark? ==> ms[i].time <= ms[j].time
  }

  /** The running segment started at some earlier lap point. */
  lemma {:induction false} SegmentStartedAtLapPoint(r: Rules, ms: seq<Mark>)
    requires Sound(r, ms) && RunClock(r, ms).lapStart != 0.0
    ensures exists i :: 0 <= i < |ms| && ms[i].LapMark? && ms[i].time == RunClock(r, ms).segmentStart
  {
    var last := |ms| - 1;
    var m, c := ms[last], RunClock(r, ms[..last]);
    assert m in ms;
    if m.PitMark? {
      SegmentStartedAtLapPoint(r, ms[..last]);
      var i :| 0 <= i < last && ms[..last][i].LapMark? && ms[..last][i].time == c.segmentStart;
      assert ms[i].LapMark? && ms[i].time == RunClock(r, ms).segmentStart;
    } else {
      assert RunClock(r, ms).segmentStart == m.time;
    }
  }

  /** With crossings in time order no split is ever negative. */
  lemma {:induction false} SplitsAreNonNegative(r: Rules, ms: seq<Mark>, e: Event)
    requires Sound(r, ms) && InTimeOrder(ms) && e in RunEvents(r, ms)
    ensures e.splitTime >= 0.0
  {
    var last := |ms| - 1;
    var m, c := ms[last], RunClock(r, ms[..last]);
    assert m in ms;
    if e in RunEvents(r, ms[..last]) {
      SplitsAreNonNegative(r, ms[..last], e);
    } else if m.LapMark? && c.lapStart != 0.0 {
      SegmentStartedAtLapPoint(r, ms[..last]);
      var i :| 0 <= i < last && ms[..last][i].LapMark? && ms[..last][i].time == c.segmentStart;
      assert ms[i].time <= ms[last].time;
    }
  }
}
