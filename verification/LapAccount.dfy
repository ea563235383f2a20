/**
 Every timing event of a run, read off the accepted crossings
 (`src/timing/timing_core.py`, `_handle_pit` and `_handle_lap_point`): the
 account has no clock, counters or flags, only the marks made so far, and the
 lap clock's events are equal to it, field by field.
 */
module LapAccount {
  import opened Basics
  import opened LapClock

  /** The last lap point crossed. */
  function LastPoint(ms: seq<Mark>): (m: Option<Mark>)
    ensures m.Some? ==> m.value.LapMark?
  {
    if |ms| == 0 then None
    else if ms[|ms| - 1].LapMark? then Some(ms[|ms| - 1])
    else LastPoint(ms[..|ms| - 1])
  }

  /** The lap point after this one, going round the track. */
  ghost predicate Follows(r: Rules, before: nat, idx: nat) {
    idx == before + 1 || (before + 1 == r.n && idx == 0)
  }

  function SectorEvent(ms: seq<Mark>, m: Mark, lap: nat, sector: nat, since: real, valid: bool): Event {
    Event(SectorCompleted, m.time, m.line, lap, sector, m.time - since, 0.0, valid, m.sign, StatusAfter(ms))
  }

  function LapEvent(ms: seq<Mark>, m: Mark, lap: nat, since: real, valid: bool): Event {
    Event(LapCompleted, m.time, m.line, lap, 0, 0.0, m.time - since, valid, m.sign, StatusAfter(ms))
  }

  /** What mark `m` reports after `ms`, in which `laps` laps were completed. */
  ghost function Reported(r: Rules, ms: seq<Mark>, m: Mark, laps: nat): seq<Event>
  {
    var k, point := Opened(ms), LastPoint(ms);
    if m.PitMark? then
      var lap := if k.Some? then laps + 1 else 0;
      if m.entry then [Event(PitEntry, m.time, m.line, lap, 0, 0.0, 0.0, true, m.sign, Pit)]
      else [Event(PitExit, m.time, m.line, lap, 0, 0.0, 0.0, true, m.sign, Track)]
    else if k.None? || point.None? then []
    else if m.idx > 0 then
      [SectorEvent(ms, m, laps + 1, m.idx, point.value.time, Follows(r, point.value.idx, m.idx) && StatusAfter(ms) == Track)]
    else if PointsAfter(ms, k.value) == [] || m.time - ms[k.value].time < r.minLap then []
    else
      var valid := Faultless(r, ms, k.value);
      [SectorEvent(ms, m, laps + 1, r.n, point.value.time, valid), LapEvent(ms, m, laps + 1, ms[k.value].time, valid)]
  }

  /** The account of a whole run. */
  ghost function Account(r: Rules, ms: seq<Mark>): (es: seq<Event>)
  {
    if |ms| == 0 then []
    else
      var before := Account(r, ms[..|ms| - 1]);
      before + Reported(r, ms[..|ms| - 1], ms[|ms| - 1], |Laps(before)|)
  }

  /** The clock's segment and expected point go by the last lap point. */
  ghost predicate Pointed(r: Rules, ms: seq<Mark>, c: Clock) {
    && (Opened(ms).Some? <==> LastPoint(ms).Some?)
    && (LastPoint(ms).Some? ==>
          && c.segmentStart == LastPoint(ms).value.time
          && LastPoint(ms).value.idx < r.n
          && c.expectedIdx == (LastPoint(ms).value.idx + 1) % r.n)
  }

  lemma PointedStep(r: Rules, ms: seq<Mark>, m: Mark, c: Clock)
    requires Pointed(r, ms, c) && Agrees(r, ms, c) && Fits(r, m)
    ensures Pointed(r, ms + [m], Handle(r, c, m).0)
  {
    Snoc(ms, m);
  }

  lemma {:induction false} RunPointed(r: Rules, ms: seq<Mark>)
    requires Sound(r, ms)
    ensures Pointed(r, ms, RunClock(r, ms))
  {
    if |ms| > 0 {
      var last := |ms| - 1;
      RunPointed(r, ms[..last]);
      ClockFollowsMarks(r, ms[..last]);
      assert ms == ms[..last] + [ms[last]];
      assert ms[last] in ms;
      PointedStep(r, ms[..last], ms[last], RunClock(r, ms[..last]));
    }
  }

  lemma ExpectedIsNext(r: Rules, before: nat, idx: nat)
    requires before < r.n && idx < r.n
    ensures idx == (before + 1) % r.n <==> Follows(r, before, idx)
  {
    Wrap(before + 1, r.n);
  }

  /** The clock after `ms`, in which `laps` laps were completed, as far as a report depends on it. */
  ghost predicate InStep(r: Rules, ms: seq<Mark>, c: Clock, laps: nat) {
    && Agrees(r, ms, c) && Pointed(r, ms, c)
    && c.lapNumber == if Opened(ms).Some? then laps + 1 else 0
  }

  lemma PitAsReported(r: Rules, ms: seq<Mark>, m: Mark, c: Clock, laps: nat)
    requires InStep(r, ms, c, laps) && m.PitMark?
    ensures Handle(r, c, m).1 == Reported(r, ms, m, laps)
  {
  }

  lemma SectorAsReported(r: Rules, ms: seq<Mark>, m: Mark, c: Clock, laps: nat)
    requires InStep(r, ms, c, laps) && m.LapMark? && 0 < m.idx < r.n
    ensures Handle(r, c, m).1 == Reported(r, ms, m, laps)
  {
    if LastPoint(ms).Some? {
      ExpectedIsNext(r, LastPoint(ms).value.idx, m.idx);
    }
  }

  lemma FinishAsReported(r: Rules, ms: seq<Mark>, m: Mark, laps: nat)
    requires Sound(r, ms) && m.LapMark? && m.idx == 0 < r.n && InStep(r, ms, RunClock(r, ms), laps)
    ensures Handle(r, RunClock(r, ms), m).1 == Reported(r, ms, m, laps)
  {
    if Opened(ms).Some? {
      LapIsWhatHappened(r, ms, m, Opened(ms).value);
    }
  }

  lemma ClockInStep(r: Rules, ms: seq<Mark>)
    requires Sound(r, ms)
    ensures InStep(r, ms, RunClock(r, ms), |Laps(RunEvents(r, ms))|)
  {
    ClockFollowsMarks(r, ms);
    RunPointed(r, ms);
    LapsAreTallied(r, ms);
  }

  lemma HandleAsReported(r: Rules, ms: seq<Mark>, m: Mark)
    requires Sound(r, ms) && Fits(r, m)
    ensures Handle(r, RunClock(r, ms), m).1 == Reported(r, ms, m, |Laps(RunEvents(r, ms))|)
  {
    ClockInStep(r, ms);
    if m.PitMark? {
      PitAsReported(r, ms, m, RunClock(r, ms), |Laps(RunEvents(r, ms))|);
    } else if m.idx == 0 {
      FinishAsReported(r, ms, m, |Laps(RunEvents(r, ms))|);
    } else {
      SectorAsReported(r, ms, m, RunClock(r, ms), |Laps(RunEvents(r, ms))|);
    }
  }

  /** Over every run, the events the clock reports are exactly those of the account. */
  lemma {:induction false} EventsAreTheAccount(r: Rules, ms: seq<Mark>)
    requires Sound(r, ms)
    ensures RunEvents(r, ms) == Account(r, ms)
  {
    if |ms| > 0 {
      var last := |ms| - 1;
      assert ms[last] in ms;
      EventsAreTheAccount(r, ms[..last]);
      HandleAsReported(r, ms[..last], ms[last]);
    }
  }

  function LastTime(laps: seq<Event>): real { if laps == [] then 0.0 else laps[|laps| - 1].lapTime }

  /** The clock's last lap time is that of the last completed lap, valid or not. */
  lemma {:induction false} LastLapOfRun(r: Rules, ms: seq<Mark>)
    requires Sound(r, ms)
    ensures RunClock(r, ms).lastLap == LastTime(Laps(RunEvents(r, ms)))
  {
    if |ms| > 0 {
      var last := |ms| - 1;
      assert ms[last] in ms;
      LastLapOfRun(r, ms[..last]);
      LapsConcat(RunEvents(r, ms[..last]), Handle(r, RunClock(r, ms[..last]), ms[last]).1);
      HandleLastLap(r, RunClock(r, ms[..last]), Laps(RunEvents(r, ms[..last])), ms[last]);
    }
  }

  lemma HandleLastLap(r: Rules, c: Clock, laps: seq<Event>, m: Mark)
    requires Fits(r, m) && c.lastLap == LastTime(laps)
    ensures Handle(r, c, m).0.lastLap == LastTime(laps + Laps(Handle(r, c, m).1))
  {
    var es := Handle(r, c, m).1;
    if |es| == 2 {
      LapsOfTwo(es);
    } else {
      assert |es| == 1 ==> es[..0] == [] && es[0].kind != LapCompleted;
      assert Laps(es) == [];
      assert laps + Laps(es) == laps;
    }
  }
}
