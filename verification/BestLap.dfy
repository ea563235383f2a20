/**
 The engine's best lap over a run of GPS fixes: the minimum over the valid laps,
 unless both the minimum lap time and the re-entry interval are switched off.

 0 in the best-lap field stands for "none yet", so a valid lap of no time would
 be forgotten. A valid lap opens and closes on lap point 0, so the re-entry
 interval alone keeps it from taking none.
 */
module BestLap {
  import opened LapClock
  import opened TimingEngine
  import D = Drives

  // ----- with either safeguard -----------------------------------------------

  ghost predicate Named(cfg: Settings, ms: seq<Mark>) {
    forall i :: 0 <= i < |ms| && ms[i].LapMark? ==> ms[i].idx < |cfg.lapPoints| && ms[i].line == cfg.lapPoints[ms[i].idx].name
  }

  lemma NamedConcat(cfg: Settings, a: seq<Mark>, b: seq<Mark>)
    requires Named(cfg, a) && Named(cfg, b)
    ensures Named(cfg, a + b)
  {
  }

  lemma {:induction false} PitsNamed(cfg: Settings, g: Gates, p1: GpsPoint, p2: GpsPoint, i: nat)
    requires i <= |cfg.pitLines|
    ensures Named(cfg, PitPass(cfg, g, p1, p2, i).1)
  {
    if i > 0 {
      PitsNamed(cfg, g, p1, p2, i - 1);
    }
  }

  /** Accepted lap points carry the names of their lines. */
  lemma {:induction false} MarksNamed(cfg: Settings, fixes: seq<GpsPoint>)
    ensures Named(cfg, MarksOf(cfg, fixes))
  {
    if |fixes| > 1 {
      var front, p1, p2 := fixes[..|fixes| - 1], fixes[|fixes| - 2], fixes[|fixes| - 1];
      MarksNamed(cfg, front);
      var g := RunGates(cfg, front).0;
      PitsNamed(cfg, g, p1, p2, |cfg.pitLines|);
      var (g1, pits) := PitPass(cfg, g, p1, p2, |cfg.pitLines|);
      NamedConcat(cfg, pits, LapPass(cfg, g1, p1, p2).1);
      NamedConcat(cfg, MarksOf(cfg, front), FixPass(cfg, g, p1, p2).1);
    }
  }

  ghost predicate ValidTake(laps: seq<Event>, d: real) { forall i :: 0 <= i < |laps| && laps[i].valid ==> laps[i].lapTime >= d }

  /** What one more mark reports takes at least the re-entry interval, if it is a valid lap. */
  lemma ReportTakesTime(cfg: Settings, ms: seq<Mark>, m: Mark)
    requires Sound(cfg.Rules(), ms + [m]) && Spaced(cfg, ms + [m]) && Named(cfg, ms + [m]) && Sound(cfg.Rules(), ms)
    requires Fits(cfg.Rules(), m)
    ensures ValidTake(Laps(Handle(cfg.Rules(), RunClock(cfg.Rules(), ms), m).1), cfg.minReentry)
  {
    var r, all := cfg.Rules(), ms + [m];
    var es := Handle(r, RunClock(r, ms), m).1;
    if |es| == 2 {
      LapsOfTwo(es);
      ClockFollowsMarks(r, ms);
      var k := Opened(ms).value;
      LapIsWhatHappened(r, ms, m, k);
      if es[1].valid {
        // the lap opened on lap point 0, the line it closes on
        assert all[k] == ms[k] && all[|ms|] == m && all[k].line == all[|ms|].line;
      }
    } else if |es| == 1 {
      assert es[..0] == [] && Laps(es) == [];
    }
  }

  lemma {:induction false} ValidLapsTakeTime(cfg: Settings, ms: seq<Mark>)
    requires Sound(cfg.Rules(), ms) && Spaced(cfg, ms) && Named(cfg, ms)
    ensures ValidTake(Laps(RunEvents(cfg.Rules(), ms)), cfg.minReentry)
  {
    if |ms| > 0 {
      var r, front, m := cfg.Rules(), ms[..|ms| - 1], ms[|ms| - 1];
      assert ms == front + [m] && m in ms;
      FrontToo(cfg, front, m);
      ValidLapsTakeTime(cfg, front);
      ReportTakesTime(cfg, front, m);
      RunOneMore(r, front, m);
      ValidTakeConcat(Laps(RunEvents(r, front)), Laps(Handle(r, RunClock(r, front), m).1), cfg.minReentry);
    }
  }

  lemma ValidTakeConcat(a: seq<Event>, b: seq<Event>, d: real)
    requires ValidTake(a, d) && ValidTake(b, d)
    ensures ValidTake(a + b, d)
  {
  }

  lemma FrontToo(cfg: Settings, front: seq<Mark>, m: Mark)
    requires Sound(cfg.Rules(), front + [m]) && Spaced(cfg, front + [m]) && Named(cfg, front + [m])
    ensures Sound(cfg.Rules(), front) && Spaced(cfg, front) && Named(cfg, front)
  {
    assert forall i :: 0 <= i < |front| ==> (front + [m])[i] == front[i];
  }

  /**
   For every run of fixes with positive, non-decreasing timestamps: the best lap
   is the minimum over the valid completed laps, 0 if none, as long as the
   minimum lap time or the re-entry interval is positive.
   */
  lemma BestLapOfRun(cfg: Settings, fixes: seq<GpsPoint>)
    requires Timed(fixes) && cfg.minLap >= 0.0 && cfg.minReentry >= 0.0 && (cfg.minLap > 0.0 || cfg.minReentry > 0.0)
    ensures var r, ms := cfg.Rules(), MarksOf(cfg, fixes);
            Sound(r, ms) && IsBest(RunClock(r, ms).bestLap, Laps(RunEvents(r, ms)))
  {
    var r, ms := cfg.Rules(), MarksOf(cfg, fixes);
    MarksAreSound(cfg, fixes);
    LapsAreTallied(r, ms);
    GatesHold(cfg, fixes);
    MarksNamed(cfg, fixes);
    ValidLapsTakeTime(cfg, ms);
    BestWithoutInstants(Laps(RunEvents(r, ms)));
  }

  // ----- with neither --------------------------------------------------------

  /** On track, with a lap of a two-point track just opened at time `a`. */
  predicate JustOpened(c: Clock, a: real) {
    c.lapStart == a > 0.0 && c.lapValid && c.expectedIdx == 1 && c.pit == Track && c.sectorsDone == 0
  }

  ghost predicate IsStop(m: Mark, idx: nat, time: real) { m.LapMark? && m.idx == idx && m.time == time }

  const TwoPoints := Rules(2, 0.0)

  /** Both lap points crossed, the finish at time `b`: a valid lap of length `b - a`, and the next one just opened. */
  lemma LapOnClock(c: Clock, m: Mark, f: Mark, a: real, b: real)
    requires JustOpened(c, a) && a <= b && IsStop(m, 1, m.time) && IsStop(f, 0, b)
    ensures var (c1, es) := Handle(TwoPoints, c, m);
      var (c2, fs) := Handle(TwoPoints, c1, f);
      && JustOpened(c2, b) && Laps(es) == [] && |Laps(fs)| == 1 && Laps(fs)[0].valid && Laps(fs)[0].lapTime == b - a
  {
    var (c1, es) := Handle(TwoPoints, c, m);
    assert |es| == 1 && es[..0] == [];
    LapsOfTwo(Handle(TwoPoints, c1, f).1);
  }

  lemma LapOfTwo(ms: seq<Mark>, m: Mark, f: Mark, a: real, b: real) returns (lap: Event)
    requires AllFit(TwoPoints, ms) && JustOpened(RunClock(TwoPoints, ms), a) && a <= b && IsStop(m, 1, m.time) && IsStop(f, 0, b)
    ensures AllFit(TwoPoints, ms + [m] + [f]) && JustOpened(RunClock(TwoPoints, ms + [m] + [f]), b)
    ensures Laps(RunEvents(TwoPoints, ms + [m] + [f])) == Laps(RunEvents(TwoPoints, ms)) + [lap]
    ensures lap.valid && lap.lapTime == b - a
  {
    LapOnClock(RunClock(TwoPoints, ms), m, f, a, b);
    RunOneMore(TwoPoints, ms, m);
    RunOneMore(TwoPoints, ms + [m], f);
    lap := Laps(Handle(TwoPoints, RunClock(TwoPoints, ms + [m]), f).1)[0];
  }

  lemma FirstOpens(m: Mark, a: real)
    requires IsStop(m, 0, a) && a > 0.0
    ensures AllFit(TwoPoints, [m]) && JustOpened(RunClock(TwoPoints, [m]), a) && Laps(RunEvents(TwoPoints, [m])) == []
  {
    assert [m][..0] == [];
  }

  /** A lap of no time and then one of five seconds leave five seconds as the best. */
  lemma InstantLapIsForgotten(ms: seq<Mark>)
    requires Sound(TwoPoints, ms) && |ms| == 5 && IsStop(ms[0], 0, 1.0)
    requires IsStop(ms[1], 1, 1.0) && IsStop(ms[2], 0, 1.0) && IsStop(ms[3], 1, 6.0) && IsStop(ms[4], 0, 6.0)
    ensures !IsBest(RunClock(TwoPoints, ms).bestLap, Laps(RunEvents(TwoPoints, ms)))
  {
    var open := [ms[0]];
    FirstOpens(ms[0], 1.0);
    var instant := LapOfTwo(open, ms[1], ms[2], 1.0, 1.0);
    var slow := LapOfTwo(open + [ms[1]] + [ms[2]], ms[3], ms[4], 1.0, 6.0);
    assert ms == open + [ms[1]] + [ms[2]] + [ms[3]] + [ms[4]];
    assert Laps(RunEvents(TwoPoints, ms)) == [instant, slow] && Instant([instant, slow][0]);
    LapsAreTallied(TwoPoints, ms);
    BestLapIsMinimumIff(TwoPoints, RunClock(TwoPoints, ms), Laps(RunEvents(TwoPoints, ms)));
  }

  /** With both switched off the best lap can be wrong: a track and the fixes on which it is. */
  lemma BestLapCanBeForgotten() returns (cfg: Settings, fixes: seq<GpsPoint>)
    ensures Timed(fixes) && cfg.minLap == 0.0 && cfg.minReentry == 0.0
    ensures var r, ms := cfg.Rules(), MarksOf(cfg, fixes);
            Sound(r, ms) && !IsBest(RunClock(r, ms).bestLap, Laps(RunEvents(r, ms)))
  {
    var stops := [D.Stop(0, 1.0), D.Stop(1, 1.0), D.Stop(0, 1.0), D.Stop(1, 6.0), D.Stop(0, 6.0)];
    cfg, fixes := D.Track(2, 0.0), D.Fixes(1.0, stops);
    D.FixesAreTimed(2, 1.0, stops);
    D.FixesDrive(2, 0.0, 1.0, stops);
    MarksAreSound(cfg, fixes);
    InstantLapIsForgotten(MarksOf(cfg, fixes));
  }
}
