/**
 The one case in which a valid lap's row is not its own: an engine rebuilt for a
 shorter track while in lap 1. The materialiser looks for a lap number that goes
 backwards, and 1 does not.
 */
module Restarts {
  import opened LapClock
  import opened EndToEnd
  import B = BestLap
  import D = Drives
  import T = LapTable

  /** An engine run on a track of `n` points that makes the given stops. */
  lemma DriveRun(n: nat, from: real, stops: seq<D.Stop>) returns (run: EngineRun)
    requires D.Drivable(n, from, stops) && n <= 64
    ensures run.Valid() && run.cfg.Rules() == Rules(n, 0.0) && D.Driven(run.Marks(), stops)
  {
    run := EngineRun(D.Track(n, 0.0), D.Fixes(from, stops));
    D.FixesAreTimed(n, from, stops);
    D.FixesDrive(n, 0.0, from, stops);
  }

  /** On the longer track: the start and then lap point 3. It reports sector 3 under lap 1 and nothing else. */
  lemma LongRun() returns (run: EngineRun)
    ensures run.Valid() && run.cfg.Rules() == Rules(4, 0.0)
    ensures var es := run.Events();
            |es| == 1 && es[0].kind == SectorCompleted && es[0].lapNumber == 1 && es[0].sector == 3
  {
    run := DriveRun(4, 1.0, [D.Stop(0, 1.0), D.Stop(3, 2.0)]);
    StartAndThree(run.Marks());
  }

  lemma StartAndThree(ms: seq<Mark>)
    requires |ms| == 2 && B.IsStop(ms[0], 0, 1.0) && B.IsStop(ms[1], 3, 2.0)
    ensures var r := Rules(4, 0.0);
      && AllFit(r, ms)
      && var es := RunEvents(r, ms);
         |es| == 1 && es[0].kind == SectorCompleted && es[0].lapNumber == 1 && es[0].sector == 3
  {
    var r, one := Rules(4, 0.0), [ms[0]];
    assert one[..0] == [] && ms[..1] == one;
    assert RunEvents(r, one) == [];
    var c := RunClock(r, one);
    assert c.lapStart == 1.0 && c.lapNumber == 1;
    assert RunEvents(r, ms) == [] + Handle(r, c, ms[1]).1;
  }

  /** On the shorter one: a whole lap in order. It reports one lap, a valid one, beginning in lap 1. */
  lemma ShortRun() returns (run: EngineRun)
    ensures run.Valid() && run.cfg.Rules() == Rules(2, 0.0)
    ensures var es := run.Events();
            es != [] && es[0].lapNumber == 1 && |Laps(es)| == 1 && Laps(es)[0].valid
  {
    run := DriveRun(2, 11.0, [D.Stop(0, 11.0), D.Stop(1, 12.0), D.Stop(0, 13.0)]);
    WholeLap(run.Marks());
  }

  lemma WholeLap(ms: seq<Mark>)
    requires |ms| == 3 && B.IsStop(ms[0], 0, 11.0) && B.IsStop(ms[1], 1, 12.0) && B.IsStop(ms[2], 0, 13.0)
    ensures AllFit(B.TwoPoints, ms)
    ensures var es := RunEvents(B.TwoPoints, ms);
            es != [] && es[0].lapNumber == 1 && |Laps(es)| == 1 && Laps(es)[0].valid
  {
    var one := [ms[0]];
    B.FirstOpens(ms[0], 11.0);
    var lap := B.LapOfTwo(one, ms[1], ms[2], 11.0, 13.0);
    assert ms == one + [ms[1]] + [ms[2]];
    FirstReport(ms);
  }

  lemma FirstReport(ms: seq<Mark>)
    requires |ms| == 3 && B.IsStop(ms[0], 0, 11.0) && B.IsStop(ms[1], 1, 12.0) && AllFit(B.TwoPoints, ms)
    ensures RunEvents(B.TwoPoints, ms) != [] && RunEvents(B.TwoPoints, ms)[0].lapNumber == 1
  {
    var one := [ms[0]];
    assert one[..0] == [] && ms[..2] == one + [ms[1]] && ms == one + [ms[1]] + [ms[2]];
    assert RunClock(B.TwoPoints, one).lapNumber == 1;
    FirstOfRun(B.TwoPoints, one, ms[1]);
    FirstOfRun(B.TwoPoints, one + [ms[1]], ms[2]);
  }

  /** The one lap the second run completes is valid, and its row is not complete: sector 3 was filed under it. */
  ghost predicate StaleInRow(long: EngineRun, short: EngineRun)
    requires long.Valid() && short.Valid() && AllFit(short.cfg.Rules(), short.Marks())
  {
    var runs := [long, short];
    && |short.cfg.lapPoints| == 2 && |Laps(short.Events())| == 1 && Laps(short.Events())[0].valid
    && T.Key(1, 3) in StaleForLast(runs)
    && |RowsOfLast(runs)| == 1 == |LapCrossings(short.cfg.Rules(), short.Marks())|
    && !Complete(2, RowsOfLast(runs)[0], LapCrossings(short.cfg.Rules(), short.Marks())[0])
  }

  /**
   Folded in turn by one materialiser, the shorter run's lap row is not complete:
   sector 3 of the other track was still filed under lap 1.
   */
  lemma StaleSectorJoinsLap() returns (long: EngineRun, short: EngineRun)
    ensures long.Valid() && short.Valid() && AllFit(short.cfg.Rules(), short.Marks()) && StaleInRow(long, short)
  {
    long := LongRun();
    short := ShortRun();
    IncompleteRow(long, short);
  }

  lemma IncompleteRow(long: EngineRun, short: EngineRun)
    requires long.Valid() && short.Valid() && short.cfg.Rules() == Rules(2, 0.0)
    requires var es := long.Events(); |es| == 1 && es[0].kind == SectorCompleted && es[0].lapNumber == 1 && es[0].sector == 3
    requires var es := short.Events(); es != [] && es[0].lapNumber == 1 && |Laps(es)| == 1 && Laps(es)[0].valid
    ensures AllFit(short.cfg.Rules(), short.Marks()) && StaleInRow(long, short)
  {
    var runs := [long, short];
    StaleThree(runs);
    GpsRunsToLapRows(runs);
    assert T.Key(1, 3).sector > 2 && Beyond(StaleForLast(runs), 2);
  }

  lemma StaleThree(runs: seq<EngineRun>)
    requires |runs| == 2 && AllValid(runs)
    requires var es := runs[0].Events(); |es| == 1 && es[0].kind == SectorCompleted && es[0].lapNumber == 1 && es[0].sector == 3
    requires runs[1].Events() != [] && runs[1].Events()[0].lapNumber == 1
    ensures T.Key(1, 3) in StaleForLast(runs)
  {
    var es, one := runs[0].Events(), runs[..1];
    assert one[..0] == [] && one == [runs[0]] && es == [es[0]];
    EncodeOne(T.Empty, es[0]);
    assert TableAfter(one) == T.Observe(T.Empty, Encode(es[0])).0;
  }
}
