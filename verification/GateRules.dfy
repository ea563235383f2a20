/**
 When a crossing counts (`src/timing/timing_core.py`, `process_point` and
 `_accept`), told from the accepted crossings alone: no dictionaries, only the
 marks made so far. `MarksFrom` is that account of a whole run, and the engine's
 run is equal to it: a crossing is accepted exactly when the account says so,
 neither more often nor less.
 */
module GateRules {
  import opened Basics
  import opened LapClock
  import opened TimingEngine
  import A = LapAccount

  // ----- the rule ------------------------------------------------------------

  /** Mark `i` is the last one made by a line of this name. */
  ghost predicate IsLatest(ms: seq<Mark>, name: string, i: int) {
    0 <= i < |ms| && ms[i].line == name && forall j :: i < j < |ms| ==> ms[j].line != name
  }

  /** Mark `i` is the first one made by a line of this name. */
  ghost predicate IsFirst(ms: seq<Mark>, name: string, i: int) {
    0 <= i < |ms| && ms[i].line == name && forall j :: 0 <= j < i ==> ms[j].line != name
  }

  /** After `ms` a crossing counts: late enough after the line's last mark and, if gated, the way of its first. */
  ghost predicate MayCross(cfg: Settings, ms: seq<Mark>, line: TimingLine, hit: Crossing) {
    && (forall i :: IsLatest(ms, line.name, i) ==> hit.time - ms[i].time >= cfg.minReentry)
    && (cfg.gateDirection ==> forall i :: IsFirst(ms, line.name, i) ==> ms[i].sign == hit.sign)
  }

  /** The step crosses the line, and the crossing counts. */
  ghost predicate Counts(cfg: Settings, ms: seq<Mark>, p1: GpsPoint, p2: GpsPoint, line: TimingLine) {
    CrossingOf(p1, p2, line).Some? && MayCross(cfg, ms, line, CrossingOf(p1, p2, line).value)
  }

  /** The marks of the first `i` pit lines on a step after `ms`. */
  ghost function PitMarks(cfg: Settings, ms: seq<Mark>, p1: GpsPoint, p2: GpsPoint, i: nat): seq<Mark>
    requires i <= |cfg.pitLines|
  {
    if i == 0 then []
    else
      var made, line := PitMarks(cfg, ms, p1, p2, i - 1), cfg.pitLines[i - 1];
      if Counts(cfg, ms + made, p1, p2, line) then made + [PitMarkOf(line, CrossingOf(p1, p2, line).value)] else made
  }

  /** The mark of the first lap point from `i` on whose crossing counts. */
  ghost function LapMarks(cfg: Settings, ms: seq<Mark>, p1: GpsPoint, p2: GpsPoint, i: nat): seq<Mark>
    requires i <= |cfg.lapPoints|
    decreases |cfg.lapPoints| - i
  {
    if i == |cfg.lapPoints| then []
    else if Counts(cfg, ms, p1, p2, cfg.lapPoints[i]) then
      var line := cfg.lapPoints[i];
      var hit := CrossingOf(p1, p2, line).value;
      [LapMark(i, line.name, hit.time, hit.sign)]
    else LapMarks(cfg, ms, p1, p2, i + 1)
  }

  ghost function StepMarks(cfg: Settings, ms: seq<Mark>, p1: GpsPoint, p2: GpsPoint): seq<Mark> {
    var pits := PitMarks(cfg, ms, p1, p2, |cfg.pitLines|);
    pits + LapMarks(cfg, ms + pits, p1, p2, 0)
  }

  ghost function MarksFrom(cfg: Settings, fixes: seq<GpsPoint>): seq<Mark>
  {
    if |fixes| <= 1 then []
    else
      var ms := MarksFrom(cfg, fixes[..|fixes| - 1]);
      ms + StepMarks(cfg, ms, fixes[|fixes| - 2], fixes[|fixes| - 1])
  }

  // ----- the dictionaries hold just that -------------------------------------

  /** The re-entry dictionary: the time of each line's last mark, and no other line. */
  ghost predicate LastExact(last: map<string, real>, ms: seq<Mark>) {
    && (forall i :: 0 <= i < |ms| ==> ms[i].line in last)
    && (forall name :: name in last ==> exists i :: IsLatest(ms, name, i) && last[name] == ms[i].time)
  }

  /** The direction dictionary: the sign of each line's first mark, and no other line. */
  ghost predicate DirectionExact(direction: map<string, int>, ms: seq<Mark>) {
    && (forall i :: 0 <= i < |ms| ==> ms[i].line in direction)
    && (forall name :: name in direction ==> exists i :: IsFirst(ms, name, i) && direction[name] == ms[i].sign)
  }

  ghost predicate Exact(cfg: Settings, g: Gates, ms: seq<Mark>) {
    LastExact(g.last, ms) && (cfg.gateDirection ==> DirectionExact(g.direction, ms))
  }

  lemma LatestIsOne(ms: seq<Mark>, name: string, i: int, j: int)
    requires IsLatest(ms, name, i) && IsLatest(ms, name, j)
    ensures i == j
  {
  }

  lemma FirstIsOne(ms: seq<Mark>, name: string, i: int, j: int)
    requires IsFirst(ms, name, i) && IsFirst(ms, name, j)
    ensures i == j
  {
  }

  /** The gates accept exactly the crossings that count. */
  lemma AcceptsIffMayCross(cfg: Settings, g: Gates, ms: seq<Mark>, line: TimingLine, hit: Crossing)
    requires Exact(cfg, g, ms)
    ensures Accepts(cfg, g, line, hit) <==> MayCross(cfg, ms, line, hit)
  {
    ReentryIff(cfg, g.last, ms, line, hit);
    if cfg.gateDirection {
      DirectionIff(g.direction, ms, line, hit);
    }
  }

  lemma ReentryIff(cfg: Settings, last: map<string, real>, ms: seq<Mark>, line: TimingLine, hit: Crossing)
    requires LastExact(last, ms)
    ensures (line.name in last ==> hit.time - last[line.name] >= cfg.minReentry) <==>
            forall i :: IsLatest(ms, line.name, i) ==> hit.time - ms[i].time >= cfg.minReentry
  {
    if line.name in last {
      var k :| IsLatest(ms, line.name, k) && last[line.name] == ms[k].time;
      forall i | IsLatest(ms, line.name, i) ensures i == k {
        LatestIsOne(ms, line.name, i, k);
      }
    }
  }

  lemma DirectionIff(direction: map<string, int>, ms: seq<Mark>, line: TimingLine, hit: Crossing)
    requires DirectionExact(direction, ms)
    ensures (line.name in direction ==> direction[line.name] == hit.sign) <==>
            forall i :: IsFirst(ms, line.name, i) ==> ms[i].sign == hit.sign
  {
    if line.name in direction {
      var k :| IsFirst(ms, line.name, k) && direction[line.name] == ms[k].sign;
      forall i | IsFirst(ms, line.name, i) ensures i == k {
        FirstIsOne(ms, line.name, i, k);
      }
    }
  }

  lemma LastStep(last: map<string, real>, ms: seq<Mark>, m: Mark)
    requires LastExact(last, ms)
    ensures LastExact(last[m.line := m.time], ms + [m])
  {
    var last', ms' := last[m.line := m.time], ms + [m];
    forall name | name in last' ensures exists i :: IsLatest(ms', name, i) && last'[name] == ms'[i].time {
      if name == m.line {
        assert IsLatest(ms', name, |ms|);
      } else {
        var k :| IsLatest(ms, name, k) && last[name] == ms[k].time;
        assert IsLatest(ms', name, k) && ms'[k] == ms[k];
      }
    }
  }

  lemma DirectionStep(direction: map<string, int>, ms: seq<Mark>, m: Mark)
    requires DirectionExact(direction, ms)
    ensures DirectionExact(if m.line in direction then direction else direction[m.line := m.sign], ms + [m])
  {
    var direction' := if m.line in direction then direction else direction[m.line := m.sign];
    var ms' := ms + [m];
    forall name | name in direction' ensures exists i :: IsFirst(ms', name, i) && direction'[name] == ms'[i].sign {
      if name in direction {
        var k :| IsFirst(ms, name, k) && direction[name] == ms[k].sign;
        assert IsFirst(ms', name, k) && ms'[k] == ms[k];
      } else {
        assert ms'[|ms|] == m && IsFirst(ms', name, |ms|);
      }
    }
  }

  lemma ExactStep(cfg: Settings, g: Gates, ms: seq<Mark>, line: TimingLine, hit: Crossing, m: Mark)
    requires Exact(cfg, g, ms) && m.line == line.name && m.time == hit.time && m.sign == hit.sign
    ensures Exact(cfg, Record(cfg, g, line, hit), ms + [m])
  {
    LastStep(g.last, ms, m);
    if cfg.gateDirection {
      DirectionStep(g.direction, ms, m);
    }
  }

  // ----- the engine makes exactly these marks --------------------------------

  lemma {:induction false} PitsExact(cfg: Settings, g: Gates, ms: seq<Mark>, p1: GpsPoint, p2: GpsPoint, i: nat)
    requires Exact(cfg, g, ms) && i <= |cfg.pitLines|
    ensures PitPass(cfg, g, p1, p2, i).1 == PitMarks(cfg, ms, p1, p2, i)
    ensures Exact(cfg, PitPass(cfg, g, p1, p2, i).0, ms + PitMarks(cfg, ms, p1, p2, i))
  {
    if i == 0 {
      assert ms + [] == ms;
    } else {
      PitsExact(cfg, g, ms, p1, p2, i - 1);
      var (g', made) := PitPass(cfg, g, p1, p2, i - 1);
      PitExact(cfg, g', ms + made, p1, p2, cfg.pitLines[i - 1]);
      if Taken(cfg, g', p1, p2, cfg.pitLines[i - 1]) {
        Joins(ms, made, [PitMarkOf(cfg.pitLines[i - 1], CrossingOf(p1, p2, cfg.pitLines[i - 1]).value)]);
      }
    }
  }

  lemma PitExact(cfg: Settings, g: Gates, ms: seq<Mark>, p1: GpsPoint, p2: GpsPoint, line: TimingLine)
    requires Exact(cfg, g, ms)
    ensures Taken(cfg, g, p1, p2, line) <==> Counts(cfg, ms, p1, p2, line)
    ensures Taken(cfg, g, p1, p2, line) ==>
            Exact(cfg, Record(cfg, g, line, CrossingOf(p1, p2, line).value), ms + [PitMarkOf(line, CrossingOf(p1, p2, line).value)])
  {
    if CrossingOf(p1, p2, line).Some? {
      var hit := CrossingOf(p1, p2, line).value;
      AcceptsIffMayCross(cfg, g, ms, line, hit);
      ExactStep(cfg, g, ms, line, hit, PitMarkOf(line, hit));
    }
  }

  /** What the lap pass makes of the first taken lap point. */
  function TakenMarks(cfg: Settings, p1: GpsPoint, p2: GpsPoint, taken: Option<nat>): seq<Mark>
    requires taken.Some? ==> taken.value < |cfg.lapPoints| && CrossingOf(p1, p2, cfg.lapPoints[taken.value]).Some?
  {
    if taken.None? then []
    else
      var line := cfg.lapPoints[taken.value];
      var hit := CrossingOf(p1, p2, line).value;
      [LapMark(taken.value, line.name, hit.time, hit.sign)]
  }

  lemma {:induction false} LapsExact(cfg: Settings, g: Gates, ms: seq<Mark>, p1: GpsPoint, p2: GpsPoint, i: nat)
    requires Exact(cfg, g, ms) && i <= |cfg.lapPoints|
    ensures TakenMarks(cfg, p1, p2, FirstTaken(cfg, g, p1, p2, i)) == LapMarks(cfg, ms, p1, p2, i)
    decreases |cfg.lapPoints| - i
  {
    if i < |cfg.lapPoints| {
      PitExact(cfg, g, ms, p1, p2, cfg.lapPoints[i]);
      LapsExact(cfg, g, ms, p1, p2, i + 1);
    }
  }

  lemma LapPassExact(cfg: Settings, g: Gates, ms: seq<Mark>, p1: GpsPoint, p2: GpsPoint)
    requires Exact(cfg, g, ms)
    ensures LapPass(cfg, g, p1, p2).1 == LapMarks(cfg, ms, p1, p2, 0)
    ensures Exact(cfg, LapPass(cfg, g, p1, p2).0, ms + LapMarks(cfg, ms, p1, p2, 0))
  {
    LapsExact(cfg, g, ms, p1, p2, 0);
    var taken := FirstTaken(cfg, g, p1, p2, 0);
    if taken.Some? {
      var line := cfg.lapPoints[taken.value];
      var hit := CrossingOf(p1, p2, line).value;
      ExactStep(cfg, g, ms, line, hit, LapMark(taken.value, line.name, hit.time, hit.sign));
    } else {
      assert ms + [] == ms;
    }
  }

  lemma StepExact(cfg: Settings, g: Gates, ms: seq<Mark>, p1: GpsPoint, p2: GpsPoint)
    requires Exact(cfg, g, ms)
    ensures FixPass(cfg, g, p1, p2).1 == StepMarks(cfg, ms, p1, p2)
    ensures Exact(cfg, FixPass(cfg, g, p1, p2).0, ms + StepMarks(cfg, ms, p1, p2))
  {
    var (g1, pits) := PitPass(cfg, g, p1, p2, |cfg.pitLines|);
    PitsExact(cfg, g, ms, p1, p2, |cfg.pitLines|);
    LapPassExact(cfg, g1, ms + pits, p1, p2);
    Joins(ms, pits, LapMarks(cfg, ms + pits, p1, p2, 0));
  }

  lemma {:induction false} RunExact(cfg: Settings, fixes: seq<GpsPoint>)
    ensures RunGates(cfg, fixes).1 == MarksFrom(cfg, fixes)
    ensures Exact(cfg, RunGates(cfg, fixes).0, MarksFrom(cfg, fixes))
  {
    if |fixes| > 1 {
      RunExact(cfg, fixes[..|fixes| - 1]);
      var (g, ms) := RunGates(cfg, fixes[..|fixes| - 1]);
      StepExact(cfg, g, ms, fixes[|fixes| - 2], fixes[|fixes| - 1]);
    }
  }

  /**
   Over every run of fixes, under any settings, the crossings the engine
   accepts are exactly those that count.
   */
  lemma AcceptedIsWhatCounts(cfg: Settings, fixes: seq<GpsPoint>)
    ensures MarksOf(cfg, fixes) == MarksFrom(cfg, fixes)
  {
    RunExact(cfg, fixes);
  }

  /** And the events it reports are those of the account of these crossings: the engine's output, told without its state. */
  lemma ReportedIsTheAccount(cfg: Settings, fixes: seq<GpsPoint>)
    requires Timed(fixes)
    ensures AllFit(cfg.Rules(), MarksOf(cfg, fixes))
    ensures RunEvents(cfg.Rules(), MarksOf(cfg, fixes)) == A.Account(cfg.Rules(), MarksFrom(cfg, fixes))
  {
    AcceptedIsWhatCounts(cfg, fixes);
    MarksAreSound(cfg, fixes);
    A.EventsAreTheAccount(cfg.Rules(), MarksOf(cfg, fixes));
  }

  /** Of the lap points the first whose crossing counts makes its mark, and no other does. */
  lemma {:induction false} FirstThatCounts(cfg: Settings, ms: seq<Mark>, p1: GpsPoint, p2: GpsPoint, from: nat, i: nat)
    requires from <= i < |cfg.lapPoints| && Counts(cfg, ms, p1, p2, cfg.lapPoints[i])
    requires forall j :: from <= j < i ==> !Counts(cfg, ms, p1, p2, cfg.lapPoints[j])
    ensures var hit := CrossingOf(p1, p2, cfg.lapPoints[i]).value;
            LapMarks(cfg, ms, p1, p2, from) == [LapMark(i, cfg.lapPoints[i].name, hit.time, hit.sign)]
    decreases i - from
  {
    if from < i {
      FirstThatCounts(cfg, ms, p1, p2, from + 1, i);
    }
  }

  /** With no negative re-entry interval the rule reads: late enough after every mark of the line, and the way of every one. */
  lemma EveryMarkOfTheLine(cfg: Settings, ms: seq<Mark>, line: TimingLine, hit: Crossing)
    requires cfg.minReentry >= 0.0 && Spaced(cfg, ms) && (cfg.gateDirection ==> OneWay(ms))
    ensures MayCross(cfg, ms, line, hit) <==>
            forall i :: 0 <= i < |ms| && ms[i].line == line.name ==>
              hit.time - ms[i].time >= cfg.minReentry && (cfg.gateDirection ==> ms[i].sign == hit.sign)
  {
    if MayCross(cfg, ms, line, hit) {
      forall i | 0 <= i < |ms| && ms[i].line == line.name
        ensures hit.time - ms[i].time >= cfg.minReentry && (cfg.gateDirection ==> ms[i].sign == hit.sign)
      {
        var last := LatestOf(ms, line.name, i);
        var first := FirstOf(ms, line.name, i);
        assert i == last || ms[last].time - ms[i].time >= cfg.minReentry;
      }
    }
  }

  /**
   Over every run, in the words of the settings: on the step to `gps`, once the
   first `i` pit lines are done (all of them, for a lap point), a crossing of
   `line` counts if and only if every mark of that name so far is at least the
   re-entry interval older and, with direction gating, has the crossing's sign.
   */
  lemma CountsOverRuns(cfg: Settings, fixes: seq<GpsPoint>, gps: GpsPoint, i: nat, line: TimingLine)
    requires cfg.minReentry >= 0.0 && |fixes| > 0 && i <= |cfg.pitLines|
    requires CrossingOf(fixes[|fixes| - 1], gps, line).Some?
    ensures var p1, hit := fixes[|fixes| - 1], CrossingOf(fixes[|fixes| - 1], gps, line).value;
            var ms := MarksOf(cfg, fixes) + PitMarks(cfg, MarksOf(cfg, fixes), p1, gps, i);
            Counts(cfg, ms, p1, gps, line) <==>
              forall k :: 0 <= k < |ms| && ms[k].line == line.name ==>
                hit.time - ms[k].time >= cfg.minReentry && (cfg.gateDirection ==> ms[k].sign == hit.sign)
  {
    var p1, hit := fixes[|fixes| - 1], CrossingOf(fixes[|fixes| - 1], gps, line).value;
    var (g, ms) := RunGates(cfg, fixes);
    RunExact(cfg, fixes);
    PitsExact(cfg, g, ms, p1, gps, i);
    GatesHold(cfg, fixes);
    RemembersPits(cfg, g, ms, p1, gps, i);
    EveryMarkOfTheLine(cfg, ms + PitMarks(cfg, ms, p1, gps, i), line, hit);
  }

  lemma {:induction false} LatestOf(ms: seq<Mark>, name: string, i: nat) returns (k: nat)
    requires i < |ms| && ms[i].line == name
    ensures i <= k && IsLatest(ms, name, k)
    decreases |ms| - i
  {
    k := i;
    if !IsLatest(ms, name, i) {
      var j :| i < j < |ms| && ms[j].line == name;
      k := LatestOf(ms, name, j);
    }
  }

  lemma {:induction false} FirstOf(ms: seq<Mark>, name: string, i: nat) returns (k: nat)
    requires i < |ms| && ms[i].line == name
    ensures k <= i && IsFirst(ms, name, k)
    decreases i
  {
    k := i;
    if !IsFirst(ms, name, i) {
      var j :| 0 <= j < i && ms[j].line == name;
      k := FirstOf(ms, name, j);
    }
  }
}
