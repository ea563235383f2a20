/**
 The timing engine (`src/timing/timing_core.py`, `TimingEngine`): GPS fixes in,
 timing events out.

 `Gates` is the per-line debounce and direction memory, `MarksOf` the crossings
 a whole run of fixes has accepted. The class does the same work fix by fix,
 interleaved with the lap clock; its invariant says that at any moment it holds
 exactly what the whole-run functions give for the fixes seen so far.
 */
module TimingEngine {
  import opened Basics
  import opened LapClock
  import G = Geometry

  datatype GpsPoint = GpsPoint(lat: real, lon: real, timestamp: real)

  datatype LineType = StartFinish | Sector | PitIn | PitOut

  /** `cosLat` stands for the cosine of the latitude at `start`, which the projection uses. */
  datatype TimingLine = TimingLine(name: string, start: GpsPoint, end: GpsPoint, kind: LineType, cosLat: real)

  datatype Crossing = Crossing(time: real, sign: int)

  datatype Settings = Settings(
    lapPoints: seq<TimingLine>, pitLines: seq<TimingLine>, minReentry: real, minLap: real, gateDirection: bool)
  {
    function Rules(): Rules { LapClock.Rules(|lapPoints|, minLap) }
  }

  datatype Gates = Gates(last: map<string, real>, direction: map<string, int>)

  // ----- one crossing --------------------------------------------------------

  function ToMeters(p: GpsPoint, line: TimingLine): G.Vec {
    G.Vec((p.lon - line.start.lon) * 111320.0 * line.cosLat, (p.lat - line.start.lat) * 111320.0)
  }

  function HitOn(p1: GpsPoint, p2: GpsPoint, line: TimingLine): Option<G.Hit> {
    G.SegmentIntersection(ToMeters(p1, line), ToMeters(p2, line), ToMeters(line.start, line), ToMeters(line.end, line))
  }

  function CrossingOf(p1: GpsPoint, p2: GpsPoint, line: TimingLine): Option<Crossing> {
    match HitOn(p1, p2, line)
    case None => None
    case Some(hit) =>
      Some(Crossing(Interpolate(p1.timestamp, p2.timestamp, hit.t), if hit.cross >= 0.0 then 1 else -1))
  }

  function Interpolate(from: real, to: real, t: real): real { from + t * (to - from) }

  lemma InterpolateBetween(from: real, to: real, t: real)
    requires from <= to && 0.0 <= t <= 1.0
    ensures from <= Interpolate(from, to, t) <= to
  {
    var d := to - from;
    assert 0.0 <= t * d;
    assert 0.0 <= (1.0 - t) * d;
    assert t * d + (1.0 - t) * d == d;
  }

  /** The interpolated instant lies between the two fixes. */
  lemma CrossingBetweenFixes(p1: GpsPoint, p2: GpsPoint, line: TimingLine)
    requires p1.timestamp <= p2.timestamp && CrossingOf(p1, p2, line).Some?
    ensures p1.timestamp <= CrossingOf(p1, p2, line).value.time <= p2.timestamp
  {
    InterpolateBetween(p1.timestamp, p2.timestamp, HitOn(p1, p2, line).value.t);
  }

  /** Driving back over a line crosses it again, with the opposite sign. */
  lemma ReversedCrossing(p1: GpsPoint, p2: GpsPoint, line: TimingLine)
    ensures CrossingOf(p1, p2, line).Some? <==> CrossingOf(p2, p1, line).Some?
    ensures CrossingOf(p1, p2, line).Some? ==>
            CrossingOf(p2, p1, line).value.sign == -CrossingOf(p1, p2, line).value.sign
  {
    G.ReversedMotion(ToMeters(p1, line), ToMeters(p2, line), ToMeters(line.start, line), ToMeters(line.end, line));
  }

  // ----- the gates -----------------------------------------------------------

  predicate Accepts(cfg: Settings, g: Gates, line: TimingLine, hit: Crossing) {
    && (line.name in g.last ==> hit.time - g.last[line.name] >= cfg.minReentry)
    && (cfg.gateDirection && line.name in g.direction ==> g.direction[line.name] == hit.sign)
  }

  function Record(cfg: Settings, g: Gates, line: TimingLine, hit: Crossing): Gates {
    Gates(g.last[line.name := hit.time],
          if cfg.gateDirection && line.name !in g.direction then g.direction[line.name := hit.sign] else g.direction)
  }

  predicate Taken(cfg: Settings, g: Gates, p1: GpsPoint, p2: GpsPoint, line: TimingLine) {
    CrossingOf(p1, p2, line).Some? && Accepts(cfg, g, line, CrossingOf(p1, p2, line).value)
  }

  // ----- one fix -------------------------------------------------------------

  function PitMarkOf(line: TimingLine, hit: Crossing): Mark {
    PitMark(line.kind == PitIn, line.name, hit.time, hit.sign)
  }

  /** What the first `i` pit lines accept on the step `p1 -> p2`. */
  function PitPass(cfg: Settings, g: Gates, p1: GpsPoint, p2: GpsPoint, i: nat): (Gates, seq<Mark>)
    requires i <= |cfg.pitLines|
  {
    if i == 0 then (g, [])
    else
      var (g', ms) := PitPass(cfg, g, p1, p2, i - 1);
      var line := cfg.pitLines[i - 1];
      if Taken(cfg, g', p1, p2, line) then
        var hit := CrossingOf(p1, p2, line).value;
        (Record(cfg, g', line, hit), ms + [PitMarkOf(line, hit)])
      else (g', ms)
  }

  /** One pit line takes the engine from `g` and `ms` to `g'` and `ms'`. */
  ghost predicate PitStep(cfg: Settings, p1: GpsPoint, p2: GpsPoint, line: TimingLine,
                          g: Gates, ms: seq<Mark>, g': Gates, ms': seq<Mark>) {
    if Taken(cfg, g, p1, p2, line) then
      && g' == Record(cfg, g, line, CrossingOf(p1, p2, line).value)
      && ms' == ms + [PitMarkOf(line, CrossingOf(p1, p2, line).value)]
    else g' == g && ms' == ms
  }

  /** The first `i` pit lines have taken it from `g0` and `ms0` to `g` and `ms`. */
  ghost predicate PitProgress(cfg: Settings, g0: Gates, ms0: seq<Mark>, p1: GpsPoint, p2: GpsPoint, i: nat, g: Gates, ms: seq<Mark>) {
    i <= |cfg.pitLines| && g == PitPass(cfg, g0, p1, p2, i).0 && ms == ms0 + PitPass(cfg, g0, p1, p2, i).1
  }

  lemma PitProgressStep(cfg: Settings, g0: Gates, ms0: seq<Mark>, p1: GpsPoint, p2: GpsPoint, i: nat,
                        g: Gates, ms: seq<Mark>, g': Gates, ms': seq<Mark>)
    requires PitProgress(cfg, g0, ms0, p1, p2, i, g, ms) && i < |cfg.pitLines|
    requires PitStep(cfg, p1, p2, cfg.pitLines[i], g, ms, g', ms')
    ensures PitProgress(cfg, g0, ms0, p1, p2, i + 1, g', ms')
  {
    if Taken(cfg, g, p1, p2, cfg.pitLines[i]) {
      var m := PitMarkOf(cfg.pitLines[i], CrossingOf(p1, p2, cfg.pitLines[i]).value);
      assert ms0 + PitPass(cfg, g0, p1, p2, i).1 + [m] == ms0 + (PitPass(cfg, g0, p1, p2, i).1 + [m]);
    }
  }

  /** The first lap point from `i` on that accepts the step; the engine takes at most one. */
  function FirstTaken(cfg: Settings, g: Gates, p1: GpsPoint, p2: GpsPoint, i: nat): (r: Option<nat>)
    requires i <= |cfg.lapPoints|
    ensures r.Some? ==> i <= r.value < |cfg.lapPoints| && Taken(cfg, g, p1, p2, cfg.lapPoints[r.value])
    decreases |cfg.lapPoints| - i
  {
    if i == |cfg.lapPoints| then None
    else if Taken(cfg, g, p1, p2, cfg.lapPoints[i]) then Some(i)
    else FirstTaken(cfg, g, p1, p2, i + 1)
  }

  function LapPass(cfg: Settings, g: Gates, p1: GpsPoint, p2: GpsPoint): (Gates, seq<Mark>)
  {
    match FirstTaken(cfg, g, p1, p2, 0)
    case None => (g, [])
    case Some(i) =>
      var line := cfg.lapPoints[i];
      var hit := CrossingOf(p1, p2, line).value;
      (Record(cfg, g, line, hit), [LapMark(i, line.name, hit.time, hit.sign)])
  }

  function FixPass(cfg: Settings, g: Gates, p1: GpsPoint, p2: GpsPoint): (Gates, seq<Mark>)
  {
    var (g1, pits) := PitPass(cfg, g, p1, p2, |cfg.pitLines|);
    var (g2, laps) := LapPass(cfg, g1, p1, p2);
    (g2, pits + laps)
  }

  // ----- a whole run ---------------------------------------------------------

  /** The gates and the accepted crossings after all of `fixes`. */
  function RunGates(cfg: Settings, fixes: seq<GpsPoint>): (Gates, seq<Mark>)
  {
    if |fixes| <= 1 then (Gates(map[], map[]), [])
    else
      var (g, ms) := RunGates(cfg, fixes[..|fixes| - 1]);
      var (g', made) := FixPass(cfg, g, fixes[|fixes| - 2], fixes[|fixes| - 1]);
      (g', ms + made)
  }

  function MarksOf(cfg: Settings, fixes: seq<GpsPoint>): seq<Mark> { RunGates(cfg, fixes).1 }

  // ----- what the gates guarantee over a run ---------------------------------

  /** Any two accepted crossings of lines with one name are at least the re-entry interval apart. */
  ghost predicate Spaced(cfg: Settings, ms: seq<Mark>) {
    forall i, j :: 0 <= i < j < |ms| && ms[i].line == ms[j].line ==> ms[j].time - ms[i].time >= cfg.minReentry
  }

  /** All accepted crossings of lines with one name run the same way. */
  ghost predicate OneWay(ms: seq<Mark>) {
    forall i, j :: 0 <= i < j < |ms| && ms[i].line == ms[j].line ==> ms[j].sign == ms[i].sign
  }

  ghost predicate Remembers(cfg: Settings, g: Gates, ms: seq<Mark>) {
    && (forall m :: m in ms ==> m.line in g.last && m.time <= g.last[m.line])
    && (cfg.gateDirection ==> forall m :: m in ms ==> m.line in g.direction && m.sign == g.direction[m.line])
    && Spaced(cfg, ms) && (cfg.gateDirection ==> OneWay(ms))
  }

  lemma RemembersStep(cfg: Settings, g: Gates, ms: seq<Mark>, line: TimingLine, hit: Crossing, m: Mark)
    requires cfg.minReentry >= 0.0 && Remembers(cfg, g, ms) && Accepts(cfg, g, line, hit)
    requires m.line == line.name && m.time == hit.time && m.sign == hit.sign
    ensures Remembers(cfg, Record(cfg, g, line, hit), ms + [m])
  {
    var ms' := ms + [m];
    forall i, j | 0 <= i < j < |ms'| && ms'[i].line == ms'[j].line
      ensures ms'[j].time - ms'[i].time >= cfg.minReentry && (cfg.gateDirection ==> ms'[j].sign == ms'[i].sign)
    {
      assert ms'[i] == ms[i] && ms[i] in ms;
      if j < |ms| {
        assert ms'[j] == ms[j];
      }
    }
  }

  lemma {:induction false} RemembersPits(cfg: Settings, g: Gates, ms: seq<Mark>, p1: GpsPoint, p2: GpsPoint, i: nat)
    requires cfg.minReentry >= 0.0 && Remembers(cfg, g, ms) && i <= |cfg.pitLines|
    ensures Remembers(cfg, PitPass(cfg, g, p1, p2, i).0, ms + PitPass(cfg, g, p1, p2, i).1)
  {
    if i == 0 {
      assert ms + [] == ms;
    } else {
      RemembersPits(cfg, g, ms, p1, p2, i - 1);
      var (g', made) := PitPass(cfg, g, p1, p2, i - 1);
      var line := cfg.pitLines[i - 1];
      if Taken(cfg, g', p1, p2, line) {
        var hit := CrossingOf(p1, p2, line).value;
        RemembersStep(cfg, g', ms + made, line, hit, PitMarkOf(line, hit));
        assert ms + made + [PitMarkOf(line, hit)] == ms + (made + [PitMarkOf(line, hit)]);
      }
    }
  }

  lemma RemembersFix(cfg: Settings, g: Gates, ms: seq<Mark>, p1: GpsPoint, p2: GpsPoint)
    requires cfg.minReentry >= 0.0 && Remembers(cfg, g, ms)
    ensures Remembers(cfg, FixPass(cfg, g, p1, p2).0, ms + FixPass(cfg, g, p1, p2).1)
  {
    var (g1, pits) := PitPass(cfg, g, p1, p2, |cfg.pitLines|);
    RemembersPits(cfg, g, ms, p1, p2, |cfg.pitLines|);
    var taken := FirstTaken(cfg, g1, p1, p2, 0);
    if taken.Some? {
      var line := cfg.lapPoints[taken.value];
      var hit := CrossingOf(p1, p2, line).value;
      var m := LapMark(taken.value, line.name, hit.time, hit.sign);
      RemembersStep(cfg, g1, ms + pits, line, hit, m);
      assert ms + pits + [m] == ms + (pits + [m]);
    } else {
      assert ms + (pits + []) == ms + pits;
    }
  }

  /**
   Over every run of fixes, at whatever times: accepted crossings of a line are
   at least the re-entry interval apart, and with direction gating a line, once
   learned, is never accepted the other way.
   */
  lemma {:induction false} GatesHold(cfg: Settings, fixes: seq<GpsPoint>)
    requires cfg.minReentry >= 0.0
    ensures Remembers(cfg, RunGates(cfg, fixes).0, RunGates(cfg, fixes).1)
  {
    if |fixes| > 1 {
      GatesHold(cfg, fixes[..|fixes| - 1]);
      var (g, ms) := RunGates(cfg, fixes[..|fixes| - 1]);
      RemembersFix(cfg, g, ms, fixes[|fixes| - 2], fixes[|fixes| - 1]);
    }
  }

  /** Once the run has accepted a line in the direction of `p1 -> p2`, the step `p2 -> p1` is rejected for good. */
  lemma WrongWayIsRejected(cfg: Settings, fixes: seq<GpsPoint>, line: TimingLine, p1: GpsPoint, p2: GpsPoint, m: Mark)
    requires cfg.minReentry >= 0.0 && cfg.gateDirection
    requires m in MarksOf(cfg, fixes) && m.line == line.name
    requires CrossingOf(p1, p2, line).Some? && CrossingOf(p1, p2, line).value.sign == m.sign
    ensures CrossingOf(p2, p1, line).Some? && !Taken(cfg, RunGates(cfg, fixes).0, p2, p1, line)
  {
    GatesHold(cfg, fixes);
    ReversedCrossing(p1, p2, line);
  }

  // ----- the marks of a run suit the lap clock -------------------------------

  /** Positive, non-decreasing timestamps. */
  ghost predicate Timed(fixes: seq<GpsPoint>) {
    && (forall i :: 0 <= i < |fixes| ==> fixes[i].timestamp > 0.0)
    && (forall i, j :: 0 <= i < j < |fixes| ==> fixes[i].timestamp <= fixes[j].timestamp)
  }

  /** Marks made on the step `p1 -> p2`: between the two fixes, and at most one of them a lap mark. */
  ghost predicate Between(cfg: Settings, ms: seq<Mark>, p1: GpsPoint, p2: GpsPoint) {
    && (forall m :: m in ms ==> p1.timestamp <= m.time <= p2.timestamp && Fits(cfg.Rules(), m))
    && (forall i :: 0 <= i < |ms| - 1 ==> ms[i].PitMark?)
  }

  lemma {:induction false} PitsBetween(cfg: Settings, g: Gates, p1: GpsPoint, p2: GpsPoint, i: nat)
    requires p1.timestamp <= p2.timestamp && i <= |cfg.pitLines|
    ensures Between(cfg, PitPass(cfg, g, p1, p2, i).1, p1, p2)
    ensures forall m :: m in PitPass(cfg, g, p1, p2, i).1 ==> m.PitMark?
  {
    if i > 0 {
      PitsBetween(cfg, g, p1, p2, i - 1);
      if CrossingOf(p1, p2, cfg.pitLines[i - 1]).Some? {
        CrossingBetweenFixes(p1, p2, cfg.pitLines[i - 1]);
      }
    }
  }

  lemma FixBetween(cfg: Settings, g: Gates, p1: GpsPoint, p2: GpsPoint)
    requires p1.timestamp <= p2.timestamp
    ensures Between(cfg, FixPass(cfg, g, p1, p2).1, p1, p2)
  {
    PitsBetween(cfg, g, p1, p2, |cfg.pitLines|);
    var (g1, pits) := PitPass(cfg, g, p1, p2, |cfg.pitLines|);
    var taken := FirstTaken(cfg, g1, p1, p2, 0);
    if taken.Some? {
      CrossingBetweenFixes(p1, p2, cfg.lapPoints[taken.value]);
    }
    assert forall i :: 0 <= i < |pits| ==> pits[i] in pits;
  }

  /** A run with positive, non-decreasing timestamps gives the lap clock marks it can trust. */
  lemma {:induction false} MarksAreSound(cfg: Settings, fixes: seq<GpsPoint>)
    requires Timed(fixes)
    ensures Sound(cfg.Rules(), MarksOf(cfg, fixes)) && InTimeOrder(MarksOf(cfg, fixes))
    ensures forall m :: m in MarksOf(cfg, fixes) ==> m.time <= fixes[|fixes| - 1].timestamp
  {
    if |fixes| > 1 {
      var last := |fixes| - 1;
      MarksAreSound(cfg, fixes[..last]);
      var (g, ms) := RunGates(cfg, fixes[..last]);
      var made := FixPass(cfg, g, fixes[last - 1], fixes[last]).1;
      FixBetween(cfg, g, fixes[last - 1], fixes[last]);
      StillSound(cfg, ms, made, fixes[last - 1], fixes[last]);
    }
  }

  lemma StillSound(cfg: Settings, ms: seq<Mark>, made: seq<Mark>, p1: GpsPoint, p2: GpsPoint)
    requires Sound(cfg.Rules(), ms) && InTimeOrder(ms) && Between(cfg, made, p1, p2) && 0.0 < p1.timestamp <= p2.timestamp
    requires forall m :: m in ms ==> m.time <= p1.timestamp
    ensures Sound(cfg.Rules(), ms + made) && InTimeOrder(ms + made)
    ensures forall m :: m in ms + made ==> m.time <= p2.timestamp
  {
    var all := ms + made;
    forall i, j | 0 <= i < j < |all| && all[i].LapMark? && all[j].LapMark?
      ensures all[i].time <= all[j].time
    {
      if j >= |ms| {
        assert all[j] == made[j - |ms|] && made[j - |ms|] in made;
        if i < |ms| {
          assert all[i] == ms[i] && ms[i] in ms;
        }
      }
    }
  }

  // ----- the engine object ---------------------------------------------------

  class Engine {
    const cfg: Settings
    var lastCrossTime: map<string, real>
    var lineDirection: map<string, int>
    var clock: Clock
    var prev: Option<GpsPoint>
    var revision: nat
    /** The fixes processed so far, and the crossings accepted so far. */
    ghost var fixes: seq<GpsPoint>
    ghost var marks: seq<Mark>

    ghost predicate Timing()
      reads this
    {
      AllFit(cfg.Rules(), marks) && clock == RunClock(cfg.Rules(), marks) && revision == |marks|
    }

    ghost predicate Valid()
      reads this
    {
      && Timing()
      && (Gates(lastCrossTime, lineDirection), marks) == RunGates(cfg, fixes)
      && prev == if fixes == [] then None else Some(fixes[|fixes| - 1])
    }

    constructor (cfg: Settings)
      ensures Valid() && this.cfg == cfg && fixes == []
    {
      this.cfg := cfg;
      lastCrossTime, lineDirection, clock, prev, revision := map[], map[], Fresh, None, 0;
      fixes, marks := [], [];
    }

    /** `_accept`: debounce, then direction gate; learns and records only when it accepts. */
    method Accept(line: TimingLine, hit: Crossing) returns (accepted: bool)
      modifies this`lastCrossTime, this`lineDirection, this`revision
      ensures accepted == Accepts(cfg, old(Gates(lastCrossTime, lineDirection)), line, hit)
      ensures Gates(lastCrossTime, lineDirection) ==
              if accepted then Record(cfg, old(Gates(lastCrossTime, lineDirection)), line, hit)
              else old(Gates(lastCrossTime, lineDirection))
      ensures revision == old(revision) + if accepted then 1 else 0
    {
      if line.name in lastCrossTime && hit.time - lastCrossTime[line.name] < cfg.minReentry {
        return false;
      }
      if cfg.gateDirection {
        if line.name !in lineDirection {
          lineDirection := lineDirection[line.name := hit.sign];
        } else if lineDirection[line.name] != hit.sign {
          return false;
        }
      }
      lastCrossTime := lastCrossTime[line.name := hit.time];
      revision := revision + 1;
      return true;
    }

    /** `_handle_pit`. */
    method HandlePit(line: TimingLine, hit: Crossing) returns (events: seq<Event>)
      modifies this`clock
      ensures (clock, events) == LapClock.HandlePit(old(clock), PitMarkOf(line, hit))
    {
      var kind;
      if line.kind == PitIn {
        clock := clock.(pit := Pit);
        clock := clock.(lapValid := false);
        kind := PitEntry;
      } else {
        clock := clock.(pit := Track);
        kind := PitExit;
      }
      events := [Event(kind, hit.time, line.name, clock.lapNumber, 0, 0.0, 0.0, true, hit.sign, clock.pit)];
    }

    /** `_start_new_lap`. */
    method StartNewLap(time: real)
      requires |cfg.lapPoints| > 0
      modifies this`clock
      ensures clock == StartLap(cfg.Rules(), old(clock), time)
    {
      clock := clock.(lapStart := time);
      clock := clock.(segmentStart := time);
      clock := clock.(expectedIdx := 1 % |cfg.lapPoints|);
      clock := clock.(sectorsDone := 0);
      clock := clock.(lapValid := clock.pit == Track);
    }

    /** `_handle_lap_point`. */
    method HandleLapPoint(idx: nat, line: TimingLine, hit: Crossing) returns (events: seq<Event>)
      requires idx < |cfg.lapPoints|
      modifies this`clock
      ensures (clock, events) == Handle(cfg.Rules(), old(clock), LapMark(idx, line.name, hit.time, hit.sign))
    {
      var n := |cfg.lapPoints|;
      events := [];
      if clock.lapStart == 0.0 {
        StartNewLap(hit.time);
        clock := clock.(lapNumber := 1);
        clock := clock.(expectedIdx := (idx + 1) % n);
        if idx != 0 {
          clock := clock.(lapValid := false);
        }
        return;
      }
      var inOrder := idx == clock.expectedIdx;
      if idx == 0 {
        var lapTime := hit.time - clock.lapStart;
        if clock.sectorsDone == 0 || lapTime < cfg.minLap {
          StartNewLap(hit.time);
          return;
        }
        var split := hit.time - clock.segmentStart;
        var valid := clock.lapValid && inOrder && clock.pit == Track;
        events := [Event(SectorCompleted, hit.time, line.name, clock.lapNumber, n, split, 0.0, valid, hit.sign, clock.pit)];
        clock := clock.(lastLap := lapTime);
        if valid && (clock.bestLap == 0.0 || lapTime < clock.bestLap) {
          clock := clock.(bestLap := lapTime);
        }
        var lap := Event(LapCompleted, hit.time, line.name, clock.lapNumber, 0, 0.0, lapTime, valid, hit.sign, clock.pit);
        assert events + [lap] == [events[0], lap];
        events := events + [lap];
        clock := clock.(lapNumber := clock.lapNumber + 1);
        StartNewLap(hit.time);
        return;
      }
      var split := hit.time - clock.segmentStart;
      var valid := inOrder && clock.pit == Track;
      if !inOrder {
        clock := clock.(lapValid := false);
        valid := false;
      }
      clock := clock.(sectorsDone := clock.sectorsDone + 1);
      clock := clock.(segmentStart := hit.time);
      clock := clock.(expectedIdx := (idx + 1) % n);
      events := [Event(SectorCompleted, hit.time, line.name, clock.lapNumber, idx, split, 0.0, valid, hit.sign, clock.pit)];
    }

    /** The pit lines of one step, in order. */
    method PitLines(p1: GpsPoint, p2: GpsPoint) returns (events: seq<Event>)
      requires Timing()
      modifies this`lastCrossTime, this`lineDirection, this`revision, this`clock, this`marks
      ensures Timing()
      ensures Gates(lastCrossTime, lineDirection) ==
              PitPass(cfg, old(Gates(lastCrossTime, lineDirection)), p1, p2, |cfg.pitLines|).0
      ensures marks == old(marks) + PitPass(cfg, old(Gates(lastCrossTime, lineDirection)), p1, p2, |cfg.pitLines|).1
      ensures RunEvents(cfg.Rules(), marks) == old(RunEvents(cfg.Rules(), marks)) + events
    {
      events := [];
      ghost var g0 := Gates(lastCrossTime, lineDirection);
      for i := 0 to |cfg.pitLines|
        invariant Timing()
        invariant PitProgress(cfg, g0, old(marks), p1, p2, i, Gates(lastCrossTime, lineDirection), marks)
        invariant RunEvents(cfg.Rules(), marks) == old(RunEvents(cfg.Rules(), marks)) + events
      {
        ghost var reported, g, ms := events, Gates(lastCrossTime, lineDirection), marks;
        var more := PitLine(p1, p2, cfg.pitLines[i]);
        events := events + more;
        Joins(old(RunEvents(cfg.Rules(), marks)), reported, more);
        PitProgressStep(cfg, g0, old(marks), p1, p2, i, g, ms, Gates(lastCrossTime, lineDirection), marks);
      }
    }

    method PitLine(p1: GpsPoint, p2: GpsPoint, line: TimingLine) returns (events: seq<Event>)
      requires Timing()
      modifies this`lastCrossTime, this`lineDirection, this`revision, this`clock, this`marks
      ensures Timing()
      ensures PitStep(cfg, p1, p2, line, old(Gates(lastCrossTime, lineDirection)), old(marks),
                      Gates(lastCrossTime, lineDirection), marks)
      ensures RunEvents(cfg.Rules(), marks) == old(RunEvents(cfg.Rules(), marks)) + events
    {
      events := [];
      var hit := CrossingOf(p1, p2, line);
      if hit.Some? {
        var accepted := Accept(line, hit.value);
        if accepted {
          ghost var m := PitMarkOf(line, hit.value);
          Snoc(marks, m);
          events := HandlePit(line, hit.value);
          marks := marks + [m];
        }
      }
    }

    /** The lap points of one step: the first accepted one only. */
    method LapPoints(p1: GpsPoint, p2: GpsPoint) returns (events: seq<Event>)
      requires Timing()
      modifies this`lastCrossTime, this`lineDirection, this`revision, this`clock, this`marks
      ensures Timing()
      ensures Gates(lastCrossTime, lineDirection) == LapPass(cfg, old(Gates(lastCrossTime, lineDirection)), p1, p2).0
      ensures marks == old(marks) + LapPass(cfg, old(Gates(lastCrossTime, lineDirection)), p1, p2).1
      ensures RunEvents(cfg.Rules(), marks) == old(RunEvents(cfg.Rules(), marks)) + events
    {
      events := [];
      ghost var g0 := Gates(lastCrossTime, lineDirection);
      for i := 0 to |cfg.lapPoints|
        invariant Timing() && marks == old(marks) && events == []
        invariant Gates(lastCrossTime, lineDirection) == g0
        invariant FirstTaken(cfg, g0, p1, p2, 0) == FirstTaken(cfg, g0, p1, p2, i)
      {
        var line := cfg.lapPoints[i];
        var hit := CrossingOf(p1, p2, line);
        if hit.Some? {
          var accepted := Accept(line, hit.value);
          if accepted {
            ghost var m := LapMark(i, line.name, hit.value.time, hit.value.sign);
            Snoc(marks, m);
            events := HandleLapPoint(i, line, hit.value);
            marks := marks + [m];
            return;
          }
        }
      }
    }

    /**
     `process_point`. The object goes from the state of the run so far to the
     state of the run with this fix, and returns exactly the events that adds.
     */
    method ProcessPoint(gps: GpsPoint) returns (events: seq<Event>)
      requires Valid()
      modifies this
      ensures Valid() && fixes == old(fixes) + [gps]
      ensures RunEvents(cfg.Rules(), marks) == old(RunEvents(cfg.Rules(), marks)) + events
    {
      var before := prev;
      prev := Some(gps);
      events := [];
      if before.Some? {
        events := OneStep(before.value, gps);
        RunGatesStep(cfg, fixes, gps);
      }
      fixes := fixes + [gps];
    }

    method OneStep(p1: GpsPoint, p2: GpsPoint) returns (events: seq<Event>)
      requires Timing()
      modifies this`lastCrossTime, this`lineDirection, this`revision, this`clock, this`marks
      ensures Timing()
      ensures Gates(lastCrossTime, lineDirection) == FixPass(cfg, old(Gates(lastCrossTime, lineDirection)), p1, p2).0
      ensures marks == old(marks) + FixPass(cfg, old(Gates(lastCrossTime, lineDirection)), p1, p2).1
      ensures RunEvents(cfg.Rules(), marks) == old(RunEvents(cfg.Rules(), marks)) + events
    {
      ghost var g, ms := Gates(lastCrossTime, lineDirection), marks;
      events := PitLines(p1, p2);
      ghost var (g1, pits) := PitPass(cfg, g, p1, p2, |cfg.pitLines|);
      var more := LapPoints(p1, p2);
      Joins(ms, pits, LapPass(cfg, g1, p1, p2).1);
      Joins(old(RunEvents(cfg.Rules(), marks)), events, more);
      events := events + more;
    }
  }

  lemma Joins<X>(a: seq<X>, b: seq<X>, c: seq<X>)
    ensures a + b + c == a + (b + c)
  {
  }

  lemma RunGatesStep(cfg: Settings, fixes: seq<GpsPoint>, gps: GpsPoint)
    requires |fixes| > 0
    ensures var (g, ms) := RunGates(cfg, fixes);
            var (g', made) := FixPass(cfg, g, fixes[|fixes| - 1], gps);
            RunGates(cfg, fixes + [gps]) == (g', ms + made)
  {
    assert (fixes + [gps])[..|fixes|] == fixes;
  }
}
