/**
 GPS fixes that produce given line crossings, on a track laid out for it. A
 failure found on a list of crossings thereby becomes one on fixes the engine
 can be given.

 The lines lie one above the other on the meridian 0, line `i` between
 latitudes `2i` and `2i + 1`. The vehicle changes sides: it waits where it is
 until the time of the next crossing, then passes over the middle of its line.
 */
module Drives {
  import opened Basics
  import opened LapClock
  import opened TimingEngine
  import G = Geometry

  /** The next crossing wanted: of which lap point, and when. */
  datatype Stop = Stop(idx: nat, time: real)

  function Line(i: nat): TimingLine {
    TimingLine(seq(i + 1, _ => 'L'), GpsPoint((2 * i) as real, 0.0, 0.0), GpsPoint((2 * i + 1) as real, 0.0, 0.0),
               if i == 0 then StartFinish else Sector, 1.0)
  }

  /** A track of `n` such lines, with no re-entry interval and no direction gating. */
  function Track(n: nat, minLap: real): Settings { Settings(seq(n, i requires 0 <= i < n => Line(i)), [], 0.0, minLap, false) }

  function Middle(i: nat): real { (2 * i) as real + 0.5 }

  function Wait(at: GpsPoint, time: real): GpsPoint { at.(timestamp := time) }

  function Over(at: GpsPoint, i: nat, time: real): GpsPoint { GpsPoint(2.0 * Middle(i) - at.lat, -at.lon, time) }

  function Fixes(from: real, stops: seq<Stop>): (fixes: seq<GpsPoint>)
    ensures |fixes| == 1 + 2 * |stops|
  {
    if |stops| == 0 then [GpsPoint(0.0, 1.0, from)]
    else
      var front, stop := Fixes(from, stops[..|stops| - 1]), stops[|stops| - 1];
      var at := front[|front| - 1];
      front + [Wait(at, stop.time), Over(at, stop.idx, stop.time)]
  }

  // ----- one move ------------------------------------------------------------

  lemma HitAt(p1: G.Vec, p2: G.Vec, p3: G.Vec, p4: G.Vec, s: real, v: real)
    requires !G.Parallel(p1, p2, p3, p4) && G.Meet(p1, p2, p3, p4, s, v)
    ensures G.SegmentIntersection(p1, p2, p3, p4).Some? && G.SegmentIntersection(p1, p2, p3, p4).value.t == s
  {
    G.IntersectionIsSharedPoint(p1, p2, p3, p4);
  }

  lemma NoHit(p1: G.Vec, p2: G.Vec, p3: G.Vec, p4: G.Vec)
    requires forall s, v :: !G.Meet(p1, p2, p3, p4, s, v)
    ensures G.SegmentIntersection(p1, p2, p3, p4).None?
  {
    G.IntersectionIsSharedPoint(p1, p2, p3, p4);
  }

  lemma AlongIs(p: G.Vec, q: G.Vec, t: real)
    ensures G.Along(p, q, t) == G.Vec(p.x + t * (q.x - p.x), p.y + t * (q.y - p.y))
  {
    var d := q.Minus(p);
    assert d.Times(t) == G.Vec(t * d.x, t * d.y);
  }

  lemma ZeroFactor(x: real, z: real)
    requires x != 0.0 && x * z == 0.0
    ensures z == 0.0
  {
  }

  /** A move from side `x` to the other that passes over height `h`, against a line of length `k` up from the origin. */
  lemma MoveMeets(x: real, y: real, h: real, k: real, s: real, v: real)
    requires x != 0.0 && k != 0.0
    ensures G.Along(G.Vec(x, y), G.Vec(-x, 2.0 * h - y), s) == G.Along(G.Vec(0.0, 0.0), G.Vec(0.0, k), v) <==>
            s == 0.5 && v * k == h
  {
    AlongIs(G.Vec(x, y), G.Vec(-x, 2.0 * h - y), s);
    AlongIs(G.Vec(0.0, 0.0), G.Vec(0.0, k), v);
    assert x + s * (-x - x) == x * (1.0 - 2.0 * s);
    if x * (1.0 - 2.0 * s) == 0.0 {
      ZeroFactor(x, 1.0 - 2.0 * s);
    }
    assert s == 0.5 ==> y + s * (2.0 * h - y - y) == h;
  }

  lemma CrossUp(a: G.Vec, k: real)
    ensures a.Cross(G.Vec(0.0, k)) == a.x * k
  {
  }

  lemma NotParallel(p1: G.Vec, p2: G.Vec)
    requires p2.x - p1.x == 222640.0 || p2.x - p1.x == -222640.0
    ensures !G.Parallel(p1, p2, G.Vec(0.0, 0.0), G.Vec(0.0, 111320.0))
  {
    assert G.Vec(0.0, 111320.0).Minus(G.Vec(0.0, 0.0)) == G.Vec(0.0, 111320.0);
    CrossUp(p2.Minus(p1), 111320.0);
  }

  /** A move from side `x` at height `y` over height `mid` (in units of the line), against a line of unit length up from the origin. */
  ghost predicate Passing(x: real, y: real, mid: real, p1: G.Vec, p2: G.Vec, p3: G.Vec, p4: G.Vec) {
    && (x == 111320.0 || x == -111320.0)
    && p1 == G.Vec(x, y) && p2 == G.Vec(-x, 2.0 * (mid * 111320.0) - y)
    && p3 == G.Vec(0.0, 0.0) && p4 == G.Vec(0.0, 111320.0)
  }

  predicate Halfway(hit: Option<G.Hit>, crosses: bool) { if crosses then hit.Some? && hit.value.t == 0.5 else hit.None? }

  lemma MoveHits(x: real, y: real, mid: real, p1: G.Vec, p2: G.Vec, p3: G.Vec, p4: G.Vec)
    requires Passing(x, y, mid, p1, p2, p3, p4)
    ensures Halfway(G.SegmentIntersection(p1, p2, p3, p4), 0.0 <= mid <= 1.0)
  {
    if 0.0 <= mid <= 1.0 {
      NotParallel(p1, p2);
      MoveMeets(x, y, mid * 111320.0, 111320.0, 0.5, mid);
      HitAt(p1, p2, p3, p4, 0.5, mid);
    } else {
      forall s, v ensures !G.Meet(p1, p2, p3, p4, s, v) {
        MoveMeets(x, y, mid * 111320.0, 111320.0, s, v);
      }
      NoHit(p1, p2, p3, p4);
    }
  }

  lemma InUnit(i: nat, j: nat)
    ensures 0.0 <= Middle(j) - (2 * i) as real <= 1.0 <==> i == j
  {
  }

  lemma UnitLine(i: nat, j: nat, x: real, y: real, p1: G.Vec, p2: G.Vec, p3: G.Vec, p4: G.Vec)
    requires Passing(x, y, Middle(j) - (2 * i) as real, p1, p2, p3, p4)
    ensures Halfway(G.SegmentIntersection(p1, p2, p3, p4), i == j)
  {
    InUnit(i, j);
    MoveHits(x, y, Middle(j) - (2 * i) as real, p1, p2, p3, p4);
  }

  lemma Projected(at: GpsPoint, time: real, i: nat, j: nat)
    returns (x: real, y: real, p1: G.Vec, p2: G.Vec, p3: G.Vec, p4: G.Vec)
    requires at.lon == 1.0 || at.lon == -1.0
    ensures p1 == ToMeters(Wait(at, time), Line(i)) && p2 == ToMeters(Over(at, j, time), Line(i))
    ensures p3 == ToMeters(Line(i).start, Line(i)) && p4 == ToMeters(Line(i).end, Line(i))
    ensures Passing(x, y, Middle(j) - (2 * i) as real, p1, p2, p3, p4)
  {
    var base := (2 * i) as real;
    x, y := at.lon * 111320.0, (at.lat - base) * 111320.0;
    p1, p2 := ToMeters(Wait(at, time), Line(i)), ToMeters(Over(at, j, time), Line(i));
    p3, p4 := ToMeters(Line(i).start, Line(i)), ToMeters(Line(i).end, Line(i));
  }

  lemma HitOnIs(a: GpsPoint, b: GpsPoint, line: TimingLine, p1: G.Vec, p2: G.Vec, p3: G.Vec, p4: G.Vec)
    requires p1 == ToMeters(a, line) && p2 == ToMeters(b, line) && p3 == ToMeters(line.start, line) && p4 == ToMeters(line.end, line)
    ensures HitOn(a, b, line) == G.SegmentIntersection(p1, p2, p3, p4)
  {
  }

  /** Passing over the middle of line `j` meets that line halfway and no other. */
  lemma HitOver(at: GpsPoint, time: real, i: nat, j: nat)
    requires at.lon == 1.0 || at.lon == -1.0
    ensures Halfway(HitOn(Wait(at, time), Over(at, j, time), Line(i)), i == j)
  {
    var x, y, p1, p2, p3, p4 := Projected(at, time, i, j);
    UnitLine(i, j, x, y, p1, p2, p3, p4);
    HitOnIs(Wait(at, time), Over(at, j, time), Line(i), p1, p2, p3, p4);
  }

  lemma OverCrosses(at: GpsPoint, time: real, i: nat, j: nat)
    requires at.lon == 1.0 || at.lon == -1.0
    ensures var c := CrossingOf(Wait(at, time), Over(at, j, time), Line(i));
            if i == j then c.Some? && c.value.time == time else c.None?
  {
    HitOver(at, time, i, j);
  }

  lemma WaitCrossesNothing(at: GpsPoint, time: real, line: TimingLine)
    ensures CrossingOf(at, Wait(at, time), line).None?
  {
  }

  // ----- a whole drive -------------------------------------------------------

  /** The accepted crossings are the stops. */
  ghost predicate Driven(ms: seq<Mark>, stops: seq<Stop>) {
    && |ms| == |stops|
    && forall i :: 0 <= i < |ms| ==> ms[i].LapMark? && ms[i].idx == stops[i].idx && ms[i].time == stops[i].time
  }

  /** Stops on a track of `n` lines, in time order from `from` on. */
  ghost predicate Drivable(n: nat, from: real, stops: seq<Stop>) {
    && from > 0.0 && (forall i :: 0 <= i < |stops| ==> stops[i].idx < n && from <= stops[i].time)
    && forall i, j :: 0 <= i < j < |stops| ==> stops[i].time <= stops[j].time
  }

  ghost predicate NoneLater(g: Gates, time: real) { forall name :: name in g.last ==> g.last[name] <= time }

  lemma {:induction false} OnlyTaken(n: nat, minLap: real, g: Gates, at: GpsPoint, time: real, i: nat, j: nat)
    requires (at.lon == 1.0 || at.lon == -1.0) && i <= j < n && NoneLater(g, time)
    ensures FirstTaken(Track(n, minLap), g, Wait(at, time), Over(at, j, time), i) == Some(j)
    decreases j - i
  {
    OverCrosses(at, time, i, j);
    if i < j {
      OnlyTaken(n, minLap, g, at, time, i + 1, j);
    }
  }

  lemma {:induction false} NoneTaken(cfg: Settings, g: Gates, at: GpsPoint, time: real, i: nat)
    requires i <= |cfg.lapPoints|
    ensures FirstTaken(cfg, g, at, Wait(at, time), i) == None
    decreases |cfg.lapPoints| - i
  {
    if i < |cfg.lapPoints| {
      WaitCrossesNothing(at, time, cfg.lapPoints[i]);
      NoneTaken(cfg, g, at, time, i + 1);
    }
  }

  lemma WaitPasses(n: nat, minLap: real, g: Gates, at: GpsPoint, time: real)
    ensures FixPass(Track(n, minLap), g, at, Wait(at, time)) == (g, [])
  {
    var cfg, p := Track(n, minLap), Wait(at, time);
    NoneTaken(cfg, g, at, time, 0);
    assert |cfg.pitLines| == 0 && PitPass(cfg, g, at, p, 0) == (g, []);
    assert LapPass(cfg, g, at, p) == (g, []);
    var none: seq<Mark> := [];
    assert none + none == none;
    assert FixPass(cfg, g, at, p) == (g, none + none);
  }

  lemma OverPasses(n: nat, minLap: real, g: Gates, at: GpsPoint, time: real, j: nat)
    requires (at.lon == 1.0 || at.lon == -1.0) && j < n && NoneLater(g, time)
    ensures var (g', made) := FixPass(Track(n, minLap), g, Wait(at, time), Over(at, j, time));
            NoneLater(g', time) && Driven(made, [Stop(j, time)])
  {
    var cfg, p1, p2 := Track(n, minLap), Wait(at, time), Over(at, j, time);
    OnlyTaken(n, minLap, g, at, time, 0, j);
    OverCrosses(at, time, j, j);
    assert |cfg.pitLines| == 0 && PitPass(cfg, g, p1, p2, 0) == (g, []);
    assert cfg.lapPoints[j] == Line(j);
    var (g', made) := LapPass(cfg, g, p1, p2);
    assert [] + made == made && [Stop(j, time)][0] == Stop(j, time);
  }

  lemma TwoMore(cfg: Settings, fixes: seq<GpsPoint>, a: GpsPoint, b: GpsPoint)
    requires |fixes| > 0
    ensures var (g, ms) := RunGates(cfg, fixes);
            var (g1, made1) := FixPass(cfg, g, fixes[|fixes| - 1], a);
            var (g2, made2) := FixPass(cfg, g1, a, b);
            RunGates(cfg, fixes + [a, b]) == (g2, ms + made1 + made2)
  {
    RunGatesStep(cfg, fixes, a);
    RunGatesStep(cfg, fixes + [a], b);
    assert fixes + [a] + [b] == fixes + [a, b];
  }

  /** The time of the last stop, or of the start. */
  function Until(from: real, stops: seq<Stop>): real { if stops == [] then from else stops[|stops| - 1].time }

  lemma {:induction false} FixesAreTimed(n: nat, from: real, stops: seq<Stop>)
    requires Drivable(n, from, stops)
    ensures var fixes := Fixes(from, stops);
      && Timed(fixes) && fixes[|fixes| - 1].timestamp == Until(from, stops)
      && (fixes[|fixes| - 1].lon == 1.0 || fixes[|fixes| - 1].lon == -1.0)
  {
    if |stops| > 0 {
      var front := stops[..|stops| - 1];
      FixesAreTimed(n, from, front);
      assert Until(from, front) <= stops[|stops| - 1].time;
    }
  }

  /** The fixes made the engine accept exactly the stops, the last of them by `time`. */
  ghost predicate Drove(cfg: Settings, fixes: seq<GpsPoint>, stops: seq<Stop>, time: real) {
    Driven(MarksOf(cfg, fixes), stops) && NoneLater(RunGates(cfg, fixes).0, time)
  }

  lemma DriveOneMore(n: nat, minLap: real, fixes: seq<GpsPoint>, stops: seq<Stop>, time: real, stop: Stop)
    requires |fixes| > 0 && (fixes[|fixes| - 1].lon == 1.0 || fixes[|fixes| - 1].lon == -1.0) && stop.idx < n
    requires Drove(Track(n, minLap), fixes, stops, time) && time <= stop.time
    ensures var at := fixes[|fixes| - 1];
            Drove(Track(n, minLap), fixes + [Wait(at, stop.time), Over(at, stop.idx, stop.time)], stops + [stop], stop.time)
  {
    var cfg, at := Track(n, minLap), fixes[|fixes| - 1];
    var (g, ms) := RunGates(cfg, fixes);
    WaitPasses(n, minLap, g, at, stop.time);
    OverPasses(n, minLap, g, at, stop.time, stop.idx);
    TwoMore(cfg, fixes, Wait(at, stop.time), Over(at, stop.idx, stop.time));
    DrivenOneMore(ms, stops, FixPass(cfg, g, Wait(at, stop.time), Over(at, stop.idx, stop.time)).1, stop);
  }

  /** Any stops in time order, on any such track: these fixes make the engine accept exactly them. */
  lemma {:induction false} FixesDrive(n: nat, minLap: real, from: real, stops: seq<Stop>)
    requires Drivable(n, from, stops)
    ensures Drove(Track(n, minLap), Fixes(from, stops), stops, Until(from, stops))
  {
    if |stops| > 0 {
      var front, stop := stops[..|stops| - 1], stops[|stops| - 1];
      FixesDrive(n, minLap, from, front);
      FixesAreTimed(n, from, front);
      assert Until(from, front) <= stop.time;
      DriveOneMore(n, minLap, Fixes(from, front), front, Until(from, front), stop);
      assert stops == front + [stop];
    }
  }

  lemma DrivenOneMore(ms: seq<Mark>, stops: seq<Stop>, made: seq<Mark>, stop: Stop)
    requires Driven(ms, stops) && Driven(made, [stop])
    ensures Driven(ms + [] + made, stops + [stop])
  {
    assert [stop][0] == stop;
  }
}
