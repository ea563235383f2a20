/**
 Where and which way a step crosses a timing line (`src/timing/timing_core.py`,
 `_to_meters` and `_crossing`), said in latitude, longitude and time instead of
 projected metres and quotients.
 */
module Crossings {
  import opened Basics
  import opened TimingEngine
  import G = Geometry

  /** A fraction `s` of the way from `p1` to `p2` is, in latitude and longitude, a fraction `v` along the timing line. */
  ghost predicate SharedPosition(p1: GpsPoint, p2: GpsPoint, line: TimingLine, s: real, v: real) {
    && 0.0 <= s <= 1.0 && 0.0 <= v <= 1.0
    && Interpolate(p1.lat, p2.lat, s) == Interpolate(line.start.lat, line.end.lat, v)
    && Interpolate(p1.lon, p2.lon, s) == Interpolate(line.start.lon, line.end.lon, v)
  }

  lemma Regrouped(d: real, cosLat: real)
    ensures d * 111320.0 * cosLat == d * (111320.0 * cosLat)
  {
  }

  /** The area, in square metres, that the step and the line span. */
  function Span(p1: GpsPoint, p2: GpsPoint, line: TimingLine): real {
    var east, north := 111320.0 * line.cosLat, 111320.0;
    Area((p2.lon - p1.lon) * east, (p2.lat - p1.lat) * north,
         (line.end.lon - line.start.lon) * east, (line.end.lat - line.start.lat) * north)
  }

  function Area(x: real, y: real, u: real, v: real): real { x * v - y * u }

  /** The step runs along the line: the two span next to nothing. */
  ghost predicate Alongside(p1: GpsPoint, p2: GpsPoint, line: TimingLine) {
    -0.000000000001 < Span(p1, p2, line) < 0.000000000001
  }

  lemma StepInMeters(p1: GpsPoint, p2: GpsPoint, line: TimingLine)
    ensures ToMeters(p2, line).Minus(ToMeters(p1, line)) ==
            G.Vec((p2.lon - p1.lon) * (111320.0 * line.cosLat), (p2.lat - p1.lat) * 111320.0)
  {
    Regrouped(p1.lon - line.start.lon, line.cosLat);
    Regrouped(p2.lon - line.start.lon, line.cosLat);
  }

  lemma AlongsideIsParallel(p1: GpsPoint, p2: GpsPoint, line: TimingLine)
    ensures Alongside(p1, p2, line) <==>
            G.Parallel(ToMeters(p1, line), ToMeters(p2, line), ToMeters(line.start, line), ToMeters(line.end, line))
  {
    var east, north := 111320.0 * line.cosLat, 111320.0;
    StepInMeters(p1, p2, line);
    StepInMeters(line.start, line.end, line);
    ParallelByArea(ToMeters(p1, line), ToMeters(p2, line), ToMeters(line.start, line), ToMeters(line.end, line),
                   (p2.lon - p1.lon) * east, (p2.lat - p1.lat) * north,
                   (line.end.lon - line.start.lon) * east, (line.end.lat - line.start.lat) * north);
  }

  lemma ParallelByArea(a1: G.Vec, a2: G.Vec, b1: G.Vec, b2: G.Vec, x: real, y: real, u: real, v: real)
    requires a2.Minus(a1) == G.Vec(x, y) && b2.Minus(b1) == G.Vec(u, v)
    ensures G.Parallel(a1, a2, b1, b2) <==> -0.000000000001 < Area(x, y, u, v) < 0.000000000001
  {
    assert a2.Minus(a1).Cross(b2.Minus(b1)) == Area(x, y, u, v);
  }

  lemma NothingSpannedAtPole(p1: GpsPoint, p2: GpsPoint, line: TimingLine)
    requires line.cosLat == 0.0
    ensures Alongside(p1, p2, line)
  {
  }

  /** Projecting does not change what is shared. */
  lemma MeetIffSharedPosition(p1: GpsPoint, p2: GpsPoint, line: TimingLine, s: real, v: real)
    requires line.cosLat != 0.0
    ensures G.Meet(ToMeters(p1, line), ToMeters(p2, line), ToMeters(line.start, line), ToMeters(line.end, line), s, v) <==>
            SharedPosition(p1, p2, line, s, v)
  {
  }

  /**
   A crossing is reported exactly when, seen on the map, the step meets the
   line and does not run along it; and its instant is the one at which the step
   is on the line.
   */
  lemma CrossingIffOnTheLine(p1: GpsPoint, p2: GpsPoint, line: TimingLine)
    ensures CrossingOf(p1, p2, line).Some? <==>
            !Alongside(p1, p2, line) && exists s, v :: SharedPosition(p1, p2, line, s, v)
    ensures forall s, v :: CrossingOf(p1, p2, line).Some? && SharedPosition(p1, p2, line, s, v) ==>
            CrossingOf(p1, p2, line).value.time == Interpolate(p1.timestamp, p2.timestamp, s)
  {
    var a1, a2, b1, b2 := ToMeters(p1, line), ToMeters(p2, line), ToMeters(line.start, line), ToMeters(line.end, line);
    G.IntersectionIsSharedPoint(a1, a2, b1, b2);
    AlongsideIsParallel(p1, p2, line);
    if line.cosLat == 0.0 {
      NothingSpannedAtPole(p1, p2, line);
    } else {
      forall s, v ensures G.Meet(a1, a2, b1, b2, s, v) <==> SharedPosition(p1, p2, line, s, v) {
        MeetIffSharedPosition(p1, p2, line, s, v);
      }
    }
  }

  /** Positive on the left of the directed line from its start to its end, negative on the right. */
  function Side(p: GpsPoint, line: TimingLine): real {
    ToMeters(line.end, line).Minus(ToMeters(line.start, line)).Cross(ToMeters(p, line).Minus(ToMeters(line.start, line)))
  }

  /** The side of a point on the way from `p` to `q`, for a line through that point. */
  lemma SidesOfMeeting(p: G.Vec, q: G.Vec, l: G.Vec, m: G.Vec, s: real, v: real)
    requires G.Along(p, q, s) == G.Along(l, m, v)
    ensures m.Minus(l).Cross(q.Minus(l)) == (1.0 - s) * m.Minus(l).Cross(q.Minus(p))
    ensures m.Minus(l).Cross(p.Minus(l)) == -s * m.Minus(l).Cross(q.Minus(p))
  {
    var a, b := q.Minus(p), m.Minus(l);
    var d := p.Minus(l);
    assert d == b.Times(v).Minus(a.Times(s));
    assert b.Cross(d) == -s * b.Cross(a) by { CrossWithPart(a, b, s, v); }
    assert q.Minus(l) == d.Plus(a);
    assert b.Cross(d.Plus(a)) == b.Cross(d) + b.Cross(a);
  }

  lemma CrossWithPart(a: G.Vec, b: G.Vec, s: real, v: real)
    ensures b.Cross(b.Times(v).Minus(a.Times(s))) == -s * b.Cross(a)
  {
  }

  lemma SignOfShare(s: real, x: real)
    requires 0.0 <= s
    ensures x >= 0.0 ==> s * x >= 0.0
    ensures x <= 0.0 ==> s * x <= 0.0
  {
  }

  lemma SidesBySign(p: G.Vec, q: G.Vec, l: G.Vec, m: G.Vec, s: real, v: real)
    requires G.Meet(p, q, l, m, s, v)
    ensures m.Minus(l).Cross(q.Minus(p)) >= 0.0 ==> m.Minus(l).Cross(p.Minus(l)) <= 0.0 <= m.Minus(l).Cross(q.Minus(l))
    ensures m.Minus(l).Cross(q.Minus(p)) <= 0.0 ==> m.Minus(l).Cross(q.Minus(l)) <= 0.0 <= m.Minus(l).Cross(p.Minus(l))
  {
    SidesOfMeeting(p, q, l, m, s, v);
    SignOfShare(s, m.Minus(l).Cross(q.Minus(p)));
    SignOfShare(1.0 - s, m.Minus(l).Cross(q.Minus(p)));
  }

  /** A crossing with sign 1 goes from the right of the line to its left, one with sign -1 the other way. */
  lemma SignIsSide(p1: GpsPoint, p2: GpsPoint, line: TimingLine)
    requires CrossingOf(p1, p2, line).Some?
    ensures CrossingOf(p1, p2, line).value.sign == 1 ==> Side(p1, line) <= 0.0 <= Side(p2, line)
    ensures CrossingOf(p1, p2, line).value.sign == -1 ==> Side(p2, line) <= 0.0 <= Side(p1, line)
  {
    var a1, a2, b1, b2 := ToMeters(p1, line), ToMeters(p2, line), ToMeters(line.start, line), ToMeters(line.end, line);
    G.IntersectionIsSharedPoint(a1, a2, b1, b2);
    var s, v :| G.Meet(a1, a2, b1, b2, s, v);
    SidesBySign(a1, a2, b1, b2, s, v);
  }
}
