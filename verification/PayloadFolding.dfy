/**
 What the materialiser (`src/pit/ingest_writer/laps.py`, `LapMaterialiser`) makes
 of any sequence of payloads, told from the payloads alone: one lap row for each
 lap event and one pit update for each pit event, in order, and the counters.
 */
module PayloadFolding {
  import opened Basics
  import opened LapTable

  // ----- one row per lap event -----------------------------------------------

  function LapPayloads(ps: seq<Payload>): (r: seq<Payload>)
    ensures forall i :: 0 <= i < |r| ==> r[i].Payload?
  {
    if |ps| == 0 then []
    else
      var p := ps[|ps| - 1];
      LapPayloads(ps[..|ps| - 1]) + (if p.Payload? && p.kind == LapEvent then [p] else [])
  }

  /** The row of a lap event: its fields as sent; valid unless said otherwise, no pit status if none or an empty one was sent. */
  ghost predicate RowReads(row: LapRow, p: Payload)
    requires p.Payload?
  {
    && row.lapNumber == p.lapNumber && row.crossedAt == p.time && row.lapTime == p.lapTime
    && (row.valid <==> p.valid != Some(false))
    && (row.pitStatus.None? <==> p.pitStatus.None? || p.pitStatus.value == "")
    && (row.pitStatus.Some? ==> row.pitStatus == p.pitStatus)
  }

  ghost predicate RowsRead(rows: seq<LapRow>, ps: seq<Payload>)
    requires forall i :: 0 <= i < |ps| ==> ps[i].Payload?
  {
    |rows| == |ps| && forall i :: 0 <= i < |rows| ==> RowReads(rows[i], ps[i])
  }

  /** Whatever was buffered before: one row per lap event, in order. */
  lemma {:induction false} RowsFollowLapEvents(t: Table, ps: seq<Payload>)
    ensures RowsRead(Rows(t, ps), LapPayloads(ps))
  {
    if |ps| > 0 {
      RowsFollowLapEvents(t, ps[..|ps| - 1]);
      ObserveLap(Run(t, ps[..|ps| - 1]), ps[|ps| - 1]);
    }
  }

  lemma ObserveLap(t: Table, p: Payload)
    ensures var out := Observe(t, p).1;
            (out.Lap? <==> p.Payload? && p.kind == LapEvent) && (out.Lap? ==> RowReads(out.row, p))
  {
  }

  // ----- the counters --------------------------------------------------------

  /** A payload that cannot be used: not parsed, or a sector event without its number. */
  predicate Unusable(p: Payload) { p.Malformed? || (p.kind == SectorEvent && p.sector.None?) }

  function CountUnusable(ps: seq<Payload>): (n: nat)
  {
    if |ps| == 0 then 0 else CountUnusable(ps[..|ps| - 1]) + if Unusable(ps[|ps| - 1]) then 1 else 0
  }

  function SectorsIn(rows: seq<LapRow>): (n: nat)
  {
    if |rows| == 0 then 0 else SectorsIn(rows[..|rows| - 1]) + |rows[|rows| - 1].sectors|
  }

  /** The lap number the materialiser has last adopted: the latest one, but never a negative one to begin with. */
  function Adopted(ps: seq<Payload>): (lap: Option<int>)
  {
    if |ps| == 0 then None
    else
      var before, p := Adopted(ps[..|ps| - 1]), ps[|ps| - 1];
      if p.Malformed? then before
      else if before.None? && p.lapNumber < 0 then Some(0)
      else Some(p.lapNumber)
  }

  /** How often the lap number went back. */
  function WentBack(ps: seq<Payload>): (n: nat)
  {
    if |ps| == 0 then 0
    else
      var before, p := Adopted(ps[..|ps| - 1]), ps[|ps| - 1];
      WentBack(ps[..|ps| - 1]) + if p.Payload? && before.Some? && p.lapNumber < before.value then 1 else 0
  }

  function UnknownNames(ps: seq<Payload>): (names: set<string>)
  {
    if |ps| == 0 then {}
    else
      var p := ps[|ps| - 1];
      UnknownNames(ps[..|ps| - 1]) + if p.Payload? && p.kind.Unknown? then {p.kind.name} else {}
  }

  ghost predicate CountersTell(t: Table, rows: seq<LapRow>, ps: seq<Payload>) {
    && t.laps == |rows| && t.sectorRows == SectorsIn(rows) && t.malformed == CountUnusable(ps)
    && t.restarts == WentBack(ps) && t.highest == Adopted(ps) && t.unknown == UnknownNames(ps)
  }

  /** Laps and sectors handed on, unusable payloads, restarts and unknown types: each counter is what the payloads make it. */
  lemma {:induction false} CountersAreTheHistory(ps: seq<Payload>)
    ensures CountersTell(Run(Empty, ps), Rows(Empty, ps), ps)
  {
    if |ps| > 0 {
      CountersAreTheHistory(ps[..|ps| - 1]);
      ObserveCounts(Run(Empty, ps[..|ps| - 1]), Rows(Empty, ps[..|ps| - 1]), ps[|ps| - 1]);
    }
  }

  lemma ObserveCounts(t: Table, rows: seq<LapRow>, p: Payload)
    requires t.laps == |rows| && t.sectorRows == SectorsIn(rows)
    ensures var (t', out) := Observe(t, p);
            var rows' := rows + if out.Lap? then [out.row] else [];
            && t'.laps == |rows'| && t'.sectorRows == SectorsIn(rows')
            && t'.malformed == t.malformed + if Unusable(p) then 1 else 0
  {
    var out := Observe(t, p).1;
    if out.Lap? {
      assert (rows + [out.row])[..|rows|] == rows;
    } else {
      assert rows + [] == rows;
    }
  }
}
