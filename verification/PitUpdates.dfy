/**
 From pit lines to the pit-status table: the updates the materialiser gives for
 an engine run (`src/timing/timing_core.py`, `_handle_pit`;
 `src/agent/timing_app.py`, `_encode_event`; `src/pit/ingest_writer/laps.py`,
 `observe`) are its pit-line crossings, whatever else the table held.
 */
module PitUpdates {
  import opened Basics
  import opened LapClock
  import opened EndToEnd
  import T = LapTable
  import E = TimingEngine
  import I = IngestModel

  /** The accepted pit-line crossings: into the pit at an entry line, back on track at an exit line. */
  function PitCrossings(ms: seq<Mark>): (us: seq<T.Output>)
  {
    if |ms| == 0 then []
    else
      var m := ms[|ms| - 1];
      PitCrossings(ms[..|ms| - 1]) + (if m.PitMark? then [T.PitUpdate(m.time, if m.entry then "pit" else "track")] else [])
  }

  lemma {:induction false} PitsConcat(t: T.Table, a: seq<T.Payload>, b: seq<T.Payload>)
    ensures I.Pits(t, a + b) == I.Pits(t, a) + I.Pits(T.Run(t, a), b)
  {
    if |b| == 0 {
      assert a + b == a;
    } else {
      var front := b[..|b| - 1];
      PitsConcat(t, a, front);
      assert (a + b)[..|a + b| - 1] == a + front;
      T.RunConcat(t, a, front);
    }
  }

  /** Events that are no pit events give no updates. */
  lemma {:induction false} NoPits(t: T.Table, es: seq<Event>)
    requires forall i :: 0 <= i < |es| ==> es[i].kind == SectorCompleted || es[i].kind == LapCompleted
    ensures I.Pits(t, EncodeAll(es)) == []
  {
    if |es| > 0 {
      NoPits(t, es[..|es| - 1]);
      assert EncodeAll(es)[..|es| - 1] == EncodeAll(es[..|es| - 1]);
    }
  }

  lemma OnePit(t: T.Table, e: Event)
    requires e.kind == PitEntry || e.kind == PitExit
    ensures I.Pits(t, EncodeAll([e])) == [T.PitUpdate(e.time, if e.pit == Track then "track" else "pit")]
  {
    var ps := EncodeAll([e]);
    assert ps[..0] == [] && I.Pits(t, ps[..0]) == [];
    assert ps[0] == Encode(e);
  }

  lemma MarkPits(r: Rules, c: Clock, m: Mark, t: T.Table)
    requires Fits(r, m)
    ensures I.Pits(t, EncodeAll(Handle(r, c, m).1)) == PitCrossings([m])
  {
    assert [m][..0] == [];
    if m.PitMark? {
      OnePit(t, Handle(r, c, m).1[0]);
    } else {
      NoPits(t, Handle(r, c, m).1);
    }
  }

  /** For every run of marks, folded into any table. */
  lemma {:induction false} MarksToPitUpdates(r: Rules, ms: seq<Mark>, t: T.Table)
    requires AllFit(r, ms)
    ensures I.Pits(t, EncodeAll(RunEvents(r, ms))) == PitCrossings(ms)
  {
    if |ms| > 0 {
      MarksToPitUpdates(r, ms[..|ms| - 1], t);
      LastMark(r, ms, t);
      LastCrossing(ms);
    }
  }

  lemma LastMark(r: Rules, ms: seq<Mark>, t: T.Table)
    requires AllFit(r, ms) && ms != []
    ensures I.Pits(t, EncodeAll(RunEvents(r, ms))) ==
            I.Pits(t, EncodeAll(RunEvents(r, ms[..|ms| - 1]))) + PitCrossings([ms[|ms| - 1]])
  {
    assert ms[|ms| - 1] in ms;
    OneMoreMark(r, RunClock(r, ms[..|ms| - 1]), ms[|ms| - 1], t, RunEvents(r, ms[..|ms| - 1]));
  }

  lemma OneMoreMark(r: Rules, c: Clock, m: Mark, t: T.Table, es: seq<Event>)
    requires Fits(r, m)
    ensures I.Pits(t, EncodeAll(es + Handle(r, c, m).1)) == I.Pits(t, EncodeAll(es)) + PitCrossings([m])
  {
    var more := Handle(r, c, m).1;
    EncodeAllConcat(es, more);
    PitsConcat(t, EncodeAll(es), EncodeAll(more));
    MarkPits(r, c, m, T.Run(t, EncodeAll(es)));
  }

  lemma EncodeAllConcat(a: seq<Event>, b: seq<Event>)
    ensures EncodeAll(a + b) == EncodeAll(a) + EncodeAll(b)
  {
  }

  lemma LastCrossing(ms: seq<Mark>)
    requires ms != []
    ensures PitCrossings(ms) == PitCrossings(ms[..|ms| - 1]) + PitCrossings([ms[|ms| - 1]])
  {
    var m := ms[|ms| - 1];
    assert [m][..0] == [];
    assert PitCrossings([m]) == if m.PitMark? then [T.PitUpdate(m.time, if m.entry then "pit" else "track")] else [];
  }

  /** From GPS fixes: one update per accepted pit-line crossing, in order, with its interpolated time. */
  lemma FixesToPitUpdates(cfg: E.Settings, fixes: seq<E.GpsPoint>, t: T.Table)
    requires E.Timed(fixes)
    ensures AllFit(cfg.Rules(), E.MarksOf(cfg, fixes))
    ensures I.Pits(t, EncodeAll(RunEvents(cfg.Rules(), E.MarksOf(cfg, fixes)))) == PitCrossings(E.MarksOf(cfg, fixes))
  {
    E.MarksAreSound(cfg, fixes);
    MarksToPitUpdates(cfg.Rules(), E.MarksOf(cfg, fixes), t);
  }

  // ----- any payloads --------------------------------------------------------

  function PitPayloads(ps: seq<T.Payload>): (r: seq<T.Payload>)
    ensures forall i :: 0 <= i < |r| ==> r[i].Payload?
  {
    if |ps| == 0 then []
    else
      var p := ps[|ps| - 1];
      PitPayloads(ps[..|ps| - 1]) +
      (if p.Payload? && (p.kind == T.PitEntryEvent || p.kind == T.PitExitEvent) then [p] else [])
  }

  /** The update of a pit event: its time, and its status or, if it has none, its type. */
  ghost predicate UpdateReads(u: T.Output, p: T.Payload)
    requires p.Payload?
  {
    u.PitUpdate? && u.at == p.time &&
    match p.pitStatus
    case Some(status) => u.status == status
    case None => (p.kind == T.PitEntryEvent ==> u.status == "pit_entry") && (p.kind == T.PitExitEvent ==> u.status == "pit_exit")
  }

  ghost predicate UpdatesRead(us: seq<T.Output>, ps: seq<T.Payload>)
    requires forall i :: 0 <= i < |ps| ==> ps[i].Payload?
  {
    |us| == |ps| && forall i :: 0 <= i < |us| ==> UpdateReads(us[i], ps[i])
  }

  lemma ObservePit(t: T.Table, p: T.Payload)
    ensures var out := T.Observe(t, p).1;
      && (out.PitUpdate? <==> p.Payload? && (p.kind == T.PitEntryEvent || p.kind == T.PitExitEvent))
      && (out.PitUpdate? ==> UpdateReads(out, p))
  {
  }

  /** Whatever payloads arrive: one update per pit event, in order. */
  lemma {:induction false} UpdatesFollowPitEvents(t: T.Table, ps: seq<T.Payload>)
    ensures UpdatesRead(I.Pits(t, ps), PitPayloads(ps))
  {
    if |ps| > 0 {
      UpdatesFollowPitEvents(t, ps[..|ps| - 1]);
      ObservePit(T.Run(t, ps[..|ps| - 1]), ps[|ps| - 1]);
    }
  }
}
