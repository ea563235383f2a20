/**
 The pit-side materialiser (`src/pit/ingest_writer/laps.py`, `LapMaterialiser`):
 `lap.event` payloads in, lap rows and pit-status updates out, with sectors
 buffered until the lap they belong to completes.
 */
module LapTable {
  import opened Basics

  datatype Kind = SectorEvent | LapEvent | PitEntryEvent | PitExitEvent | Unknown(name: string)

  /** A payload after `_parse`: unusable, or the fields the materialiser reads. */
  datatype Payload =
    | Malformed
    | Payload(kind: Kind, time: real, lapNumber: int, sector: Option<int>, splitTime: Option<real>,
              lapTime: Option<real>, valid: Option<bool>, pitStatus: Option<string>)

  datatype Key = Key(lap: int, sector: int)

  datatype SectorRow = SectorRow(sector: int, splitTime: Option<real>, crossedAt: real)

  datatype LapRow = LapRow(lapNumber: int, crossedAt: real, lapTime: Option<real>, valid: bool,
                           pitStatus: Option<string>, sectors: seq<SectorRow>)

  datatype Output = Nothing | Lap(row: LapRow) | PitUpdate(at: real, status: string)

  const MAX_BUFFERED := 64

  datatype Table = Table(sectors: map<Key, SectorRow>, highest: Option<int>, malformed: nat, unknown: set<string>,
                         restarts: nat, laps: nat, sectorRows: nat)

  const Empty := Table(map[], None, 0, {}, 0, 0, 0)

  // ----- sorting keys --------------------------------------------------------

  lemma {:induction false} LeastExists(s: set<int>)
    requires s != {}
    ensures exists m :: m in s && forall x :: x in s ==> m <= x
  {
    assert (forall x :: x !in s) ==> s == {};
    var m :| m in s;
    if s != {m} {
      LeastExists(s - {m});
      var l :| l in s - {m} && forall x :: x in s - {m} ==> l <= x;
      var low := if m <= l then m else l;
      assert low in s;
      assert forall x :: x in s ==> x == m || x in s - {m};
    }
  }

  function Least(s: set<int>): (m: int)
    requires s != {}
    ensures m in s && forall x :: x in s ==> m <= x
  {
    LeastExists(s);
    var m :| m in s && forall x :: x in s ==> m <= x;
    m
  }

  function Ascending(s: set<int>): (r: seq<int>)
    decreases |s|
  {
    if s == {} then [] else [Least(s)] + Ascending(s - {Least(s)})
  }

  lemma {:induction false} AscendingElements(s: set<int>)
    ensures |Ascending(s)| == |s|
    ensures forall i :: 0 <= i < |Ascending(s)| ==> Ascending(s)[i] in s
    decreases |s|
  {
    if s != {} {
      AscendingElements(s - {Least(s)});
    }
  }

  function Upto(n: nat): (r: seq<int>) { seq(n, i => i + 1) }

  /** Sorting the numbers `a + 1 .. n` gives them in order. */
  lemma {:induction false} AscendingRange(s: set<int>, a: nat, n: nat)
    requires a <= n && forall x :: x in s <==> a < x <= n
    ensures Ascending(s) == Upto(n)[a..]
    decreases n - a
  {
    if a == n {
      assert s == {};
    } else {
      assert a + 1 in s;
      assert Least(s) == a + 1;
      AscendingRange(s - {a + 1}, a + 1, n);
      assert Upto(n)[a..] == [a + 1] + Upto(n)[a + 1..];
    }
  }

  // ----- the machine ---------------------------------------------------------

  /** Sector numbers buffered for one lap. */
  function Buffered(sectors: map<Key, SectorRow>, lap: int): (s: set<int>)
  {
    set k | k in sectors && k.lap == lap :: k.sector
  }

  lemma BufferedIn(sectors: map<Key, SectorRow>, lap: int, x: int)
    ensures x in Buffered(sectors, lap) <==> Key(lap, x) in sectors
  {
    if Key(lap, x) in sectors {
      assert Key(lap, x).sector == x;
    }
  }

  /** The rows of one lap in sector order. */
  function RowsFor(sectors: map<Key, SectorRow>, lap: int): (rows: seq<SectorRow>)
    ensures |rows| == |Buffered(sectors, lap)|
  {
    var numbers := Ascending(Buffered(sectors, lap));
    AscendingElements(Buffered(sectors, lap));
    seq(|numbers|, i requires 0 <= i < |numbers| =>
      (BufferedIn(sectors, lap, numbers[i]); sectors[Key(lap, numbers[i])]))
  }

  /** The least key, by lap and then by sector, which the cap evicts. */
  function Oldest(sectors: map<Key, SectorRow>): (k: Key)
    requires sectors.Keys != {}
    ensures k in sectors
    ensures forall x :: x in sectors ==> k.lap < x.lap || (k.lap == x.lap && k.sector <= x.sector)
  {
    var any :| any in sectors;
    var laps := set k | k in sectors :: k.lap;
    assert any.lap in laps;
    var lap := Least(laps);
    var first :| first in sectors && first.lap == lap;
    assert first.sector in Buffered(sectors, lap);
    var sector := Least(Buffered(sectors, lap));
    BufferedIn(sectors, lap, sector);
    assert forall x :: x in sectors ==> x.lap in laps && (x.lap == lap ==> x.sector in Buffered(sectors, lap));
    Key(lap, sector)
  }

  function MaxOf(a: int, b: Option<int>): int { Max(a, if b.Some? then b.value else 0) }

  /** A lap number going backwards means a rebuilt engine: drop what the old run had buffered. */
  function Adopt(t: Table, lapNumber: int): Table {
    if t.highest.Some? && lapNumber < t.highest.value then
      t.(restarts := t.restarts + 1, sectors := map[], highest := Some(lapNumber))
    else t.(highest := Some(MaxOf(lapNumber, t.highest)))
  }

  function BufferSector(t: Table, p: Payload): Table
    requires p.Payload?
  {
    if p.sector.None? then t.(malformed := t.malformed + 1)
    else
      var kept := if |t.sectors| >= MAX_BUFFERED then t.sectors - {Oldest(t.sectors)} else t.sectors;
      t.(sectors := kept[Key(p.lapNumber, p.sector.value) := SectorRow(p.sector.value, p.splitTime, p.time)])
  }

  function NonEmpty(s: Option<string>): Option<string> { if s == Some("") then None else s }

  function CompleteLap(t: Table, p: Payload): (Table, LapRow)
    requires p.Payload?
  {
    var rows := RowsFor(t.sectors, p.lapNumber);
    (t.(sectors := map k | k in t.sectors && k.lap != p.lapNumber :: t.sectors[k],
        laps := t.laps + 1, sectorRows := t.sectorRows + |rows|),
     LapRow(p.lapNumber, p.time, p.lapTime, if p.valid.Some? then p.valid.value else true, NonEmpty(p.pitStatus), rows))
  }

  function PitStatusOf(p: Payload): string
    requires p.Payload?
  {
    if p.pitStatus.Some? then p.pitStatus.value else if p.kind == PitEntryEvent then "pit_entry" else "pit_exit"
  }

  function Observe(t: Table, p: Payload): (Table, Output)
  {
    match p
    case Malformed => (t.(malformed := t.malformed + 1), Nothing)
    case Payload(kind, time, lapNumber, _, _, _, _, _) =>
      var t' := Adopt(t, lapNumber);
      match kind
      case SectorEvent => (BufferSector(t', p), Nothing)
      case LapEvent => var (t'', row) := CompleteLap(t', p); (t'', Lap(row))
      case PitEntryEvent => (t', PitUpdate(time, PitStatusOf(p)))
      case PitExitEvent => (t', PitUpdate(time, PitStatusOf(p)))
      case Unknown(name) => (t'.(unknown := t'.unknown + {name}), Nothing)
  }

  /** The table after folding all of `ps` into `t`. */
  function Run(t: Table, ps: seq<Payload>): (t': Table)
  {
    if |ps| == 0 then t else Observe(Run(t, ps[..|ps| - 1]), ps[|ps| - 1]).0
  }

  /** The lap rows folding `ps` into `t` gives. */
  function Rows(t: Table, ps: seq<Payload>): (rows: seq<LapRow>)
  {
    if |ps| == 0 then []
    else
      var out := Observe(Run(t, ps[..|ps| - 1]), ps[|ps| - 1]).1;
      Rows(t, ps[..|ps| - 1]) + (if out.Lap? then [out.row] else [])
  }

  lemma {:induction false} RunConcat(t: Table, a: seq<Payload>, b: seq<Payload>)
    ensures Run(t, a + b) == Run(Run(t, a), b)
    ensures Rows(t, a + b) == Rows(t, a) + Rows(Run(t, a), b)
  {
    if |b| == 0 {
      assert a + b == a;
    } else {
      RunConcat(t, a, b[..|b| - 1]);
      assert (a + b)[..|a + b| - 1] == a + b[..|b| - 1];
    }
  }

  // ----- the cap -------------------------------------------------------------

  lemma {:induction false} BufferedCount(sectors: map<Key, SectorRow>, lap: int)
    ensures |Buffered(sectors, lap)| <= |sectors|
    decreases |sectors|
  {
    if k :| k in sectors {
      var rest := sectors - {k};
      BufferedCount(rest, lap);
      forall x ensures x in Buffered(sectors, lap) <==> x in Buffered(rest, lap) || (k.lap == lap && x == k.sector) {
        BufferedIn(sectors, lap, x);
        BufferedIn(rest, lap, x);
      }
      assert Buffered(sectors, lap) == Buffered(rest, lap) + (if k.lap == lap then {k.sector} else {});
    } else {
      assert Buffered(sectors, lap) == {};
    }
  }

  lemma SubmapCount(big: map<Key, SectorRow>, small: map<Key, SectorRow>)
    requires small.Keys <= big.Keys
    ensures |small| <= |big|
  {
    SubsetCount(small.Keys, big.Keys);
  }

  lemma {:induction false} SubsetCount(a: set<Key>, b: set<Key>)
    requires a <= b
    ensures |a| <= |b|
  {
    if k :| k in a {
      SubsetCount(a - {k}, b - {k});
    }
  }

  /** Whatever payloads arrive, the buffer never holds more than the cap. */
  lemma {:induction false} BufferIsCapped(ps: seq<Payload>)
    ensures |Run(Empty, ps).sectors| <= 64
  {
    if |ps| > 0 {
      var t, p := Run(Empty, ps[..|ps| - 1]), ps[|ps| - 1];
      BufferIsCapped(ps[..|ps| - 1]);
      if p.Payload? && p.kind.LapEvent? {
        SubmapCount(Adopt(t, p.lapNumber).sectors, Observe(t, p).0.sectors);
      }
    }
  }

  /** So no lap row ever carries more sectors than the cap, and a longer track never gets a whole one. */
  lemma {:induction false} RowsAreCapped(ps: seq<Payload>, row: LapRow)
    requires row in Rows(Empty, ps)
    ensures |row.sectors| <= 64
  {
    var before, p := ps[..|ps| - 1], ps[|ps| - 1];
    if row in Rows(Empty, before) {
      RowsAreCapped(before, row);
    } else {
      BufferIsCapped(before);
      BufferedCount(Adopt(Run(Empty, before), p.lapNumber).sectors, p.lapNumber);
    }
  }

  // ----- the object ----------------------------------------------------------

  class LapMaterialiser {
    var sectors: map<Key, SectorRow>
    var highest: Option<int>
    var malformed: nat
    var unknown: set<string>
    var restarts: nat
    var laps: nat
    var sectorRows: nat

    function View(): Table
      reads this
    {
      Table(sectors, highest, malformed, unknown, restarts, laps, sectorRows)
    }

    constructor ()
      ensures View() == Empty
    {
      sectors, highest, malformed, unknown, restarts, laps, sectorRows := map[], None, 0, {}, 0, 0, 0;
    }

    /** `_buffer_sector`. */
    method Buffer(p: Payload)
      requires p.Payload?
      modifies this
      ensures View() == BufferSector(old(View()), p)
    {
      if p.sector.None? {
        malformed := malformed + 1;
        return;
      }
      if |sectors| >= MAX_BUFFERED {
        sectors := sectors - {Oldest(sectors)};
      }
      sectors := sectors[Key(p.lapNumber, p.sector.value) := SectorRow(p.sector.value, p.splitTime, p.time)];
    }

    /** `_complete_lap`. */
    method Complete(p: Payload) returns (row: LapRow)
      requires p.Payload?
      modifies this
      ensures (View(), row) == CompleteLap(old(View()), p)
    {
      var rows := RowsFor(sectors, p.lapNumber);
      sectors := map k | k in sectors && k.lap != p.lapNumber :: sectors[k];
      laps := laps + 1;
      sectorRows := sectorRows + |rows|;
      row := LapRow(p.lapNumber, p.time, p.lapTime, if p.valid.Some? then p.valid.value else true,
                    NonEmpty(p.pitStatus), rows);
    }

    /** `observe`. */
    method Fold(p: Payload) returns (out: Output)
      modifies this
      ensures (View(), out) == Observe(old(View()), p)
    {
      out := Nothing;
      if p.Malformed? {
        malformed := malformed + 1;
        return;
      }
      if highest.Some? && p.lapNumber < highest.value {
        restarts := restarts + 1;
        sectors := map[];
        highest := Some(p.lapNumber);
      } else {
        highest := Some(MaxOf(p.lapNumber, highest));
      }
      match p.kind {
        case SectorEvent =>
          Buffer(p);
        case LapEvent =>
          var row := Complete(p);
          out := Lap(row);
        case PitEntryEvent =>
          out := PitUpdate(p.time, PitStatusOf(p));
        case PitExitEvent =>
          out := PitUpdate(p.time, PitStatusOf(p));
        case Unknown(name) =>
          unknown := unknown + {name};
      }
    }
  }
}
