/**
 The sample pipeline (`src/agent/pipeline.py`) and its batcher
 (`src/core/batcher.py`): what one flush emits, what the pit decodes from it,
 and the two objects that do it step by step.
 */
module Pipeline {
  import opened Basics
  import opened Wire
  import opened Rbe
  import opened Batching
  import R = RegistryCache

  /** Monotonic nanoseconds to wall milliseconds. */
  type WallClock = int -> real

  ghost predicate Ready(cfg: Config, w: seq<Entry>) { |w| > 0 && cfg.Valid() && cfg.Knows(w) }

  lemma {:induction false} SourceKnown(cfg: Config, w: seq<Entry>, source: string)
    requires cfg.Knows(w)
    ensures cfg.Knows(OfSource(w, source))
  {
    if |w| > 0 {
      SourceKnown(cfg, w[..|w| - 1], source);
    }
  }

  lemma GroupsOfKnown(cfg: Config, w: seq<Entry>)
    requires cfg.Knows(w)
    ensures GroupsKnown(cfg, GroupAll(w))
  {
    GroupsAreSources(w);
    forall k | 0 <= k < |GroupAll(w)| ensures cfg.Knows(GroupAll(w)[k].entries) {
      SourceKnown(cfg, w, GroupAll(w)[k].source);
    }
  }

  function EpochMs(wall: WallClock, w: seq<Entry>): int
    requires |w| > 0
  {
    Round(wall(w[0].sample.t))
  }

  /** The batches of one window, or the error that discards it. */
  function WindowBatches(cfg: Config, wall: WallClock, w: seq<Entry>): Result<seq<TickBatch>>
    requires Ready(cfg, w)
  {
    GroupsOfKnown(cfg, w);
    EncodeGroups(cfg, EpochMs(wall, w), w[0].sample.t, GroupAll(w))
  }

  ghost predicate AllReady(cfg: Config, ws: seq<seq<Entry>>) { forall k :: 0 <= k < |ws| ==> Ready(cfg, ws[k]) }

  /** Everything emitted for `ws`, window by window. */
  function Emitted(cfg: Config, wall: WallClock, ws: seq<seq<Entry>>): (bs: seq<TickBatch>)
    requires AllReady(cfg, ws)
  {
    if |ws| == 0 then []
    else
      Emitted(cfg, wall, ws[..|ws| - 1]) +
      match WindowBatches(cfg, wall, ws[|ws| - 1]) { case Ok(bs) => bs case Err(_) => [] }
  }

  /** The windows discarded. */
  function Failures(cfg: Config, wall: WallClock, ws: seq<seq<Entry>>): (n: nat)
    requires AllReady(cfg, ws)
  {
    if |ws| == 0 then 0
    else
      Failures(cfg, wall, ws[..|ws| - 1]) + if WindowBatches(cfg, wall, ws[|ws| - 1]).Err? then 1 else 0
  }

  // ----- what a window gives -------------------------------------------------

  lemma {:induction false} SourceInWindow(cfg: Config, epochNs: int, w: seq<Entry>, source: string)
    requires InWindow(cfg, epochNs, w)
    ensures InWindow(cfg, epochNs, OfSource(w, source))
  {
    if |w| > 0 {
      SourceInWindow(cfg, epochNs, w[..|w| - 1], source);
    }
  }

  lemma {:induction false} InSource(w: seq<Entry>, source: string, x: Entry)
    ensures x in OfSource(w, source) <==> x in w && x.source == source
  {
    if |w| > 0 {
      InSource(w[..|w| - 1], source, x);
      assert w == w[..|w| - 1] + [w[|w| - 1]];
    }
  }

  /**
   A well-cut window never fails the batcher's window check: it is discarded
   exactly when some value in it is one its channel cannot carry. Otherwise there is one
   batch per source class, carrying exactly that class's entries in order.
   */
  lemma WindowOutcome(cfg: Config, wall: WallClock, w: seq<Entry>)
    requires Ready(cfg, w) && WellCut(w, cfg.TickNs())
    ensures WindowBatches(cfg, wall, w).Ok? <==> AllEncodable(cfg, w)
    ensures Grouped(GroupAll(w), w) && GroupsKnown(cfg, GroupAll(w))
    ensures AllEncodable(cfg, w) ==>
      var bs, gs := WindowBatches(cfg, wall, w).value, GroupAll(w);
      |bs| == |gs| && forall k :: 0 <= k < |gs| ==> Carries(cfg, EpochMs(wall, w), w[0].sample.t, bs[k], gs[k])
  {
    var gs := GroupAll(w);
    GroupsAreSources(w);
    GroupsOfKnown(cfg, w);
    assert InWindow(cfg, w[0].sample.t, w);
    forall k | 0 <= k < |gs| ensures InWindow(cfg, w[0].sample.t, gs[k].entries) {
      SourceInWindow(cfg, w[0].sample.t, w, gs[k].source);
    }
    GroupsEncodeIff(cfg, EpochMs(wall, w), w[0].sample.t, gs);
    EncodableByGroups(cfg, w, gs);
    if AllEncodable(cfg, w) {
      GroupsEncode(cfg, EpochMs(wall, w), w[0].sample.t, gs);
    }
  }

  lemma EncodableByGroups(cfg: Config, w: seq<Entry>, gs: seq<Group>)
    requires cfg.Valid() && cfg.Knows(w) && Grouped(gs, w) && GroupsKnown(cfg, gs)
    ensures AllEncodable(cfg, w) <==> forall k :: 0 <= k < |gs| ==> AllEncodable(cfg, gs[k].entries)
  {
    if AllEncodable(cfg, w) {
      forall k, i | 0 <= k < |gs| && 0 <= i < |gs[k].entries| ensures Encodable(cfg, gs[k].entries[i]) {
        InSource(w, gs[k].source, gs[k].entries[i]);
        var j :| 0 <= j < |w| && w[j] == gs[k].entries[i];
      }
    }
    if forall k :: 0 <= k < |gs| ==> AllEncodable(cfg, gs[k].entries) {
      forall j | 0 <= j < |w| ensures Encodable(cfg, w[j]) {
        var k :| 0 <= k < |gs| && gs[k].source == w[j].source;
        InSource(w, gs[k].source, w[j]);
        var i :| 0 <= i < |gs[k].entries| && gs[k].entries[i] == w[j];
      }
    }
  }

  // ----- what a flush gives --------------------------------------------------

  lemma {:induction false} FlattenKnown(cfg: Config, ws: seq<seq<Entry>>)
    requires cfg.Valid() && cfg.Knows(Flatten(ws)) && forall k :: 0 <= k < |ws| ==> |ws[k]| > 0
    ensures AllReady(cfg, ws)
  {
    if |ws| > 0 {
      var all := Flatten(ws);
      assert forall k :: 0 <= k < |ws[0]| ==> ws[0][k] == all[k];
      assert forall k :: 0 <= k < |Flatten(ws[1..])| ==> Flatten(ws[1..])[k] == all[|ws[0]| + k];
      FlattenKnown(cfg, ws[1..]);
    }
  }

  /** The windows a flush of `staged` works through. */
  function FlushWindows(cfg: Config, staged: seq<Entry>): seq<seq<Entry>>
    requires cfg.TickNs() > 0
  {
    Windows(Sort(staged), 0, cfg.TickNs())
  }

  /**
   For every staged list: the windows partition it, sorted by stamp; each is
   less than a tick long and opens at least a tick after the one before; so
   every one is ready for the batcher.
   */
  lemma FlushPartitions(cfg: Config, staged: seq<Entry>)
    requires cfg.Valid() && cfg.Knows(staged)
    ensures var ws := FlushWindows(cfg, staged);
            && Flatten(ws) == Sort(staged) && multiset(Flatten(ws)) == multiset(staged)
            && AllWellCut(ws, cfg.tickMs * 1_000_000) && AllReady(cfg, ws)
  {
    var sorted, ws := Sort(staged), FlushWindows(cfg, staged);
    SortOrders(staged);
    WindowsPartition(sorted, 0, cfg.TickNs());
    assert sorted[0..] == sorted;
    WindowsWellCut(sorted, 0, cfg.TickNs());
    forall k | 0 <= k < |sorted| ensures sorted[k].channel in cfg.codings {
      assert sorted[k] in multiset(sorted);
      assert sorted[k] in staged;
    }
    FlattenKnown(cfg, ws);
  }

  lemma {:induction false} FlattenSnoc(ws: seq<seq<Entry>>, w: seq<Entry>)
    ensures Flatten(ws + [w]) == Flatten(ws) + w
  {
    if |ws| == 0 {
      assert ws + [w] == [w] && [w][1..] == [];
    } else {
      FlattenSnoc(ws[1..], w);
      assert (ws + [w])[1..] == ws[1..] + [w];
    }
  }

  /** The groups behind the emitted batches, and the entries of the discarded windows. */
  function Behind(cfg: Config, wall: WallClock, ws: seq<seq<Entry>>): (gs: seq<Group>)
    requires AllReady(cfg, ws)
  {
    if |ws| == 0 then []
    else
      Behind(cfg, wall, ws[..|ws| - 1]) +
      if WindowBatches(cfg, wall, ws[|ws| - 1]).Ok? then GroupAll(ws[|ws| - 1]) else []
  }

  function Lost(cfg: Config, wall: WallClock, ws: seq<seq<Entry>>): (s: seq<Entry>)
    requires AllReady(cfg, ws)
  {
    if |ws| == 0 then []
    else
      Lost(cfg, wall, ws[..|ws| - 1]) +
      if WindowBatches(cfg, wall, ws[|ws| - 1]).Ok? then [] else ws[|ws| - 1]
  }

  /** Batch by batch, what was emitted carries `gs`. */
  ghost predicate AllCarry(cfg: Config, bs: seq<TickBatch>, gs: seq<Group>) {
    && cfg.Valid() && |bs| == |gs| && GroupsKnown(cfg, gs)
    && forall k :: 0 <= k < |bs| ==> Carries(cfg, bs[k].epochUnixMs, bs[k].epochMonoNs, bs[k], gs[k])
  }

  lemma WindowCarries(cfg: Config, wall: WallClock, w: seq<Entry>)
    requires Ready(cfg, w) && WellCut(w, cfg.TickNs()) && WindowBatches(cfg, wall, w).Ok?
    ensures AllCarry(cfg, WindowBatches(cfg, wall, w).value, GroupAll(w))
  {
    WindowOutcome(cfg, wall, w);
    var bs, gs := WindowBatches(cfg, wall, w).value, GroupAll(w);
    forall k | 0 <= k < |bs| ensures Carries(cfg, bs[k].epochUnixMs, bs[k].epochMonoNs, bs[k], gs[k]) {
      assert Carries(cfg, EpochMs(wall, w), w[0].sample.t, bs[k], gs[k]);
    }
  }

  lemma AllCarryConcat(cfg: Config, bs: seq<TickBatch>, gs: seq<Group>, bs': seq<TickBatch>, gs': seq<Group>)
    requires AllCarry(cfg, bs, gs) && AllCarry(cfg, bs', gs')
    ensures AllCarry(cfg, bs + bs', gs + gs')
  {
  }

  lemma Associates(x: seq<Entry>, y: seq<Entry>, z: seq<Entry>)
    ensures x + (y + z) == (x + y) + z
  {
  }

  lemma {:induction false} UngroupConcat(a: seq<Group>, b: seq<Group>)
    ensures Ungroup(a + b) == Ungroup(a) + Ungroup(b)
  {
    if |a| == 0 {
      assert a + b == b;
    } else {
      UngroupConcat(a[1..], b);
      assert (a + b)[1..] == a[1..] + b && (a + b)[0] == a[0];
      Associates(a[0].entries, Ungroup(a[1..]), Ungroup(b));
    }
  }

  lemma {:induction false} EmittedCarry(cfg: Config, wall: WallClock, ws: seq<seq<Entry>>)
    requires cfg.Valid() && AllReady(cfg, ws) && AllWellCut(ws, cfg.TickNs())
    ensures AllCarry(cfg, Emitted(cfg, wall, ws), Behind(cfg, wall, ws))
  {
    if |ws| > 0 {
      var front, w := ws[..|ws| - 1], ws[|ws| - 1];
      EmittedCarry(cfg, wall, front);
      if WindowBatches(cfg, wall, w).Ok? {
        WindowCarries(cfg, wall, w);
        AllCarryConcat(cfg, Emitted(cfg, wall, front), Behind(cfg, wall, front),
                       WindowBatches(cfg, wall, w).value, GroupAll(w));
      }
    }
  }

  lemma {:induction false} WindowsPermute(cfg: Config, wall: WallClock, ws: seq<seq<Entry>>)
    requires AllReady(cfg, ws)
    ensures Permutes(Behind(cfg, wall, ws), Lost(cfg, wall, ws), Flatten(ws))
  {
    if |ws| > 0 {
      var front, w := ws[..|ws| - 1], ws[|ws| - 1];
      WindowsPermute(cfg, wall, front);
      FlattenLast(ws);
      WindowStep(cfg, wall, ws);
      PermuteStep(Behind(cfg, wall, front), Lost(cfg, wall, front), Flatten(front), w,
                  Behind(cfg, wall, ws), Lost(cfg, wall, ws));
    }
  }

  lemma FlattenLast(ws: seq<seq<Entry>>)
    requires |ws| > 0
    ensures Flatten(ws) == Flatten(ws[..|ws| - 1]) + ws[|ws| - 1]
  {
    FlattenSnoc(ws[..|ws| - 1], ws[|ws| - 1]);
    assert ws == ws[..|ws| - 1] + [ws[|ws| - 1]];
  }

  /** The last window was kept as a whole or lost as a whole. */
  ghost predicate KeptOrLost(kept: seq<Group>, lost: seq<Entry>, w: seq<Entry>, kept': seq<Group>, lost': seq<Entry>) {
    || (kept' == kept + GroupAll(w) && lost' == lost)
    || (kept' == kept && lost' == lost + w)
  }

  lemma WindowStep(cfg: Config, wall: WallClock, ws: seq<seq<Entry>>)
    requires AllReady(cfg, ws) && |ws| > 0
    ensures var front := ws[..|ws| - 1];
            KeptOrLost(Behind(cfg, wall, front), Lost(cfg, wall, front), ws[|ws| - 1],
                       Behind(cfg, wall, ws), Lost(cfg, wall, ws))
  {
    var front := ws[..|ws| - 1];
    assert Behind(cfg, wall, front) + [] == Behind(cfg, wall, front);
    assert Lost(cfg, wall, front) + [] == Lost(cfg, wall, front);
  }

  ghost predicate Permutes(kept: seq<Group>, lost: seq<Entry>, all: seq<Entry>) {
    multiset(Ungroup(kept)) + multiset(lost) == multiset(all)
  }

  /** One more window, kept or lost as a whole. */
  lemma PermuteStep(kept: seq<Group>, lost: seq<Entry>, all: seq<Entry>, w: seq<Entry>, kept': seq<Group>, lost': seq<Entry>)
    requires Permutes(kept, lost, all) && KeptOrLost(kept, lost, w, kept', lost')
    ensures Permutes(kept', lost', all + w)
  {
    GroupingKeepsAll(w);
    UngroupConcat(kept, GroupAll(w));
  }

  /**
   For every staged list: the entries behind the emitted batches, each encoded
   in its batch in order, together with the entries of the discarded windows,
   are a permutation of the staged ones.
   */
  lemma FlushPermutes(cfg: Config, wall: WallClock, staged: seq<Entry>)
    requires cfg.Valid() && cfg.Knows(staged)
    ensures AllReady(cfg, FlushWindows(cfg, staged))
    ensures var ws := FlushWindows(cfg, staged);
      && AllCarry(cfg, Emitted(cfg, wall, ws), Behind(cfg, wall, ws))
      && Permutes(Behind(cfg, wall, ws), Lost(cfg, wall, ws), staged)
  {
    FlushPartitions(cfg, staged);
    EmittedCarry(cfg, wall, FlushWindows(cfg, staged));
    WindowsPermute(cfg, wall, FlushWindows(cfg, staged));
  }

  /**
   Batch `b` of a flush of `all`, with the entries `g` behind it: in stamp
   order, and entries of one stamp as that stamp's entries of the source class
   were staged.
   */
  ghost predicate InIngestOrder(cfg: Config, all: seq<Entry>, b: TickBatch, g: Group) {
    && b.source == g.source && Ordered(g.entries)
    && forall t :: b.epochMonoNs <= t < b.epochMonoNs + cfg.TickNs() ==> At(g.entries, t) == OfSource(At(all, t), b.source)
  }

  ghost predicate AllInIngestOrder(cfg: Config, all: seq<Entry>, bs: seq<TickBatch>, gs: seq<Group>) {
    |bs| == |gs| && forall k :: 0 <= k < |bs| ==> InIngestOrder(cfg, all, bs[k], gs[k])
  }

  lemma WindowInIngestOrder(cfg: Config, wall: WallClock, w: seq<Entry>, all: seq<Entry>)
    requires Ready(cfg, w) && WellCut(w, cfg.TickNs()) && Captures(w, all, cfg.TickNs()) && WindowBatches(cfg, wall, w).Ok?
    ensures AllInIngestOrder(cfg, all, WindowBatches(cfg, wall, w).value, GroupAll(w))
  {
    WindowOutcome(cfg, wall, w);
    var bs, gs := WindowBatches(cfg, wall, w).value, GroupAll(w);
    forall k | 0 <= k < |bs| ensures InIngestOrder(cfg, all, bs[k], gs[k]) {
      assert Carries(cfg, EpochMs(wall, w), w[0].sample.t, bs[k], gs[k]);
      OfSourceOrdered(w, gs[k].source);
      SourceCaptures(w, all, cfg.TickNs(), gs[k].source);
    }
  }

  lemma {:induction false} EmittedInIngestOrder(cfg: Config, wall: WallClock, ws: seq<seq<Entry>>, all: seq<Entry>)
    requires AllReady(cfg, ws) && AllWellCut(ws, cfg.TickNs())
    requires forall k :: 0 <= k < |ws| ==> Captures(ws[k], all, cfg.TickNs())
    ensures AllInIngestOrder(cfg, all, Emitted(cfg, wall, ws), Behind(cfg, wall, ws))
  {
    if |ws| > 0 {
      EmittedInIngestOrder(cfg, wall, ws[..|ws| - 1], all);
      if WindowBatches(cfg, wall, ws[|ws| - 1]).Ok? {
        WindowInIngestOrder(cfg, wall, ws[|ws| - 1], all);
      }
    }
  }

  /** Every batch of every flush is in stamp order, with equal stamps in ingest order. */
  lemma BatchesInIngestOrder(cfg: Config, wall: WallClock, staged: seq<Entry>)
    requires cfg.Valid() && cfg.Knows(staged)
    ensures AllReady(cfg, FlushWindows(cfg, staged))
    ensures var ws := FlushWindows(cfg, staged);
            AllInIngestOrder(cfg, staged, Emitted(cfg, wall, ws), Behind(cfg, wall, ws))
  {
    FlushPartitions(cfg, staged);
    var ws := FlushWindows(cfg, staged);
    forall k | 0 <= k < |ws| ensures Captures(ws[k], staged, cfg.TickNs()) {
      WindowCaptures(ws, k, cfg.TickNs());
      forall t ensures At(Sort(staged), t) == At(staged, t) {
        SortIsStable(staged, t);
      }
    }
    EmittedInIngestOrder(cfg, wall, ws, staged);
  }

  // ----- message ids ---------------------------------------------------------

  /** Wall time advances one millisecond per million monotonic nanoseconds. */
  ghost predicate UnitRate(wall: WallClock) {
    forall t: int, u: int {:trigger wall(t), wall(u)} :: wall(u) - wall(t) == (u - t) as real / 1000000.0
  }

  ghost predicate IdsUpTo(bs: seq<TickBatch>, m: int) { forall k :: 0 <= k < |bs| ==> bs[k].msgId.epochUnixMs <= m }

  ghost predicate DistinctIds(bs: seq<TickBatch>) {
    forall i, j :: 0 <= i < j < |bs| ==> bs[i].msgId != bs[j].msgId
  }

  /** Epochs more than a millisecond apart get different, later milliseconds. */
  lemma EpochsSeparate(wall: WallClock, t: int, u: int)
    requires UnitRate(wall) && u - t > 1_000_000
    ensures Round(wall(t)) < Round(wall(u))
  {
    assert wall(u) - wall(t) == (u - t) as real / 1000000.0;
    RoundSeparates(wall(t), wall(u));
  }

  lemma WindowIds(cfg: Config, wall: WallClock, w: seq<Entry>)
    requires Ready(cfg, w) && WellCut(w, cfg.TickNs()) && WindowBatches(cfg, wall, w).Ok?
    ensures var bs := WindowBatches(cfg, wall, w).value;
            DistinctIds(bs) && forall k :: 0 <= k < |bs| ==> bs[k].msgId.epochUnixMs == EpochMs(wall, w)
  {
    WindowOutcome(cfg, wall, w);
    var bs, gs := WindowBatches(cfg, wall, w).value, GroupAll(w);
    forall i, j | 0 <= i < j < |bs| ensures bs[i].msgId != bs[j].msgId {
      assert Carries(cfg, EpochMs(wall, w), w[0].sample.t, bs[i], gs[i]);
      assert Carries(cfg, EpochMs(wall, w), w[0].sample.t, bs[j], gs[j]);
    }
    forall k | 0 <= k < |bs| ensures bs[k].msgId.epochUnixMs == EpochMs(wall, w) {
      assert Carries(cfg, EpochMs(wall, w), w[0].sample.t, bs[k], gs[k]);
    }
  }

  lemma DistinctConcat(a: seq<TickBatch>, b: seq<TickBatch>, m: int, n: int)
    requires DistinctIds(a) && DistinctIds(b) && IdsUpTo(a, m) && m < n
    requires forall k :: 0 <= k < |b| ==> b[k].msgId.epochUnixMs == n
    ensures DistinctIds(a + b) && IdsUpTo(a + b, n)
  {
  }

  /** Under a unit-rate wall clock all message ids of one flush are distinct. */
  lemma {:induction false} FlushIdsDistinct(cfg: Config, wall: WallClock, ws: seq<seq<Entry>>)
    requires UnitRate(wall) && AllReady(cfg, ws) && AllWellCut(ws, cfg.TickNs()) && |ws| > 0
    ensures DistinctIds(Emitted(cfg, wall, ws))
    ensures IdsUpTo(Emitted(cfg, wall, ws), EpochMs(wall, ws[|ws| - 1]))
  {
    var last := |ws| - 1;
    var front, w := ws[..last], ws[last];
    var made := match WindowBatches(cfg, wall, w) { case Ok(bs) => bs case Err(_) => [] };
    if made != [] {
      WindowIds(cfg, wall, w);
    }
    if last > 0 {
      FlushIdsDistinct(cfg, wall, front);
      assert cfg.TickNs() >= 10_000_000;
      assert ws[last][0].sample.t - ws[last - 1][0].sample.t >= cfg.TickNs();
      EpochsSeparate(wall, ws[last - 1][0].sample.t, w[0].sample.t);
      DistinctConcat(Emitted(cfg, wall, front), made, EpochMs(wall, ws[last - 1]), EpochMs(wall, w));
    } else {
      assert Emitted(cfg, wall, front) == [];
      assert Emitted(cfg, wall, ws) == made;
    }
  }

  /** Two flushes share no id if the second starts more than a millisecond after the first's last window opened. */
  lemma LaterFlushSharesNoId(cfg: Config, wall: WallClock, ws: seq<seq<Entry>>, w: seq<Entry>, i: nat, k: nat)
    requires UnitRate(wall) && AllReady(cfg, ws) && AllWellCut(ws, cfg.TickNs()) && |ws| > 0
    requires Ready(cfg, w) && WellCut(w, cfg.TickNs()) && WindowBatches(cfg, wall, w).Ok?
    requires w[0].sample.t - ws[|ws| - 1][0].sample.t > 1_000_000
    requires i < |Emitted(cfg, wall, ws)| && k < |WindowBatches(cfg, wall, w).value|
    ensures Emitted(cfg, wall, ws)[i].msgId != WindowBatches(cfg, wall, w).value[k].msgId
  {
    FlushIdsDistinct(cfg, wall, ws);
    WindowIds(cfg, wall, w);
    EpochsSeparate(wall, ws[|ws| - 1][0].sample.t, w[0].sample.t);
  }

  /** Some batch of `v` has the id of some batch of `w`. */
  ghost predicate Collide(cfg: Config, wall: WallClock, v: seq<Entry>, w: seq<Entry>)
    requires Ready(cfg, v) && Ready(cfg, w) && WindowBatches(cfg, wall, v).Ok? && WindowBatches(cfg, wall, w).Ok?
  {
    exists id :: HasId(WindowBatches(cfg, wall, v).value, id) && HasId(WindowBatches(cfg, wall, w).value, id)
  }

  ghost predicate HasId(bs: seq<TickBatch>, id: MsgId) { exists k :: 0 <= k < |bs| && bs[k].msgId == id }

  ghost predicate FromSource(w: seq<Entry>, source: string) { exists k :: 0 <= k < |w| && w[k].source == source }

  /** A window's ids are its source classes with its epoch. */
  lemma IdsOfWindow(cfg: Config, wall: WallClock, w: seq<Entry>, id: MsgId)
    requires Ready(cfg, w) && WellCut(w, cfg.TickNs()) && WindowBatches(cfg, wall, w).Ok?
    ensures HasId(WindowBatches(cfg, wall, w).value, id) <==> id.epochUnixMs == EpochMs(wall, w) && FromSource(w, id.source)
  {
    WindowOutcome(cfg, wall, w);
    var bs, gs := WindowBatches(cfg, wall, w).value, GroupAll(w);
    if HasId(bs, id) {
      var k :| 0 <= k < |bs| && bs[k].msgId == id;
      assert Carries(cfg, EpochMs(wall, w), w[0].sample.t, bs[k], gs[k]);
      InSource(w, gs[k].source, gs[k].entries[0]);
    }
    if id.epochUnixMs == EpochMs(wall, w) && FromSource(w, id.source) {
      var i :| 0 <= i < |w| && w[i].source == id.source;
      var k :| 0 <= k < |gs| && gs[k].source == w[i].source;
      assert Carries(cfg, EpochMs(wall, w), w[0].sample.t, bs[k], gs[k]);
      assert bs[k].msgId == id;
    }
  }

  /** Windows of any two flushes collide exactly if they open in one rounded millisecond and share a source class. */
  lemma CollideIffSameMillisecond(cfg: Config, wall: WallClock, v: seq<Entry>, w: seq<Entry>)
    requires Ready(cfg, v) && Ready(cfg, w) && WellCut(v, cfg.TickNs()) && WellCut(w, cfg.TickNs())
    requires WindowBatches(cfg, wall, v).Ok? && WindowBatches(cfg, wall, w).Ok?
    ensures Collide(cfg, wall, v, w) <==>
            EpochMs(wall, v) == EpochMs(wall, w) && exists source :: FromSource(v, source) && FromSource(w, source)
  {
    if Collide(cfg, wall, v, w) {
      var id :| HasId(WindowBatches(cfg, wall, v).value, id) && HasId(WindowBatches(cfg, wall, w).value, id);
      IdsOfWindow(cfg, wall, v, id);
      IdsOfWindow(cfg, wall, w, id);
    }
    if source :| EpochMs(wall, v) == EpochMs(wall, w) && FromSource(v, source) && FromSource(w, source) {
      IdsOfWindow(cfg, wall, v, MsgId(source, EpochMs(wall, v)));
      IdsOfWindow(cfg, wall, w, MsgId(source, EpochMs(wall, v)));
    }
  }

  /** And they can: stamps 0.6 ms and 1.4 ms, staged for different flushes, both become millisecond 1. */
  lemma NextFlushCanCollide(cfg: Config, wall: WallClock, a: Entry, b: Entry)
    requires cfg.Valid() && a.channel in cfg.codings && b.channel in cfg.codings
    requires Encodable(cfg, a) && Encodable(cfg, b) && a.source == b.source
    requires wall(600_000) == 0.6 && wall(1_400_000) == 1.4 && a.sample.t == 600_000 && b.sample.t == 1_400_000
    ensures AllReady(cfg, FlushWindows(cfg, [a])) && AllReady(cfg, FlushWindows(cfg, [b]))
    ensures HasId(Emitted(cfg, wall, FlushWindows(cfg, [a])), MsgId(a.source, 1))
    ensures HasId(Emitted(cfg, wall, FlushWindows(cfg, [b])), MsgId(a.source, 1))
  {
    BothRoundToOne();
    FlushOfOne(cfg, wall, a);
    FlushOfOne(cfg, wall, b);
  }

  /** A flush of one staged entry emits one window's batches, with the entry's source and millisecond for an id. */
  lemma FlushOfOne(cfg: Config, wall: WallClock, x: Entry)
    requires cfg.Valid() && x.channel in cfg.codings && Encodable(cfg, x)
    ensures AllReady(cfg, FlushWindows(cfg, [x]))
    ensures HasId(Emitted(cfg, wall, FlushWindows(cfg, [x])), MsgId(x.source, Round(wall(x.sample.t))))
  {
    var w := OneEntry(cfg, wall, x);
    OneWindow(w, cfg.TickNs());
    assert FlushWindows(cfg, [x]) == [w];
    IdsOfWindow(cfg, wall, w, MsgId(x.source, Round(wall(x.sample.t))));
    EmittedOfOne(cfg, wall, w);
  }

  lemma EmittedOfOne(cfg: Config, wall: WallClock, w: seq<Entry>)
    requires Ready(cfg, w) && WindowBatches(cfg, wall, w).Ok?
    ensures Emitted(cfg, wall, [w]) == WindowBatches(cfg, wall, w).value
  {
    var ws := [w];
    assert ws[..0] == [] && Emitted(cfg, wall, ws[..0]) == [];
    assert Emitted(cfg, wall, ws) == [] + WindowBatches(cfg, wall, w).value;
  }

  lemma OneWindow(w: seq<Entry>, tickNs: int)
    requires |w| == 1 && tickNs > 0
    ensures Windows(Sort(w), 0, tickNs) == [w]
  {
    var x := w[0];
    assert w == [x] && w[..0] == [];
    assert Sort(w) == Insert(Sort(w[..0]), x) == Insert([], x) == [] + [x] == w;
    assert Windows(w, 1, tickNs) == [] && w[0..1] == w;
    assert WindowEnd(w, 1, x.sample.t, tickNs) == 1;
    assert Windows(w, 0, tickNs) == [w] + [];
  }

  lemma OneEntry(cfg: Config, wall: WallClock, x: Entry) returns (w: seq<Entry>)
    requires cfg.Valid() && x.channel in cfg.codings && Encodable(cfg, x)
    ensures w == [x] && Ready(cfg, w) && WellCut(w, cfg.TickNs()) && WindowBatches(cfg, wall, w).Ok?
    ensures FromSource(w, x.source) && EpochMs(wall, w) == Round(wall(x.sample.t))
  {
    w := [x];
    WindowOutcome(cfg, wall, w);
    assert w[0].source == x.source;
  }

  lemma BothRoundToOne()
    ensures Round(0.6) == 1 && Round(1.4) == 1
  {
  }

  // ----- decoding what was emitted -------------------------------------------

  /** The pit's channels of this generation agree with the vehicle's codings. */
  ghost predicate Agree(cfg: Config, channels: map<nat, Channel>) {
    forall id :: id in cfg.codings ==> id in channels && channels[id].id == id && channels[id].coding == cfg.codings[id]
  }

  /** What the pit sees of an entry: its channel as registered, and what was measured. */
  ghost predicate Recovered(cfg: Config, wall: WallClock, channels: map<nat, Channel>, x: Entry, d: R.DecodedSample)
    requires x.channel in cfg.codings
  {
    x.channel in channels && d.channel == channels[x.channel] && Measured(cfg, wall, x, d)
  }

  /** The value to within the coding, the time to within 0.501 ms. */
  ghost predicate Measured(cfg: Config, wall: WallClock, x: Entry, d: R.DecodedSample)
    requires x.channel in cfg.codings
  {
    && d.value.Some? && Faithful(x.sample.value, cfg.codings[x.channel], d.value.value)
    && Abs(d.captureMs - wall(x.sample.t)) <= 0.501
  }

  lemma CaptureTime(wall: WallClock, epochNs: int, t: int)
    requires UnitRate(wall) && t >= epochNs
    ensures Abs(Round(wall(epochNs)) as real + ((t - epochNs) / 1000) as real / 1000.0 - wall(t)) <= 0.501
  {
    var off := t - epochNs;
    assert wall(t) - wall(epochNs) == off as real / 1000000.0;
    var us := off / 1000;
    assert us * 1000 <= off < us * 1000 + 1000;
    assert (us * 1000) as real == us as real * 1000.0;
  }

  lemma EntryRecovered(cfg: Config, wall: WallClock, epochNs: int, x: Entry, channels: map<nat, Channel>)
    requires cfg.Valid() && x.channel in cfg.codings && Agree(cfg, channels) && UnitRate(wall)
    requires EncodeEntry(cfg, epochNs, x).Ok?
    ensures var ws := EncodeEntry(cfg, epochNs, x).value;
            && ws.channelId in channels
            && Recovered(cfg, wall, channels, x, R.DecodeOne(channels, Round(wall(epochNs)), ws))
  {
    RoundTrip(x.sample.value, cfg.codings[x.channel]);
    CaptureTime(wall, epochNs, x.sample.t);
  }

  lemma {:induction false} EntriesRecovered(cfg: Config, wall: WallClock, epochNs: int, es: seq<Entry>, channels: map<nat, Channel>)
    requires cfg.Valid() && cfg.Knows(es) && Agree(cfg, channels) && UnitRate(wall)
    requires EncodeEntries(cfg, epochNs, es).Ok?
    ensures AllRecovered(cfg, wall, channels, es, R.DecodeSamples(channels, Round(wall(epochNs)), EncodeEntries(cfg, epochNs, es).value))
  {
    if |es| > 0 {
      var front, x := es[..|es| - 1], es[|es| - 1];
      EntriesRecovered(cfg, wall, epochNs, front, channels);
      EntryRecovered(cfg, wall, epochNs, x, channels);
      var samples, last := EncodeEntries(cfg, epochNs, front).value, EncodeEntry(cfg, epochNs, x).value;
      R.DecodeSnoc(channels, Round(wall(epochNs)), samples, last);
      RecoveredSnoc(cfg, wall, channels, front, R.DecodeSamples(channels, Round(wall(epochNs)), samples),
                    x, R.DecodeOne(channels, Round(wall(epochNs)), last));
      assert es == front + [x];
    }
  }

  ghost predicate AllRecovered(cfg: Config, wall: WallClock, channels: map<nat, Channel>, es: seq<Entry>, ds: seq<R.DecodedSample>)
    requires cfg.Knows(es)
  {
    |ds| == |es| && forall k :: 0 <= k < |es| ==> Recovered(cfg, wall, channels, es[k], ds[k])
  }

  lemma RecoveredSnoc(cfg: Config, wall: WallClock, channels: map<nat, Channel>, es: seq<Entry>, ds: seq<R.DecodedSample>,
                      x: Entry, d: R.DecodedSample)
    requires cfg.Knows(es) && x.channel in cfg.codings
    requires AllRecovered(cfg, wall, channels, es, ds) && Recovered(cfg, wall, channels, x, d)
    ensures cfg.Knows(es + [x]) && AllRecovered(cfg, wall, channels, es + [x], ds + [d])
  {
  }

  /** Decoding an emitted batch against the same generation recovers its source class's entries, all and in order. */
  lemma {:induction false} BatchRecovered(cfg: Config, wall: WallClock, w: seq<Entry>, k: nat, g: R.Generations)
    requires Ready(cfg, w) && WellCut(w, cfg.TickNs()) && UnitRate(wall)
    requires WindowBatches(cfg, wall, w).Ok? && k < |WindowBatches(cfg, wall, w).value|
    requires cfg.registrySeq in g && Agree(cfg, g[cfg.registrySeq])
    ensures var b := WindowBatches(cfg, wall, w).value[k];
            var mine := OfSource(w, b.source);
            var r := R.DecodeBatch(g, b.payload);
            && cfg.Knows(mine)
            && r.Decoded? && r.batch.registrySeq == cfg.registrySeq
            && r.batch.epochUnixMs == EpochMs(wall, w) && r.batch.epochMonoNs == w[0].sample.t
            && |r.batch.samples| == |mine|
            && forall i :: 0 <= i < |mine| ==> Recovered(cfg, wall, g[cfg.registrySeq], mine[i], r.batch.samples[i])
  {
    WindowOutcome(cfg, wall, w);
    var b, group := WindowBatches(cfg, wall, w).value[k], GroupAll(w)[k];
    assert Carries(cfg, EpochMs(wall, w), w[0].sample.t, b, group);
    EntriesRecovered(cfg, wall, w[0].sample.t, group.entries, g[cfg.registrySeq]);
  }

  // ----- the objects ---------------------------------------------------------

  class Batcher {
    const cfg: Config
    var pending: seq<Group>

    constructor (cfg: Config)
      requires cfg.Valid()
      ensures this.cfg == cfg && pending == []
    {
      this.cfg, pending := cfg, [];
    }

    /** `add`; an unknown channel id is refused (KeyError). */
    method Add(x: Entry) returns (ok: bool)
      modifies this
      ensures ok == (x.channel in cfg.codings)
      ensures pending == if ok then AddTo(old(pending), x) else old(pending)
    {
      if x.channel !in cfg.codings {
        return false;
      }
      var k := 0;
      while k < |pending| && pending[k].source != x.source
        invariant 0 <= k <= |pending|
        invariant pending[..k] + AddTo(pending[k..], x) == AddTo(pending, x)
      {
        assert pending[k..][1..] == pending[k + 1..];
        k := k + 1;
      }
      if k < |pending| {
        assert pending[k..][1..] == pending[k + 1..];
        pending := pending[k := Group(x.source, pending[k].entries + [x])];
      } else {
        assert pending[k..] == [];
        pending := pending + [Group(x.source, [x])];
      }
      return true;
    }

    /** `tick`: the pending window is taken whether or not it encodes. */
    method Tick(epochMs: int, epochNs: int) returns (r: Result<seq<TickBatch>>)
      requires cfg.Valid() && GroupsKnown(cfg, pending)
      modifies this
      ensures r == EncodeGroups(cfg, epochMs, epochNs, old(pending)) && pending == []
    {
      var groups := pending;
      pending := [];
      var emitted: seq<TickBatch> := [];
      for i := 0 to |groups|
        invariant EncodeGroups(cfg, epochMs, epochNs, groups[..i]) == Ok(emitted)
        invariant pending == []
      {
        assert groups[..i + 1][..i] == groups[..i];
        var samples := EncodeGroup(epochNs, groups[i].entries);
        if samples.Err? {
          assert EncodeGroups(cfg, epochMs, epochNs, groups[..i + 1]) == Err(samples.error);
          EncodeGroupsFails(cfg, epochMs, epochNs, groups, i + 1);
          return Err(samples.error);
        }
        emitted := emitted + [TickBatch(groups[i].source, SampleBatch(cfg.registrySeq, epochMs, epochNs, 1, samples.value),
                                        epochMs, epochNs, MsgId(groups[i].source, epochMs))];
      }
      assert groups[..|groups|] == groups;
      r := Ok(emitted);
    }

    method EncodeGroup(epochNs: int, es: seq<Entry>) returns (r: Result<seq<WireSample>>)
      requires cfg.Valid() && cfg.Knows(es)
      ensures r == EncodeEntries(cfg, epochNs, es)
    {
      var samples: seq<WireSample> := [];
      for i := 0 to |es|
        invariant EncodeEntries(cfg, epochNs, es[..i]) == Ok(samples)
      {
        assert es[..i + 1][..i] == es[..i];
        var s := EncodeEntry(cfg, epochNs, es[i]);
        if s.Err? {
          assert EncodeEntries(cfg, epochNs, es[..i + 1]) == Err(s.error);
          EncodeEntriesFails(cfg, epochNs, es, i + 1);
          return Err(s.error);
        }
        samples := samples + [s.value];
      }
      assert es[..|es|] == es;
      r := Ok(samples);
    }
  }

  /** A failure on a prefix is the failure of the whole. */
  lemma {:induction false} EncodeEntriesFails(cfg: Config, epochNs: int, es: seq<Entry>, n: nat)
    requires cfg.Valid() && cfg.Knows(es) && n <= |es| && EncodeEntries(cfg, epochNs, es[..n]).Err?
    ensures EncodeEntries(cfg, epochNs, es) == EncodeEntries(cfg, epochNs, es[..n])
  {
    if n < |es| {
      assert es[..|es| - 1][..n] == es[..n];
      EncodeEntriesFails(cfg, epochNs, es[..|es| - 1], n);
    } else {
      assert es[..n] == es;
    }
  }

  lemma {:induction false} EncodeGroupsFails(cfg: Config, epochMs: int, epochNs: int, gs: seq<Group>, n: nat)
    requires cfg.Valid() && GroupsKnown(cfg, gs) && n <= |gs| && EncodeGroups(cfg, epochMs, epochNs, gs[..n]).Err?
    ensures EncodeGroups(cfg, epochMs, epochNs, gs) == EncodeGroups(cfg, epochMs, epochNs, gs[..n])
  {
    if n < |gs| {
      assert gs[..|gs| - 1][..n] == gs[..n];
      EncodeGroupsFails(cfg, epochMs, epochNs, gs[..|gs| - 1], n);
    } else {
      assert gs[..n] == gs;
    }
  }

  /** Where a flush stands between two windows: `done` windows finished, the next one opening at `index`. */
  ghost predicate Between(cfg: Config, sorted: seq<Entry>, ws: seq<seq<Entry>>, done: nat, index: nat)
  {
    cfg.Valid() && done <= |ws| && index <= |sorted| && ws[done..] == Windows(sorted, index, cfg.TickNs())
  }

  class Pipeline {
    const cfg: Config
    const sourceMap: map<string, nat>
    const policies: map<nat, Policy>
    const filter: RbeFilter
    const batcher: Batcher
    var staged: seq<Entry>
    var unmapped: nat
    var encodeFailures: nat

    ghost predicate Valid()
      reads this, batcher, filter
    {
      && cfg.Valid() && batcher.cfg == cfg && batcher.pending == [] && cfg.Knows(staged) && filter.Valid()
      && forall ref :: ref in sourceMap ==> sourceMap[ref] in cfg.codings
    }

    constructor (cfg: Config, sourceMap: map<string, nat>, policies: map<nat, Policy>)
      requires cfg.Valid() && forall ref :: ref in sourceMap ==> sourceMap[ref] in cfg.codings
      ensures Valid() && this.cfg == cfg && this.sourceMap == sourceMap && this.policies == policies
      ensures staged == [] && encodeFailures == 0 && unmapped == 0 && fresh(filter) && fresh(batcher)
    {
      this.cfg, this.sourceMap, this.policies := cfg, sourceMap, policies;
      staged, unmapped, encodeFailures := [], 0, 0;
      filter := new RbeFilter();
      batcher := new Batcher(cfg);
    }

    function PolicyOf(id: nat): Option<Policy> { if id in policies then Some(policies[id]) else None }

    /** `ingest` without the derived-channel taps: map, filter, stage. */
    method Ingest(source: string, ref: string, sample: Sample) returns (v: Option<Verdict>)
      requires Valid()
      modifies this, filter
      ensures Valid() && encodeFailures == old(encodeFailures)
      ensures v.Some? <==> ref in sourceMap
      ensures unmapped == old(unmapped) + if v.None? then 1 else 0
      ensures v.None? ==> filter.stream == old(filter.stream)
      ensures v.Some? ==>
        && filter.stream == old(filter.stream) + [Observation(sourceMap[ref], sample, PolicyOf(sourceMap[ref]))]
        && v.value == VerdictOn(filter.stream, |old(filter.stream)|)
      ensures staged == if v == Some(Accepted) then old(staged) + [Entry(source, sourceMap[ref], sample)] else old(staged)
    {
      if ref !in sourceMap {
        unmapped := unmapped + 1;
        return None;
      }
      var id := sourceMap[ref];
      var verdict := filter.Accept(id, sample, PolicyOf(id));
      if verdict.Accepted? {
        staged := staged + [Entry(source, id, sample)];
      }
      return Some(verdict);
    }

    /** The inner loop: one window's entries into the batcher, from `index` to the window's end. */
    method FillWindow(sorted: seq<Entry>, index: nat, epoch: int) returns (end: nat)
      requires cfg.Valid() && batcher.cfg == cfg && batcher.pending == [] && cfg.Knows(sorted)
      requires index < |sorted| && epoch == sorted[index].sample.t
      modifies batcher
      ensures end == WindowEnd(sorted, index + 1, epoch, cfg.TickNs()) && batcher.pending == GroupAll(sorted[index..end])
    {
      end := index;
      var tickNs := cfg.TickNs();
      while end < |sorted| && sorted[end].sample.t - epoch < tickNs
        invariant index <= end <= |sorted|
        invariant batcher.pending == GroupAll(sorted[index..end])
        invariant WindowEnd(sorted, end, epoch, tickNs) == WindowEnd(sorted, index, epoch, tickNs)
      {
        FillOne(sorted, index, end);
        end := end + 1;
      }
    }

    method FillOne(sorted: seq<Entry>, index: nat, end: nat)
      requires batcher.cfg == cfg && cfg.Knows(sorted) && index <= end < |sorted|
      requires batcher.pending == GroupAll(sorted[index..end])
      modifies batcher
      ensures batcher.pending == GroupAll(sorted[index..end + 1])
    {
      GroupNext(sorted, index, end);
      var ok := batcher.Add(sorted[end]);
    }

    /** `flush`: everything staged, window by window; a failed window costs itself and nothing else. */
    method Flush(wall: WallClock) returns (batches: seq<TickBatch>)
      requires Valid()
      modifies this, batcher
      ensures Valid() && staged == [] && unmapped == old(unmapped) && AllReady(cfg, FlushWindows(cfg, old(staged)))
      ensures batches == Emitted(cfg, wall, FlushWindows(cfg, old(staged)))
      ensures encodeFailures == old(encodeFailures) + Failures(cfg, wall, FlushWindows(cfg, old(staged)))
    {
      FlushPartitions(cfg, staged);
      SortKnown(cfg, staged);
      var sorted := Sort(staged);
      staged := [];
      var failed;
      batches, failed := FlushSorted(wall, sorted);
      encodeFailures := encodeFailures + failed;
    }

    /** The outer loop over the sorted samples. */
    method FlushSorted(wall: WallClock, sorted: seq<Entry>) returns (batches: seq<TickBatch>, failed: nat)
      requires cfg.Valid() && batcher.cfg == cfg && batcher.pending == [] && cfg.Knows(sorted)
      requires AllReady(cfg, Windows(sorted, 0, cfg.TickNs()))
      modifies batcher
      ensures batcher.pending == []
      ensures batches == Emitted(cfg, wall, Windows(sorted, 0, cfg.TickNs()))
      ensures failed == Failures(cfg, wall, Windows(sorted, 0, cfg.TickNs()))
    {
      ghost var ws := Windows(sorted, 0, cfg.TickNs());
      batches, failed := [], 0;
      var index := 0;
      ghost var done := 0;
      while index < |sorted|
        invariant batcher.pending == [] && Progress(cfg, wall, sorted, ws, done, index, batches, failed)
        decreases |sorted| - index
      {
        var end, emitted := EmitWindow(wall, sorted, index);
        ProgressStep(cfg, wall, sorted, ws, done, index, batches, failed);
        if emitted.Err? {
          failed := failed + 1;
        } else {
          batches := batches + emitted.value;
        }
        index, done := end, done + 1;
      }
      assert ws[..done] == ws;
    }

    /** One pass of the outer loop: fill the batcher with the window at `index`, then tick. */
    method EmitWindow(wall: WallClock, sorted: seq<Entry>, index: nat) returns (end: nat, r: Result<seq<TickBatch>>)
      requires cfg.Valid() && batcher.cfg == cfg && batcher.pending == [] && cfg.Knows(sorted) && index < |sorted|
      modifies batcher
      ensures batcher.pending == []
      ensures end == WindowEnd(sorted, index + 1, sorted[index].sample.t, cfg.TickNs())
      ensures Ready(cfg, sorted[index..end]) && r == WindowBatches(cfg, wall, sorted[index..end])
    {
      var epoch := sorted[index].sample.t;
      end := FillWindow(sorted, index, epoch);
      GroupsOfKnown(cfg, sorted[index..end]);
      r := batcher.Tick(Round(wall(epoch)), epoch);
    }
  }

  lemma GroupNext(s: seq<Entry>, i: nat, j: nat)
    requires i <= j < |s|
    ensures GroupAll(s[i..j + 1]) == AddTo(GroupAll(s[i..j]), s[j])
  {
    assert s[i..j + 1][..j - i] == s[i..j];
  }

  lemma SortKnown(cfg: Config, staged: seq<Entry>)
    requires cfg.Knows(staged)
    ensures cfg.Knows(Sort(staged))
  {
    SortOrders(staged);
    forall k | 0 <= k < |Sort(staged)| ensures Sort(staged)[k].channel in cfg.codings {
      assert Sort(staged)[k] in multiset(Sort(staged));
      assert Sort(staged)[k] in staged;
    }
  }

  /** What the outer loop has established when `done` windows are finished. */
  ghost predicate Progress(cfg: Config, wall: WallClock, sorted: seq<Entry>, ws: seq<seq<Entry>>, done: nat, index: nat,
                           batches: seq<TickBatch>, failed: nat)
  {
    && AllReady(cfg, ws) && Between(cfg, sorted, ws, done, index)
    && batches == Emitted(cfg, wall, ws[..done]) && failed == Failures(cfg, wall, ws[..done])
  }

  lemma ProgressStep(cfg: Config, wall: WallClock, sorted: seq<Entry>, ws: seq<seq<Entry>>, done: nat, index: nat,
                     batches: seq<TickBatch>, failed: nat)
    requires Progress(cfg, wall, sorted, ws, done, index, batches, failed) && index < |sorted|
    ensures var end := WindowEnd(sorted, index + 1, sorted[index].sample.t, cfg.TickNs());
            && Ready(cfg, sorted[index..end])
            && match WindowBatches(cfg, wall, sorted[index..end])
               case Ok(bs) => Progress(cfg, wall, sorted, ws, done + 1, end, batches + bs, failed)
               case Err(_) => Progress(cfg, wall, sorted, ws, done + 1, end, batches, failed + 1)
  {
    BetweenNext(cfg, sorted, ws, done, index);
    EmittedNext(cfg, wall, ws, done);
  }

  lemma BetweenNext(cfg: Config, sorted: seq<Entry>, ws: seq<seq<Entry>>, done: nat, index: nat)
    requires Between(cfg, sorted, ws, done, index) && index < |sorted|
    ensures var end := WindowEnd(sorted, index + 1, sorted[index].sample.t, cfg.TickNs());
            done < |ws| && ws[done] == sorted[index..end] && Between(cfg, sorted, ws, done + 1, end)
  {
    assert ws[done..][0] == ws[done];
    assert ws[done..][1..] == ws[done + 1..];
  }

  lemma EmittedNext(cfg: Config, wall: WallClock, ws: seq<seq<Entry>>, done: nat)
    requires AllReady(cfg, ws) && done < |ws|
    ensures var bs, n := Emitted(cfg, wall, ws[..done]), Failures(cfg, wall, ws[..done]);
      match WindowBatches(cfg, wall, ws[done])
      case Ok(more) => Emitted(cfg, wall, ws[..done + 1]) == bs + more && Failures(cfg, wall, ws[..done + 1]) == n
      case Err(_) => Emitted(cfg, wall, ws[..done + 1]) == bs && Failures(cfg, wall, ws[..done + 1]) == n + 1
  {
    assert ws[..done + 1][..done] == ws[..done];
  }
}
