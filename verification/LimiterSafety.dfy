/**
 What the limiter guarantees over every sequence of driver turns within one
 configuration: spacing and freshness per channel, conservation of offers, and
 the aggregate budget over every window of time.

 The per-channel claims follow one channel `ch` through a turn: `On(list, ch)`
 is that channel's part of a candidate list, and each stage of the turn is
 characterised by what it does to that part and to the channel's gate.
 */
module LimiterSafety {
  import opened Basics
  import opened LimiterModel

  // ----- one channel's part of a list ----------------------------------------

  function On(s: seq<Update>, ch: nat): (r: seq<Update>)
    ensures forall k :: 0 <= k < |r| ==> r[k].channel == ch
  {
    if |s| == 0 then []
    else On(s[..|s| - 1], ch) + (if s[|s| - 1].channel == ch then [s[|s| - 1]] else [])
  }

  lemma OnSnoc(s: seq<Update>, u: Update, ch: nat)
    ensures On(s + [u], ch) == On(s, ch) + (if u.channel == ch then [u] else [])
  {
    assert (s + [u])[..|s|] == s;
  }

  lemma {:induction false} OnConcat(a: seq<Update>, b: seq<Update>, ch: nat)
    ensures On(a + b, ch) == On(a, ch) + On(b, ch)
  {
    if |b| == 0 {
      assert a + b == a;
    } else {
      OnConcat(a, b[..|b| - 1], ch);
      assert (a + b)[..|a + b| - 1] == a + b[..|b| - 1];
    }
  }

  lemma {:induction false} OnInsert(gates: map<nat, Gate>, s: seq<Update>, u: Update, ch: nat)
    ensures On(Insert(gates, s, u), ch) == On(s, ch) + (if u.channel == ch then [u] else [])
  {
    if |s| == 0 || !Ahead(gates, u.channel, s[|s| - 1].channel) {
      OnSnoc(s, u, ch);
    } else {
      // u only moves ahead of updates of other channels
      var front, last := s[..|s| - 1], s[|s| - 1];
      AheadDiffers(gates, u.channel, last.channel);
      OnInsert(gates, front, u, ch);
      OnSnoc(Insert(gates, front, u), last, ch);
      if u.channel == ch {
        assert On(s, ch) == On(front, ch);
      } else {
        assert On(Insert(gates, front, u), ch) == On(front, ch);
      }
    }
  }

  lemma AheadDiffers(gates: map<nat, Gate>, a: nat, b: nat)
    requires Ahead(gates, a, b)
    ensures a != b
  {
  }

  /** Ranking rearranges channels among each other but leaves each channel's updates in order. */
  lemma {:induction false} OnRanked(gates: map<nat, Gate>, s: seq<Update>, ch: nat)
    ensures On(Ranked(gates, s), ch) == On(s, ch)
  {
    if |s| > 0 {
      OnRanked(gates, s[..|s| - 1], ch);
      OnInsert(gates, Ranked(gates, s[..|s| - 1]), s[|s| - 1], ch);
    }
  }

  lemma {:induction false} RankedLength(gates: map<nat, Gate>, s: seq<Update>)
    ensures |Ranked(gates, s)| == |s|
  {
    if |s| > 0 {
      RankedLength(gates, s[..|s| - 1]);
      InsertLength(gates, Ranked(gates, s[..|s| - 1]), s[|s| - 1]);
    }
  }

  lemma {:induction false} InsertLength(gates: map<nat, Gate>, s: seq<Update>, u: Update)
    ensures |Insert(gates, s, u)| == |s| + 1
  {
    if |s| != 0 && Ahead(gates, u.channel, s[|s| - 1].channel) {
      InsertLength(gates, s[..|s| - 1], u);
    }
  }

  // ----- what a channel's state must satisfy ---------------------------------

  function PendingOf(l: Limiter, ch: nat): Option<Update> { if ch in l.gates then l.gates[ch].pending else None }

  ghost predicate GateOk(cfg: Config, l: Limiter, ch: nat) {
    && (ch in l.order <==> ch in l.gates)
    && (ch in l.gates ==>
          && l.gates[ch].interval == cfg.Interval(ch)
          && (l.gates[ch].pending.Some? ==>
                && cfg.Limited(ch) && l.gates[ch].nextDue.Some?
                && l.gates[ch].pending.value.channel == ch && l.gates[ch].pending.value.conflate
                && l.gates[ch].pending.value.serial < l.offers))
  }

  ghost predicate OrderOk(l: Limiter) { forall i, j :: 0 <= i < j < |l.order| ==> l.order[i] != l.order[j] }

  /** Everything logged for the channel is older than `serial`. */
  ghost predicate Newer(log: seq<Admission>, ch: nat, serial: nat) {
    forall i, k :: 0 <= i < |log| && 0 <= k < |On(log[i].accepted, ch)| ==> On(log[i].accepted, ch)[k].serial < serial
  }

  /** A limited channel is not due before its interval after anything logged for it. */
  ghost predicate Waits(cfg: Config, l: Limiter, log: seq<Admission>, ch: nat) {
    cfg.Limited(ch) ==>
      forall i :: 0 <= i < |log| && On(log[i].accepted, ch) != [] ==>
        ch in l.gates && l.gates[ch].nextDue.Some? && log[i].now + cfg.Interval(ch) <= l.gates[ch].nextDue.value
  }

  ghost predicate Rising(s: seq<Update>) { forall i, j :: 0 <= i < j < |s| ==> s[i].serial < s[j].serial }

  /** The channel's candidates so far this turn: in offer order, newer than anything logged, and due. */
  ghost predicate CandidatesOk(cfg: Config, l: Limiter, log: seq<Admission>, ch: nat, mine: seq<Update>, now: real) {
    && Rising(mine)
    && (forall k :: 0 <= k < |mine| ==>
          mine[k].serial < l.offers && Newer(log, ch, mine[k].serial) && mine[k].conflate == cfg.Limited(ch))
    && (cfg.Limited(ch) && mine != [] ==> ch in l.gates && l.gates[ch].pending.None? && Due(l.gates[ch], now))
  }

  /** Offers of the channel = published + suppressed + pending + candidates in hand. */
  ghost predicate Balanced(l: Limiter, ch: nat, inHand: nat) {
    Count(l.offered, ch) ==
      Count(l.published, ch) + Count(l.suppressed, ch) + (if PendingOf(l, ch).Some? then 1 else 0) + inHand
  }

  ghost predicate MidTurn(cfg: Config, l: Limiter, log: seq<Admission>, ch: nat, mine: seq<Update>, now: real) {
    && GateOk(cfg, l, ch) && OrderOk(l) && Waits(cfg, l, log, ch)
    && Newer(log, ch, l.offers) && (PendingOf(l, ch).Some? ==> Newer(log, ch, PendingOf(l, ch).value.serial))
    && CandidatesOk(cfg, l, log, ch, mine, now)
    && Balanced(l, ch, |mine|)
  }

  // ----- offering ------------------------------------------------------------

  lemma OfferElsewhere(cfg: Config, l: Limiter, log: seq<Admission>, ch: nat, mine: seq<Update>, o: Offering, now: real)
    requires MidTurn(cfg, l, log, ch, mine, now) && o.channel != ch && GateOk(cfg, l, o.channel)
    ensures var (l', made) := Offer(cfg, l, o, now);
            MidTurn(cfg, l', log, ch, mine, now) && On(made, ch) == []
  {
    var (l', made) := Offer(cfg, l, o, now);
    OfferApart(cfg, l, o, now, ch);
    ApartKeeps(cfg, l, l', log, ch, mine, now);
    if |made| == 1 {
      assert made == [] + [made[0]];
      OnSnoc([], made[0], ch);
    }
  }

  /** Nothing the channel depends on differs, except that offers of others may have come in. */
  ghost predicate Apart(l: Limiter, l': Limiter, ch: nat) {
    && (ch in l'.gates <==> ch in l.gates) && (ch in l.gates ==> l'.gates[ch] == l.gates[ch])
    && (ch in l'.order <==> ch in l.order) && OrderOk(l')
    && l.offers <= l'.offers && Count(l'.offered, ch) == Count(l.offered, ch)
    && Count(l'.published, ch) == Count(l.published, ch) && Count(l'.suppressed, ch) == Count(l.suppressed, ch)
  }

  lemma OfferApart(cfg: Config, l: Limiter, o: Offering, now: real, ch: nat)
    requires o.channel != ch && OrderOk(l) && GateOk(cfg, l, o.channel)
    ensures Apart(l, Offer(cfg, l, o, now).0, ch)
  {
    if cfg.Selected(o.channel) {
      OrderGrows(l, Registered(l, o.channel), o.channel, ch);
    }
  }

  lemma OrderGrows(l: Limiter, l': Limiter, c: nat, ch: nat)
    requires OrderOk(l) && c != ch && l'.order == (if c in l.gates then l.order else l.order + [c])
    requires c in l.order <==> c in l.gates
    ensures OrderOk(l') && (ch in l'.order <==> ch in l.order)
  {
  }

  lemma ApartKeeps(cfg: Config, l: Limiter, l': Limiter, log: seq<Admission>, ch: nat, mine: seq<Update>, now: real)
    requires MidTurn(cfg, l, log, ch, mine, now) && Apart(l, l', ch)
    ensures MidTurn(cfg, l', log, ch, mine, now)
  {
    NewerMono(log, ch, l.offers, l'.offers);
  }

  lemma NewerMono(log: seq<Admission>, ch: nat, a: nat, b: nat)
    requires Newer(log, ch, a) && a <= b
    ensures Newer(log, ch, b)
  {
  }

  /** The update an offer of the channel makes, and whether it has to wait. */
  function Offered(cfg: Config, l: Limiter, o: Offering): Update {
    Update(o.channel, o.captureMs, o.value, cfg.Limited(o.channel), l.offers)
  }

  predicate MustWait(cfg: Config, l: Limiter, ch: nat, now: real) {
    cfg.Limited(ch) && ch in l.gates && !Due(l.gates[ch], now)
  }

  /** The channel's own gate and counters after an offer of it that made `u`. */
  ghost predicate OwnGate(cfg: Config, l: Limiter, l': Limiter, ch: nat, u: Update, waits: bool) {
    && GateOk(cfg, l', ch) && OrderOk(l') && l'.offers == l.offers + 1 && ch in l'.gates
    && l'.gates[ch].nextDue == (if ch in l.gates then l.gates[ch].nextDue else None)
    && l'.gates[ch].pending == (if waits then Some(u) else None)
    && l'.published == l.published && Count(l'.offered, ch) == Count(l.offered, ch) + 1
    && Count(l'.suppressed, ch) == Count(l.suppressed, ch) + if PendingOf(l, ch).Some? then 1 else 0
  }

  lemma OfferOwnGate(cfg: Config, l: Limiter, ch: nat, o: Offering, now: real)
    requires GateOk(cfg, l, ch) && OrderOk(l) && o.channel == ch && cfg.Selected(ch)
    ensures var (l', made) := Offer(cfg, l, o, now);
      var u, waits := Offered(cfg, l, o), MustWait(cfg, l, ch, now);
      OwnGate(cfg, l, l', ch, u, waits) && made == if waits then [] else [u]
  {
  }

  lemma CandidateJoins(cfg: Config, l: Limiter, log: seq<Admission>, ch: nat, mine: seq<Update>, u: Update, l': Limiter, now: real)
    requires CandidatesOk(cfg, l, log, ch, mine, now) && Newer(log, ch, l.offers) && l'.offers == l.offers + 1
    requires u.serial == l.offers && u.conflate == cfg.Limited(ch)
    requires cfg.Limited(ch) ==> ch in l'.gates && l'.gates[ch].pending.None? && Due(l'.gates[ch], now)
    ensures CandidatesOk(cfg, l', log, ch, mine + [u], now)
  {
  }

  lemma OfferHere(cfg: Config, l: Limiter, log: seq<Admission>, ch: nat, mine: seq<Update>, o: Offering, now: real)
    requires MidTurn(cfg, l, log, ch, mine, now) && o.channel == ch && cfg.Selected(ch)
    ensures var (l', made) := Offer(cfg, l, o, now);
            MidTurn(cfg, l', log, ch, mine + On(made, ch), now)
  {
    var (l', made) := Offer(cfg, l, o, now);
    OfferOwnGate(cfg, l, ch, o, now);
    if made == [] {
      OfferWaits(cfg, l, l', log, ch, mine, Offered(cfg, l, o), now);
      assert mine + On(made, ch) == mine;
    } else {
      OfferJoins(cfg, l, l', log, ch, mine, Offered(cfg, l, o), now);
      OnSnoc([], made[0], ch);
      assert [] + [made[0]] == made && On(made, ch) == [made[0]];
    }
  }

  lemma OfferWaits(cfg: Config, l: Limiter, l': Limiter, log: seq<Admission>, ch: nat, mine: seq<Update>, u: Update, now: real)
    requires MidTurn(cfg, l, log, ch, mine, now) && MustWait(cfg, l, ch, now) && OwnGate(cfg, l, l', ch, u, true)
    requires u.serial == l.offers
    ensures MidTurn(cfg, l', log, ch, mine, now)
  {
    // a channel that has to wait has no candidate in hand
    assert mine == [];
    NewerMono(log, ch, l.offers, l'.offers);
  }

  lemma OfferJoins(cfg: Config, l: Limiter, l': Limiter, log: seq<Admission>, ch: nat, mine: seq<Update>, u: Update, now: real)
    requires MidTurn(cfg, l, log, ch, mine, now) && !MustWait(cfg, l, ch, now) && OwnGate(cfg, l, l', ch, u, false)
    requires u.serial == l.offers && u.conflate == cfg.Limited(ch)
    ensures MidTurn(cfg, l', log, ch, mine + [u], now)
  {
    NewerMono(log, ch, l.offers, l'.offers);
    CandidateJoins(cfg, l, log, ch, mine, u, l', now);
  }

  lemma OfferKeepsGates(cfg: Config, l: Limiter, o: Offering, now: real, ch: nat)
    requires GateOk(cfg, l, ch) && GateOk(cfg, l, o.channel)
    ensures GateOk(cfg, Offer(cfg, l, o, now).0, ch)
  {
  }

  /** Every channel's gate is in order. */
  ghost predicate AllGatesOk(cfg: Config, l: Limiter) { forall ch: nat :: GateOk(cfg, l, ch) }

  lemma OfferStep(cfg: Config, l: Limiter, log: seq<Admission>, ch: nat, mine: seq<Update>, o: Offering, now: real)
    requires MidTurn(cfg, l, log, ch, mine, now) && AllGatesOk(cfg, l)
    ensures var (l', made) := Offer(cfg, l, o, now);
            MidTurn(cfg, l', log, ch, mine + On(made, ch), now) && AllGatesOk(cfg, l')
  {
    var (l', made) := Offer(cfg, l, o, now);
    forall c: nat ensures GateOk(cfg, l', c) {
      OfferKeepsGates(cfg, l, o, now, c);
    }
    if !cfg.Selected(o.channel) {
      assert mine + On(made, ch) == mine;
    } else if o.channel == ch {
      OfferHere(cfg, l, log, ch, mine, o, now);
    } else {
      OfferElsewhere(cfg, l, log, ch, mine, o, now);
      assert mine + On(made, ch) == mine;
    }
  }

  lemma {:induction false} OfferAllStep(cfg: Config, l: Limiter, log: seq<Admission>, ch: nat, os: seq<Offering>, now: real)
    requires MidTurn(cfg, l, log, ch, [], now) && AllGatesOk(cfg, l)
    ensures var (l', cs) := OfferAll(cfg, l, os, now);
            MidTurn(cfg, l', log, ch, On(cs, ch), now) && AllGatesOk(cfg, l')
  {
    if |os| > 0 {
      OfferAllStep(cfg, l, log, ch, os[..|os| - 1], now);
      var (l1, c1) := OfferAll(cfg, l, os[..|os| - 1], now);
      OfferStep(cfg, l1, log, ch, On(c1, ch), os[|os| - 1], now);
      OnConcat(c1, Offer(cfg, l1, os[|os| - 1], now).1, ch);
    }
  }

  // ----- draining ------------------------------------------------------------

  /** Channel `ch` stands at position `p` of the dictionary and nowhere else; `p` past the end means nowhere. */
  ghost predicate StandsAt(l: Limiter, ch: nat, p: nat) {
    && (p < |l.order| ==> l.order[p] == ch && ch in l.gates)
    && (forall k :: 0 <= k < |l.order| && k != p ==> l.order[k] != ch)
  }

  ghost predicate OwnPending(l: Limiter) {
    && (forall k :: 0 <= k < |l.order| ==> l.order[k] in l.gates)
    && (forall c :: c in l.gates && l.gates[c].pending.Some? ==> l.gates[c].pending.value.channel == c)
  }

  ghost predicate Collected(l: Limiter, l': Limiter, ready: seq<Update>, ch: nat, released: bool) {
    && l' == l.(gates := l'.gates) && l'.gates.Keys == l.gates.Keys
    && (ch in l.gates ==> l'.gates[ch] == if released then l.gates[ch].(pending := None) else l.gates[ch])
    && (released ==> ch in l.gates && l.gates[ch].pending.Some? && On(ready, ch) == [l.gates[ch].pending.value])
    && (!released ==> On(ready, ch) == [])
  }

  /** What draining leaves at a channel's gate, and what it takes from it. */
  lemma {:induction false} CollectAt(l: Limiter, now: real, i: nat, ch: nat, p: nat)
    requires i <= |l.order| && OwnPending(l) && StandsAt(l, ch, p)
    ensures var (l', ready) := Collect(l, now, i);
            Collected(l, l', ready, ch, p < i && Releases(l.gates[ch], now))
  {
    if i > 0 {
      CollectAt(l, now, i - 1, ch, p);
      var ready := Collect(l, now, i - 1).1;
      var c := l.order[i - 1];
      if Releases(l.gates[c], now) {
        OnSnoc(ready, l.gates[c].pending.value, ch);
      }
    }
  }

  lemma OwnPendingHolds(cfg: Config, l: Limiter)
    requires AllGatesOk(cfg, l)
    ensures OwnPending(l)
  {
    forall k | 0 <= k < |l.order| ensures l.order[k] in l.gates {
      assert GateOk(cfg, l, l.order[k]);
    }
    forall c | c in l.gates && l.gates[c].pending.Some? ensures l.gates[c].pending.value.channel == c {
      assert GateOk(cfg, l, c);
    }
  }

  lemma FindPosition(cfg: Config, l: Limiter, ch: nat) returns (p: nat)
    requires OrderOk(l) && GateOk(cfg, l, ch)
    ensures StandsAt(l, ch, p) && (p < |l.order| <==> ch in l.gates)
  {
    if ch in l.order {
      p :| 0 <= p < |l.order| && l.order[p] == ch;
    } else {
      p := |l.order|;
    }
  }

  lemma DrainAt(cfg: Config, l: Limiter, now: real, ch: nat)
    requires OrderOk(l) && AllGatesOk(cfg, l)
    ensures var (l', ready) := Drain(l, now);
            Collected(l, l', ready, ch, ch in l.gates && Releases(l.gates[ch], now))
  {
    assert GateOk(cfg, l, ch);
    OwnPendingHolds(cfg, l);
    var p := FindPosition(cfg, l, ch);
    CollectAt(l, now, |l.order|, ch, p);
    var (l', ready) := Collect(l, now, |l.order|);
    OnRanked(l'.gates, ready, ch);
  }

  lemma DrainStep(cfg: Config, l: Limiter, log: seq<Admission>, ch: nat, mine: seq<Update>, now: real)
    requires MidTurn(cfg, l, log, ch, mine, now) && AllGatesOk(cfg, l)
    ensures var (l', ready) := Drain(l, now);
            MidTurn(cfg, l', log, ch, mine + On(ready, ch), now) && AllGatesOk(cfg, l')
  {
    GatesAfterDrain(cfg, l, now);
    DrainAt(cfg, l, now, ch);
    var (l', ready) := Drain(l, now);
    CollectedKeeps(cfg, l, l', log, ch, mine, ready, ch in l.gates && Releases(l.gates[ch], now), now);
  }

  lemma CollectedKeeps(cfg: Config, l: Limiter, l': Limiter, log: seq<Admission>, ch: nat, mine: seq<Update>, ready: seq<Update>,
                       released: bool, now: real)
    requires MidTurn(cfg, l, log, ch, mine, now) && Collected(l, l', ready, ch, released)
    requires released ==> ch in l.gates && Releases(l.gates[ch], now)
    ensures MidTurn(cfg, l', log, ch, mine + On(ready, ch), now)
  {
    if !released {
      ApartKeeps(cfg, l, l', log, ch, mine, now);
      assert mine + On(ready, ch) == mine;
    } else {
      // a pending update means no candidate of the channel was in hand
      assert mine == [] && mine + On(ready, ch) == On(ready, ch);
    }
  }

  lemma GatesAfterDrain(cfg: Config, l: Limiter, now: real)
    requires OrderOk(l) && AllGatesOk(cfg, l)
    ensures AllGatesOk(cfg, Drain(l, now).0)
  {
    forall c: nat ensures GateOk(cfg, Drain(l, now).0, c) {
      DrainAt(cfg, l, now, c);
      assert GateOk(cfg, l, c);
    }
  }

  // ----- conflating ----------------------------------------------------------

  function Latest(cfg: Config, ch: nat, mine: seq<Update>): (r: seq<Update>) {
    if cfg.Limited(ch) && |mine| > 1 then [mine[|mine| - 1]] else mine
  }

  ghost predicate Uniform(cfg: Config, cs: seq<Update>, ch: nat) {
    forall k :: 0 <= k < |On(cs, ch)| ==> On(cs, ch)[k].conflate == cfg.Limited(ch)
  }

  lemma {:induction false} OnUpdate(s: seq<Update>, k: nat, u: Update, ch: nat)
    requires k < |s| && s[k].channel == u.channel
    ensures |On(s[k := u], ch)| == |On(s, ch)|
    ensures u.channel != ch ==> On(s[k := u], ch) == On(s, ch)
    ensures u.channel == ch && |On(s, ch)| == 1 ==> On(s[k := u], ch) == [u]
    decreases |s|
  {
    var last := |s| - 1;
    if k < last {
      OnUpdate(s[..last], k, u, ch);
      assert s[k := u][..last] == s[..last][k := u];
      if u.channel == ch {
        OnContains(s[..last], k, ch);
      }
    } else {
      assert s[k := u][..last] == s[..last];
    }
  }

  lemma {:induction false} OnContains(s: seq<Update>, k: nat, ch: nat)
    requires k < |s| && s[k].channel == ch
    ensures |On(s, ch)| >= 1
  {
    if k < |s| - 1 {
      OnContains(s[..|s| - 1], k, ch);
    }
  }

  lemma {:induction false} OnMember(s: seq<Update>, ch: nat, u: Update)
    requires u in On(s, ch)
    ensures u in s
  {
    if u in On(s[..|s| - 1], ch) {
      OnMember(s[..|s| - 1], ch, u);
    }
  }

  /** Conflating keeps the newest candidate of a limited channel and counts the others; other channels keep all. */
  ghost predicate Conflated(cfg: Config, l: Limiter, l': Limiter, ch: nat, mine: seq<Update>, kept: seq<Update>) {
    && l' == l.(suppressed := l'.suppressed)
    && kept == Latest(cfg, ch, mine)
    && Count(l'.suppressed, ch) == Count(l.suppressed, ch) + |mine| - |kept|
  }

  lemma {:induction false} ConflateAt(cfg: Config, l: Limiter, cs: seq<Update>, ch: nat)
    requires Uniform(cfg, cs, ch)
    ensures Conflated(cfg, l, Conflate(l, cs).0, ch, On(cs, ch), On(Conflate(l, cs).1, ch))
  {
    if |cs| > 0 {
      var front, u := cs[..|cs| - 1], cs[|cs| - 1];
      assert forall k :: 0 <= k < |On(front, ch)| ==> On(front, ch)[k] == On(cs, ch)[k];
      ConflateAt(cfg, l, front, ch);
      var (l1, out) := Conflate(l, front);
      if u.channel == ch {
        assert On(cs, ch)[|On(front, ch)|] == u;
        ConflateOwn(cfg, l, l1, out, ch, On(front, ch), u);
      } else {
        ConflateOther(l1, out, ch, u);
      }
    }
  }

  lemma ConflateOther(l: Limiter, out: seq<Update>, ch: nat, u: Update)
    requires u.channel != ch
    ensures var (l', out') := ConflateOne(l, out, u);
            On(out', ch) == On(out, ch) && l' == l.(suppressed := l'.suppressed) && Count(l'.suppressed, ch) == Count(l.suppressed, ch)
  {
    var at := IndexOf(out, u.channel);
    if !u.conflate || at.None? {
      OnSnoc(out, u, ch);
    } else {
      OnUpdate(out, at.value, u, ch);
    }
  }

  lemma ConflateOwn(cfg: Config, l: Limiter, l1: Limiter, out: seq<Update>, ch: nat, mine: seq<Update>, u: Update)
    requires Conflated(cfg, l, l1, ch, mine, On(out, ch)) && u.channel == ch && u.conflate == cfg.Limited(ch)
    requires forall k :: 0 <= k < |mine| ==> mine[k].conflate == cfg.Limited(ch)
    ensures var (l', out') := ConflateOne(l1, out, u);
            Conflated(cfg, l, l', ch, mine + [u], On(out', ch))
  {
    var at := IndexOf(out, ch);
    if !u.conflate || at.None? {
      OnSnoc(out, u, ch);
      if cfg.Limited(ch) {
        NoneOn(cfg, out, ch);
      }
    } else {
      ReplaceOwn(cfg, l, l1, out, ch, mine, u, at.value);
    }
  }

  lemma ReplaceOwn(cfg: Config, l: Limiter, l1: Limiter, out: seq<Update>, ch: nat, mine: seq<Update>, u: Update, at: nat)
    requires Conflated(cfg, l, l1, ch, mine, On(out, ch)) && u.channel == ch && cfg.Limited(ch)
    requires at < |out| && out[at].channel == ch
    ensures Conflated(cfg, l, l1.(suppressed := Bump(l1.suppressed, ch)), ch, mine + [u], On(out[at := u], ch))
  {
    OnUpdate(out, at, u, ch);
    OnContains(out, at, ch);
  }

  /** A limited channel with no conflatable update in the list has no update in it at all. */
  lemma NoneOn(cfg: Config, out: seq<Update>, ch: nat)
    requires IndexOf(out, ch).None? && forall k :: 0 <= k < |On(out, ch)| ==> On(out, ch)[k].conflate
    ensures On(out, ch) == []
  {
    if On(out, ch) != [] {
      OnMember(out, ch, On(out, ch)[0]);
      assert false;
    }
  }

  lemma ConflateStep(cfg: Config, l: Limiter, log: seq<Admission>, ch: nat, cs: seq<Update>, now: real)
    requires MidTurn(cfg, l, log, ch, On(cs, ch), now)
    ensures var (l', out) := Conflate(l, cs);
      && MidTurn(cfg, l', log, ch, On(out, ch), now)
      && (cfg.Limited(ch) ==> |On(out, ch)| <= 1)
  {
    ConflateAt(cfg, l, cs, ch);
  }

  lemma {:induction false} ConflateKeepsRest(l: Limiter, cs: seq<Update>)
    ensures Conflate(l, cs).0 == l.(suppressed := Conflate(l, cs).0.suppressed)
  {
    if |cs| > 0 {
      ConflateKeepsRest(l, cs[..|cs| - 1]);
    }
  }

  // ----- admitting -----------------------------------------------------------

  /** A gate after its channel's updates `acc` were accepted. */
  function Stamped(g: Gate, acc: seq<Update>, now: real): (r: Gate) {
    if acc == [] then g else g.(lastPublished := Some(now), nextDue := Some(now + g.interval))
  }

  lemma {:induction false} PublishAt(l: Limiter, us: seq<Update>, now: real, ch: nat)
    ensures var l' := Publish(l, us, now);
      && l' == l.(published := l'.published, gates := l'.gates) && l'.gates.Keys == l.gates.Keys
      && Count(l'.published, ch) == Count(l.published, ch) + |On(us, ch)|
      && (ch in l.gates ==> l'.gates[ch] == Stamped(l.gates[ch], On(us, ch), now))
  {
    if |us| > 0 {
      PublishAt(l, us[..|us| - 1], now, ch);
    }
  }

  lemma {:induction false} ShedAt(l: Limiter, us: seq<Update>, ch: nat)
    ensures var l' := Shed(l, us);
      && l' == l.(suppressed := l'.suppressed, sheds := l'.sheds)
      && Count(l'.suppressed, ch) == Count(l.suppressed, ch) + |On(us, ch)|
  {
    if |us| > 0 {
      ShedAt(l, us[..|us| - 1], ch);
    }
  }

  /** What admission does to one channel: a prefix of its candidates is accepted, the rest is shed and counted. */
  ghost predicate Admitted(l: Limiter, l': Limiter, ch: nat, mine: seq<Update>, acc: seq<Update>, now: real) {
    && l'.order == l.order && l'.gates.Keys == l.gates.Keys && l'.offers == l.offers && l'.offered == l.offered
    && acc <= mine
    && Count(l'.published, ch) == Count(l.published, ch) + |acc|
    && Count(l'.suppressed, ch) == Count(l.suppressed, ch) + |mine| - |acc|
    && (ch in l.gates ==> l'.gates[ch] == Stamped(l.gates[ch], acc, now))
  }

  /** Publishing a prefix and shedding the rest. */
  lemma SplitAt(l: Limiter, ranked: seq<Update>, n: nat, now: real, ch: nat)
    requires n <= |ranked|
    ensures Admitted(l, Shed(Publish(l, ranked[..n], now), ranked[n..]), ch, On(ranked, ch), On(ranked[..n], ch), now)
  {
    OnConcat(ranked[..n], ranked[n..], ch);
    assert ranked[..n] + ranked[n..] == ranked;
    PublishAt(l, ranked[..n], now, ch);
    ShedAt(Publish(l, ranked[..n], now), ranked[n..], ch);
  }

  /** Tokens are not part of what a channel sees. */
  lemma TokensApart(l: Limiter, l1: Limiter, l2: Limiter, l': Limiter, ch: nat, mine: seq<Update>, acc: seq<Update>, now: real)
    requires Admitted(l1, l2, ch, mine, acc, now)
    requires l1 == l.(tokens := l1.tokens, at := l1.at) && l' == l2.(tokens := l'.tokens)
    ensures Admitted(l, l', ch, mine, acc, now)
  {
  }

  lemma AdmitAt(cfg: Config, l: Limiter, cs: seq<Update>, now: real, ch: nat)
    ensures var (l', accepted) := Admit(cfg, l, cs, now);
            Admitted(l, l', ch, On(cs, ch), On(accepted, ch), now)
  {
    var ranked, l1 := Ranked(l.gates, cs), Refill(l, now, cfg.limit);
    var n := Available(cfg, l1.tokens, |ranked|);
    OnRanked(l.gates, cs, ch);
    SplitAt(l1, ranked, n, now, ch);
    var l2 := Shed(Publish(l1, ranked[..n], now), ranked[n..]);
    TokensApart(l, l1, l2, Admit(cfg, l, cs, now).0, ch, On(cs, ch), On(ranked[..n], ch), now);
  }

  /** The new admission against everything logged before it. */
  ghost predicate Follows(cfg: Config, log: seq<Admission>, a: Admission, ch: nat) {
    && Rising(On(a.accepted, ch)) && (cfg.Limited(ch) ==> |On(a.accepted, ch)| <= 1)
    && (forall k :: 0 <= k < |On(a.accepted, ch)| ==> Newer(log, ch, On(a.accepted, ch)[k].serial))
    && (cfg.Limited(ch) && On(a.accepted, ch) != [] ==>
          forall i :: 0 <= i < |log| && On(log[i].accepted, ch) != [] ==> a.now - log[i].now >= cfg.Interval(ch) - EPSILON)
  }

  lemma AdmittedFollows(cfg: Config, l: Limiter, l': Limiter, log: seq<Admission>, ch: nat, mine: seq<Update>, a: Admission)
    requires MidTurn(cfg, l, log, ch, mine, a.now) && (cfg.Limited(ch) ==> |mine| <= 1)
    requires Admitted(l, l', ch, mine, On(a.accepted, ch), a.now)
    ensures Follows(cfg, log, a, ch)
  {
    var acc := On(a.accepted, ch);
    assert forall k :: 0 <= k < |acc| ==> acc[k] == mine[k];
  }

  lemma AdmittedEndsTurn(cfg: Config, l: Limiter, l': Limiter, log: seq<Admission>, ch: nat, mine: seq<Update>, a: Admission)
    requires MidTurn(cfg, l, log, ch, mine, a.now) && Admitted(l, l', ch, mine, On(a.accepted, ch), a.now)
    requires forall i :: 0 <= i < |log| ==> log[i].now <= a.now
    ensures MidTurn(cfg, l', log + [a], ch, [], a.now)
  {
    var acc := On(a.accepted, ch);
    assert forall k :: 0 <= k < |acc| ==> acc[k] == mine[k];
    NewerSnoc(log, a, ch, l.offers);
    WaitsSnoc(cfg, l, l', log, a, ch);
    if acc == [] && PendingOf(l, ch).Some? {
      NewerSnoc(log, a, ch, PendingOf(l, ch).value.serial);
    }
  }

  lemma NewerSnoc(log: seq<Admission>, a: Admission, ch: nat, serial: nat)
    requires Newer(log, ch, serial)
    requires forall k :: 0 <= k < |On(a.accepted, ch)| ==> On(a.accepted, ch)[k].serial < serial
    ensures Newer(log + [a], ch, serial)
  {
  }

  lemma WaitsSnoc(cfg: Config, l: Limiter, l': Limiter, log: seq<Admission>, a: Admission, ch: nat)
    requires GateOk(cfg, l, ch) && Waits(cfg, l, log, ch) && l'.gates.Keys == l.gates.Keys
    requires cfg.Limited(ch) && On(a.accepted, ch) != [] ==> ch in l.gates
    requires ch in l.gates ==> l'.gates[ch] == Stamped(l.gates[ch], On(a.accepted, ch), a.now)
    requires forall i :: 0 <= i < |log| ==> log[i].now <= a.now
    ensures Waits(cfg, l', log + [a], ch)
  {
  }

  // ----- turns and runs ------------------------------------------------------

  lemma CandidatesStep(cfg: Config, l: Limiter, log: seq<Admission>, ch: nat, turn: Turn)
    requires MidTurn(cfg, l, log, ch, [], turn.now) && AllGatesOk(cfg, l)
    ensures Ready(cfg, Candidates(cfg, l, turn).0, log, ch, Candidates(cfg, l, turn).1, turn.now)
  {
    match turn
    case Message(now, samples) =>
      OfferAllStep(cfg, l, log, ch, samples, now);
      var (l1, offered) := OfferAll(cfg, l, samples, now);
      MessageStep(cfg, l1, log, ch, offered, now);
    case Poll(now) =>
      PollStep(cfg, l, log, ch, now);
  }

  /** The candidates of a turn are in order: as in the middle of it, and one at most of a limited channel. */
  ghost predicate Ready(cfg: Config, l: Limiter, log: seq<Admission>, ch: nat, cs: seq<Update>, now: real) {
    MidTurn(cfg, l, log, ch, On(cs, ch), now) && AllGatesOk(cfg, l) && (cfg.Limited(ch) ==> |On(cs, ch)| <= 1)
  }

  lemma MessageStep(cfg: Config, l: Limiter, log: seq<Admission>, ch: nat, offered: seq<Update>, now: real)
    requires MidTurn(cfg, l, log, ch, On(offered, ch), now) && AllGatesOk(cfg, l)
    ensures var (l', drained) := Drain(l, now);
            Ready(cfg, Conflate(l', offered + drained).0, log, ch, Conflate(l', offered + drained).1, now)
  {
    DrainStep(cfg, l, log, ch, On(offered, ch), now);
    var (l', drained) := Drain(l, now);
    OnConcat(offered, drained, ch);
    ConflateStep(cfg, l', log, ch, offered + drained, now);
    GatesAfterConflate(cfg, l', offered + drained);
  }

  lemma PollStep(cfg: Config, l: Limiter, log: seq<Admission>, ch: nat, now: real)
    requires MidTurn(cfg, l, log, ch, [], now) && AllGatesOk(cfg, l)
    ensures Ready(cfg, Drain(l, now).0, log, ch, Drain(l, now).1, now)
  {
    DrainStep(cfg, l, log, ch, [], now);
    var drained := Drain(l, now).1;
    assert [] + On(drained, ch) == On(drained, ch);
    DrainAt(cfg, l, now, ch);
  }

  lemma GatesAfterConflate(cfg: Config, l: Limiter, cs: seq<Update>)
    requires AllGatesOk(cfg, l)
    ensures AllGatesOk(cfg, Conflate(l, cs).0)
  {
    ConflateKeepsRest(l, cs);
    forall c: nat ensures GateOk(cfg, Conflate(l, cs).0, c) {
      assert GateOk(cfg, l, c);
    }
  }

  lemma GatesAfterAdmit(cfg: Config, l: Limiter, cs: seq<Update>, now: real)
    requires AllGatesOk(cfg, l)
    ensures AllGatesOk(cfg, Admit(cfg, l, cs, now).0)
  {
    forall c: nat ensures GateOk(cfg, Admit(cfg, l, cs, now).0, c) {
      assert GateOk(cfg, l, c);
      AdmitAt(cfg, l, cs, now, c);
    }
  }

  /** Over a whole log: newer values only after older ones, and limited channels spaced. */
  ghost predicate Spaced(cfg: Config, log: seq<Admission>, ch: nat) {
    forall j :: 0 <= j < |log| ==> Follows(cfg, log[..j], log[j], ch)
  }

  /** Admissions carry the times of their turns. */
  lemma {:induction false} LogTimes(cfg: Config, turns: seq<Turn>, k: nat)
    requires k < |turns|
    ensures RunLog(cfg, turns)[k].now == turns[k].now
  {
    if k < |turns| - 1 {
      LogTimes(cfg, turns[..|turns| - 1], k);
    }
  }

  lemma {:induction false} RunKeeps(cfg: Config, turns: seq<Turn>, ch: nat)
    requires TimeMoves(turns)
    ensures forall now :: MidTurn(cfg, RunLimiter(cfg, turns), RunLog(cfg, turns), ch, [], now)
    ensures AllGatesOk(cfg, RunLimiter(cfg, turns)) && Spaced(cfg, RunLog(cfg, turns), ch)
  {
    if |turns| > 0 {
      var front, turn := turns[..|turns| - 1], turns[|turns| - 1];
      RunKeeps(cfg, front, ch);
      var l, log := RunLimiter(cfg, front), RunLog(cfg, front);
      forall i | 0 <= i < |log| ensures log[i].now <= turn.now {
        LogTimes(cfg, front, i);
      }
      TurnKeeps(cfg, l, log, ch, turn);
      var l', a := Drive(cfg, l, turn).0, Logged(cfg, l, turn);
      NowIsFree(cfg, l', log + [a], ch, turn.now);
      SpacedSnoc(cfg, log, a, ch);
    }
  }

  lemma TurnKeeps(cfg: Config, l: Limiter, log: seq<Admission>, ch: nat, turn: Turn)
    requires MidTurn(cfg, l, log, ch, [], turn.now) && AllGatesOk(cfg, l)
    requires forall i :: 0 <= i < |log| ==> log[i].now <= turn.now
    ensures var l', a := Drive(cfg, l, turn).0, Logged(cfg, l, turn);
            MidTurn(cfg, l', log + [a], ch, [], turn.now) && AllGatesOk(cfg, l') && Follows(cfg, log, a, ch)
  {
    CandidatesStep(cfg, l, log, ch, turn);
    var (l1, cs) := Candidates(cfg, l, turn);
    AdmitAt(cfg, l1, cs, turn.now, ch);
    GatesAfterAdmit(cfg, l1, cs, turn.now);
    var (l', accepted) := Admit(cfg, l1, cs, turn.now);
    AdmittedFollows(cfg, l1, l', log, ch, On(cs, ch), Admission(turn.now, accepted));
    AdmittedEndsTurn(cfg, l1, l', log, ch, On(cs, ch), Admission(turn.now, accepted));
  }

  /** Between turns nothing depends on the time of the last one. */
  lemma NowIsFree(cfg: Config, l: Limiter, log: seq<Admission>, ch: nat, was: real)
    requires MidTurn(cfg, l, log, ch, [], was)
    ensures forall now :: MidTurn(cfg, l, log, ch, [], now)
  {
  }

  lemma SpacedSnoc(cfg: Config, log: seq<Admission>, a: Admission, ch: nat)
    requires Spaced(cfg, log, ch) && Follows(cfg, log, a, ch)
    ensures Spaced(cfg, log + [a], ch)
  {
    forall j | 0 <= j < |log + [a]| ensures Follows(cfg, (log + [a])[..j], (log + [a])[j], ch) {
      if j < |log| {
        assert (log + [a])[..j] == log[..j];
      } else {
        assert (log + [a])[..j] == log;
      }
    }
  }

  /**
   Over every sequence of batches and idle polls: two accepted updates of one
   channel come in offer order, never an older one after a newer; if the
   channel is rate limited they are in different turns, at least its interval
   (less the epsilon) apart.
   */
  lemma UpdatesSpacedAndFresh(cfg: Config, turns: seq<Turn>, ch: nat, i: nat, j: nat, a: nat, b: nat)
    requires TimeMoves(turns) && i <= j < |turns|
    requires a < |On(RunLog(cfg, turns)[i].accepted, ch)| && b < |On(RunLog(cfg, turns)[j].accepted, ch)|
    requires i == j ==> a < b
    ensures On(RunLog(cfg, turns)[i].accepted, ch)[a].serial < On(RunLog(cfg, turns)[j].accepted, ch)[b].serial
    ensures cfg.Limited(ch) ==> i < j && turns[j].now - turns[i].now >= 1.0 / cfg.rate(ch).value - 0.000000001
  {
    RunKeeps(cfg, turns, ch);
    var log := RunLog(cfg, turns);
    LogTimes(cfg, turns, i);
    LogTimes(cfg, turns, j);
    assert Follows(cfg, log[..j], log[j], ch);
    if i < j {
      assert log[..j][i] == log[i];
    }
  }

  /** Conservation, per channel, after every turn: offers = published + suppressed + pending. */
  lemma OffersConserved(cfg: Config, turns: seq<Turn>, ch: nat)
    requires TimeMoves(turns)
    ensures var l := RunLimiter(cfg, turns);
            Count(l.offered, ch) == Count(l.published, ch) + Count(l.suppressed, ch) +
                                    (if PendingOf(l, ch).Some? then 1 else 0)
  {
    RunKeeps(cfg, turns, ch);
    assert MidTurn(cfg, RunLimiter(cfg, turns), RunLog(cfg, turns), ch, [], 0.0);
  }

  // ----- the aggregate budget ------------------------------------------------

  /** Updates accepted from admission `i` on. */
  function AcceptedFrom(log: seq<Admission>, i: nat): (n: nat)
    requires i <= |log|
  {
    if i == |log| then 0 else AcceptedFrom(log[..|log| - 1], i) + |log[|log| - 1].accepted|
  }

  /** Tokens earned by the passing of time since admission `i`, refill by refill. */
  function Earned(limit: real, log: seq<Admission>, i: nat): (e: real)
    requires i < |log|
  {
    var last := |log| - 1;
    if i == last then 0.0 else Earned(limit, log[..last], i) + Gain(limit, log[last - 1].now, log[last].now)
  }

  lemma {:induction false} EarnedIsElapsed(limit: real, log: seq<Admission>, i: nat)
    requires i < |log|
    ensures Earned(limit, log, i) == Gain(limit, log[i].now, log[|log| - 1].now)
  {
    var last := |log| - 1;
    if i < last {
      EarnedIsElapsed(limit, log[..last], i);
      Telescopes(limit, log[i].now, log[last - 1].now, log[last].now);
    }
  }

  lemma Telescopes(limit: real, t0: real, t1: real, t2: real)
    ensures Gain(limit, t0, t1) + Gain(limit, t1, t2) == Gain(limit, t0, t2)
  {
  }

  ghost predicate Within(limit: real, log: seq<Admission>, i: nat, tokens: real)
    requires i < |log|
  {
    AcceptedFrom(log, i) as real <= Capacity(limit) + Earned(limit, log, i) - tokens
  }

  ghost predicate Budgeted(limit: real, l: Limiter, log: seq<Admission>) {
    && (l.at.None? <==> log == []) && (l.at.Some? ==> l.at.value == log[|log| - 1].now)
    && (log == [] ==> l.tokens == 0.0)
    && -EPSILON <= l.tokens <= Capacity(limit)
    && forall i :: 0 <= i < |log| && Forward(log, i) ==> Within(limit, log, i, l.tokens)
  }

  /** From admission `i` on the clock has not gone back. */
  ghost predicate Forward(log: seq<Admission>, i: int) {
    forall k :: 0 <= i <= k < |log| - 1 ==> log[k].now <= log[k + 1].now
  }

  lemma {:induction false} CandidatesKeepBudget(cfg: Config, l: Limiter, turn: Turn)
    ensures Candidates(cfg, l, turn).0.tokens == l.tokens && Candidates(cfg, l, turn).0.at == l.at
  {
    match turn
    case Message(now, samples) =>
      OfferAllKeepsBudget(cfg, l, samples, now);
      var (l1, offered) := OfferAll(cfg, l, samples, now);
      CollectKeepsBudget(l1, now, |l1.order|);
      ConflateKeepsRest(Drain(l1, now).0, offered + Drain(l1, now).1);
    case Poll(now) =>
      CollectKeepsBudget(l, now, |l.order|);
  }

  lemma {:induction false} OfferAllKeepsBudget(cfg: Config, l: Limiter, os: seq<Offering>, now: real)
    ensures OfferAll(cfg, l, os, now).0.tokens == l.tokens && OfferAll(cfg, l, os, now).0.at == l.at
  {
    if |os| > 0 {
      OfferAllKeepsBudget(cfg, l, os[..|os| - 1], now);
    }
  }

  lemma {:induction false} CollectKeepsBudget(l: Limiter, now: real, i: nat)
    requires i <= |l.order|
    ensures Collect(l, now, i).0.tokens == l.tokens && Collect(l, now, i).0.at == l.at
  {
    if i > 0 {
      CollectKeepsBudget(l, now, i - 1);
    }
  }

  /** Tokens after `n` updates were accepted: refilled, less `n`, and never below minus epsilon. */
  ghost predicate Metered(limit: real, l: Limiter, l': Limiter, n: nat, now: real) {
    && l'.tokens == Refilled(l.tokens, l.at, now, limit) - n as real
    && l'.tokens >= -EPSILON && l'.at == Some(now)
  }

  lemma AdmitTokens(cfg: Config, l: Limiter, cs: seq<Update>, now: real)
    requires cfg.limit > 0.0 && -EPSILON <= l.tokens <= Capacity(cfg.limit)
    ensures var (l', accepted) := Admit(cfg, l, cs, now);
            Metered(cfg.limit, l, l', |accepted|, now)
  {
    var ranked, l1 := Ranked(l.gates, cs), Refill(l, now, cfg.limit);
    var n := Available(cfg, l1.tokens, |ranked|);
    RefilledBounds(cfg.limit, l.tokens, l.at, now);
    AvailableBound(cfg, l1.tokens, |ranked|);
    PublishAt(l1, ranked[..n], now, 0);
    ShedAt(Publish(l1, ranked[..n], now), ranked[n..], 0);
  }

  lemma RefilledBounds(limit: real, tokens: real, at: Option<real>, now: real)
    requires limit > 0.0 && tokens >= -EPSILON
    ensures -EPSILON <= Refilled(tokens, at, now, limit) <= Capacity(limit)
  {
    if at.Some? && at.value <= now {
      ElapsedNonNegative(limit, at.value, now);
    }
  }

  /** What is available never overdraws the bucket by more than epsilon. */
  lemma AvailableBound(cfg: Config, tokens: real, n: nat)
    requires cfg.limit > 0.0 && tokens >= -EPSILON
    ensures Available(cfg, tokens, n) as real <= tokens + EPSILON
  {
  }

  lemma {:induction false} AcceptedSnoc(log: seq<Admission>, a: Admission, i: nat)
    requires i <= |log|
    ensures AcceptedFrom(log + [a], i) == AcceptedFrom(log, i) + |a.accepted|
  {
    assert (log + [a])[..|log|] == log;
  }

  /** The bound on one stretch of admissions, carried over one more. */
  lemma StretchStep(limit: real, log: seq<Admission>, a: Admission, i: nat, tokens: real, tokens': real, gain: real)
    requires i < |log| && Within(limit, log, i, tokens) && gain == Gain(limit, log[|log| - 1].now, a.now)
    requires tokens' + |a.accepted| as real <= tokens + gain
    ensures Within(limit, log + [a], i, tokens')
  {
    AcceptedSnoc(log, a, i);
    assert (log + [a])[..|log|] == log;
    assert Earned(limit, log + [a], i) == Earned(limit, log, i) + gain;
  }

  lemma StretchStarts(limit: real, log: seq<Admission>, a: Admission, tokens': real)
    requires tokens' + |a.accepted| as real <= Capacity(limit)
    ensures Within(limit, log + [a], |log|, tokens')
  {
    AcceptedSnoc(log, a, |log|);
    assert AcceptedFrom(log, |log|) == 0;
    assert Earned(limit, log + [a], |log|) == 0.0;
  }

  lemma ElapsedNonNegative(limit: real, t0: real, t1: real)
    requires limit > 0.0 && t0 <= t1
    ensures Gain(limit, t0, t1) >= 0.0
  {
  }

  lemma BudgetStep(limit: real, l: Limiter, log: seq<Admission>, l': Limiter, a: Admission)
    requires limit > 0.0 && Budgeted(limit, l, log) && Metered(limit, l, l', |a.accepted|, a.now)
    ensures Budgeted(limit, l', log + [a])
  {
    forall i | 0 <= i < |log + [a]| && Forward(log + [a], i) ensures Within(limit, log + [a], i, l'.tokens) {
      if i < |log| {
        ForwardBefore(log, a, i);
        StretchStep(limit, log, a, i, l.tokens, l'.tokens, Gain(limit, l.at.value, a.now));
      } else {
        StretchStarts(limit, log, a, l'.tokens);
      }
    }
  }

  lemma ForwardBefore(log: seq<Admission>, a: Admission, i: nat)
    requires i < |log| && Forward(log + [a], i)
    ensures Forward(log, i) && log[|log| - 1].now <= a.now
  {
    var all := log + [a];
    forall k | i <= k < |log| - 1 ensures log[k].now <= log[k + 1].now {
      assert all[k].now <= all[k + 1].now;
    }
    assert all[|log| - 1].now <= all[|log|].now;
  }

  lemma TurnMetered(cfg: Config, l: Limiter, turn: Turn)
    requires cfg.limit > 0.0 && -EPSILON <= l.tokens <= Capacity(cfg.limit)
    ensures Metered(cfg.limit, l, Drive(cfg, l, turn).0, |Drive(cfg, l, turn).1|, turn.now)
  {
    CandidatesKeepBudget(cfg, l, turn);
    var (l1, cs) := Candidates(cfg, l, turn);
    AdmitTokens(cfg, l1, cs, turn.now);
    SameMeter(cfg.limit, l, l1, Admit(cfg, l1, cs, turn.now).0, |Admit(cfg, l1, cs, turn.now).1|, turn.now);
  }

  lemma SameMeter(limit: real, l: Limiter, l1: Limiter, l': Limiter, n: nat, now: real)
    requires Metered(limit, l1, l', n, now) && l.tokens == l1.tokens && l.at == l1.at
    ensures Metered(limit, l, l', n, now)
  {
  }

  lemma {:induction false} RunBudgeted(cfg: Config, turns: seq<Turn>)
    requires cfg.limit > 0.0
    ensures Budgeted(cfg.limit, RunLimiter(cfg, turns), RunLog(cfg, turns))
  {
    if |turns| > 0 {
      var front, turn := turns[..|turns| - 1], turns[|turns| - 1];
      RunBudgeted(cfg, front);
      var l, log := RunLimiter(cfg, front), RunLog(cfg, front);
      TurnMetered(cfg, l, turn);
      var (l', accepted) := Drive(cfg, l, turn);
      BudgetStep(cfg.limit, l, log, l', Admission(turn.now, accepted));
    }
  }

  /** max(1, limit) + limit * T + epsilon for a stretch of length T = to - from. */
  function Allowance(limit: real, from: real, to: real): real {
    (if limit >= 1.0 then limit else 1.0) + limit * (to - from) + 0.000000001
  }

  lemma BudgetAtEnd(limit: real, l: Limiter, log: seq<Admission>, i: nat, from: real, to: real)
    requires Budgeted(limit, l, log) && i < |log| && Forward(log, i)
    requires from == log[i].now && to == log[|log| - 1].now
    ensures AcceptedFrom(log, i) as real <= Allowance(limit, from, to)
  {
    assert Within(limit, log, i, l.tokens);
    EarnedIsElapsed(limit, log, i);
  }

  lemma {:induction false} RunLogPrefix(cfg: Config, turns: seq<Turn>, k: nat)
    requires k <= |turns|
    ensures RunLog(cfg, turns)[..k] == RunLog(cfg, turns[..k])
  {
    if k < |turns| {
      RunLogPrefix(cfg, turns[..|turns| - 1], k);
      assert turns[..|turns| - 1][..k] == turns[..k];
    } else {
      assert turns[..k] == turns;
    }
  }

  /** Updates accepted in turns `i` to `j`. */
  function AcceptedIn(cfg: Config, turns: seq<Turn>, i: nat, j: nat): nat
    requires i <= j < |turns|
  {
    AcceptedFrom(RunLog(cfg, turns)[..j + 1], i)
  }

  /** From turn `i` to turn `j` the clock does not go back. */
  ghost predicate Steady(turns: seq<Turn>, i: int, j: int) {
    forall k :: 0 <= i <= k < j < |turns| ==> turns[k].now <= turns[k + 1].now
  }

  lemma LogIsSteady(cfg: Config, turns: seq<Turn>, i: nat, j: nat)
    requires i <= j < |turns|
    ensures Forward(RunLog(cfg, turns[..j + 1]), i) <==> Steady(turns, i, j)
  {
    var upTo := turns[..j + 1];
    var log := RunLog(cfg, upTo);
    forall k | 0 <= k <= j ensures log[k].now == turns[k].now {
      LogTimes(cfg, upTo, k);
    }
    if Steady(turns, i, j) {
      assert forall k :: i <= k < j ==> turns[k].now <= turns[k + 1].now;
    }
    if Forward(log, i) {
      assert forall k :: i <= k < j ==> log[k].now <= log[k + 1].now;
    }
  }

  /**
   With a non-zero aggregate limit, the updates accepted in any stretch of turns
   in which the clock does not go back, spanning time T, number at most
   max(1, limit) + limit * T + epsilon.
   */
  lemma AggregateBudget(cfg: Config, turns: seq<Turn>, i: nat, j: nat)
    requires cfg.limit > 0.0 && i <= j < |turns| && Steady(turns, i, j)
    ensures AcceptedIn(cfg, turns, i, j) as real <= Allowance(cfg.limit, turns[i].now, turns[j].now)
  {
    var upTo := turns[..j + 1];
    RunBudgeted(cfg, upTo);
    RunLogPrefix(cfg, turns, j + 1);
    LogTimes(cfg, upTo, i);
    LogTimes(cfg, upTo, j);
    LogIsSteady(cfg, turns, i, j);
    BudgetAtEnd(cfg.limit, RunLimiter(cfg, upTo), RunLog(cfg, upTo), i, turns[i].now, turns[j].now);
  }

  // ----- who is shed ---------------------------------------------------------

  ghost predicate InRank(gates: map<nat, Gate>, s: seq<Update>) {
    forall i, j :: 0 <= i < j < |s| ==> !Ahead(gates, s[j].channel, s[i].channel)
  }

  lemma {:induction false} InsertNotAhead(gates: map<nat, Gate>, s: seq<Update>, u: Update, x: nat)
    requires (forall k :: 0 <= k < |s| ==> !Ahead(gates, x, s[k].channel)) && !Ahead(gates, x, u.channel)
    ensures forall k :: 0 <= k < |Insert(gates, s, u)| ==> !Ahead(gates, x, Insert(gates, s, u)[k].channel)
  {
    if |s| != 0 && Ahead(gates, u.channel, s[|s| - 1].channel) {
      InsertNotAhead(gates, s[..|s| - 1], u, x);
    }
  }

  lemma {:induction false} InsertRanks(gates: map<nat, Gate>, s: seq<Update>, u: Update)
    requires InRank(gates, s)
    ensures InRank(gates, Insert(gates, s, u))
  {
    if |s| != 0 && Ahead(gates, u.channel, s[|s| - 1].channel) {
      InsertRanks(gates, s[..|s| - 1], u);
      InsertNotAhead(gates, s[..|s| - 1], u, s[|s| - 1].channel);
    }
  }

  lemma {:induction false} RankedRanks(gates: map<nat, Gate>, s: seq<Update>)
    ensures InRank(gates, Ranked(gates, s))
  {
    if |s| > 0 {
      RankedRanks(gates, s[..|s| - 1]);
      InsertRanks(gates, Ranked(gates, s[..|s| - 1]), s[|s| - 1]);
    }
  }

  /** Whatever the budget cuts off, no shed update outranks an accepted one. */
  lemma ShedNeverOutranks(cfg: Config, l: Limiter, cs: seq<Update>, now: real, i: nat, j: nat)
    requires i < |Admit(cfg, l, cs, now).1| <= j < |Ranked(l.gates, cs)|
    ensures Admit(cfg, l, cs, now).1[i] == Ranked(l.gates, cs)[i]
    ensures !Ahead(l.gates, Ranked(l.gates, cs)[j].channel, Admit(cfg, l, cs, now).1[i].channel)
  {
    RankedRanks(l.gates, cs);
  }
}
