/**
 The live view's conflating limiter (`src/pit/live_decoder/limiter.py`) and the
 order in which the service drives it (`src/pit/live_decoder/service.py`,
 `_consume` and `_handle_message`), as functions on its state.

 Channels are numbered in the order of their names. Each update carries the
 number of the offer it came from, so that "older" means "offered earlier".
 */
module LimiterModel {
  import opened Basics
  import opened Wire

  const EPSILON := 0.000000001

  datatype Update = Update(channel: nat, captureMs: real, value: Option<Value>, conflate: bool, serial: nat)

  datatype Offering = Offering(channel: nat, captureMs: real, value: Option<Value>)

  /** Rates per channel (`None`: not selected; 0: unlimited) and the aggregate rate (0: unlimited). */
  datatype Config = Config(rate: nat -> Option<real>, limit: real) {
    predicate Selected(ch: nat) { rate(ch).Some? }

    predicate Limited(ch: nat) { rate(ch).Some? && rate(ch).value != 0.0 }

    /** The spacing asked of a channel; 0 where it is not limited. */
    function Interval(ch: nat): real { if Limited(ch) then 1.0 / rate(ch).value else 0.0 }
  }

  datatype Gate = Gate(interval: real, pending: Option<Update>, nextDue: Option<real>, lastPublished: Option<real>)

  /** `order` is the insertion order of the `_states` dictionary; `offers` and `offered` count offers of selected channels. */
  datatype Limiter = Limiter(
    order: seq<nat>, gates: map<nat, Gate>, suppressed: map<nat, nat>, published: map<nat, nat>, sheds: nat,
    tokens: real, at: Option<real>, offers: nat, offered: map<nat, nat>)

  const Empty := Limiter([], map[], map[], map[], 0, 0.0, None, 0, map[])

  function Count(m: map<nat, nat>, ch: nat): nat { if ch in m then m[ch] else 0 }

  function Bump(m: map<nat, nat>, ch: nat): map<nat, nat> { m[ch := Count(m, ch) + 1] }

  // ----- offer ---------------------------------------------------------------

  predicate Due(g: Gate, now: real) { g.nextDue.None? || now + EPSILON >= g.nextDue.value }

  /** `setdefault`, and the replacement of a gate whose interval no longer fits. */
  function GateFor(cfg: Config, l: Limiter, ch: nat): Gate {
    if ch in l.gates && (!cfg.Limited(ch) || l.gates[ch].interval == cfg.Interval(ch)) then l.gates[ch]
    else Gate(cfg.Interval(ch), None, None, None)
  }

  function Registered(l: Limiter, ch: nat): Limiter {
    l.(order := if ch in l.gates then l.order else l.order + [ch], offers := l.offers + 1, offered := Bump(l.offered, ch))
  }

  function Offer(cfg: Config, l: Limiter, o: Offering, now: real): (Limiter, seq<Update>) {
    var ch := o.channel;
    if !cfg.Selected(ch) then (l, [])
    else
      var u := Update(ch, o.captureMs, o.value, cfg.Limited(ch), l.offers);
      var g := GateFor(cfg, l, ch);
      var l0 := Registered(l, ch);
      if !cfg.Limited(ch) then (l0.(gates := l.gates[ch := g]), [u])
      else
        var suppressed := if g.pending.Some? then Bump(l.suppressed, ch) else l.suppressed;
        if Due(g, now) then (l0.(gates := l.gates[ch := g.(pending := None)], suppressed := suppressed), [u])
        else (l0.(gates := l.gates[ch := g.(pending := Some(u))], suppressed := suppressed), [])
  }

  function OfferAll(cfg: Config, l: Limiter, os: seq<Offering>, now: real): (Limiter, seq<Update>)
  {
    if |os| == 0 then (l, [])
    else
      var (l1, c1) := OfferAll(cfg, l, os[..|os| - 1], now);
      var (l2, c2) := Offer(cfg, l1, os[|os| - 1], now);
      (l2, c1 + c2)
  }

  // ----- ranking -------------------------------------------------------------

  /** Recently published first, then later names first; a channel never published ranks last. */
  predicate Ahead(gates: map<nat, Gate>, a: nat, b: nat) {
    var x := if a in gates then gates[a].lastPublished else None;
    var y := if b in gates then gates[b].lastPublished else None;
    if x == y then a > b
    else x.Some? && (y.None? || x.value > y.value)
  }

  /** Place `u` behind every update that does not rank after it. */
  function Insert(gates: map<nat, Gate>, s: seq<Update>, u: Update): (r: seq<Update>)
  {
    if |s| == 0 || !Ahead(gates, u.channel, s[|s| - 1].channel) then s + [u]
    else Insert(gates, s[..|s| - 1], u) + [s[|s| - 1]]
  }

  /** The stable descending sort. */
  function Ranked(gates: map<nat, Gate>, s: seq<Update>): (r: seq<Update>)
  {
    if |s| == 0 then [] else Insert(gates, Ranked(gates, s[..|s| - 1]), s[|s| - 1])
  }

  // ----- drain ---------------------------------------------------------------

  predicate Releases(g: Gate, now: real) { g.pending.Some? && g.nextDue.Some? && now + EPSILON >= g.nextDue.value }

  /** The first `i` channels of the dictionary. */
  function Collect(l: Limiter, now: real, i: nat): (Limiter, seq<Update>)
    requires i <= |l.order|
  {
    if i == 0 then (l, [])
    else
      var (l', ready) := Collect(l, now, i - 1);
      var ch := l.order[i - 1];
      if ch in l.gates && Releases(l.gates[ch], now)
      then (l'.(gates := l'.gates[ch := l.gates[ch].(pending := None)]), ready + [l.gates[ch].pending.value])
      else (l', ready)
  }

  function Drain(l: Limiter, now: real): (Limiter, seq<Update>)
  {
    var (l', ready) := Collect(l, now, |l.order|);
    (l', Ranked(l'.gates, ready))
  }

  // ----- conflate ------------------------------------------------------------

  /** Where a limited channel's update already stands in the list. */
  function IndexOf(s: seq<Update>, ch: nat): (k: Option<nat>)
    ensures k.Some? ==> k.value < |s| && s[k.value].channel == ch && s[k.value].conflate
    ensures k.None? ==> forall i :: 0 <= i < |s| ==> !(s[i].channel == ch && s[i].conflate)
  {
    if |s| == 0 then None
    else if s[|s| - 1].channel == ch && s[|s| - 1].conflate then Some(|s| - 1)
    else IndexOf(s[..|s| - 1], ch)
  }

  /** One update joins the list: appended, or in place of an older one of its limited channel. */
  function ConflateOne(l: Limiter, out: seq<Update>, u: Update): (Limiter, seq<Update>) {
    if !u.conflate || IndexOf(out, u.channel).None? then (l, out + [u])
    else (l.(suppressed := Bump(l.suppressed, u.channel)), out[IndexOf(out, u.channel).value := u])
  }

  function Conflate(l: Limiter, cs: seq<Update>): (Limiter, seq<Update>)
  {
    if |cs| == 0 then (l, [])
    else
      var (l', out) := Conflate(l, cs[..|cs| - 1]);
      ConflateOne(l', out, cs[|cs| - 1])
  }

  // ----- admit ---------------------------------------------------------------

  function Capacity(limit: real): real { if limit > 1.0 then limit else 1.0 }

  function MinReal(a: real, b: real): real { if a <= b then a else b }

  /** Tokens earned by the passing of time. */
  function Gain(limit: real, from: real, to: real): real { (to - from) * limit }

  /** The tokens `_refill_aggregate` leaves. */
  function Refilled(tokens: real, at: Option<real>, now: real, limit: real): real {
    if at.None? || now < at.value then Capacity(limit)
    else MinReal(Capacity(limit), tokens + Gain(limit, at.value, now))
  }

  function Refill(l: Limiter, now: real, limit: real): Limiter {
    if limit == 0.0 then l else l.(at := Some(now), tokens := Refilled(l.tokens, l.at, now, limit))
  }

  function Available(cfg: Config, tokens: real, n: nat): (k: nat)
    ensures k <= n
  {
    if cfg.limit == 0.0 then n
    else
      var whole := (tokens + EPSILON).Floor;
      if whole < 0 then 0 else if whole < n then whole else n
  }

  function Publish(l: Limiter, us: seq<Update>, now: real): (l': Limiter)
  {
    if |us| == 0 then l
    else
      var l1 := Publish(l, us[..|us| - 1], now);
      var ch := us[|us| - 1].channel;
      l1.(published := Bump(l1.published, ch),
          gates := if ch in l1.gates
                   then l1.gates[ch := l1.gates[ch].(lastPublished := Some(now), nextDue := Some(now + l1.gates[ch].interval))]
                   else l1.gates)
  }

  function Shed(l: Limiter, us: seq<Update>): (l': Limiter)
  {
    if |us| == 0 then l
    else
      var l1 := Shed(l, us[..|us| - 1]);
      l1.(sheds := l1.sheds + 1, suppressed := Bump(l1.suppressed, us[|us| - 1].channel))
  }

  function Admit(cfg: Config, l: Limiter, cs: seq<Update>, now: real): (Limiter, seq<Update>)
  {
    var ranked := Ranked(l.gates, cs);
    var l1 := Refill(l, now, cfg.limit);
    var n := Available(cfg, l1.tokens, |ranked|);
    var l2 := Shed(Publish(l1, ranked[..n], now), ranked[n..]);
    (if cfg.limit == 0.0 then l2 else l2.(tokens := l2.tokens - n as real), ranked[..n])
  }

  // ----- the driver ----------------------------------------------------------

  /** One turn of `_consume`: a message with decoded samples (none for a registry), or the idle poll. */
  datatype Turn = Message(now: real, samples: seq<Offering>) | Poll(now: real)

  function Candidates(cfg: Config, l: Limiter, turn: Turn): (Limiter, seq<Update>) {
    match turn
    case Message(now, samples) =>
      var (l1, offered) := OfferAll(cfg, l, samples, now);
      var (l2, drained) := Drain(l1, now);
      Conflate(l2, offered + drained)
    case Poll(now) => Drain(l, now)
  }

  function Drive(cfg: Config, l: Limiter, turn: Turn): (Limiter, seq<Update>) {
    var (l1, cs) := Candidates(cfg, l, turn);
    Admit(cfg, l1, cs, turn.now)
  }

  /** What was published, turn by turn. */
  datatype Admission = Admission(now: real, accepted: seq<Update>)

  function Logged(cfg: Config, l: Limiter, turn: Turn): Admission { Admission(turn.now, Drive(cfg, l, turn).1) }

  function RunLimiter(cfg: Config, turns: seq<Turn>): (l: Limiter)
  {
    if |turns| == 0 then Empty else Drive(cfg, RunLimiter(cfg, turns[..|turns| - 1]), turns[|turns| - 1]).0
  }

  function RunLog(cfg: Config, turns: seq<Turn>): (log: seq<Admission>)
    ensures |log| == |turns|
  {
    if |turns| == 0 then []
    else
      var front := turns[..|turns| - 1];
      RunLog(cfg, front) + [Logged(cfg, RunLimiter(cfg, front), turns[|turns| - 1])]
  }

  /** The clock never goes back. */
  ghost predicate TimeMoves(turns: seq<Turn>) {
    forall i, j :: 0 <= i < j < |turns| ==> turns[i].now <= turns[j].now
  }
}
