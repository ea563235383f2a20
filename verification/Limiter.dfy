/**
 `ConflatingLimiter` (`src/pit/live_decoder/limiter.py`) as the object it is,
 and the service loop that drives it (`src/pit/live_decoder/service.py`). Every
 method is proved to do to the object's `View()` what the function of the same
 name in `LimiterModel` does, so the run guarantees of `LimiterSafety` hold of
 the object; `LiveService.Take` states them for it.
 */
module LiveLimiter {
  import opened Basics
  import opened LimiterModel
  import Safety = LimiterSafety
  import Freshness = LimiterFreshness

  /** The dictionary `_states`: insertion order and entries. */
  datatype States = States(order: seq<nat>, gates: map<nat, Gate>) {
    ghost predicate Valid() {
      && (forall i, j :: 0 <= i < j < |order| ==> order[i] != order[j])
      && (forall k :: 0 <= k < |order| ==> order[k] in gates)
    }

    function Set(ch: nat, g: Gate): (r: States)
      ensures Valid() ==> r.Valid()
    {
      if ch in gates then States(order, gates[ch := g])
      else
        var r := States(order + [ch], gates[ch := g]);
        assert Valid() ==> r.Valid() by {
          assert forall k :: 0 <= k < |order| ==> r.order[k] == order[k];
          assert r.order[|order|] == ch;
        }
        r
    }
  }

  /** The candidate list under construction names the position of each limited channel. */
  ghost predicate Indexes(out: seq<Update>, indexes: map<nat, nat>) {
    forall ch: nat :: IndexOf(out, ch) == if ch in indexes then Some(indexes[ch]) else None
  }

  lemma IndexAfterAppend(out: seq<Update>, u: Update, ch: nat)
    ensures IndexOf(out + [u], ch) == if u.channel == ch && u.conflate then Some(|out|) else IndexOf(out, ch)
  {
    assert (out + [u])[..|out|] == out;
  }

  lemma {:induction false} IndexAfterReplace(out: seq<Update>, u: Update, ch: nat)
    requires u.conflate && IndexOf(out, u.channel).Some?
    ensures IndexOf(out[IndexOf(out, u.channel).value := u], ch) == IndexOf(out, ch)
  {
    var at, last := IndexOf(out, u.channel).value, |out| - 1;
    if at == last {
      assert out[at := u][..last] == out[..last];
    } else {
      IndexAfterReplace(out[..last], u, ch);
      assert out[at := u][..last] == out[..last][at := u];
    }
  }

  class ConflatingLimiter {
    const config: Config
    var states: States
    var suppressed: map<nat, nat>
    var published: map<nat, nat>
    var aggregateSheds: nat
    var aggregateTokens: real
    var aggregateAt: Option<real>
    // these two number and count the offers; the source has no such fields
    var offers: nat
    ghost var offered: map<nat, nat>

    ghost predicate Valid() reads this { states.Valid() }

    ghost function View(): Limiter reads this {
      Limiter(states.order, states.gates, suppressed, published, aggregateSheds, aggregateTokens, aggregateAt, offers, offered)
    }

    constructor (config: Config)
      ensures Valid() && this.config == config && View() == Empty
    {
      this.config := config;
      states := States([], map[]);
      suppressed, published, aggregateSheds := map[], map[], 0;
      aggregateTokens, aggregateAt := 0.0, None;
      offers, offered := 0, map[];
    }

    /** One sample: counted as an offer; returned as a candidate, or left pending in place of the value it replaces. */
    method Offer(o: Offering, now: real) returns (made: seq<Update>)
      requires Valid()
      modifies this
      ensures Valid() && (View(), made) == LimiterModel.Offer(config, old(View()), o, now)
    {
      var ch := o.channel;
      if !config.Selected(ch) {
        return [];
      }
      var update := Update(ch, o.captureMs, o.value, config.Limited(ch), offers);
      offers, offered := offers + 1, Bump(offered, ch);
      var known := ch in states.gates;
      var state := if known then states.gates[ch] else Gate(0.0, None, None, None);
      if !config.Limited(ch) {
        states := states.Set(ch, state);
        return [update];
      }
      if !known || state.interval != config.Interval(ch) {
        state := Gate(config.Interval(ch), None, None, None);
      }
      if state.pending.Some? {
        suppressed := Bump(suppressed, ch);
      }
      if Due(state, now) {
        states := states.Set(ch, state.(pending := None));
        return [update];
      }
      states := states.Set(ch, state.(pending := Some(update)));
      return [];
    }

    /** Takes the pending update of every channel that has come due, ranked. */
    method Drain(now: real) returns (ready: seq<Update>)
      requires Valid()
      modifies this`states
      ensures Valid() && (View(), ready) == LimiterModel.Drain(old(View()), now)
    {
      ready := [];
      ghost var before := View();
      var i := 0;
      while i < |states.order|
        invariant 0 <= i <= |states.order| && states.order == before.order && Valid()
        invariant (View(), ready) == Collect(before, now, i)
        invariant forall k :: i <= k < |before.order| ==> states.gates[before.order[k]] == before.gates[before.order[k]]
      {
        var ch := states.order[i];
        var state := states.gates[ch];
        if Releases(state, now) {
          ready := ready + [state.pending.value];
          states := states.Set(ch, state.(pending := None));
        }
        i := i + 1;
      }
      ready := Ranked(states.gates, ready);
    }

    /** Leaves one candidate per limited channel, its last, at the place of its first. */
    method ConflateCandidates(candidates: seq<Update>) returns (conflated: seq<Update>)
      requires Valid()
      modifies this`suppressed
      ensures Valid() && (View(), conflated) == Conflate(old(View()), candidates)
    {
      conflated := [];
      var indexes: map<nat, nat> := map[];
      ghost var before := View();
      var i := 0;
      while i < |candidates|
        invariant 0 <= i <= |candidates| && Valid()
        invariant (View(), conflated) == Conflate(before, candidates[..i])
        invariant Indexes(conflated, indexes)
      {
        var update := candidates[i];
        assert candidates[..i + 1][..i] == candidates[..i];
        assert IndexOf(conflated, update.channel) ==
               if update.channel in indexes then Some(indexes[update.channel]) else None;
        if !update.conflate || update.channel !in indexes {
          IndexesAfterAppend(conflated, indexes, update);
          if update.conflate {
            indexes := indexes[update.channel := |conflated|];
          }
          conflated := conflated + [update];
        } else {
          IndexesAfterReplace(conflated, indexes, update);
          conflated := conflated[indexes[update.channel] := update];
          suppressed := Bump(suppressed, update.channel);
        }
        i := i + 1;
      }
      assert candidates[..i] == candidates;
    }

    /** Accepts as many of the ranked candidates as there are whole tokens; the rest is shed. */
    method Admit(candidates: seq<Update>, now: real) returns (accepted: seq<Update>)
      requires Valid()
      modifies this
      ensures Valid() && (View(), accepted) == LimiterModel.Admit(config, old(View()), candidates, now)
    {
      var ranked := Ranked(states.gates, candidates);
      RefillAggregate(now);
      var available := Available(config, aggregateTokens, |ranked|);
      accepted := ranked[..available];
      MarkPublished(accepted, now);
      MarkShed(ranked[available..]);
      if config.limit != 0.0 {
        aggregateTokens := aggregateTokens - available as real;
      }
    }

    method RefillAggregate(now: real)
      requires Valid()
      modifies this`aggregateTokens, this`aggregateAt
      ensures Valid() && View() == Refill(old(View()), now, config.limit)
    {
      if config.limit == 0.0 {
        return;
      }
      var capacity := Capacity(config.limit);
      if aggregateAt.None? || now < aggregateAt.value {
        aggregateTokens := capacity;
      } else {
        var elapsed := now - aggregateAt.value;
        aggregateTokens := MinReal(capacity, aggregateTokens + elapsed * config.limit);
      }
      aggregateAt := Some(now);
    }

    method MarkPublished(accepted: seq<Update>, now: real)
      requires Valid()
      modifies this`published, this`states
      ensures Valid() && View() == Publish(old(View()), accepted, now)
    {
      ghost var before := View();
      var i := 0;
      while i < |accepted|
        invariant 0 <= i <= |accepted| && Valid()
        invariant View() == Publish(before, accepted[..i], now)
      {
        var ch := accepted[i].channel;
        assert accepted[..i + 1][..i] == accepted[..i];
        published := Bump(published, ch);
        if ch in states.gates {
          var state := states.gates[ch];
          states := states.Set(ch, state.(lastPublished := Some(now), nextDue := Some(now + state.interval)));
        }
        i := i + 1;
      }
      assert accepted[..i] == accepted;
    }

    method MarkShed(rejected: seq<Update>)
      requires Valid()
      modifies this`aggregateSheds, this`suppressed
      ensures Valid() && View() == Shed(old(View()), rejected)
    {
      ghost var before := View();
      var i := 0;
      while i < |rejected|
        invariant 0 <= i <= |rejected| && Valid()
        invariant View() == Shed(before, rejected[..i])
      {
        assert rejected[..i + 1][..i] == rejected[..i];
        aggregateSheds := aggregateSheds + 1;
        suppressed := Bump(suppressed, rejected[i].channel);
        i := i + 1;
      }
      assert rejected[..i] == rejected;
    }
  }

  lemma IndexesAfterAppend(out: seq<Update>, indexes: map<nat, nat>, u: Update)
    requires Indexes(out, indexes)
    ensures Indexes(out + [u], if u.conflate then indexes[u.channel := |out|] else indexes)
  {
    forall ch: nat
      ensures IndexOf(out + [u], ch) == if u.channel == ch && u.conflate then Some(|out|) else IndexOf(out, ch)
    {
      IndexAfterAppend(out, u, ch);
    }
  }

  lemma IndexesAfterReplace(out: seq<Update>, indexes: map<nat, nat>, u: Update)
    requires Indexes(out, indexes) && u.conflate && u.channel in indexes && IndexOf(out, u.channel) == Some(indexes[u.channel])
    ensures Indexes(out[indexes[u.channel] := u], indexes)
  {
    forall ch: nat ensures IndexOf(out[indexes[u.channel] := u], ch) == IndexOf(out, ch) {
      IndexAfterReplace(out, u, ch);
    }
  }

  /** The service loop: one turn per message or idle poll, within one configuration. */
  class LiveService {
    const limiter: ConflatingLimiter
    ghost var turns: seq<Turn>
    ghost var log: seq<Admission>

    ghost predicate Valid() reads this, limiter {
      && limiter.Valid() && limiter.View() == RunLimiter(limiter.config, turns)
      && log == RunLog(limiter.config, turns) && TimeMoves(turns)
    }

    constructor (config: Config)
      ensures Valid() && fresh(limiter) && limiter.config == config && turns == []
    {
      limiter := new ConflatingLimiter(config);
      turns, log := [], [];
    }

    /** One turn of `_consume`; the clock is monotonic. */
    method Take(turn: Turn) returns (accepted: seq<Update>)
      requires Valid() && (turns != [] ==> turns[|turns| - 1].now <= turn.now)
      modifies this, limiter
      ensures Valid() && turns == old(turns) + [turn] && log == old(log) + [Admission(turn.now, accepted)]
      ensures forall ch: nat :: TurnKept(limiter.config, limiter.View(), old(log), Admission(turn.now, accepted), ch)
      ensures forall ch: nat :: TurnFresh(limiter.config, turns, accepted, ch)
    {
      accepted := Turned(turn);
      TurnTaken(limiter.config, turns, turn);
      TurnIsFresh(limiter.config, turns, turn);
      turns, log := turns + [turn], log + [Admission(turn.now, accepted)];
    }

    method Turned(turn: Turn) returns (accepted: seq<Update>)
      requires limiter.Valid()
      modifies limiter
      ensures limiter.Valid() && (limiter.View(), accepted) == Drive(limiter.config, old(limiter.View()), turn)
    {
      var candidates := [];
      match turn {
        case Message(now, samples) =>
          candidates := OfferEach(samples, now);
          var drained := limiter.Drain(now);
          candidates := limiter.ConflateCandidates(candidates + drained);
        case Poll(now) =>
          candidates := limiter.Drain(now);
      }
      accepted := limiter.Admit(candidates, turn.now);
    }

    method OfferEach(samples: seq<Offering>, now: real) returns (candidates: seq<Update>)
      requires limiter.Valid()
      modifies limiter
      ensures limiter.Valid() && (limiter.View(), candidates) == OfferAll(limiter.config, old(limiter.View()), samples, now)
    {
      ghost var before := limiter.View();
      candidates := [];
      var i := 0;
      while i < |samples|
        invariant 0 <= i <= |samples| && limiter.Valid()
        invariant (limiter.View(), candidates) == OfferAll(limiter.config, before, samples[..i], now)
      {
        assert samples[..i + 1][..i] == samples[..i];
        var made := limiter.Offer(samples[i], now);
        candidates := candidates + made;
        i := i + 1;
      }
      assert samples[..i] == samples;
    }
  }

  lemma RunGrows(cfg: Config, turns: seq<Turn>, turn: Turn)
    ensures TimeMoves(turns) && (turns != [] ==> turns[|turns| - 1].now <= turn.now) ==> TimeMoves(turns + [turn])
    ensures RunLimiter(cfg, turns + [turn]) == Drive(cfg, RunLimiter(cfg, turns), turn).0
    ensures RunLog(cfg, turns + [turn]) == RunLog(cfg, turns) + [Logged(cfg, RunLimiter(cfg, turns), turn)]
  {
    assert (turns + [turn])[..|turns|] == turns;
  }

  /** After a turn: every offer is accounted for, and the turn's updates are fresh and spaced against all earlier ones. */
  ghost predicate TurnKept(cfg: Config, l: Limiter, log: seq<Admission>, a: Admission, ch: nat) {
    Safety.Balanced(l, ch, 0) && Safety.Follows(cfg, log, a, ch)
  }

  /** A run and its log after one more turn, and what holds of that turn. */
  lemma TurnTaken(cfg: Config, turns: seq<Turn>, turn: Turn)
    requires TimeMoves(turns) && (turns != [] ==> turns[|turns| - 1].now <= turn.now)
    ensures var l := RunLimiter(cfg, turns);
      && TimeMoves(turns + [turn]) && RunLimiter(cfg, turns + [turn]) == Drive(cfg, l, turn).0
      && RunLog(cfg, turns + [turn]) == RunLog(cfg, turns) + [Logged(cfg, l, turn)]
      && forall ch: nat :: TurnKept(cfg, Drive(cfg, l, turn).0, RunLog(cfg, turns), Logged(cfg, l, turn), ch)
  {
    RunGrows(cfg, turns, turn);
    TurnGuarantees(cfg, turns, turn);
  }

  /** What the turn accepted of a channel was offered by then; of a limited one it was offered last. */
  ghost predicate TurnFresh(cfg: Config, turns: seq<Turn>, accepted: seq<Update>, ch: nat) {
    Freshness.AcceptedFresh(cfg, Freshness.Offers(cfg, turns), ch, Safety.On(accepted, ch))
  }

  lemma TurnIsFresh(cfg: Config, turns: seq<Turn>, turn: Turn)
    requires TimeMoves(turns + [turn])
    ensures forall ch: nat :: TurnFresh(cfg, turns + [turn], Drive(cfg, RunLimiter(cfg, turns), turn).1, ch)
  {
    RunGrows(cfg, turns, turn);
    forall ch: nat ensures TurnFresh(cfg, turns + [turn], Drive(cfg, RunLimiter(cfg, turns), turn).1, ch) {
      Freshness.RunFresh(cfg, turns + [turn], ch);
    }
  }

  lemma TurnGuarantees(cfg: Config, turns: seq<Turn>, turn: Turn)
    requires TimeMoves(turns + [turn])
    ensures var l := RunLimiter(cfg, turns);
      forall ch: nat :: TurnKept(cfg, Drive(cfg, l, turn).0, RunLog(cfg, turns), Logged(cfg, l, turn), ch)
  {
    var l, log := RunLimiter(cfg, turns), RunLog(cfg, turns);
    forall ch: nat ensures TurnKept(cfg, Drive(cfg, l, turn).0, log, Logged(cfg, l, turn), ch) {
      TurnKeeps(cfg, turns, turn, ch);
    }
  }

  lemma TurnKeeps(cfg: Config, turns: seq<Turn>, turn: Turn, ch: nat)
    requires TimeMoves(turns + [turn])
    ensures var l := RunLimiter(cfg, turns);
            TurnKept(cfg, Drive(cfg, l, turn).0, RunLog(cfg, turns), Logged(cfg, l, turn), ch)
  {
    var all := turns + [turn];
    RunGrows(cfg, turns, turn);
    Safety.RunKeeps(cfg, all, ch);
    var log := RunLog(cfg, all);
    assert log[..|turns|] == RunLog(cfg, turns);
    assert Safety.Follows(cfg, log[..|turns|], log[|turns|], ch);
    assert Safety.MidTurn(cfg, RunLimiter(cfg, all), log, ch, [], 0.0);
  }
}
