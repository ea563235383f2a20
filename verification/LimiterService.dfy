/**
 What the limiter owes its readers: it sheds only what the aggregate budget
 cannot pay for, releases what is due, and in a turn without shedding every
 channel offered anything is served. `LimiterSafety` bounds what is published
 from above; this is the other side.
 */
module LimiterService {
  import opened Basics
  import opened LimiterModel
  import opened LimiterSafety
  import opened LimiterFreshness

  // ----- shedding ------------------------------------------------------------

  /** The bucket was full at admission `i`, the clock has not gone back since, and everything since is accounted for. */
  ghost predicate FullAt(limit: real, log: seq<Admission>, i: int, tokens: real) {
    0 <= i < |log| && Forward(log, i) && AcceptedFrom(log, i) as real == Capacity(limit) + Earned(limit, log, i) - tokens
  }

  ghost predicate Accounted(limit: real, l: Limiter, log: seq<Admission>) {
    && (l.at.None? <==> log == []) && (l.at.Some? ==> l.at.value == log[|log| - 1].now)
    && (log != [] ==> exists i :: FullAt(limit, log, i, l.tokens))
  }

  lemma FullLasts(limit: real, log: seq<Admission>, a: Admission, i: nat, tokens: real, tokens': real, gain: real)
    requires FullAt(limit, log, i, tokens) && gain == Gain(limit, log[|log| - 1].now, a.now)
    requires tokens' == tokens + gain - |a.accepted| as real && log[|log| - 1].now <= a.now
    ensures FullAt(limit, log + [a], i, tokens')
  {
    AcceptedSnoc(log, a, i);
    assert (log + [a])[..|log|] == log;
    assert Earned(limit, log + [a], i) == Earned(limit, log, i) + gain;
  }

  lemma FullNow(limit: real, log: seq<Admission>, a: Admission, tokens': real)
    requires tokens' == Capacity(limit) - |a.accepted| as real
    ensures FullAt(limit, log + [a], |log|, tokens')
  {
    AcceptedSnoc(log, a, |log|);
    assert AcceptedFrom(log, |log|) == 0;
    assert Earned(limit, log + [a], |log|) == 0.0;
  }

  /** Either the refill filled the bucket, or the stretch since it was last full goes on. */
  lemma AccountedStep(limit: real, l: Limiter, log: seq<Admission>, l': Limiter, a: Admission)
    requires Accounted(limit, l, log) && Metered(limit, l, l', |a.accepted|, a.now)
    ensures Accounted(limit, l', log + [a])
  {
    if l'.tokens == Capacity(limit) - |a.accepted| as real {
      FullNow(limit, log, a, l'.tokens);
      assert FullAt(limit, log + [a], |log|, l'.tokens);
    } else {
      var i :| FullAt(limit, log, i, l.tokens);
      FullLasts(limit, log, a, i, l.tokens, l'.tokens, Gain(limit, l.at.value, a.now));
      assert FullAt(limit, log + [a], i, l'.tokens);
    }
  }

  lemma {:induction false} RunAccounted(cfg: Config, turns: seq<Turn>)
    requires cfg.limit > 0.0
    ensures Accounted(cfg.limit, RunLimiter(cfg, turns), RunLog(cfg, turns))
  {
    if |turns| > 0 {
      var front, turn := turns[..|turns| - 1], turns[|turns| - 1];
      RunAccounted(cfg, front);
      RunMetered(cfg, front, turn);
      AccountedStep(cfg.limit, RunLimiter(cfg, front), RunLog(cfg, front), Drive(cfg, RunLimiter(cfg, front), turn).0,
                    Logged(cfg, RunLimiter(cfg, front), turn));
    }
  }

  lemma RunMetered(cfg: Config, front: seq<Turn>, turn: Turn)
    requires cfg.limit > 0.0
    ensures var l := RunLimiter(cfg, front);
            Metered(cfg.limit, l, Drive(cfg, l, turn).0, |Drive(cfg, l, turn).1|, turn.now)
  {
    RunBudgeted(cfg, front);
    TurnMetered(cfg, RunLimiter(cfg, front), turn);
  }

  lemma {:induction false} OfferAllShedsNone(cfg: Config, l: Limiter, os: seq<Offering>, now: real)
    ensures OfferAll(cfg, l, os, now).0.sheds == l.sheds
  {
    if |os| > 0 {
      OfferAllShedsNone(cfg, l, os[..|os| - 1], now);
    }
  }

  lemma {:induction false} CollectShedsNone(l: Limiter, now: real, i: nat)
    requires i <= |l.order|
    ensures Collect(l, now, i).0.sheds == l.sheds
  {
    if i > 0 {
      CollectShedsNone(l, now, i - 1);
    }
  }

  lemma CandidatesShedNone(cfg: Config, l: Limiter, turn: Turn)
    ensures Candidates(cfg, l, turn).0.sheds == l.sheds
  {
    match turn
    case Message(now, samples) =>
      OfferAllShedsNone(cfg, l, samples, now);
      var (l1, offered) := OfferAll(cfg, l, samples, now);
      CollectShedsNone(l1, now, |l1.order|);
      ConflateKeepsRest(Drain(l1, now).0, offered + Drain(l1, now).1);
    case Poll(now) =>
      CollectShedsNone(l, now, |l.order|);
  }

  lemma {:induction false} ShedCounts(l: Limiter, us: seq<Update>)
    ensures Shed(l, us).sheds == l.sheds + |us|
  {
    if |us| > 0 {
      ShedCounts(l, us[..|us| - 1]);
    }
  }

  /** Admission sheds exactly the candidates it does not accept. */
  lemma AdmitSheds(cfg: Config, l: Limiter, cs: seq<Update>, now: real)
    ensures var (l', accepted) := Admit(cfg, l, cs, now);
            |accepted| <= |cs| && l'.sheds == l.sheds + |cs| - |accepted|
  {
    var ranked, l1 := Ranked(l.gates, cs), Refill(l, now, cfg.limit);
    var n := Available(cfg, l1.tokens, |ranked|);
    RankedLength(l.gates, cs);
    PublishAt(l1, ranked[..n], now, 0);
    ShedCounts(Publish(l1, ranked[..n], now), ranked[n..]);
  }

  /** If anything is shed there was no whole token left, to within epsilon. */
  lemma ShedMeansEmpty(cfg: Config, l: Limiter, cs: seq<Update>, now: real)
    requires cfg.limit > 0.0 && |Admit(cfg, l, cs, now).1| < |cs|
    ensures Refilled(l.tokens, l.at, now, cfg.limit) - |Admit(cfg, l, cs, now).1| as real < 1.0 - EPSILON
  {
    RankedLength(l.gates, cs);
  }

  lemma TurnShedMeansEmpty(cfg: Config, l: Limiter, turn: Turn)
    requires cfg.limit > 0.0 && Drive(cfg, l, turn).0.sheds != l.sheds
    ensures Refilled(l.tokens, l.at, turn.now, cfg.limit) - |Drive(cfg, l, turn).1| as real < 1.0 - EPSILON
  {
    var (l1, cs) := Candidates(cfg, l, turn);
    CandidatesShedNone(cfg, l, turn);
    CandidatesKeepBudget(cfg, l, turn);
    AdmitSheds(cfg, l1, cs, turn.now);
    ShedMeansEmpty(cfg, l1, cs, turn.now);
  }

  lemma LastShedMeansEmpty(cfg: Config, turns: seq<Turn>)
    requires cfg.limit > 0.0 && turns != []
    requires RunLimiter(cfg, turns).sheds != RunLimiter(cfg, turns[..|turns| - 1]).sheds
    ensures RunLimiter(cfg, turns).tokens < 1.0 - EPSILON
  {
    RunMetered(cfg, turns[..|turns| - 1], turns[|turns| - 1]);
    TurnShedMeansEmpty(cfg, RunLimiter(cfg, turns[..|turns| - 1]), turns[|turns| - 1]);
  }

  lemma EmptySince(limit: real, log: seq<Admission>, tokens: real) returns (i: nat)
    requires tokens < 1.0 - EPSILON && exists i :: FullAt(limit, log, i, tokens)
    ensures i < |log| && Forward(log, i) && AcceptedFrom(log, i) as real + 1.0 > Allowance(limit, log[i].now, log[|log| - 1].now)
  {
    i :| FullAt(limit, log, i, tokens);
    EarnedIsElapsed(limit, log, i);
  }

  /** In turn `j` something was shed. */
  ghost predicate ShedsIn(cfg: Config, turns: seq<Turn>, j: nat)
    requires j < |turns|
  {
    RunLimiter(cfg, turns[..j + 1]).sheds != RunLimiter(cfg, turns[..j]).sheds
  }

  /** One more acceptance would have taken turns `i` to `j`, in which the clock did not go back, over what they are allowed. */
  ghost predicate Exhausted(cfg: Config, turns: seq<Turn>, i: int, j: nat) {
    0 <= i <= j < |turns| && Steady(turns, i, j) &&
    AcceptedIn(cfg, turns, i, j) as real + 1.0 > Allowance(cfg.limit, turns[i].now, turns[j].now)
  }

  /**
   Over every sequence of batches and idle polls, under any clock: an update is
   shed only when some stretch of turns up to now has used up its allowance, so
   that to accept one more would break the aggregate budget.
   */
  lemma ShedOnlyWhenExhausted(cfg: Config, turns: seq<Turn>, j: nat)
    requires cfg.limit > 0.0 && j < |turns| && ShedsIn(cfg, turns, j)
    ensures exists i :: Exhausted(cfg, turns, i, j)
  {
    var upTo := turns[..j + 1];
    assert upTo[..|upTo| - 1] == turns[..j];
    RunAccounted(cfg, upTo);
    LastShedMeansEmpty(cfg, upTo);
    var i := EmptySince(cfg.limit, RunLog(cfg, upTo), RunLimiter(cfg, upTo).tokens);
    RunLogPrefix(cfg, turns, j + 1);
    LogTimes(cfg, upTo, i);
    LogTimes(cfg, upTo, j);
    LogIsSteady(cfg, turns, i, j);
    assert Exhausted(cfg, turns, i, j);
  }

  /** Without an aggregate limit nothing is ever shed. */
  lemma {:induction false} UnlimitedNeverSheds(cfg: Config, turns: seq<Turn>)
    requires cfg.limit == 0.0
    ensures RunLimiter(cfg, turns).sheds == 0
  {
    if |turns| > 0 {
      var front, turn := turns[..|turns| - 1], turns[|turns| - 1];
      var l := RunLimiter(cfg, front);
      UnlimitedNeverSheds(cfg, front);
      CandidatesShedNone(cfg, l, turn);
      var (l1, cs) := Candidates(cfg, l, turn);
      AdmitSheds(cfg, l1, cs, turn.now);
      RankedLength(l1.gates, cs);
    }
  }

  // ----- releasing -----------------------------------------------------------

  function NextDueOf(l: Limiter, ch: nat): Option<real> { if ch in l.gates then l.gates[ch].nextDue else None }

  /** A channel is due an interval after some update of it was accepted, or at once. */
  ghost predicate DueAfter(cfg: Config, l: Limiter, log: seq<Admission>, ch: nat) {
    NextDueOf(l, ch).Some? ==> exists i :: AcceptedAt(log, ch, i) && NextDueOf(l, ch).value == log[i].now + cfg.Interval(ch)
  }

  ghost predicate AcceptedAt(log: seq<Admission>, ch: nat, i: int) { 0 <= i < |log| && On(log[i].accepted, ch) != [] }

  lemma {:induction false} OfferAllKeepsDue(cfg: Config, l: Limiter, log: seq<Admission>, ch: nat, os: seq<Offering>, now: real)
    requires MidTurn(cfg, l, log, ch, [], now) && AllGatesOk(cfg, l)
    ensures NextDueOf(OfferAll(cfg, l, os, now).0, ch) == NextDueOf(l, ch)
  {
    if |os| > 0 {
      OfferAllKeepsDue(cfg, l, log, ch, os[..|os| - 1], now);
      OfferAllStep(cfg, l, log, ch, os[..|os| - 1], now);
      OfferKeepsDue(cfg, OfferAll(cfg, l, os[..|os| - 1], now).0, os[|os| - 1], now, ch);
    }
  }

  lemma OfferKeepsDue(cfg: Config, l: Limiter, o: Offering, now: real, ch: nat)
    requires AllGatesOk(cfg, l)
    ensures NextDueOf(Offer(cfg, l, o, now).0, ch) == NextDueOf(l, ch)
  {
    assert GateOk(cfg, l, o.channel);
  }

  /** After the drain nothing of the channel is pending that is due; and its due time has not moved. */
  ghost predicate Drained(l: Limiter, l': Limiter, ch: nat, now: real) {
    && NextDueOf(l', ch) == NextDueOf(l, ch)
    && (PendingOf(l', ch).Some? ==> NextDueOf(l', ch).Some? && now + EPSILON < NextDueOf(l', ch).value)
  }

  lemma DrainReleases(cfg: Config, l: Limiter, now: real, ch: nat)
    requires OrderOk(l) && AllGatesOk(cfg, l)
    ensures Drained(l, Drain(l, now).0, ch, now)
  {
    DrainAt(cfg, l, now, ch);
    assert GateOk(cfg, l, ch);
  }

  lemma CandidatesRelease(cfg: Config, l: Limiter, log: seq<Admission>, ch: nat, turn: Turn)
    requires MidTurn(cfg, l, log, ch, [], turn.now) && AllGatesOk(cfg, l)
    ensures Drained(l, Candidates(cfg, l, turn).0, ch, turn.now)
  {
    match turn
    case Message(now, samples) =>
      OfferAllKeepsDue(cfg, l, log, ch, samples, now);
      OfferAllStep(cfg, l, log, ch, samples, now);
      var (l1, offered) := OfferAll(cfg, l, samples, now);
      DrainReleases(cfg, l1, now, ch);
      ConflateKeepsRest(Drain(l1, now).0, offered + Drain(l1, now).1);
    case Poll(now) =>
      DrainReleases(cfg, l, now, ch);
  }

  /** After a turn, whatever is pending of the channel is not due yet. */
  ghost predicate Waiting(cfg: Config, l: Limiter, log: seq<Admission>, ch: nat, now: real) {
    PendingOf(l, ch).Some? ==> exists i :: AcceptedAt(log, ch, i) && now + EPSILON < log[i].now + cfg.Interval(ch)
  }

  lemma AdmittedWaits(cfg: Config, l: Limiter, l1: Limiter, l': Limiter, log: seq<Admission>, a: Admission, ch: nat, mine: seq<Update>)
    requires DueAfter(cfg, l, log, ch) && Drained(l, l1, ch, a.now) && GateOk(cfg, l1, ch)
    requires Admitted(l1, l', ch, mine, On(a.accepted, ch), a.now) && (mine != [] ==> ch in l1.gates || !cfg.Limited(ch))
    requires cfg.Limited(ch) && mine != [] ==> PendingOf(l1, ch).None?
    ensures DueAfter(cfg, l', log + [a], ch) && Waiting(cfg, l', log + [a], ch, a.now)
  {
    var log' := log + [a];
    if On(a.accepted, ch) != [] {
      assert log'[|log|] == a && AcceptedAt(log', ch, |log|);
    } else if NextDueOf(l, ch).Some? {
      var i :| AcceptedAt(log, ch, i) && NextDueOf(l, ch).value == log[i].now + cfg.Interval(ch);
      assert log'[i] == log[i] && AcceptedAt(log', ch, i);
    }
  }

  lemma {:induction false} RunWaits(cfg: Config, turns: seq<Turn>, ch: nat)
    requires TimeMoves(turns)
    ensures DueAfter(cfg, RunLimiter(cfg, turns), RunLog(cfg, turns), ch)
    ensures turns != [] ==> Waiting(cfg, RunLimiter(cfg, turns), RunLog(cfg, turns), ch, turns[|turns| - 1].now)
  {
    if |turns| > 0 {
      var front, turn := turns[..|turns| - 1], turns[|turns| - 1];
      RunWaits(cfg, front, ch);
      RunKeeps(cfg, front, ch);
      TurnWaits(cfg, RunLimiter(cfg, front), RunLog(cfg, front), ch, turn);
    }
  }

  lemma TurnWaits(cfg: Config, l: Limiter, log: seq<Admission>, ch: nat, turn: Turn)
    requires MidTurn(cfg, l, log, ch, [], turn.now) && AllGatesOk(cfg, l) && DueAfter(cfg, l, log, ch)
    ensures var l', a := Drive(cfg, l, turn).0, Logged(cfg, l, turn);
            DueAfter(cfg, l', log + [a], ch) && Waiting(cfg, l', log + [a], ch, turn.now)
  {
    CandidatesStep(cfg, l, log, ch, turn);
    CandidatesRelease(cfg, l, log, ch, turn);
    var (l1, cs) := Candidates(cfg, l, turn);
    AdmitAt(cfg, l1, cs, turn.now, ch);
    AdmittedWaits(cfg, l, l1, Admit(cfg, l1, cs, turn.now).0, log, Logged(cfg, l, turn), ch, On(cs, ch));
  }

  /**
   Over every sequence of turns nothing that is due stays behind: after a turn
   at `now`, a value still pending is of a limited channel that had an update
   accepted less than its interval ago.
   */
  lemma PendingIsNotDue(cfg: Config, turns: seq<Turn>, ch: nat)
    requires TimeMoves(turns) && turns != [] && PendingOf(RunLimiter(cfg, turns), ch).Some?
    ensures cfg.Limited(ch)
    ensures exists i :: AcceptedAt(RunLog(cfg, turns), ch, i) &&
                        turns[|turns| - 1].now + 0.000000001 < turns[i].now + 1.0 / cfg.rate(ch).value
  {
    var log, now := RunLog(cfg, turns), turns[|turns| - 1].now;
    RunWaits(cfg, turns, ch);
    RunKeeps(cfg, turns, ch);
    assert GateOk(cfg, RunLimiter(cfg, turns), ch);
    var i :| AcceptedAt(log, ch, i) && now + EPSILON < log[i].now + cfg.Interval(ch);
    LogTimes(cfg, turns, i);
  }

  // ----- a turn without shedding ---------------------------------------------

  /** Offers of channel `ch` among `os`, if it is selected. */
  function Asked(cfg: Config, os: seq<Offering>, ch: nat): (k: nat)
  {
    if |os| == 0 then 0
    else Asked(cfg, os[..|os| - 1], ch) + (if os[|os| - 1].channel == ch && cfg.Selected(ch) then 1 else 0)
  }

  function AskedIn(cfg: Config, turn: Turn, ch: nat): nat {
    match turn
    case Message(_, samples) => Asked(cfg, samples, ch)
    case Poll(_) => 0
  }

  /**
   After `k` offers in this turn: every one in hand if the channel is not
   limited; something pending or in hand if it is, and there was anything at all.
   */
  ghost predicate InHand(cfg: Config, l: Limiter, ch: nat, k: nat, before: bool, mine: seq<Update>) {
    if cfg.Limited(ch) then (PendingOf(l, ch).Some? || mine != []) <==> (before || k > 0) else |mine| == k
  }

  lemma OfferInHand(cfg: Config, l: Limiter, log: seq<Admission>, ch: nat, mine: seq<Update>, o: Offering, now: real, k: nat, before: bool)
    requires MidTurn(cfg, l, log, ch, mine, now) && AllGatesOk(cfg, l) && InHand(cfg, l, ch, k, before, mine)
    ensures var (l', made) := Offer(cfg, l, o, now);
            InHand(cfg, l', ch, k + (if o.channel == ch && cfg.Selected(ch) then 1 else 0), before, mine + On(made, ch))
  {
    var (l', made) := Offer(cfg, l, o, now);
    if o.channel == ch && cfg.Selected(ch) {
      OfferOwnGate(cfg, l, ch, o, now);
      if made != [] {
        OnSnoc([], made[0], ch);
        assert [] + [made[0]] == made && On(made, ch) == [made[0]];
      }
    } else if cfg.Selected(o.channel) {
      assert GateOk(cfg, l, o.channel);
      OfferElsewhere(cfg, l, log, ch, mine, o, now);
      OfferApart(cfg, l, o, now, ch);
      assert mine + [] == mine;
    } else {
      assert mine + On([], ch) == mine;
    }
  }

  lemma {:induction false} OfferAllInHand(cfg: Config, l: Limiter, log: seq<Admission>, ch: nat, os: seq<Offering>, now: real)
    requires MidTurn(cfg, l, log, ch, [], now) && AllGatesOk(cfg, l)
    ensures var (l', cs) := OfferAll(cfg, l, os, now);
            InHand(cfg, l', ch, Asked(cfg, os, ch), PendingOf(l, ch).Some?, On(cs, ch))
  {
    if |os| > 0 {
      var front, o := os[..|os| - 1], os[|os| - 1];
      OfferAllInHand(cfg, l, log, ch, front, now);
      OfferAllStep(cfg, l, log, ch, front, now);
      var (l1, c1) := OfferAll(cfg, l, front, now);
      OfferInHand(cfg, l1, log, ch, On(c1, ch), o, now, Asked(cfg, front, ch), PendingOf(l, ch).Some?);
      OnConcat(c1, Offer(cfg, l1, o, now).1, ch);
    }
  }

  lemma DrainInHand(cfg: Config, l: Limiter, ch: nat, mine: seq<Update>, now: real, k: nat, before: bool)
    requires OrderOk(l) && AllGatesOk(cfg, l) && InHand(cfg, l, ch, k, before, mine)
    ensures var (l', ready) := Drain(l, now);
            InHand(cfg, l', ch, k, before, mine + On(ready, ch))
  {
    DrainAt(cfg, l, now, ch);
    assert GateOk(cfg, l, ch);
  }

  lemma CandidatesInHand(cfg: Config, l: Limiter, log: seq<Admission>, ch: nat, turn: Turn)
    requires MidTurn(cfg, l, log, ch, [], turn.now) && AllGatesOk(cfg, l)
    ensures var (l', cs) := Candidates(cfg, l, turn);
            InHand(cfg, l', ch, AskedIn(cfg, turn, ch), PendingOf(l, ch).Some?, On(cs, ch))
  {
    match turn
    case Message(now, samples) =>
      OfferAllInHand(cfg, l, log, ch, samples, now);
      OfferAllStep(cfg, l, log, ch, samples, now);
      var (l1, offered) := OfferAll(cfg, l, samples, now);
      MessageInHand(cfg, l1, log, ch, offered, now, Asked(cfg, samples, ch), PendingOf(l, ch).Some?);
    case Poll(now) =>
      DrainInHand(cfg, l, ch, [], now, 0, PendingOf(l, ch).Some?);
      assert [] + On(Drain(l, now).1, ch) == On(Drain(l, now).1, ch);
  }

  lemma MessageInHand(cfg: Config, l: Limiter, log: seq<Admission>, ch: nat, offered: seq<Update>, now: real, k: nat, before: bool)
    requires MidTurn(cfg, l, log, ch, On(offered, ch), now) && AllGatesOk(cfg, l) && InHand(cfg, l, ch, k, before, On(offered, ch))
    ensures var (l', drained) := Drain(l, now);
            InHand(cfg, Conflate(l', offered + drained).0, ch, k, before, On(Conflate(l', offered + drained).1, ch))
  {
    DrainStep(cfg, l, log, ch, On(offered, ch), now);
    DrainInHand(cfg, l, ch, On(offered, ch), now, k, before);
    var (l', drained) := Drain(l, now);
    OnConcat(offered, drained, ch);
    ConflateAt(cfg, l', offered + drained, ch);
  }

  /** Where nothing was shed, all candidates were accepted. */
  lemma UnshedAcceptsAll(cfg: Config, l: Limiter, cs: seq<Update>, now: real, ch: nat)
    requires Admit(cfg, l, cs, now).0.sheds == l.sheds
    ensures On(Admit(cfg, l, cs, now).1, ch) == On(cs, ch)
  {
    AdmitSheds(cfg, l, cs, now);
    RankedLength(l.gates, cs);
    var ranked := Ranked(l.gates, cs);
    assert ranked[..|ranked|] == ranked;
    OnRanked(l.gates, cs, ch);
  }

  /** What a turn without shedding does for one channel that had `k` offers in it. */
  ghost predicate Served(cfg: Config, ch: nat, k: nat, before: bool, accepted: nat, after: bool) {
    if !cfg.Limited(ch) then accepted == k && !after
    else accepted + (if after then 1 else 0) == if before || k > 0 then 1 else 0
  }

  lemma TurnServes(cfg: Config, l: Limiter, log: seq<Admission>, ch: nat, turn: Turn)
    requires MidTurn(cfg, l, log, ch, [], turn.now) && AllGatesOk(cfg, l) && Drive(cfg, l, turn).0.sheds == l.sheds
    ensures var (l', accepted) := Drive(cfg, l, turn);
            Served(cfg, ch, AskedIn(cfg, turn, ch), PendingOf(l, ch).Some?, |On(accepted, ch)|, PendingOf(l', ch).Some?)
  {
    CandidatesStep(cfg, l, log, ch, turn);
    CandidatesInHand(cfg, l, log, ch, turn);
    CandidatesShedNone(cfg, l, turn);
    var (l1, cs) := Candidates(cfg, l, turn);
    UnshedAcceptsAll(cfg, l1, cs, turn.now, ch);
    AdmitAt(cfg, l1, cs, turn.now, ch);
    assert GateOk(cfg, l1, ch);
  }

  /**
   Over every sequence of turns, in a turn in which nothing is shed: an
   unlimited channel has every offer of the turn accepted; a limited channel
   with anything offered or pending ends up with exactly one update, accepted or
   still pending (and then, by `PendingIsNotDue`, not due).
   */
  lemma EveryChannelIsServed(cfg: Config, turns: seq<Turn>, ch: nat, j: nat)
    requires TimeMoves(turns) && j < |turns| && !ShedsIn(cfg, turns, j)
    ensures Served(cfg, ch, AskedIn(cfg, turns[j], ch), PendingOf(RunLimiter(cfg, turns[..j]), ch).Some?,
                   |On(RunLog(cfg, turns)[j].accepted, ch)|, PendingOf(RunLimiter(cfg, turns[..j + 1]), ch).Some?)
  {
    var upTo := turns[..j + 1];
    assert upTo[..|upTo| - 1] == turns[..j] && upTo[|upTo| - 1] == turns[j];
    RunKeeps(cfg, turns[..j], ch);
    TurnServes(cfg, RunLimiter(cfg, turns[..j]), RunLog(cfg, turns[..j]), ch, turns[j]);
    RunLogPrefix(cfg, turns, j + 1);
    assert RunLog(cfg, turns)[j] == RunLog(cfg, upTo)[j];
  }

  // ----- the counters --------------------------------------------------------

  /** Offers of the channel over all turns. */
  function AskedOver(cfg: Config, turns: seq<Turn>, ch: nat): (k: nat)
  {
    if |turns| == 0 then 0 else AskedOver(cfg, turns[..|turns| - 1], ch) + AskedIn(cfg, turns[|turns| - 1], ch)
  }

  /** Updates of the channel accepted over all turns. */
  function AcceptedOver(log: seq<Admission>, ch: nat): (k: nat)
  {
    if |log| == 0 then 0 else AcceptedOver(log[..|log| - 1], ch) + |On(log[|log| - 1].accepted, ch)|
  }

  lemma {:induction false} OfferAllCounts(cfg: Config, l: Limiter, os: seq<Offering>, now: real, ch: nat)
    ensures var l' := OfferAll(cfg, l, os, now).0;
            Count(l'.offered, ch) == Count(l.offered, ch) + Asked(cfg, os, ch) && l'.published == l.published
  {
    if |os| > 0 {
      OfferAllCounts(cfg, l, os[..|os| - 1], now, ch);
    }
  }

  lemma {:induction false} CollectCounts(l: Limiter, now: real, i: nat)
    requires i <= |l.order|
    ensures Collect(l, now, i).0.offered == l.offered && Collect(l, now, i).0.published == l.published
  {
    if i > 0 {
      CollectCounts(l, now, i - 1);
    }
  }

  lemma CandidatesCount(cfg: Config, l: Limiter, turn: Turn, ch: nat)
    ensures var l' := Candidates(cfg, l, turn).0;
            Count(l'.offered, ch) == Count(l.offered, ch) + AskedIn(cfg, turn, ch) && l'.published == l.published
  {
    match turn
    case Message(now, samples) =>
      OfferAllCounts(cfg, l, samples, now, ch);
      var (l1, offered) := OfferAll(cfg, l, samples, now);
      CollectCounts(l1, now, |l1.order|);
      ConflateKeepsRest(Drain(l1, now).0, offered + Drain(l1, now).1);
    case Poll(now) =>
      CollectCounts(l, now, |l.order|);
  }

  lemma {:induction false} CountersAreReal(cfg: Config, turns: seq<Turn>, ch: nat)
    ensures var l := RunLimiter(cfg, turns);
            Count(l.offered, ch) == AskedOver(cfg, turns, ch) && Count(l.published, ch) == AcceptedOver(RunLog(cfg, turns), ch)
  {
    if |turns| > 0 {
      var front, turn := turns[..|turns| - 1], turns[|turns| - 1];
      var l := RunLimiter(cfg, front);
      CountersAreReal(cfg, front, ch);
      CandidatesCount(cfg, l, turn, ch);
      var (l1, cs) := Candidates(cfg, l, turn);
      AdmitAt(cfg, l1, cs, turn.now, ch);
    }
  }

  /** Over every run and for every channel: what was offered is what was published, what was counted as suppressed and what is pending. */
  lemma NothingVanishes(cfg: Config, turns: seq<Turn>, ch: nat)
    requires TimeMoves(turns)
    ensures var l := RunLimiter(cfg, turns);
            AskedOver(cfg, turns, ch) ==
              AcceptedOver(RunLog(cfg, turns), ch) + Count(l.suppressed, ch) + (if PendingOf(l, ch).Some? then 1 else 0)
  {
    CountersAreReal(cfg, turns, ch);
    OffersConserved(cfg, turns, ch);
  }
}
