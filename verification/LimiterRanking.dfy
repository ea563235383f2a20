/**
 Who is served first when the aggregate budget is short
 (`src/pit/live_decoder/limiter.py`, `admit`): in every turn of every run the
 channels published most recently, then those with the later names; told from
 the log of what was published, not from the limiter's stamps.
 */
module LimiterRanking {
  import opened Basics
  import opened LimiterModel
  import opened LimiterSafety
  import opened LimiterService

  /** When an update of the channel was last accepted. */
  function LastTime(log: seq<Admission>, ch: nat): (t: Option<real>)
  {
    if |log| == 0 then None
    else if On(log[|log| - 1].accepted, ch) != [] then Some(log[|log| - 1].now)
    else LastTime(log[..|log| - 1], ch)
  }

  /** Channel `a` was published more recently than `b`; of two published at one time, or never, the later name. */
  predicate MoreRecent(log: seq<Admission>, a: nat, b: nat) {
    match (LastTime(log, a), LastTime(log, b))
    case (None, None) => a > b
    case (Some(_), None) => true
    case (None, Some(_)) => false
    case (Some(x), Some(y)) => x > y || (x == y && a > b)
  }

  function StampOf(l: Limiter, ch: nat): Option<real> { if ch in l.gates then l.gates[ch].lastPublished else None }

  /** The channel's stamp is the time of its last acceptance. */
  ghost predicate StampedTo(l: Limiter, log: seq<Admission>, ch: nat) { StampOf(l, ch) == LastTime(log, ch) }

  /** Candidates come from channels with a gate, and the stamps have not moved during the turn. */
  ghost predicate Unstamped(l: Limiter, l': Limiter, ch: nat, mine: seq<Update>) {
    StampOf(l', ch) == StampOf(l, ch) && (mine != [] ==> ch in l'.gates) && (ch in l.gates ==> ch in l'.gates)
  }

  lemma OfferUnstamped(cfg: Config, l: Limiter, o: Offering, now: real, ch: nat)
    requires AllGatesOk(cfg, l)
    ensures Unstamped(l, Offer(cfg, l, o, now).0, ch, On(Offer(cfg, l, o, now).1, ch))
  {
    assert GateOk(cfg, l, o.channel);
    var made := Offer(cfg, l, o, now).1;
    if |made| == 1 {
      OnSnoc([], made[0], ch);
      assert made == [] + [made[0]];
    }
  }

  lemma UnstampedJoins(l: Limiter, l1: Limiter, l2: Limiter, ch: nat, a: seq<Update>, b: seq<Update>)
    requires Unstamped(l, l1, ch, a) && Unstamped(l1, l2, ch, b)
    ensures Unstamped(l, l2, ch, a + b)
  {
  }

  lemma {:induction false} OfferAllUnstamped(cfg: Config, l: Limiter, log: seq<Admission>, ch: nat, os: seq<Offering>, now: real)
    requires MidTurn(cfg, l, log, ch, [], now) && AllGatesOk(cfg, l)
    ensures Unstamped(l, OfferAll(cfg, l, os, now).0, ch, On(OfferAll(cfg, l, os, now).1, ch))
  {
    if |os| > 0 {
      var front, o := os[..|os| - 1], os[|os| - 1];
      OfferAllUnstamped(cfg, l, log, ch, front, now);
      OfferAllStep(cfg, l, log, ch, front, now);
      var (l1, c1) := OfferAll(cfg, l, front, now);
      var (l2, c2) := Offer(cfg, l1, o, now);
      OfferUnstamped(cfg, l1, o, now, ch);
      UnstampedJoins(l, l1, l2, ch, On(c1, ch), On(c2, ch));
      OnConcat(c1, c2, ch);
    }
  }

  lemma DrainUnstamped(cfg: Config, l: Limiter, now: real, ch: nat)
    requires OrderOk(l) && AllGatesOk(cfg, l)
    ensures Unstamped(l, Drain(l, now).0, ch, On(Drain(l, now).1, ch))
  {
    DrainAt(cfg, l, now, ch);
  }

  lemma {:induction false} ConflateFrom(l: Limiter, cs: seq<Update>, ch: nat)
    requires On(cs, ch) == []
    ensures On(Conflate(l, cs).1, ch) == []
  {
    if |cs| > 0 {
      var front, u := cs[..|cs| - 1], cs[|cs| - 1];
      assert u.channel != ch && On(front, ch) == [];
      ConflateFrom(l, front, ch);
      var (l1, out) := Conflate(l, front);
      ConflateOther(l1, out, ch, u);
    }
  }

  lemma CandidatesUnstamped(cfg: Config, l: Limiter, log: seq<Admission>, ch: nat, turn: Turn)
    requires MidTurn(cfg, l, log, ch, [], turn.now) && AllGatesOk(cfg, l)
    ensures Unstamped(l, Candidates(cfg, l, turn).0, ch, On(Candidates(cfg, l, turn).1, ch))
  {
    match turn
    case Message(now, samples) =>
      OfferAllUnstamped(cfg, l, log, ch, samples, now);
      OfferAllStep(cfg, l, log, ch, samples, now);
      var (l1, offered) := OfferAll(cfg, l, samples, now);
      DrainUnstamped(cfg, l1, now, ch);
      var (l2, drained) := Drain(l1, now);
      UnstampedJoins(l, l1, l2, ch, On(offered, ch), On(drained, ch));
      OnConcat(offered, drained, ch);
      ConflateUnstamped(l, l2, offered + drained, ch);
    case Poll(now) =>
      DrainUnstamped(cfg, l, now, ch);
  }

  lemma ConflateUnstamped(l: Limiter, l2: Limiter, cs: seq<Update>, ch: nat)
    requires Unstamped(l, l2, ch, On(cs, ch))
    ensures Unstamped(l, Conflate(l2, cs).0, ch, On(Conflate(l2, cs).1, ch))
  {
    ConflateKeepsRest(l2, cs);
    if On(cs, ch) == [] {
      ConflateFrom(l2, cs, ch);
    }
  }

  lemma TurnStamps(cfg: Config, l: Limiter, log: seq<Admission>, ch: nat, turn: Turn)
    requires MidTurn(cfg, l, log, ch, [], turn.now) && AllGatesOk(cfg, l) && StampedTo(l, log, ch)
    ensures StampedTo(Drive(cfg, l, turn).0, log + [Logged(cfg, l, turn)], ch)
  {
    CandidatesUnstamped(cfg, l, log, ch, turn);
    var (l1, cs) := Candidates(cfg, l, turn);
    AdmitAt(cfg, l1, cs, turn.now, ch);
    assert (log + [Logged(cfg, l, turn)])[..|log|] == log;
  }

  lemma {:induction false} RunStamps(cfg: Config, turns: seq<Turn>, ch: nat)
    requires TimeMoves(turns)
    ensures StampedTo(RunLimiter(cfg, turns), RunLog(cfg, turns), ch)
  {
    if |turns| > 0 {
      var front, turn := turns[..|turns| - 1], turns[|turns| - 1];
      RunStamps(cfg, front, ch);
      RunKeeps(cfg, front, ch);
      TurnStamps(cfg, RunLimiter(cfg, front), RunLog(cfg, front), ch, turn);
    }
  }

  // ----- the order of service ------------------------------------------------

  /** No update of the list is of a channel more recent than that of one before it. */
  ghost predicate InOrder(log: seq<Admission>, s: seq<Update>) {
    forall i, j :: 0 <= i < j < |s| ==> !MoreRecent(log, s[j].channel, s[i].channel)
  }

  lemma {:induction false} InsertKeepsAll(gates: map<nat, Gate>, s: seq<Update>, u: Update)
    ensures multiset(Insert(gates, s, u)) == multiset(s) + multiset{u}
  {
    if |s| != 0 && Ahead(gates, u.channel, s[|s| - 1].channel) {
      InsertKeepsAll(gates, s[..|s| - 1], u);
      assert s == s[..|s| - 1] + [s[|s| - 1]];
    }
  }

  lemma {:induction false} RankedKeepsAll(gates: map<nat, Gate>, s: seq<Update>)
    ensures multiset(Ranked(gates, s)) == multiset(s)
  {
    if |s| > 0 {
      RankedKeepsAll(gates, s[..|s| - 1]);
      InsertKeepsAll(gates, Ranked(gates, s[..|s| - 1]), s[|s| - 1]);
      assert s == s[..|s| - 1] + [s[|s| - 1]];
    }
  }

  /** The accepted updates are the first of all candidates in order of service. */
  ghost predicate ServedInOrder(log: seq<Admission>, cs: seq<Update>, accepted: seq<Update>) {
    exists ranked :: multiset(ranked) == multiset(cs) && InOrder(log, ranked) && accepted <= ranked
  }

  lemma AheadIsMoreRecent(cfg: Config, turns: seq<Turn>, turn: Turn, a: nat, b: nat)
    requires TimeMoves(turns)
    ensures Ahead(Candidates(cfg, RunLimiter(cfg, turns), turn).0.gates, a, b) <==> MoreRecent(RunLog(cfg, turns), a, b)
  {
    var l, log := RunLimiter(cfg, turns), RunLog(cfg, turns);
    RunStamps(cfg, turns, a);
    RunStamps(cfg, turns, b);
    RunKeeps(cfg, turns, a);
    RunKeeps(cfg, turns, b);
    CandidatesUnstamped(cfg, l, log, a, turn);
    CandidatesUnstamped(cfg, l, log, b, turn);
  }

  /** The limiter's stamps order channels as the log does. */
  ghost predicate SameOrder(gates: map<nat, Gate>, log: seq<Admission>) {
    forall a: nat, b: nat :: Ahead(gates, a, b) <==> MoreRecent(log, a, b)
  }

  lemma AdmitInOrder(cfg: Config, l: Limiter, log: seq<Admission>, cs: seq<Update>, now: real)
    requires SameOrder(l.gates, log)
    ensures ServedInOrder(log, cs, Admit(cfg, l, cs, now).1)
  {
    var ranked := Ranked(l.gates, cs);
    RankedKeepsAll(l.gates, cs);
    RankedRanks(l.gates, cs);
    AdmitTakesHead(cfg, l, cs, now);
    assert InOrder(log, ranked);
  }

  lemma AdmitTakesHead(cfg: Config, l: Limiter, cs: seq<Update>, now: real)
    ensures Admit(cfg, l, cs, now).1 <= Ranked(l.gates, cs)
  {
  }

  /**
   Over every sequence of turns: what a turn accepts is a head of its candidates
   ordered by how recently their channels were published, then by name. So what
   is shed never belongs to a channel that should have gone first.
   */
  lemma MostRecentIsServedFirst(cfg: Config, turns: seq<Turn>, turn: Turn)
    requires TimeMoves(turns)
    ensures var l := RunLimiter(cfg, turns);
            ServedInOrder(RunLog(cfg, turns), Candidates(cfg, l, turn).1, Drive(cfg, l, turn).1)
  {
    var (l1, cs) := Candidates(cfg, RunLimiter(cfg, turns), turn);
    forall a: nat, b: nat ensures Ahead(l1.gates, a, b) <==> MoreRecent(RunLog(cfg, turns), a, b) {
      AheadIsMoreRecent(cfg, turns, turn, a, b);
    }
    AdmitInOrder(cfg, l1, RunLog(cfg, turns), cs, turn.now);
  }
}
