/**
 The newest value wins: whatever the limiter accepts for a channel is a value
 that was offered for it, and for a rate-limited channel it is the last one
 offered up to then.

 A channel `ch` is followed through a turn as in `LimiterSafety`; `all` is
 every offer of a selected channel so far, so an update's serial is a position
 in it.
 */
module LimiterFreshness {
  import opened Basics
  import opened LimiterModel
  import opened LimiterSafety

  /** The offers of selected channels among `os`, in order. */
  function Selected(cfg: Config, os: seq<Offering>): (r: seq<Offering>)
  {
    if |os| == 0 then []
    else Selected(cfg, os[..|os| - 1]) + (if cfg.Selected(os[|os| - 1].channel) then [os[|os| - 1]] else [])
  }

  function OffersIn(cfg: Config, turn: Turn): seq<Offering> {
    match turn
    case Message(_, samples) => Selected(cfg, samples)
    case Poll(_) => []
  }

  /** Every offer of a selected channel over all turns, in order. */
  function Offers(cfg: Config, turns: seq<Turn>): (all: seq<Offering>)
  {
    if |turns| == 0 then [] else Offers(cfg, turns[..|turns| - 1]) + OffersIn(cfg, turns[|turns| - 1])
  }

  /** `u` is the offer of its serial, value and capture time included. */
  ghost predicate IsOffer(all: seq<Offering>, u: Update) {
    u.serial < |all| && all[u.serial] == Offering(u.channel, u.captureMs, u.value)
  }

  /** No later offer is of the channel. */
  ghost predicate Newest(all: seq<Offering>, ch: nat, serial: nat) {
    serial < |all| && forall m :: serial < m < |all| ==> all[m].channel != ch
  }

  /** What is pending and what is in hand of the channel was offered; of a limited one the last of it was offered last. */
  ghost predicate Carried(cfg: Config, l: Limiter, all: seq<Offering>, ch: nat, mine: seq<Update>) {
    && |all| == l.offers
    && (PendingOf(l, ch).Some? ==> IsOffer(all, PendingOf(l, ch).value) && Newest(all, ch, PendingOf(l, ch).value.serial))
    && (forall k :: 0 <= k < |mine| ==> IsOffer(all, mine[k]))
    && (cfg.Limited(ch) && mine != [] ==> Newest(all, ch, mine[|mine| - 1].serial))
  }

  // ----- offering ------------------------------------------------------------

  lemma OfferElsewhereCarried(cfg: Config, l: Limiter, l': Limiter, all: seq<Offering>, ch: nat, mine: seq<Update>, o: Offering)
    requires Carried(cfg, l, all, ch, mine) && o.channel != ch
    requires PendingOf(l', ch) == PendingOf(l, ch) && l'.offers == l.offers + 1
    ensures Carried(cfg, l', all + [o], ch, mine)
  {
  }

  lemma OfferWaitsCarried(cfg: Config, l: Limiter, l': Limiter, all: seq<Offering>, ch: nat, o: Offering)
    requires |all| == l.offers && o.channel == ch && l'.offers == l.offers + 1
    requires PendingOf(l', ch) == Some(Offered(cfg, l, o))
    ensures Carried(cfg, l', all + [o], ch, [])
  {
  }

  lemma OfferJoinsCarried(cfg: Config, l: Limiter, l': Limiter, all: seq<Offering>, ch: nat, mine: seq<Update>, o: Offering)
    requires Carried(cfg, l, all, ch, mine) && o.channel == ch && l'.offers == l.offers + 1 && PendingOf(l', ch).None?
    ensures Carried(cfg, l', all + [o], ch, mine + [Offered(cfg, l, o)])
  {
    var mine', all' := mine + [Offered(cfg, l, o)], all + [o];
    forall k | 0 <= k < |mine'| ensures IsOffer(all', mine'[k]) {
      if k < |mine| {
        assert IsOffer(all, mine[k]);
      }
    }
  }

  lemma OfferCarried(cfg: Config, l: Limiter, log: seq<Admission>, all: seq<Offering>, ch: nat, mine: seq<Update>, o: Offering, now: real)
    requires MidTurn(cfg, l, log, ch, mine, now) && AllGatesOk(cfg, l) && Carried(cfg, l, all, ch, mine)
    ensures var (l', made) := Offer(cfg, l, o, now);
            Carried(cfg, l', all + Selected(cfg, [o]), ch, mine + On(made, ch))
  {
    SelectedOne(cfg, o);
    if !cfg.Selected(o.channel) {
      OfferIgnored(cfg, l, all, ch, mine, o, now);
    } else if o.channel != ch {
      OfferOtherCarried(cfg, l, log, all, ch, mine, o, now);
    } else {
      OfferOwnCarried(cfg, l, log, all, ch, mine, o, now);
    }
  }

  lemma SelectedOne(cfg: Config, o: Offering)
    ensures Selected(cfg, [o]) == if cfg.Selected(o.channel) then [o] else []
  {
    assert [o][..0] == [];
  }

  lemma OfferIgnored(cfg: Config, l: Limiter, all: seq<Offering>, ch: nat, mine: seq<Update>, o: Offering, now: real)
    requires Carried(cfg, l, all, ch, mine) && !cfg.Selected(o.channel)
    ensures Offer(cfg, l, o, now) == (l, []) && Carried(cfg, l, all + [], ch, mine + On([], ch))
  {
    assert all + [] == all && mine + On([], ch) == mine;
  }

  lemma OfferOtherCarried(cfg: Config, l: Limiter, log: seq<Admission>, all: seq<Offering>, ch: nat, mine: seq<Update>, o: Offering, now: real)
    requires MidTurn(cfg, l, log, ch, mine, now) && AllGatesOk(cfg, l) && Carried(cfg, l, all, ch, mine)
    requires o.channel != ch && cfg.Selected(o.channel)
    ensures var (l', made) := Offer(cfg, l, o, now);
            Carried(cfg, l', all + [o], ch, mine + On(made, ch))
  {
    var (l', made) := Offer(cfg, l, o, now);
    assert GateOk(cfg, l, o.channel);
    OfferElsewhere(cfg, l, log, ch, mine, o, now);
    OfferApart(cfg, l, o, now, ch);
    OfferElsewhereCarried(cfg, l, l', all, ch, mine, o);
    assert mine + [] == mine;
  }

  lemma OfferOwnCarried(cfg: Config, l: Limiter, log: seq<Admission>, all: seq<Offering>, ch: nat, mine: seq<Update>, o: Offering, now: real)
    requires MidTurn(cfg, l, log, ch, mine, now) && Carried(cfg, l, all, ch, mine) && o.channel == ch && cfg.Selected(ch)
    ensures var (l', made) := Offer(cfg, l, o, now);
            Carried(cfg, l', all + [o], ch, mine + On(made, ch))
  {
    var (l', made) := Offer(cfg, l, o, now);
    OfferOwnGate(cfg, l, ch, o, now);
    if MustWait(cfg, l, ch, now) {
      // a channel that has to wait has no candidate in hand
      OfferWaitsCarried(cfg, l, l', all, ch, o);
      assert mine == [] && mine + On(made, ch) == [];
    } else {
      OfferJoinsCarried(cfg, l, l', all, ch, mine, o);
      OnSnoc([], made[0], ch);
      assert [] + [made[0]] == made && On(made, ch) == [made[0]];
    }
  }

  lemma SelectedMore(cfg: Config, all: seq<Offering>, os: seq<Offering>, o: Offering)
    ensures all + Selected(cfg, os + [o]) == all + Selected(cfg, os) + Selected(cfg, [o])
  {
    SelectedOne(cfg, o);
    assert (os + [o])[..|os|] == os;
  }

  lemma {:induction false} OfferAllCarried(cfg: Config, l: Limiter, log: seq<Admission>, all: seq<Offering>, ch: nat,
                                           os: seq<Offering>, now: real)
    requires MidTurn(cfg, l, log, ch, [], now) && AllGatesOk(cfg, l) && Carried(cfg, l, all, ch, [])
    ensures var (l', cs) := OfferAll(cfg, l, os, now);
            Carried(cfg, l', all + Selected(cfg, os), ch, On(cs, ch))
  {
    if |os| == 0 {
      assert all + Selected(cfg, os) == all;
    } else {
      var front, o := os[..|os| - 1], os[|os| - 1];
      OfferAllCarried(cfg, l, log, all, ch, front, now);
      OfferAllStep(cfg, l, log, ch, front, now);
      var (l1, c1) := OfferAll(cfg, l, front, now);
      OfferMoreCarried(cfg, l1, log, all + Selected(cfg, front), ch, c1, o, now);
      SelectedMore(cfg, all, front, o);
      assert os == front + [o];
    }
  }

  lemma OfferMoreCarried(cfg: Config, l: Limiter, log: seq<Admission>, all: seq<Offering>, ch: nat, cs: seq<Update>, o: Offering, now: real)
    requires MidTurn(cfg, l, log, ch, On(cs, ch), now) && AllGatesOk(cfg, l) && Carried(cfg, l, all, ch, On(cs, ch))
    ensures var (l', made) := Offer(cfg, l, o, now);
            Carried(cfg, l', all + Selected(cfg, [o]), ch, On(cs + made, ch))
  {
    OfferCarried(cfg, l, log, all, ch, On(cs, ch), o, now);
    OnConcat(cs, Offer(cfg, l, o, now).1, ch);
  }

  // ----- draining, conflating, admitting -------------------------------------

  lemma DrainCarried(cfg: Config, l: Limiter, log: seq<Admission>, all: seq<Offering>, ch: nat, mine: seq<Update>, now: real)
    requires MidTurn(cfg, l, log, ch, mine, now) && AllGatesOk(cfg, l) && Carried(cfg, l, all, ch, mine)
    ensures var (l', ready) := Drain(l, now);
            Carried(cfg, l', all, ch, mine + On(ready, ch))
  {
    var (l', ready) := Drain(l, now);
    DrainAt(cfg, l, now, ch);
    if On(ready, ch) == [] {
      assert mine + On(ready, ch) == mine;
    } else {
      // a pending update means no candidate of the channel was in hand
      assert mine == [] && mine + On(ready, ch) == On(ready, ch);
    }
  }

  lemma ConflateCarried(cfg: Config, l: Limiter, log: seq<Admission>, all: seq<Offering>, ch: nat, cs: seq<Update>, now: real)
    requires MidTurn(cfg, l, log, ch, On(cs, ch), now) && Carried(cfg, l, all, ch, On(cs, ch))
    ensures Carried(cfg, Conflate(l, cs).0, all, ch, On(Conflate(l, cs).1, ch))
  {
    ConflateAt(cfg, l, cs, ch);
  }

  lemma CandidatesCarried(cfg: Config, l: Limiter, log: seq<Admission>, all: seq<Offering>, ch: nat, turn: Turn)
    requires MidTurn(cfg, l, log, ch, [], turn.now) && AllGatesOk(cfg, l) && Carried(cfg, l, all, ch, [])
    ensures var (l', cs) := Candidates(cfg, l, turn);
            Carried(cfg, l', all + OffersIn(cfg, turn), ch, On(cs, ch))
  {
    match turn
    case Message(now, samples) =>
      OfferAllCarried(cfg, l, log, all, ch, samples, now);
      OfferAllStep(cfg, l, log, ch, samples, now);
      var (l1, offered) := OfferAll(cfg, l, samples, now);
      MessageCarried(cfg, l1, log, all + Selected(cfg, samples), ch, offered, now);
    case Poll(now) =>
      DrainCarried(cfg, l, log, all, ch, [], now);
      var drained := Drain(l, now).1;
      assert [] + On(drained, ch) == On(drained, ch) && all + [] == all;
  }

  lemma MessageCarried(cfg: Config, l: Limiter, log: seq<Admission>, all: seq<Offering>, ch: nat, offered: seq<Update>, now: real)
    requires MidTurn(cfg, l, log, ch, On(offered, ch), now) && AllGatesOk(cfg, l) && Carried(cfg, l, all, ch, On(offered, ch))
    ensures var (l', drained) := Drain(l, now);
            Carried(cfg, Conflate(l', offered + drained).0, all, ch, On(Conflate(l', offered + drained).1, ch))
  {
    DrainStep(cfg, l, log, ch, On(offered, ch), now);
    DrainCarried(cfg, l, log, all, ch, On(offered, ch), now);
    var (l', drained) := Drain(l, now);
    OnConcat(offered, drained, ch);
    ConflateCarried(cfg, l', log, all, ch, offered + drained, now);
  }

  /** Everything accepted of the channel was offered; of a limited one it is what was offered last. */
  ghost predicate AcceptedFresh(cfg: Config, all: seq<Offering>, ch: nat, acc: seq<Update>) {
    forall k :: 0 <= k < |acc| ==> IsOffer(all, acc[k]) && (cfg.Limited(ch) ==> Newest(all, ch, acc[k].serial))
  }

  lemma AdmittedFresh(cfg: Config, l: Limiter, l': Limiter, all: seq<Offering>, ch: nat, mine: seq<Update>, acc: seq<Update>, now: real)
    requires Carried(cfg, l, all, ch, mine) && (cfg.Limited(ch) ==> |mine| <= 1) && Admitted(l, l', ch, mine, acc, now)
    ensures AcceptedFresh(cfg, all, ch, acc) && Carried(cfg, l', all, ch, [])
  {
    assert forall k :: 0 <= k < |acc| ==> acc[k] == mine[k];
  }

  lemma TurnFresh(cfg: Config, l: Limiter, log: seq<Admission>, all: seq<Offering>, ch: nat, turn: Turn)
    requires MidTurn(cfg, l, log, ch, [], turn.now) && AllGatesOk(cfg, l) && Carried(cfg, l, all, ch, [])
    ensures var all' := all + OffersIn(cfg, turn);
            AcceptedFresh(cfg, all', ch, On(Drive(cfg, l, turn).1, ch)) && Carried(cfg, Drive(cfg, l, turn).0, all', ch, [])
  {
    CandidatesCarried(cfg, l, log, all, ch, turn);
    CandidatesStep(cfg, l, log, ch, turn);
    var (l1, cs) := Candidates(cfg, l, turn);
    AdmitAt(cfg, l1, cs, turn.now, ch);
    var (l2, accepted) := Admit(cfg, l1, cs, turn.now);
    AdmittedFresh(cfg, l1, l2, all + OffersIn(cfg, turn), ch, On(cs, ch), On(accepted, ch), turn.now);
  }

  // ----- runs ----------------------------------------------------------------

  lemma {:induction false} RunFresh(cfg: Config, turns: seq<Turn>, ch: nat)
    requires TimeMoves(turns)
    ensures Carried(cfg, RunLimiter(cfg, turns), Offers(cfg, turns), ch, [])
    ensures turns != [] ==>
              AcceptedFresh(cfg, Offers(cfg, turns), ch, On(RunLog(cfg, turns)[|turns| - 1].accepted, ch))
  {
    if |turns| > 0 {
      var front, turn := turns[..|turns| - 1], turns[|turns| - 1];
      RunFresh(cfg, front, ch);
      RunKeeps(cfg, front, ch);
      TurnFresh(cfg, RunLimiter(cfg, front), RunLog(cfg, front), Offers(cfg, front), ch, turn);
    }
  }

  /**
   Over every sequence of batches and idle polls: an update accepted in turn `j`
   has the value and capture time of some offer of its channel up to that turn,
   and if the channel is rate limited, of the last one.
   */
  lemma NewestValueWins(cfg: Config, turns: seq<Turn>, ch: nat, j: nat, k: nat)
    requires TimeMoves(turns) && j < |turns| && k < |On(RunLog(cfg, turns)[j].accepted, ch)|
    ensures var u, all := On(RunLog(cfg, turns)[j].accepted, ch)[k], Offers(cfg, turns[..j + 1]);
            IsOffer(all, u) && u.channel == ch && (cfg.Limited(ch) ==> Newest(all, ch, u.serial))
  {
    var upTo := turns[..j + 1];
    RunFresh(cfg, upTo, ch);
    RunLogPrefix(cfg, turns, j + 1);
    assert RunLog(cfg, upTo)[j] == RunLog(cfg, turns)[j];
  }
}
