/**
 What the publisher owes its producers (`src/agent/publisher.py`): it sheds no
 more than the byte budget forces it to, and whenever the broker answers, the
 whole queue can still be published, in order, with nothing further lost.
 */
module PublisherService {
  import opened Basics
  import opened Publisher

  // ----- no more than necessary ----------------------------------------------

  /** Keeping one batch more than the last `n` of the buffer would exceed the budget. */
  ghost predicate NoneToSpare(budget: int, p: Pub, n: nat)
    requires InBounds(p) && n <= |p.buffer|
  {
    n < |p.buffer| ==> Bytes(p.items, p.buffer[|p.buffer| - n - 1..]) > budget
  }

  lemma NoneToSpareBefore(budget: int, p: Pub, n: nat)
    requires Books(p) && Overfull(budget, p) && n <= |DropFirst(p).buffer| && NoneToSpare(budget, DropFirst(p), n)
    ensures NoneToSpare(budget, p, n)
  {
    var q := DropFirst(p);
    if n < |q.buffer| {
      assert q.buffer[|q.buffer| - n - 1..] == p.buffer[|p.buffer| - n - 1..];
    } else {
      assert p.buffer[0..] == p.buffer;
    }
  }

  lemma {:induction false} OldestOneFewer(budget: int, p: Pub)
    requires Books(p)
    ensures |ShedOldest(budget, p).buffer| <= |p.buffer| && NoneToSpare(budget, p, |ShedOldest(budget, p).buffer|)
    decreases |p.buffer|
  {
    if Overfull(budget, p) {
      DropFirstKeeps(p);
      OldestOneFewer(budget, DropFirst(p));
      NoneToSpareBefore(budget, p, |ShedOldest(budget, p).buffer|);
    }
  }

  /** `submit` stops dropping as soon as what is left fits: with one batch fewer dropped it would not have. */
  lemma SubmitDropsNoMore(l: Limits, p: Pub, item: Item)
    requires Books(p)
    ensures var p', all := Submitted(l, p, item), p.buffer + [|p.items|];
            var n := |all| - |p'.buffer|;
            Below(all, |p.items + [item]|) && 0 <= n <= |all| && (n > 0 ==> Bytes(p.items + [item], all[n - 1..]) > l.budget)
  {
    EnqueueKeeps(p, item);
    OldestOneFewer(l.budget, Enqueue(p, item));
    SubmitDropsOldest(l, p, item);
  }

  lemma {:induction false} NewestOneFewer(budget: int, p: Pub)
    requires Books(p)
    ensures var m := |ShedNewest(budget, p).buffer|;
            m <= |p.buffer| && (m < |p.buffer| ==> Bytes(p.items, p.buffer[..m + 1]) > budget)
    decreases |p.buffer|
  {
    ShedNewestCuts(budget, p);
    if Overfull(budget, p) {
      var q := DropLast(p);
      DropLastKeeps(p);
      NewestOneFewer(budget, q);
      var m := |ShedNewest(budget, q).buffer|;
      if m < |q.buffer| {
        assert q.buffer[..m + 1] == p.buffer[..m + 1];
      } else {
        assert p.buffer[..m + 1] == p.buffer;
      }
    }
  }

  /** Nor does `_requeue` drop a batch that would have fitted. */
  lemma RequeueDropsNoMore(l: Limits, p: Pub)
    requires Books(p)
    ensures var p', all := Requeue(l, p), p.flight + p.buffer;
            var m := |p'.buffer|;
            m <= |all| && (m < |all| ==> Bytes(p.items, all[..m + 1]) > l.budget)
  {
    ReturnKeeps(p);
    NewestOneFewer(l.budget, Return(p));
  }

  // ----- draining ------------------------------------------------------------

  /** Everything in flight has been handed to the broker. */
  ghost predicate FlightSent(s: System) { forall k :: 0 <= k < |s.pub.flight| ==> s.pub.flight[k] in s.sent }

  lemma StepKeepsSent(l: Limits, s: System, step: Step)
    requires SystemInv(l, s) && FlightSent(s) && Enabled(l, s, step)
    ensures FlightSent(Next(l, s, step))
  {
    match step
    case DoSubmit(item) => SubmitKeeps(l, s.pub, item);
    case DoRequeue => RequeueKeeps(l, s.pub);
    case _ =>
  }

  lemma {:induction false} RunKeepsSent(l: Limits, trace: seq<System>, steps: seq<Step>, k: nat)
    requires Run(l, trace, steps) && k < |trace|
    ensures SystemInv(l, trace[k]) && FlightSent(trace[k])
  {
    RunIsSafe(l, trace, steps, k);
    if k > 0 {
      RunKeepsSent(l, trace, steps, k - 1);
      StepKeepsSent(l, trace[k - 1], steps[k - 1]);
    }
  }

  lemma ReachableSent(l: Limits, s: System)
    requires Reachable(l, s)
    ensures SystemInv(l, s) && FlightSent(s)
  {
    var trace, steps :| Run(l, trace, steps) && trace[|steps|] == s;
    RunKeepsSent(l, trace, steps, |steps|);
  }

  /** From `s` to `s'` nothing was submitted or dropped, and no acknowledgement was lost. */
  ghost predicate Onward(s: System, s': System) {
    && s'.pub.items == s.pub.items && s'.pub.dropped == s.pub.dropped && Line(s'.pub) == Line(s.pub)
    && |s.pub.acked| <= |s'.pub.acked|
  }

  /** The head of the window gets through: its publish lands, unless the broker knows it, and is acknowledged. */
  lemma HeadIsPublished(l: Limits, s: System) returns (s': System)
    requires Reachable(l, s) && s.pub.flight != []
    ensures Reachable(l, s') && Onward(s, s')
    ensures |s'.pub.flight| == |s.pub.flight| - 1 && s'.pub.buffer == s.pub.buffer
  {
    ReachableSent(l, s);
    var landed := Landed(l, s, s.pub.flight[0]);
    s' := landed.(pub := Ack(s.pub));
    ReachStep(l, landed, DoAck, s');
    AckMovesHead(s.pub);
  }

  lemma AckMovesHead(p: Pub)
    requires InBounds(p) && p.flight != []
    ensures Line(Ack(p)) == Line(p)
  {
    HeadTail(p.flight);
  }

  lemma Landed(l: Limits, s: System, i: nat) returns (s': System)
    requires Reachable(l, s) && SystemInv(l, s) && i in s.sent && i < |s.pub.items|
    ensures Reachable(l, s') && s'.pub == s.pub && WellFormed(s') && Known(s.pub.items, s'.log, s.pub.items[i].msgId)
  {
    s' := Next(l, s, Land(i));
    ReachStep(l, s, Land(i), s');
    if !Known(s.pub.items, s.log, s.pub.items[i].msgId) {
      assert s'.log[|s.log|] == i;
    }
  }

  lemma HeadIsSent(l: Limits, s: System) returns (s': System)
    requires Reachable(l, s) && s.pub.flight == [] && s.pub.buffer != [] && l.window > 0
    ensures Reachable(l, s') && Onward(s, s')
    ensures |s'.pub.flight| == 1 && |s'.pub.buffer| == |s.pub.buffer| - 1
  {
    ReachableSent(l, s);
    s' := Next(l, s, DoFill);
    ReachStep(l, s, DoFill, s');
    HeadTail(s.pub.buffer);
    assert Line(s'.pub) == Line(s.pub);
  }

  /**
   From every reachable state, whatever failed before: if the broker answers
   from now on, the publisher can reach idleness with every batch in line
   acknowledged, in order, and not one more dropped.
   */
  lemma {:induction false} QueueCanDrain(l: Limits, s: System) returns (s': System)
    requires Reachable(l, s) && l.window > 0
    ensures Reachable(l, s') && s'.pub.buffer == [] && s'.pub.oldest.None?
    ensures s'.pub.items == s.pub.items && s'.pub.dropped == s.pub.dropped && s'.pub.acked == Line(s.pub)
    decreases 2 * |s.pub.buffer| + |s.pub.flight|
  {
    ReachableSent(l, s);
    if s.pub.flight != [] {
      var next := HeadIsPublished(l, s);
      s' := QueueCanDrain(l, next);
    } else if s.pub.buffer != [] {
      var next := HeadIsSent(l, s);
      s' := QueueCanDrain(l, next);
    } else {
      s' := s;
      assert Line(s.pub) == s.pub.acked;
    }
  }
}
