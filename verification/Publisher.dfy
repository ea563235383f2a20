/**
 The vehicle's JetStream publisher (`src/agent/publisher.py`): a byte-budgeted
 buffer, a bounded window of unacknowledged publishes, and requeueing of the
 whole window when a publish fails.

 `Pub` follows every submitted batch by its submission number. The class keeps
 the actual deques and counters and is tied to a `Pub` by its invariant. Each
 locked section of the source is one atomic step.
 */
module Publisher {
  import opened Basics

  datatype Item = Item(subject: string, payload: seq<bv8>, msgId: string, submitNs: int)

  datatype Limits = Limits(window: nat, budget: int)

  /** `acked`, `flight`, `buffer` and `dropped` hold positions in `items`, the batches submitted so far. */
  datatype Pub = Pub(items: seq<Item>, acked: seq<nat>, flight: seq<nat>, buffer: seq<nat>, dropped: seq<nat>,
                     bytes: int, oldest: Option<int>)

  const Idle := Pub([], [], [], [], [], 0, None)

  // ----- the steps -----------------------------------------------------------

  predicate Below(s: seq<nat>, n: nat) { forall k :: 0 <= k < |s| ==> s[k] < n }

  function Bytes(items: seq<Item>, at: seq<nat>): (n: nat)
    requires Below(at, |items|)
  {
    if |at| == 0 then 0 else |items[at[0]].payload| + Bytes(items, at[1..])
  }

  predicate InBounds(p: Pub) { Below(p.flight, |p.items|) && Below(p.buffer, |p.items|) }

  function DropFirst(p: Pub): (p': Pub)
    requires InBounds(p) && p.buffer != []
    ensures InBounds(p')
  {
    p.(buffer := p.buffer[1..], bytes := p.bytes - |p.items[p.buffer[0]].payload|, dropped := p.dropped + [p.buffer[0]])
  }

  function DropLast(p: Pub): (p': Pub)
    requires InBounds(p) && p.buffer != []
    ensures InBounds(p')
  {
    var last := |p.buffer| - 1;
    p.(buffer := p.buffer[..last], bytes := p.bytes - |p.items[p.buffer[last]].payload|,
       dropped := p.dropped + [p.buffer[last]])
  }

  /** Drop from the old end until the budget is met or one batch is left. */
  function ShedOldest(budget: int, p: Pub): (p': Pub)
    requires InBounds(p)
    decreases |p.buffer|
  {
    if p.bytes > budget && |p.buffer| > 1 then ShedOldest(budget, DropFirst(p)) else p
  }

  /** Drop from the new end until the budget is met or one batch is left. */
  function ShedNewest(budget: int, p: Pub): (p': Pub)
    requires InBounds(p)
    decreases |p.buffer|
  {
    if p.bytes > budget && |p.buffer| > 1 then ShedNewest(budget, DropLast(p)) else p
  }

  function Enqueue(p: Pub, item: Item): (p': Pub)
    requires InBounds(p)
    ensures InBounds(p')
  {
    p.(items := p.items + [item], buffer := p.buffer + [|p.items|], bytes := p.bytes + |item.payload|)
  }

  /** `submit`. */
  function Submitted(l: Limits, p: Pub, item: Item): Pub
    requires InBounds(p)
  {
    ShedOldest(l.budget, Enqueue(p, item))
  }

  /** One turn of `_fill_window`. */
  function Fill(p: Pub): Pub
    requires InBounds(p) && p.buffer != []
  {
    var i := p.buffer[0];
    p.(buffer := p.buffer[1..], flight := p.flight + [i], bytes := p.bytes - |p.items[i].payload|,
       oldest := if p.oldest.None? then Some(p.items[i].submitNs) else p.oldest)
  }

  /** The head of the window is acknowledged. */
  function Ack(p: Pub): Pub
    requires InBounds(p) && p.flight != []
  {
    p.(acked := p.acked + [p.flight[0]], flight := p.flight[1..],
       oldest := if |p.flight| > 1 then Some(p.items[p.flight[1]].submitNs) else None)
  }

  function Return(p: Pub): (p': Pub)
    requires InBounds(p)
    ensures InBounds(p')
  {
    p.(buffer := p.flight + p.buffer, flight := [], bytes := p.bytes + Bytes(p.items, p.flight), oldest := None)
  }

  /** `_requeue`: the whole window goes back to the front of the buffer, in order. */
  function Requeue(l: Limits, p: Pub): Pub
    requires InBounds(p)
  {
    ShedNewest(l.budget, Return(p))
  }

  // ----- what every step keeps -----------------------------------------------

  ghost predicate Increasing(s: seq<nat>) { forall i, j :: 0 <= i < j < |s| ==> s[i] < s[j] }

  /** Each submission number below `n` once. */
  ghost function UpTo(n: nat): (m: multiset<nat>)
  {
    if n == 0 then multiset{} else UpTo(n - 1) + multiset{n - 1}
  }

  ghost function Everything(p: Pub): multiset<nat> {
    multiset(p.acked) + multiset(p.flight) + multiset(p.buffer) + multiset(p.dropped)
  }

  /** Acknowledged, in flight and buffered, in that order. */
  ghost function Line(p: Pub): seq<nat> { p.acked + p.flight + p.buffer }

  ghost predicate Books(p: Pub) {
    && InBounds(p) && Below(p.acked, |p.items|)
    // every submitted batch is in exactly one of the four places
    && Everything(p) == UpTo(|p.items|)
    && Increasing(Line(p))
    && p.bytes == Bytes(p.items, p.buffer)
    && p.oldest == (if p.flight == [] then None else Some(p.items[p.flight[0]].submitNs))
  }

  ghost predicate Inv(l: Limits, p: Pub) {
    && Books(p)
    && (p.bytes > l.budget ==> |p.buffer| <= 1)
    && |p.flight| <= l.window
  }

  lemma {:induction false} BytesMoreItems(items: seq<Item>, item: Item, at: seq<nat>)
    requires Below(at, |items|)
    ensures Bytes(items + [item], at) == Bytes(items, at)
  {
    if |at| > 0 {
      BytesMoreItems(items, item, at[1..]);
    }
  }

  lemma {:induction false} BytesConcat(items: seq<Item>, a: seq<nat>, b: seq<nat>)
    requires Below(a, |items|) && Below(b, |items|)
    ensures Bytes(items, a + b) == Bytes(items, a) + Bytes(items, b)
  {
    if |a| == 0 {
      assert a + b == b;
    } else {
      BytesConcat(items, a[1..], b);
      assert (a + b)[1..] == a[1..] + b;
    }
  }

  lemma BytesOne(items: seq<Item>, i: nat)
    requires i < |items|
    ensures Bytes(items, [i]) == |items[i].payload|
  {
    assert [i][1..] == [];
  }

  lemma HeadTail(s: seq<nat>)
    requires s != []
    ensures s == [s[0]] + s[1..] && multiset(s) == multiset{s[0]} + multiset(s[1..])
  {
  }

  lemma InitLast(s: seq<nat>)
    requires s != []
    ensures s == s[..|s| - 1] + [s[|s| - 1]] && multiset(s) == multiset(s[..|s| - 1]) + multiset{s[|s| - 1]}
  {
  }

  /** Taking one position out of an increasing sequence leaves it increasing. */
  lemma IncreasingWithout(a: seq<nat>, x: nat, b: seq<nat>)
    requires Increasing(a + [x] + b)
    ensures Increasing(a + b)
  {
    var all, rest := a + [x] + b, a + b;
    forall i, j | 0 <= i < j < |rest| ensures rest[i] < rest[j] {
      assert rest[i] == all[if i < |a| then i else i + 1];
      assert rest[j] == all[if j < |a| then j else j + 1];
    }
  }

  lemma DropFirstKeeps(p: Pub)
    requires Books(p) && p.buffer != []
    ensures Books(DropFirst(p))
  {
    HeadTail(p.buffer);
    var ahead := p.acked + p.flight;
    assert Line(p) == ahead + [p.buffer[0]] + p.buffer[1..];
    IncreasingWithout(ahead, p.buffer[0], p.buffer[1..]);
  }

  lemma DropLastKeeps(p: Pub)
    requires Books(p) && p.buffer != []
    ensures Books(DropLast(p))
  {
    var last := |p.buffer| - 1;
    InitLast(p.buffer);
    BytesConcat(p.items, p.buffer[..last], [p.buffer[last]]);
    BytesOne(p.items, p.buffer[last]);
    var ahead := p.acked + p.flight + p.buffer[..last];
    assert Line(p) == ahead + [p.buffer[last]] + [];
    IncreasingWithout(ahead, p.buffer[last], []);
    assert Line(DropLast(p)) == ahead + [];
  }

  lemma {:induction false} ShedOldestKeeps(budget: int, p: Pub)
    requires Books(p)
    ensures var p' := ShedOldest(budget, p);
            && Books(p') && p'.items == p.items && p'.acked == p.acked && p'.flight == p.flight
            && (p'.bytes > budget ==> |p'.buffer| <= 1)
    decreases |p.buffer|
  {
    if p.bytes > budget && |p.buffer| > 1 {
      DropFirstKeeps(p);
      ShedOldestKeeps(budget, DropFirst(p));
    }
  }

  lemma {:induction false} ShedNewestKeeps(budget: int, p: Pub)
    requires Books(p)
    ensures var p' := ShedNewest(budget, p);
            && Books(p') && p'.items == p.items && p'.acked == p.acked && p'.flight == p.flight
            && (p'.bytes > budget ==> |p'.buffer| <= 1)
    decreases |p.buffer|
  {
    if p.bytes > budget && |p.buffer| > 1 {
      DropLastKeeps(p);
      ShedNewestKeeps(budget, DropLast(p));
    }
  }

  lemma EnqueueKeeps(p: Pub, item: Item)
    requires Books(p)
    ensures Books(Enqueue(p, item))
  {
    var p' := Enqueue(p, item);
    BytesMoreItems(p.items, item, p.buffer);
    BytesConcat(p'.items, p.buffer, [|p.items|]);
    BytesOne(p'.items, |p.items|);
    assert Line(p') == Line(p) + [|p.items|];
    assert Below(Line(p), |p.items|);
    var n: nat := |p.items|;
    assert multiset(p'.buffer) == multiset(p.buffer) + multiset{n};
  }

  lemma ReturnKeeps(p: Pub)
    requires Books(p)
    ensures Books(Return(p))
  {
    BytesConcat(p.items, p.flight, p.buffer);
    assert Line(Return(p)) == Line(p);
  }

  lemma SubmitKeeps(l: Limits, p: Pub, item: Item)
    requires Inv(l, p)
    ensures var p' := Submitted(l, p, item);
            Inv(l, p') && p'.items == p.items + [item] && p'.acked == p.acked && p'.flight == p.flight
  {
    EnqueueKeeps(p, item);
    ShedOldestKeeps(l.budget, Enqueue(p, item));
  }

  lemma FillKeeps(l: Limits, p: Pub)
    requires Inv(l, p) && p.buffer != [] && |p.flight| < l.window
    ensures Inv(l, Fill(p))
  {
    HeadTail(p.buffer);
    assert Line(Fill(p)) == Line(p);
  }

  lemma AckKeeps(l: Limits, p: Pub)
    requires Inv(l, p) && p.flight != []
    ensures Inv(l, Ack(p))
  {
    HeadTail(p.flight);
    assert Line(Ack(p)) == Line(p);
  }

  lemma RequeueKeeps(l: Limits, p: Pub)
    requires Inv(l, p)
    ensures var p' := Requeue(l, p);
            Inv(l, p') && p'.flight == [] && p'.items == p.items && p'.acked == p.acked
  {
    ReturnKeeps(p);
    ShedNewestKeeps(l.budget, Return(p));
  }

  // ----- counting ------------------------------------------------------------

  lemma {:induction false} UpToCount(n: nat)
    ensures |UpTo(n)| == n
    ensures forall i: nat :: UpTo(n)[i] == if i < n then 1 else 0
  {
    if n > 0 {
      UpToCount(n - 1);
    }
  }

  /** Conservation: submitted = published + drops + in flight + buffered. */
  lemma Conservation(l: Limits, p: Pub)
    requires Inv(l, p)
    ensures |p.items| == |p.acked| + |p.dropped| + |p.flight| + |p.buffer|
  {
    UpToCount(|p.items|);
  }

  /** What `drain` looks at is enough: then every submitted batch was acked or counted dropped, never both. */
  lemma IdleMeansDone(l: Limits, p: Pub)
    requires Inv(l, p) && p.buffer == [] && p.oldest.None?
    ensures |p.items| == |p.acked| + |p.dropped|
    ensures forall i: nat :: i < |p.items| ==> multiset(p.acked)[i] + multiset(p.dropped)[i] == 1
  {
    UpToCount(|p.items|);
    forall i: nat | i < |p.items| ensures multiset(p.acked)[i] + multiset(p.dropped)[i] == 1 {
      assert Everything(p)[i] == UpTo(|p.items|)[i];
    }
  }

  // ----- which end is shed ---------------------------------------------------

  function Backwards(s: seq<nat>): (r: seq<nat>)
  {
    if |s| == 0 then [] else [s[|s| - 1]] + Backwards(s[..|s| - 1])
  }

  /** Shedding has to drop something: over budget with more than one batch. */
  predicate Overfull(budget: int, p: Pub) { p.bytes > budget && |p.buffer| > 1 }

  /** From the old end: what is left is a tail, what is dropped the batches ahead of it in order. */
  lemma {:induction false} ShedOldestCuts(budget: int, p: Pub)
    requires InBounds(p)
    ensures var p', n := ShedOldest(budget, p), |p.buffer| - |ShedOldest(budget, p).buffer|;
      && 0 <= n && p'.buffer == p.buffer[n..] && p'.dropped == p.dropped + p.buffer[..n]
      && (n > 0 <==> Overfull(budget, p)) && (p.buffer != [] ==> p'.buffer != [])
    decreases |p.buffer|
  {
    if Overfull(budget, p) {
      var q := DropFirst(p);
      ShedOldestCuts(budget, q);
      var n := |q.buffer| - |ShedOldest(budget, q).buffer|;
      assert p.dropped + [p.buffer[0]] + q.buffer[..n] == p.dropped + p.buffer[..n + 1];
    }
  }

  /** From the new end: what is left is a head, what is dropped the batches behind it, newest first. */
  lemma {:induction false} ShedNewestCuts(budget: int, p: Pub)
    requires InBounds(p)
    ensures var p', m := ShedNewest(budget, p), |ShedNewest(budget, p).buffer|;
      && m <= |p.buffer| && p'.buffer == p.buffer[..m] && p'.dropped == p.dropped + Backwards(p.buffer[m..])
      && (m < |p.buffer| <==> Overfull(budget, p)) && (p.buffer != [] ==> p'.buffer != [])
    decreases |p.buffer|
  {
    if Overfull(budget, p) {
      var q, last := DropLast(p), |p.buffer| - 1;
      ShedNewestCuts(budget, q);
      var m := |ShedNewest(budget, q).buffer|;
      var gone := p.buffer[m..];
      assert gone[..|gone| - 1] == q.buffer[m..] && gone[|gone| - 1] == p.buffer[last];
      assert p.dropped + [p.buffer[last]] + Backwards(q.buffer[m..]) == p.dropped + Backwards(gone);
    } else {
      assert p.buffer[|p.buffer|..] == [];
    }
  }

  /** `submit` drops exactly a prefix of the buffer with the new batch at its end, and never the new batch itself. */
  lemma SubmitDropsOldest(l: Limits, p: Pub, item: Item)
    requires InBounds(p)
    ensures var p', all := Submitted(l, p, item), p.buffer + [|p.items|];
      var n := |all| - |p'.buffer|;
      && 0 <= n < |all| && p'.buffer == all[n..] && p'.dropped == p.dropped + all[..n]
      && (n > 0 <==> p.bytes + |item.payload| > l.budget && p.buffer != [])
  {
    ShedOldestCuts(l.budget, Enqueue(p, item));
  }

  /**
   `_requeue` drops exactly a suffix of the window followed by the buffer,
   newest first, and it drops something exactly if the two together exceed the
   budget and are more than one batch.
   */
  lemma RequeueDropsNewest(l: Limits, p: Pub)
    requires InBounds(p)
    ensures var p', all := Requeue(l, p), p.flight + p.buffer;
      var m := |p'.buffer|;
      && m <= |all| && p'.buffer == all[..m] && p'.dropped == p.dropped + Backwards(all[m..])
      && (all != [] ==> m > 0)
      && (m < |all| <==> p.bytes + Bytes(p.items, p.flight) > l.budget && |p.flight| + |p.buffer| > 1)
  {
    ShedNewestCuts(l.budget, Return(p));
  }

  /** The step from `p` to `p'` drops a batch submitted after one it keeps. */
  ghost predicate DropsNewer(p: Pub, p': Pub) {
    exists d, k :: 0 <= d < |p'.dropped| && |p.dropped| <= d && 0 <= k < |p'.buffer| && p'.buffer[k] < p'.dropped[d]
  }

  lemma {:induction false} BackwardsHead(s: seq<nat>)
    requires s != []
    ensures |Backwards(s)| == |s| && Backwards(s)[0] == s[|s| - 1]
  {
    if |s| > 1 {
      BackwardsHead(s[..|s| - 1]);
    }
  }

  /** Dropping oldest-first holds of every submit, and of a requeue exactly if that has nothing to drop. */
  lemma OldestFirstIff(l: Limits, p: Pub, item: Item)
    requires Inv(l, p)
    ensures !DropsNewer(p, Submitted(l, p, item))
    ensures DropsNewer(p, Requeue(l, p)) <==> p.bytes + Bytes(p.items, p.flight) > l.budget && |p.flight| + |p.buffer| > 1
  {
    SubmitKeepsOldestFirst(l, p, item);
    RequeueIsNewestFirst(l, p);
  }

  lemma RequeueIsNewestFirst(l: Limits, p: Pub)
    requires Inv(l, p)
    ensures DropsNewer(p, Requeue(l, p)) <==> p.bytes + Bytes(p.items, p.flight) > l.budget && |p.flight| + |p.buffer| > 1
  {
    RequeueDropsNewest(l, p);
    var p', all := Requeue(l, p), p.flight + p.buffer;
    if |p'.buffer| < |all| {
      assert Line(p)[|p.acked|..] == all;
      CutOffNewer(p, p', all, |p'.buffer|);
    }
  }

  lemma CutOffNewer(p: Pub, p': Pub, all: seq<nat>, m: nat)
    requires Increasing(all) && 0 < m < |all|
    requires p'.buffer == all[..m] && p'.dropped == p.dropped + Backwards(all[m..])
    ensures DropsNewer(p, p')
  {
    BackwardsHead(all[m..]);
    assert p'.dropped[|p.dropped|] == all[|all| - 1];
    assert p'.buffer[0] < p'.dropped[|p.dropped|];
  }

  lemma SubmitKeepsOldestFirst(l: Limits, p: Pub, item: Item)
    requires Inv(l, p)
    ensures !DropsNewer(p, Submitted(l, p, item))
  {
    SubmitDropsOldest(l, p, item);
    var p', all := Submitted(l, p, item), p.buffer + [|p.items|];
    var n := |all| - |p'.buffer|;
    assert Line(p)[|p.acked + p.flight|..] == p.buffer;
    forall d, k | 0 <= d < |p'.dropped| && |p.dropped| <= d && 0 <= k < |p'.buffer| ensures p'.dropped[d] < p'.buffer[k] {
      assert p'.dropped[d] == all[d - |p.dropped|] && p'.buffer[k] == all[n + k];
    }
  }

  // ----- with the broker -----------------------------------------------------

  /** `sent`: batches ever handed to the broker; `log`: batches it stored, in order. */
  datatype System = System(pub: Pub, sent: set<nat>, log: seq<nat>)

  /** `Land(i)`: a publish of batch `i` reaches the broker, possibly long after it was requeued or shed. */
  datatype Step = DoSubmit(item: Item) | DoFill | DoAck | DoRequeue | Land(i: nat)

  const Start := System(Idle, {}, [])

  /** The broker already holds a message with this id. */
  ghost predicate Known(items: seq<Item>, log: seq<nat>, id: string)
    requires Below(log, |items|)
  {
    exists a :: 0 <= a < |log| && items[log[a]].msgId == id
  }

  ghost predicate WellFormed(s: System) { InBounds(s.pub) && Below(s.log, |s.pub.items|) }

  /** An acknowledgement means the broker stored the batch or recognised its id. */
  ghost predicate Enabled(l: Limits, s: System, step: Step)
  {
    && WellFormed(s)
    && match step
       case DoSubmit(_) => true
       case DoFill => s.pub.buffer != [] && |s.pub.flight| < l.window
       case DoAck => s.pub.flight != [] && Known(s.pub.items, s.log, s.pub.items[s.pub.flight[0]].msgId)
       case DoRequeue => true
       case Land(i) => i in s.sent && i < |s.pub.items|
  }

  ghost function Next(l: Limits, s: System, step: Step): System
    requires Enabled(l, s, step)
  {
    match step
    case DoSubmit(item) => s.(pub := Submitted(l, s.pub, item))
    case DoFill => s.(pub := Fill(s.pub), sent := s.sent + {s.pub.buffer[0]})
    case DoAck => s.(pub := Ack(s.pub))
    case DoRequeue => s.(pub := Requeue(l, s.pub))
    case Land(i) => if Known(s.pub.items, s.log, s.pub.items[i].msgId) then s else s.(log := s.log + [i])
  }

  ghost predicate DistinctIds(items: seq<Item>) {
    forall i, j :: 0 <= i < j < |items| ==> items[i].msgId != items[j].msgId
  }

  /** No id is stored twice, and every acknowledged id is stored. */
  ghost predicate Stored(items: seq<Item>, acked: seq<nat>, log: seq<nat>) {
    && Below(log, |items|) && Below(acked, |items|)
    && (forall a, b :: 0 <= a < b < |log| ==> items[log[a]].msgId != items[log[b]].msgId)
    && (forall k :: 0 <= k < |acked| ==> Known(items, log, items[acked[k]].msgId))
  }

  ghost predicate SystemInv(l: Limits, s: System) {
    && Inv(l, s.pub) && Stored(s.pub.items, s.pub.acked, s.log)
    && forall i :: i in s.sent ==> i < |s.pub.items|
  }

  /** More submissions and more stored batches never make an id unknown. */
  lemma KnownGrows(items: seq<Item>, log: seq<nat>, items': seq<Item>, log': seq<nat>, id: string)
    requires items <= items' && log <= log' && Below(log, |items|) && Below(log', |items'|) && Known(items, log, id)
    ensures Known(items', log', id)
  {
    var a :| 0 <= a < |log| && items[log[a]].msgId == id;
    assert log'[a] == log[a];
  }

  lemma StoredGrows(items: seq<Item>, items': seq<Item>, acked: seq<nat>, log: seq<nat>)
    requires Stored(items, acked, log) && items <= items'
    ensures Stored(items', acked, log)
  {
    forall k | 0 <= k < |acked| ensures Known(items', log, items'[acked[k]].msgId) {
      KnownGrows(items, log, items', log, items[acked[k]].msgId);
    }
  }

  lemma LandKeeps(items: seq<Item>, acked: seq<nat>, log: seq<nat>, i: nat)
    requires Stored(items, acked, log) && i < |items| && !Known(items, log, items[i].msgId)
    ensures Stored(items, acked, log + [i])
  {
    forall k | 0 <= k < |acked| ensures Known(items, log + [i], items[acked[k]].msgId) {
      KnownGrows(items, log, items, log + [i], items[acked[k]].msgId);
    }
  }

  lemma SubmitSystem(l: Limits, s: System, item: Item)
    requires SystemInv(l, s) && Enabled(l, s, DoSubmit(item))
    ensures SystemInv(l, Next(l, s, DoSubmit(item)))
  {
    SubmitKeeps(l, s.pub, item);
    StoredGrows(s.pub.items, s.pub.items + [item], s.pub.acked, s.log);
  }

  lemma LandSystem(l: Limits, s: System, i: nat)
    requires SystemInv(l, s) && Enabled(l, s, Land(i))
    ensures SystemInv(l, Next(l, s, Land(i)))
  {
    if !Known(s.pub.items, s.log, s.pub.items[i].msgId) {
      LandKeeps(s.pub.items, s.pub.acked, s.log, i);
    }
  }

  lemma FillSystem(l: Limits, s: System)
    requires SystemInv(l, s) && Enabled(l, s, DoFill)
    ensures SystemInv(l, Next(l, s, DoFill))
  {
    FillKeeps(l, s.pub);
  }

  lemma AckSystem(l: Limits, s: System)
    requires SystemInv(l, s) && Enabled(l, s, DoAck)
    ensures SystemInv(l, Next(l, s, DoAck))
  {
    AckKeeps(l, s.pub);
  }

  lemma StepKeeps(l: Limits, s: System, step: Step)
    requires SystemInv(l, s) && Enabled(l, s, step)
    ensures SystemInv(l, Next(l, s, step))
  {
    match step
    case DoSubmit(item) =>
      SubmitSystem(l, s, item);
    case DoFill =>
      FillSystem(l, s);
    case DoAck =>
      AckSystem(l, s);
    case DoRequeue =>
      RequeueKeeps(l, s.pub);
    case Land(i) =>
      LandSystem(l, s, i);
  }

  /** `trace` is a run of the system from its start: consecutive states are one enabled step apart. */
  ghost predicate Run(l: Limits, trace: seq<System>, steps: seq<Step>) {
    && |trace| == |steps| + 1 && trace[0] == Start
    && forall k :: 0 <= k < |steps| ==> Enabled(l, trace[k], steps[k]) && trace[k + 1] == Next(l, trace[k], steps[k])
  }

  /** Some run ends in `s`. */
  ghost predicate Reachable(l: Limits, s: System) {
    exists trace, steps :: Run(l, trace, steps) && trace[|steps|] == s
  }

  lemma {:induction false} RunIsSafe(l: Limits, trace: seq<System>, steps: seq<Step>, k: nat)
    requires Run(l, trace, steps) && k < |trace|
    ensures SystemInv(l, trace[k])
  {
    if k > 0 {
      RunIsSafe(l, trace, steps, k - 1);
      StepKeeps(l, trace[k - 1], steps[k - 1]);
    }
  }

  lemma ReachableIsSafe(l: Limits, s: System)
    requires Reachable(l, s)
    ensures SystemInv(l, s)
  {
    var trace, steps :| Run(l, trace, steps) && trace[|steps|] == s;
    RunIsSafe(l, trace, steps, |steps|);
  }

  /**
   Over every interleaving of submits, fills, acks, failures with requeue, and
   late arrivals: the books balance, order is kept, and the broker stores each
   batch at most once.
   */
  lemma EveryRunBalances(l: Limits, s: System)
    requires Reachable(l, s)
    ensures |s.pub.items| == |s.pub.acked| + |s.pub.dropped| + |s.pub.flight| + |s.pub.buffer|
    ensures Increasing(Line(s.pub)) && |s.pub.flight| <= l.window
    ensures InBounds(s.pub) && s.pub.bytes == Bytes(s.pub.items, s.pub.buffer)
    ensures s.pub.bytes > l.budget ==> |s.pub.buffer| <= 1
    ensures forall a, b :: 0 <= a < b < |s.log| ==> s.log[a] != s.log[b]
  {
    ReachableIsSafe(l, s);
    Conservation(l, s.pub);
  }

  /** With distinct message ids, every batch counted as published is in the broker's log. */
  lemma PublishedIsStored(l: Limits, s: System, k: nat)
    requires Reachable(l, s) && DistinctIds(s.pub.items) && k < |s.pub.acked|
    ensures s.pub.acked[k] in s.log
  {
    ReachableIsSafe(l, s);
    assert Known(s.pub.items, s.log, s.pub.items[s.pub.acked[k]].msgId);
    var b :| 0 <= b < |s.log| && s.pub.items[s.log[b]].msgId == s.pub.items[s.pub.acked[k]].msgId;
    assert s.log[b] == s.pub.acked[k];
  }

  lemma ReachStep(l: Limits, s: System, step: Step, s': System)
    requires Reachable(l, s) && Enabled(l, s, step) && Next(l, s, step) == s'
    ensures Reachable(l, s')
  {
    var trace, steps :| Run(l, trace, steps) && trace[|steps|] == s;
    var trace', steps' := trace + [s'], steps + [step];
    assert Run(l, trace', steps') && trace'[|steps'|] == s';
  }

  lemma TwoBuffered(a: Item, b: Item, l: Limits) returns (s: System)
    requires l == Limits(2, |a.payload| + |b.payload|)
    ensures Reachable(l, s)
    ensures s == System(Pub([a, b], [], [], [0, 1], [], |a.payload| + |b.payload|, None), {}, [])
  {
    var none: seq<Step> := [];
    assert Run(l, [Start], none) && [Start][|none|] == Start;
    var s1 := System(Pub([a], [], [], [0], [], |a.payload|, None), {}, []);
    ReachStep(l, Start, DoSubmit(a), s1);
    s := System(Pub([a, b], [], [], [0, 1], [], |a.payload| + |b.payload|, None), {}, []);
    ReachStep(l, s1, DoSubmit(b), s);
  }

  /** Two batches, both in flight, the first one stored. */
  lemma TwoInFlight(a: Item, b: Item, l: Limits) returns (s: System)
    requires l == Limits(2, |a.payload| + |b.payload|)
    ensures Reachable(l, s)
    ensures s == System(Pub([a, b], [], [0, 1], [], [], 0, Some(a.submitNs)), {0, 1}, [0])
  {
    var s3 := TwoSent(a, b, l);
    var s4 := System(Pub([a, b], [], [0, 1], [], [], 0, Some(a.submitNs)), {0, 1}, []);
    ReachStep(l, s3, DoFill, s4);
    s := s4.(log := [0]);
    ReachStep(l, s4, Land(0), s);
  }

  lemma TwoSent(a: Item, b: Item, l: Limits) returns (s: System)
    requires l == Limits(2, |a.payload| + |b.payload|)
    ensures Reachable(l, s)
    ensures s == System(Pub([a, b], [], [0], [1], [], |b.payload|, Some(a.submitNs)), {0}, [])
  {
    var s2 := TwoBuffered(a, b, l);
    s := System(Pub([a, b], [], [0], [1], [], |b.payload|, Some(a.submitNs)), {0}, []);
    ReachStep(l, s2, DoFill, s);
  }

  /**
   Distinctness is needed: for any two batches sharing an id some run counts
   both as published while the broker has stored only the first.
   */
  lemma SharedIdLosesABatch(a: Item, b: Item)
    requires a.msgId == b.msgId
    ensures Reachable(Limits(2, |a.payload| + |b.payload|), System(Pub([a, b], [0, 1], [], [], [], 0, None), {0, 1}, [0]))
  {
    var l := Limits(2, |a.payload| + |b.payload|);
    var s5 := TwoInFlight(a, b, l);
    assert s5.pub.items[s5.log[0]].msgId == a.msgId;
    var s6 := System(Pub([a, b], [0], [1], [], [], 0, Some(b.submitNs)), {0, 1}, [0]);
    ReachStep(l, s5, DoAck, s6);
    assert s6.pub.items[s6.log[0]].msgId == b.msgId;
    ReachStep(l, s6, DoAck, System(Pub([a, b], [0, 1], [], [], [], 0, None), {0, 1}, [0]));
  }

  /**
   So "oldest-first" is false of whole runs: for any two batches that together
   exceed the budget, the first in flight and the second submitted behind it, a
   failed publish drops the second and keeps the first.
   */
  lemma RequeueDropsTheNewer(a: Item, b: Item)
    requires |a.payload| + |b.payload| > 0
    ensures var l := Limits(1, |a.payload| + |b.payload| - 1);
      var s := System(Pub([a, b], [], [0], [1], [], |b.payload|, Some(a.submitNs)), {0}, []);
      && Reachable(l, s) && Enabled(l, s, DoRequeue)
      && Next(l, s, DoRequeue).pub == Pub([a, b], [], [], [0], [1], |a.payload|, None)
      && DropsNewer(s.pub, Next(l, s, DoRequeue).pub)
  {
    var l := Limits(1, |a.payload| + |b.payload| - 1);
    var s := OneBehindTheOther(a, b, l);
    BytesOne(s.pub.items, 0);
    var r := Return(s.pub);
    assert r == Pub([a, b], [], [], [0, 1], [], |a.payload| + |b.payload|, None);
    assert DropLast(r) == Pub([a, b], [], [], [0], [1], |a.payload|, None);
    assert ShedNewest(l.budget, DropLast(r)) == DropLast(r);
    var p' := Requeue(l, s.pub);
    assert p' == ShedNewest(l.budget, r) == DropLast(r);
    assert p'.buffer[0] < p'.dropped[0];
  }

  lemma OneBehindTheOther(a: Item, b: Item, l: Limits) returns (s: System)
    requires l == Limits(1, |a.payload| + |b.payload| - 1)
    ensures Reachable(l, s)
    ensures s == System(Pub([a, b], [], [0], [1], [], |b.payload|, Some(a.submitNs)), {0}, [])
  {
    var none: seq<Step> := [];
    assert Run(l, [Start], none) && [Start][|none|] == Start;
    var s1 := System(Pub([a], [], [], [0], [], |a.payload|, None), {}, []);
    ReachStep(l, Start, DoSubmit(a), s1);
    var s2 := System(Pub([a], [], [0], [], [], 0, Some(a.submitNs)), {0}, []);
    ReachStep(l, s1, DoFill, s2);
    s := System(Pub([a, b], [], [0], [1], [], |b.payload|, Some(a.submitNs)), {0}, []);
    ReachStep(l, s2, DoSubmit(b), s);
  }

  // ----- the object ----------------------------------------------------------

  ghost function Pick(items: seq<Item>, at: seq<nat>): (s: seq<Item>)
    requires Below(at, |items|)
  {
    seq(|at|, k requires 0 <= k < |at| => items[at[k]])
  }

  lemma PickMoves(items: seq<Item>, a: seq<nat>, b: seq<nat>)
    requires Below(a, |items|) && Below(b, |items|) && a != []
    ensures Pick(items, a[1..]) == Pick(items, a)[1..] && Pick(items, b + [a[0]]) == Pick(items, b) + [Pick(items, a)[0]]
  {
  }

  lemma PickMoreItems(items: seq<Item>, item: Item, at: seq<nat>)
    requires Below(at, |items|)
    ensures Pick(items + [item], at) == Pick(items, at)
  {
  }

  class JetStreamPublisher {
    const limits: Limits
    var buffer: seq<Item>
    var bufferBytes: int
    var oldestPending: Option<int>
    var publishDrops: nat
    var published: nat
    var pending: seq<Item>
    ghost var model: Pub

    /** The deques and counters are those of the model. */
    ghost predicate Tied()
      reads this
    {
      && InBounds(model)
      && buffer == Pick(model.items, model.buffer) && pending == Pick(model.items, model.flight)
      && bufferBytes == model.bytes && oldestPending == model.oldest
      && publishDrops == |model.dropped| && published == |model.acked|
    }

    ghost predicate Valid()
      reads this
    {
      Tied() && Inv(limits, model)
    }

    constructor (window: nat, budget: int)
      requires window > 0
      ensures Valid() && limits == Limits(window, budget) && model == Idle
    {
      limits := Limits(window, budget);
      buffer, bufferBytes, oldestPending, publishDrops, published, pending := [], 0, None, 0, 0, [];
      model := Idle;
    }

    /** `submit`: append, then shed the oldest while over budget. */
    method Submit(item: Item)
      requires Valid()
      modifies this
      ensures Valid() && model == Submitted(limits, old(model), item)
    {
      SubmitKeeps(limits, model, item);
      Append(item);
      ghost var start := model;
      while bufferBytes > limits.budget && |buffer| > 1
        invariant Tied()
        invariant ShedOldest(limits.budget, model) == ShedOldest(limits.budget, start)
        decreases |buffer|
      {
        PopOldest();
      }
    }

    method Append(item: Item)
      requires Tied()
      modifies this
      ensures Tied() && model == Enqueue(old(model), item)
    {
      PickMoreItems(model.items, item, model.buffer);
      PickMoreItems(model.items, item, model.flight);
      buffer := buffer + [item];
      bufferBytes := bufferBytes + |item.payload|;
      model := Enqueue(model, item);
    }

    method PopOldest()
      requires Tied() && buffer != []
      modifies this
      ensures Tied() && old(model).buffer != [] && model == DropFirst(old(model)) && pending == old(pending)
    {
      var shed := buffer[0];
      buffer := buffer[1..];
      bufferBytes := bufferBytes - |shed.payload|;
      publishDrops := publishDrops + 1;
      model := DropFirst(model);
    }

    method PopNewest()
      requires Tied() && buffer != []
      modifies this
      ensures Tied() && old(model).buffer != [] && model == DropLast(old(model)) && pending == old(pending)
    {
      var shed := buffer[|buffer| - 1];
      buffer := buffer[..|buffer| - 1];
      bufferBytes := bufferBytes - |shed.payload|;
      publishDrops := publishDrops + 1;
      model := DropLast(model);
    }

    /** One turn of `_fill_window`, under the lock. */
    method FillOne()
      requires Valid() && buffer != [] && |pending| < limits.window
      modifies this
      ensures Valid() && old(model).buffer != [] && model == Fill(old(model))
    {
      FillKeeps(limits, model);
      PickMoves(model.items, model.buffer, model.flight);
      var item := buffer[0];
      buffer := buffer[1..];
      bufferBytes := bufferBytes - |item.payload|;
      if oldestPending.None? {
        oldestPending := Some(item.submitNs);
      }
      pending := pending + [item];
      model := Fill(model);
    }

    /** The head publish was acknowledged. */
    method AckHead()
      requires Valid() && pending != []
      modifies this
      ensures Valid() && old(model).flight != [] && model == Ack(old(model))
    {
      AckKeeps(limits, model);
      pending := pending[1..];
      published := published + 1;
      oldestPending := if pending != [] then Some(pending[0].submitNs) else None;
      model := Ack(model);
    }

    /** Push the whole window back to the front of the buffer, last one first. */
    method PushBack()
      requires Tied()
      modifies this
      ensures Tied() && model == Return(old(model)) && pending == []
    {
      var k := |pending|;
      while k > 0
        invariant 0 <= k <= |pending|
        invariant pending == old(pending) && model == old(model)
        invariant buffer == pending[k..] + old(buffer)
        invariant bufferBytes == model.bytes + Bytes(model.items, model.flight[k..])
        invariant publishDrops == old(publishDrops) && published == old(published)
      {
        k := k - 1;
        assert model.flight[k..][1..] == model.flight[k + 1..];
        buffer := [pending[k]] + buffer;
        bufferBytes := bufferBytes + |pending[k].payload|;
      }
      assert model.flight[0..] == model.flight && pending[0..] == pending;
      pending := [];
      oldestPending := None;
      model := Return(model);
    }

    /** `_requeue`: push the window back, then shed the newest while over budget. */
    method RequeueAll()
      requires Valid()
      modifies this
      ensures Valid() && model == Requeue(limits, old(model)) && pending == []
    {
      RequeueKeeps(limits, model);
      PushBack();
      ghost var start := model;
      while bufferBytes > limits.budget && |buffer| > 1
        invariant Tied() && pending == []
        invariant ShedNewest(limits.budget, model) == ShedNewest(limits.budget, start)
        decreases |buffer|
      {
        PopNewest();
      }
    }

    /** What one poll of `drain` reports: True only when everything submitted was acked or counted dropped. */
    method IsIdle() returns (idle: bool)
      requires Valid()
      ensures idle ==> |model.items| == published + publishDrops
      ensures idle <==> buffer == [] && pending == []
    {
      idle := buffer == [] && oldestPending.None?;
      if idle {
        IdleMeansDone(limits, model);
      }
    }
  }
}
