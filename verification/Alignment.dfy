/**
 The two-pointer alignment of a subject's line crossings with a reference's
 (`tools/compare_timing.py`, `match`).

 `Greedy` is the index form of what the loop does. The point of the module is
 `GreedyIsMaximum`: on time-ordered inputs no one-to-one pairing within the
 tolerance, order preserving or not, has more pairs than the greedy one.
 */
module Alignment {

  datatype Crossing = Crossing(line: string, time: real)

  /** A position of the subject with a position of the reference. */
  datatype Pair = Pair(i: nat, j: nat)

  datatype Result = Result(matched: seq<(Crossing, Crossing)>, missing: seq<Crossing>, extra: seq<Crossing>)

  /** One alignment problem: both sequences and the two numbers `match` takes. */
  datatype Problem = Problem(subject: seq<Crossing>, reference: seq<Crossing>, offset: real, tolerance: real) {

    function Delta(i: nat, j: nat): real
      requires i < |subject| && j < |reference|
    {
      (subject[i].time - offset) - reference[j].time
    }

    predicate Within(i: nat, j: nat)
      requires i < |subject| && j < |reference|
    {
      -tolerance <= Delta(i, j) <= tolerance
    }

    ghost predicate TimeOrdered() {
      && (forall i, j :: 0 <= i <= j < |subject| ==> subject[i].time <= subject[j].time)
      && (forall i, j :: 0 <= i <= j < |reference| ==> reference[i].time <= reference[j].time)
    }

    /** A one-to-one pairing within tolerance of the tails from `i` and `j`, in no particular order. */
    ghost predicate OneToOne(pairing: set<Pair>, i: nat, j: nat) {
      && (forall p :: p in pairing ==> i <= p.i < |subject| && j <= p.j < |reference| && Within(p.i, p.j))
      && (forall p, q :: p in pairing && q in pairing && (p.i == q.i || p.j == q.j) ==> p == q)
    }

    /** The index pairs the loop appends from position `(i, j)` on. */
    function Greedy(i: nat, j: nat): (pairs: seq<Pair>)
      requires i <= |subject| && j <= |reference|
      decreases |subject| - i + |reference| - j
    {
      if i == |subject| || j == |reference| then []
      else if Within(i, j) then [Pair(i, j)] + Greedy(i + 1, j + 1)
      else if Delta(i, j) < 0.0 then Greedy(i + 1, j)
      else Greedy(i, j + 1)
    }
  }

  /** The greedy pairs rise strictly on both sides and stay within the tails they start from. */
  lemma {:induction false} GreedyRises(p: Problem, i: nat, j: nat)
    requires i <= |p.subject| && j <= |p.reference|
    ensures Rising(p.Greedy(i, j))
    ensures forall q :: q in p.Greedy(i, j) ==> i <= q.i < |p.subject| && j <= q.j < |p.reference|
    decreases |p.subject| - i + |p.reference| - j
  {
    if i == |p.subject| || j == |p.reference| {
    } else if p.Within(i, j) {
      GreedyRises(p, i + 1, j + 1);
    } else if p.Delta(i, j) < 0.0 {
      GreedyRises(p, i + 1, j);
    } else {
      GreedyRises(p, i, j + 1);
    }
  }

  /** The exchange step: with `(i, k)` and `(l, j)` both used, pair `l` with `k` and free `i` and `j`. */
  lemma Exchange(p: Problem, pairing: set<Pair>, i: nat, j: nat, k: nat, l: nat) returns (smaller: set<Pair>)
    requires i < |p.subject| && j < |p.reference| && p.TimeOrdered()
    requires p.OneToOne(pairing, i, j) && p.Within(i, j)
    requires Pair(i, k) in pairing && Pair(l, j) in pairing && k != j && l != i
    ensures p.OneToOne(smaller, i + 1, j + 1) && |smaller| == |pairing| - 1
  {
    assert p.Within(l, k) by {
      assert p.Delta(i, k) <= p.Delta(l, k) <= p.Delta(l, j);
    }
    var rest := pairing - {Pair(i, k)} - {Pair(l, j)};
    assert Pair(l, j) in pairing - {Pair(i, k)};
    assert |rest| == |pairing| - 2;
    assert forall q :: q in rest ==> q.i != i && q.i != l && q.j != j && q.j != k;
    smaller := rest + {Pair(l, k)};
  }

  /** A pairing that leaves out `i` or `j` loses at most one pair when moved past both. */
  lemma MovePast(p: Problem, pairing: set<Pair>, i: nat, j: nat) returns (smaller: set<Pair>)
    requires i < |p.subject| && j < |p.reference| && p.TimeOrdered()
    requires p.OneToOne(pairing, i, j) && p.Within(i, j)
    ensures p.OneToOne(smaller, i + 1, j + 1) && |smaller| >= |pairing| - 1
  {
    if k :| Pair(i, k) in pairing && k != j {
      if l :| Pair(l, j) in pairing && l != i {
        smaller := Exchange(p, pairing, i, j, k, l);
      } else {
        smaller := pairing - {Pair(i, k)};
      }
    } else if l :| Pair(l, j) in pairing && l != i {
      smaller := pairing - {Pair(l, j)};
    } else {
      smaller := pairing - {Pair(i, j)};
    }
  }

  /** No one-to-one pairing within tolerance is larger than the greedy one. */
  lemma {:induction false} GreedyIsMaximum(p: Problem, pairing: set<Pair>, i: nat, j: nat)
    requires i <= |p.subject| && j <= |p.reference| && p.TimeOrdered()
    requires p.OneToOne(pairing, i, j)
    ensures |pairing| <= |p.Greedy(i, j)|
    decreases |p.subject| - i + |p.reference| - j
  {
    if i == |p.subject| || j == |p.reference| {
      assert pairing == {};
    } else if p.Within(i, j) {
      var smaller := MovePast(p, pairing, i, j);
      GreedyIsMaximum(p, smaller, i + 1, j + 1);
    } else if p.Delta(i, j) < 0.0 {
      // subject[i] is too early for reference[j] and hence for every later reference
      GreedyIsMaximum(p, pairing, i + 1, j);
    } else {
      GreedyIsMaximum(p, pairing, i, j + 1);
    }
  }

  /** The elements of `s` at the positions not in `taken`, in order. */
  function Others<T>(s: seq<T>, taken: set<nat>): (r: seq<T>)
  {
    if |s| == 0 then []
    else Others(s[..|s| - 1], taken) + (if |s| - 1 in taken then [] else [s[|s| - 1]])
  }

  lemma {:induction false} OthersPastEnd<T>(s: seq<T>, taken: set<nat>, n: nat)
    requires |s| <= n
    ensures Others(s, taken + {n}) == Others(s, taken)
  {
    if |s| > 0 {
      OthersPastEnd(s[..|s| - 1], taken, n);
    }
  }

  lemma {:induction false} OthersTail<T>(s: seq<T>, taken: set<nat>, n: nat)
    requires n <= |s| && forall i :: i in taken ==> i < n
    ensures Others(s, taken) == Others(s[..n], taken) + s[n..]
  {
    if n == |s| {
      assert s[..n] == s;
    } else {
      OthersTail(s[..|s| - 1], taken, n);
      assert s[..|s| - 1][..n] == s[..n];
      assert s[n..] == s[..|s| - 1][n..] + [s[|s| - 1]];
    }
  }

  /** Positions of `s` either taken or left over: nothing is counted twice and nothing is lost. */
  lemma {:induction false} OthersCount<T>(s: seq<T>, taken: set<nat>)
    requires forall i :: i in taken ==> i < |s|
    ensures |Others(s, taken)| + |taken| == |s|
  {
    if |s| == 0 {
      assert taken == {};
    } else {
      var last := |s| - 1;
      OthersCount(s[..last], taken - {last});
      if last in taken {
        OthersPastEnd(s[..last], taken - {last}, last);
        assert taken - {last} + {last} == taken;
      } else {
        assert taken - {last} == taken;
      }
    }
  }

  /** Moving past one position: taken, it adds nothing; left over, it is appended. */
  lemma OthersStep<T>(s: seq<T>, taken: set<nat>, n: nat)
    requires n < |s|
    ensures Others(s[..n + 1], taken + {n}) == Others(s[..n], taken)
    ensures n !in taken ==> Others(s[..n + 1], taken) == Others(s[..n], taken) + [s[n]]
  {
    assert s[..n + 1][..n] == s[..n];
    OthersPastEnd(s[..n], taken, n);
  }

  ghost function Firsts(pairs: seq<Pair>): (r: set<nat>)
  {
    if |pairs| == 0 then {} else Firsts(pairs[..|pairs| - 1]) + {pairs[|pairs| - 1].i}
  }

  ghost function Seconds(pairs: seq<Pair>): (r: set<nat>)
  {
    if |pairs| == 0 then {} else Seconds(pairs[..|pairs| - 1]) + {pairs[|pairs| - 1].j}
  }

  lemma Append(pairs: seq<Pair>, pair: Pair)
    ensures Firsts(pairs + [pair]) == Firsts(pairs) + {pair.i}
    ensures Seconds(pairs + [pair]) == Seconds(pairs) + {pair.j}
  {
    assert (pairs + [pair])[..|pairs|] == pairs;
  }

  ghost predicate Rising(pairs: seq<Pair>) {
    forall k, l :: 0 <= k < l < |pairs| ==> pairs[k].i < pairs[l].i && pairs[k].j < pairs[l].j
  }

  ghost predicate Below(pairs: seq<Pair>, i: nat, j: nat) {
    forall k :: 0 <= k < |pairs| ==> pairs[k].i < i && pairs[k].j < j
  }

  lemma {:induction false} PositionsBelow(pairs: seq<Pair>, i: nat, j: nat)
    requires Below(pairs, i, j)
    ensures (forall x :: x in Firsts(pairs) ==> x < i) && (forall y :: y in Seconds(pairs) ==> y < j)
  {
    if |pairs| > 0 {
      PositionsBelow(pairs[..|pairs| - 1], i, j);
    }
  }

  lemma {:induction false} RisingCount(pairs: seq<Pair>)
    requires Rising(pairs)
    ensures |Firsts(pairs)| == |pairs| && |Seconds(pairs)| == |pairs|
  {
    if |pairs| > 0 {
      var last := |pairs| - 1;
      RisingCount(pairs[..last]);
      PositionsBelow(pairs[..last], pairs[last].i, pairs[last].j);
    }
  }

  /** `matched` holds the crossings at `pairs`, each within tolerance. */
  ghost predicate Resolves(p: Problem, matched: seq<(Crossing, Crossing)>, pairs: seq<Pair>) {
    && |pairs| == |matched|
    && forall k :: 0 <= k < |pairs| ==> (
         && pairs[k].i < |p.subject| && pairs[k].j < |p.reference|
         && matched[k] == (p.subject[pairs[k].i], p.reference[pairs[k].j])
         && p.Within(pairs[k].i, pairs[k].j))
  }

  /** What the loop has established when it stands at `(i, j)`. */
  ghost predicate Progress(p: Problem, i: nat, j: nat, pairs: seq<Pair>, r: Result) {
    && i <= |p.subject| && j <= |p.reference|
    && pairs + p.Greedy(i, j) == p.Greedy(0, 0)
    && Resolves(p, r.matched, pairs) && Below(pairs, i, j)
    && r.extra == Others(p.subject[..i], Firsts(pairs))
    && r.missing == Others(p.reference[..j], Seconds(pairs))
  }

  lemma ProgressPair(p: Problem, i: nat, j: nat, pairs: seq<Pair>, r: Result)
    requires Progress(p, i, j, pairs, r) && i < |p.subject| && j < |p.reference| && p.Within(i, j)
    ensures Progress(p, i + 1, j + 1, pairs + [Pair(i, j)],
              r.(matched := r.matched + [(p.subject[i], p.reference[j])]))
  {
    Append(pairs, Pair(i, j));
    OthersStep(p.subject, Firsts(pairs), i);
    OthersStep(p.reference, Seconds(pairs), j);
    assert pairs + p.Greedy(i, j) == pairs + [Pair(i, j)] + p.Greedy(i + 1, j + 1);
  }

  lemma ProgressSkip(p: Problem, i: nat, j: nat, pairs: seq<Pair>, r: Result)
    requires Progress(p, i, j, pairs, r) && i < |p.subject| && j < |p.reference| && !p.Within(i, j)
    ensures if p.Delta(i, j) < 0.0
            then Progress(p, i + 1, j, pairs, r.(extra := r.extra + [p.subject[i]]))
            else Progress(p, i, j + 1, pairs, r.(missing := r.missing + [p.reference[j]]))
  {
    PositionsBelow(pairs, i, j);
    OthersStep(p.subject, Firsts(pairs), i);
    OthersStep(p.reference, Seconds(pairs), j);
  }

  lemma ProgressDone(p: Problem, i: nat, j: nat, pairs: seq<Pair>, r: Result)
    requires Progress(p, i, j, pairs, r) && (i == |p.subject| || j == |p.reference|)
    ensures pairs == p.Greedy(0, 0) && Resolves(p, r.matched, pairs)
    ensures r.extra + p.subject[i..] == Others(p.subject, Firsts(pairs))
    ensures r.missing + p.reference[j..] == Others(p.reference, Seconds(pairs))
  {
    PositionsBelow(pairs, i, j);
    OthersTail(p.subject, Firsts(pairs), i);
    OthersTail(p.reference, Seconds(pairs), j);
  }

  /** What the greedy pairs leave over. */
  lemma GreedyPartitions(p: Problem)
    ensures Rising(p.Greedy(0, 0))
    ensures |p.Greedy(0, 0)| + |Others(p.subject, Firsts(p.Greedy(0, 0)))| == |p.subject|
    ensures |p.Greedy(0, 0)| + |Others(p.reference, Seconds(p.Greedy(0, 0)))| == |p.reference|
  {
    var pairs := p.Greedy(0, 0);
    GreedyRises(p, 0, 0);
    RisingCount(pairs);
    PositionsBelow(pairs, |p.subject|, |p.reference|);
    OthersCount(p.subject, Firsts(pairs));
    OthersCount(p.reference, Seconds(pairs));
  }

  /** `matched` is as long as any pairing can be. */
  ghost predicate Largest(p: Problem, matched: nat) {
    forall pairing :: p.OneToOne(pairing, 0, 0) ==> |pairing| <= matched
  }

  lemma GreedyIsLargest(p: Problem)
    requires p.TimeOrdered()
    ensures Largest(p, |p.Greedy(0, 0)|)
  {
    forall pairing | p.OneToOne(pairing, 0, 0) ensures |pairing| <= |p.Greedy(0, 0)| {
      GreedyIsMaximum(p, pairing, 0, 0);
    }
  }

  /**
   `match`. The returned `pairs` are the positions behind `matched`; they rise
   strictly on both sides, `extra` and `missing` are exactly the other
   positions of the two inputs in order, and on time-ordered inputs the number
   matched is the largest any one-to-one pairing within tolerance can reach.
   */
  method Match(subject: seq<Crossing>, reference: seq<Crossing>, offset: real, tolerance: real)
    returns (result: Result, ghost pairs: seq<Pair>)
    ensures Resolves(Problem(subject, reference, offset, tolerance), result.matched, pairs) && Rising(pairs)
    ensures result.extra == Others(subject, Firsts(pairs))
    ensures result.missing == Others(reference, Seconds(pairs))
    ensures |result.matched| + |result.extra| == |subject| && |result.matched| + |result.missing| == |reference|
    ensures var p := Problem(subject, reference, offset, tolerance);
            p.TimeOrdered() ==> Largest(p, |result.matched|)
  {
    ghost var p := Problem(subject, reference, offset, tolerance);
    result, pairs := Result([], [], []), [];
    var index, anchor := 0, 0;
    while index < |subject| && anchor < |reference|
      invariant Progress(p, index, anchor, pairs, result)
      decreases |subject| - index + |reference| - anchor
    {
      var delta := (subject[index].time - offset) - reference[anchor].time;
      if -tolerance <= delta <= tolerance {
        ProgressPair(p, index, anchor, pairs, result);
        pairs := pairs + [Pair(index, anchor)];
        result := result.(matched := result.matched + [(subject[index], reference[anchor])]);
        index, anchor := index + 1, anchor + 1;
      } else {
        ProgressSkip(p, index, anchor, pairs, result);
        if delta < 0.0 {
          result := result.(extra := result.extra + [subject[index]]);
          index := index + 1;
        } else {
          result := result.(missing := result.missing + [reference[anchor]]);
          anchor := anchor + 1;
        }
      }
    }
    ProgressDone(p, index, anchor, pairs, result);
    result := result.(extra := result.extra + subject[index..], missing := result.missing + reference[anchor..]);
    GreedyPartitions(p);
    if p.TimeOrdered() {
      GreedyIsLargest(p);
    }
  }
}
