/**
 Report-by-exception filtering (`src/core/rbe.py`): which samples of an
 interleaved multi-channel stream go on to batching.

 `Held` reads the filter's memory for one channel off the stream: the latest
 sample of that channel it let through. The theorems are about every stream,
 whatever the other channels do in between.
 */
module Rbe {
  import opened Basics
  import opened Wire

  /** Stamps and intervals are monotonic nanoseconds. */
  datatype Sample = Sample(t: int, value: Value)

  datatype Policy = Policy(deadband: Option<real>, minNs: Option<int>, maxNs: Option<int>) {
    /** What `RbeConfig` accepts. */
    predicate Configured() {
      && (deadband.Some? ==> deadband.value >= 0.0)
      && (minNs.Some? && maxNs.Some? ==> minNs.value <= maxNs.value)
    }
  }

  /** `Failed` is the TypeError a deadband raises on a value that is not a number. */
  datatype Verdict = Accepted | Suppressed | Failed

  function Judge(previous: Option<Sample>, s: Sample, policy: Option<Policy>): Verdict {
    if policy.None? then Accepted
    else
      var p := policy.value;
      if previous.None? then
        if p.deadband.Some? && AsReal(s.value).None? then Failed else Accepted
      else
        var elapsed := s.t - previous.value.t;
        if p.maxNs.Some? && elapsed >= p.maxNs.value then Accepted
        else if p.minNs.Some? && elapsed < p.minNs.value then Suppressed
        else if p.deadband.Some? then
          if AsReal(s.value).None? || AsReal(previous.value.value).None? then Failed
          else if Abs(AsReal(s.value).value - AsReal(previous.value.value).value) <= p.deadband.value then Suppressed
          else Accepted
        else Accepted
  }

  /** One call of `accept`: a mapped sample with the policy of its channel. */
  datatype Observation = Observation(channel: nat, sample: Sample, policy: Option<Policy>)

  /** The last sample of `channel` recorded by the filter after all of `stream`. */
  function Held(stream: seq<Observation>, channel: nat): (h: Option<Sample>)
  {
    if |stream| == 0 then None
    else
      var before, o := stream[..|stream| - 1], stream[|stream| - 1];
      var h := Held(before, channel);
      if o.channel == channel && o.policy.Some? && Judge(h, o.sample, o.policy).Accepted? then Some(o.sample) else h
  }

  /** The verdict on observation `k`. */
  function VerdictOn(stream: seq<Observation>, k: nat): Verdict
    requires k < |stream|
  {
    Judge(Held(stream[..k], stream[k].channel), stream[k].sample, stream[k].policy)
  }

  /** Observation `k` is an accepted one of a filtered channel. */
  ghost predicate Passed(stream: seq<Observation>, channel: nat, k: nat)
    requires k < |stream|
  {
    stream[k].channel == channel && stream[k].policy.Some? && VerdictOn(stream, k).Accepted?
  }

  /** `j` is the last accepted observation of `channel` before `k`. */
  ghost predicate LastAccepted(stream: seq<Observation>, channel: nat, j: nat, k: nat) {
    && j < k <= |stream| && Passed(stream, channel, j)
    && forall i :: j < i < k ==> !Passed(stream, channel, i)
  }

  /** The filter's memory is the last accepted sample of the channel, untouched by the others. */
  lemma {:induction false} HeldIsLastAccepted(stream: seq<Observation>, channel: nat, j: nat, k: nat)
    requires LastAccepted(stream, channel, j, k)
    ensures Held(stream[..k], channel) == Some(stream[j].sample)
    decreases k
  {
    assert stream[..k][..k - 1] == stream[..k - 1];
    assert stream[..k][k - 1] == stream[k - 1];
    if j < k - 1 {
      assert !Passed(stream, channel, k - 1);
      HeldIsLastAccepted(stream, channel, j, k - 1);
    }
  }

  /** Before the first accepted observation of the channel nothing is held. */
  lemma {:induction false} NothingHeld(stream: seq<Observation>, channel: nat, k: nat)
    requires k <= |stream| && forall i :: 0 <= i < k ==> !Passed(stream, channel, i)
    ensures Held(stream[..k], channel) == None
  {
    if k > 0 {
      assert stream[..k][..k - 1] == stream[..k - 1];
      assert stream[..k][k - 1] == stream[k - 1];
      assert !Passed(stream, channel, k - 1);
      NothingHeld(stream, channel, k - 1);
    }
  }

  ghost predicate Numeric(v: Value) { v.Real? || v.Integer? }

  /** Both values are numbers, and they differ by no more than `band`. */
  ghost predicate WithinBand(a: Value, b: Value, band: real) {
    match (a, b)
    case (Real(x), Real(y)) => -band <= x - y <= band
    case (Real(x), Integer(y)) => -band <= x - y as real <= band
    case (Integer(x), Real(y)) => -band <= x as real - y <= band
    case (Integer(x), Integer(y)) => -band <= x as real - y as real <= band
    case _ => false
  }

  /** So long after the last accepted sample that nothing holds this one back. */
  ghost predicate Overdue(p: Policy, elapsed: int) { p.maxNs.Some? && elapsed >= p.maxNs.value }

  ghost predicate TooSoon(p: Policy, elapsed: int) { p.minNs.Some? && elapsed < p.minNs.value }

  /**
   The exact verdict, over every stream, on observation `k` of a filtered
   channel whose last accepted observation is `j`: suppressed if and only if it
   is not overdue and either too soon or within the deadband of what was
   accepted; an error if and only if the deadband has to be consulted and one
   of the two values is not a number; accepted in every other case.
   */
  lemma FilterHolds(stream: seq<Observation>, j: nat, k: nat)
    requires k < |stream| && stream[k].policy.Some?
    requires LastAccepted(stream, stream[k].channel, j, k)
    ensures var p, elapsed := stream[k].policy.value, stream[k].sample.t - stream[j].sample.t;
            var before, now := stream[j].sample.value, stream[k].sample.value;
            && (VerdictOn(stream, k).Suppressed? <==>
                  !Overdue(p, elapsed) &&
                  (TooSoon(p, elapsed) || (p.deadband.Some? && WithinBand(now, before, p.deadband.value))))
            && (VerdictOn(stream, k).Failed? <==>
                  !Overdue(p, elapsed) && !TooSoon(p, elapsed) && p.deadband.Some? && !(Numeric(now) && Numeric(before)))
  {
    HeldIsLastAccepted(stream, stream[k].channel, j, k);
  }

  /** The first observation of a channel to get through is never suppressed, and refused only by a deadband it cannot be held against. */
  lemma FirstIsNeverSuppressed(stream: seq<Observation>, k: nat)
    requires k < |stream| && forall i :: 0 <= i < k ==> !Passed(stream, stream[k].channel, i)
    ensures !VerdictOn(stream, k).Suppressed?
    ensures VerdictOn(stream, k).Failed? <==>
            stream[k].policy.Some? && stream[k].policy.value.deadband.Some? && !Numeric(stream[k].sample.value)
  {
    NothingHeld(stream, stream[k].channel, k);
  }

  /** What the configuration promises: accepted samples are at least the minimum interval apart. */
  lemma AcceptedAreSpaced(stream: seq<Observation>, j: nat, k: nat)
    requires k < |stream| && stream[k].policy.Some? && stream[k].policy.value.Configured()
    requires LastAccepted(stream, stream[k].channel, j, k)
    requires VerdictOn(stream, k).Accepted? && stream[k].policy.value.minNs.Some?
    ensures stream[k].sample.t - stream[j].sample.t >= stream[k].policy.value.minNs.value
  {
    FilterHolds(stream, j, k);
  }

  function Lookup(state: map<nat, Sample>, channel: nat): Option<Sample> {
    if channel in state then Some(state[channel]) else None
  }

  /** The dictionary holds, channel by channel, what the stream says is held. */
  ghost predicate Remembers(state: map<nat, Sample>, stream: seq<Observation>) {
    forall channel: nat :: Lookup(state, channel) == Held(stream, channel)
  }

  lemma RemembersOneMore(state: map<nat, Sample>, stream: seq<Observation>, o: Observation, state': map<nat, Sample>)
    requires Remembers(state, stream)
    requires state' ==
             if o.policy.Some? && Judge(Lookup(state, o.channel), o.sample, o.policy).Accepted? then state[o.channel := o.sample]
             else state
    ensures Remembers(state', stream + [o])
    ensures VerdictOn(stream + [o], |stream|) == Judge(Lookup(state, o.channel), o.sample, o.policy)
  {
    assert (stream + [o])[..|stream|] == stream;
    assert Lookup(state, o.channel) == Held(stream, o.channel);
    forall channel: nat ensures Lookup(state', channel) == Held(stream + [o], channel) {
      assert Lookup(state, channel) == Held(stream, channel);
    }
  }

  /** The filter object: `_state` and the suppression counter; `stream` is every call so far. */
  class RbeFilter {
    var state: map<nat, Sample>
    var suppressed: nat
    ghost var stream: seq<Observation>

    ghost predicate Valid() reads this { Remembers(state, stream) }

    constructor ()
      ensures Valid() && stream == [] && suppressed == 0
    {
      state, suppressed, stream := map[], 0, [];
    }

    /** `accept`: the verdict is the stream's on this call, and only a suppressed sample is counted. */
    method Accept(channel: nat, s: Sample, policy: Option<Policy>) returns (v: Verdict)
      requires Valid()
      modifies this
      ensures Valid() && stream == old(stream) + [Observation(channel, s, policy)]
      ensures v == VerdictOn(stream, |old(stream)|)
      ensures suppressed == old(suppressed) + if v.Suppressed? then 1 else 0
    {
      v := Decide(channel, s, policy);
      RemembersOneMore(old(state), stream, Observation(channel, s, policy), state);
      stream := stream + [Observation(channel, s, policy)];
    }

    /** The body of `accept`. */
    method Decide(channel: nat, s: Sample, policy: Option<Policy>) returns (v: Verdict)
      modifies this`state, this`suppressed
      ensures v == Judge(Lookup(old(state), channel), s, policy)
      ensures state == if policy.Some? && v.Accepted? then old(state)[channel := s] else old(state)
      ensures suppressed == old(suppressed) + if v.Suppressed? then 1 else 0
    {
      if policy.None? {
        return Accepted;
      }
      var p := policy.value;
      if channel !in state {
        if p.deadband.Some? && AsReal(s.value).None? {
          return Failed;
        }
        state := state[channel := s];
        return Accepted;
      }
      var previous := state[channel];
      var elapsed := s.t - previous.t;
      if p.maxNs.Some? && elapsed >= p.maxNs.value {
        state := state[channel := s];
        return Accepted;
      }
      if p.minNs.Some? && elapsed < p.minNs.value {
        suppressed := suppressed + 1;
        return Suppressed;
      }
      if p.deadband.Some? {
        if AsReal(s.value).None? || AsReal(previous.value).None? {
          return Failed;
        }
        if Abs(AsReal(s.value).value - AsReal(previous.value).value) <= p.deadband.value {
          suppressed := suppressed + 1;
          return Suppressed;
        }
      }
      state := state[channel := s];
      return Accepted;
    }
  }
}
