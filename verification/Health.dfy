/** Post-deployment health coverage (src/gitops/qualified_deployment.rs). */
module Health {
  import opened Outcomes

  type U64 = n: int | 0 <= n <= 0xFFFF_FFFF_FFFF_FFFF

  const U64_MAX: int := 0xFFFF_FFFF_FFFF_FFFF
  const MAX_SAMPLES: nat := 10000

  datatype Policy = Policy(window: U64, maxGap: U64, maxAge: U64)

  datatype Sample = Sample(at: U64, gatus: bool, prometheus: bool)

  datatype QualificationError = InvalidPolicy | IncompleteHealth | NotCurrent

  predicate ValidLimits(p: Policy) {
    60 <= p.window <= 86400 && 1 <= p.maxGap <= p.window && 1 <= p.maxAge <= 604800
  }

  function CheckedAdd(a: U64, b: U64): Option<U64> {
    if a + b <= U64_MAX then Some(a + b) else None
  }

  /** One sample continues the chain from the previous one. */
  predicate Continues(p: Policy, previous: U64, s: Sample, lastAllowed: U64, now: U64) {
    s.gatus && s.prometheus && previous < s.at <= lastAllowed && s.at <= now && s.at - previous <= p.maxGap
  }

  /** Where the chain of samples ends, if none breaks it. */
  function Chain(p: Policy, previous: U64, samples: seq<Sample>, lastAllowed: U64, now: U64): Option<U64>
    decreases |samples|
  {
    if samples == [] then Some(previous)
    else if !Continues(p, previous, samples[0], lastAllowed, now) then None
    else Chain(p, samples[0].at, samples[1..], lastAllowed, now)
  }

  function Assessed(p: Policy, completed: U64, now: U64, samples: seq<Sample>): Result<(), QualificationError> {
    if !ValidLimits(p) then Err(InvalidPolicy) else
    match CheckedAdd(completed, p.window)
    case None => Err(InvalidPolicy)
    case Some(end) =>
      match CheckedAdd(end, p.maxGap)
      case None => Err(InvalidPolicy)
      case Some(lastAllowed) =>
        if now < end || now - end > p.maxAge then Err(NotCurrent)
        else if samples == [] || |samples| > MAX_SAMPLES then Err(IncompleteHealth)
        else
          match Chain(p, completed, samples, lastAllowed, now)
          case None => Err(IncompleteHealth)
          case Some(last) => if last < end then Err(IncompleteHealth) else Ok(())
  }

  /** `assess_health`. Every difference is of 64-bit values, so no subtraction underflows. */
  method AssessHealth(p: Policy, completed: U64, now: U64, samples: seq<Sample>) returns (r: Result<(), QualificationError>)
    ensures r == Assessed(p, completed, now, samples)
  {
    if !ValidLimits(p) { return Err(InvalidPolicy); }
    var end := CheckedAdd(completed, p.window);
    if end.None? { return Err(InvalidPolicy); }
    var lastAllowed := CheckedAdd(end.value, p.maxGap);
    if lastAllowed.None? { return Err(InvalidPolicy); }
    if now < end.value { return Err(NotCurrent); }
    var age: U64 := now - end.value;
    if age > p.maxAge { return Err(NotCurrent); }
    if samples == [] || |samples| > MAX_SAMPLES { return Err(IncompleteHealth); }
    var previous := completed;
    for i := 0 to |samples|
      invariant Chain(p, completed, samples, lastAllowed.value, now) == Chain(p, previous, samples[i..], lastAllowed.value, now)
    {
      var s := samples[i];
      if !s.gatus || !s.prometheus || s.at <= previous || s.at > lastAllowed.value || s.at > now {
        return Err(IncompleteHealth);
      }
      var gap: U64 := s.at - previous;
      if gap > p.maxGap { return Err(IncompleteHealth); }
      previous := s.at;
    }
    if previous < end.value { return Err(IncompleteHealth); }
    return Ok(());
  }

  // ---- What acceptance means ----

  /** Strictly later than the start, in strictly increasing order. */
  ghost predicate Ordered(start: int, samples: seq<Sample>) {
    (forall i | 0 <= i < |samples| :: start < samples[i].at) && (forall i, j | 0 <= i < j < |samples| :: samples[i].at < samples[j].at)
  }

  ghost predicate AllHealthy(samples: seq<Sample>) {
    forall i | 0 <= i < |samples| :: samples[i].gatus && samples[i].prometheus
  }

  /** Some sample falls in (t, t + gap]. */
  ghost predicate SeenSoon(samples: seq<Sample>, t: int, gap: int) {
    exists i :: 0 <= i < |samples| && t < samples[i].at <= t + gap
  }

  /** Every instant of [from, to) is followed by a sample within the gap. */
  ghost predicate Covered(samples: seq<Sample>, from: int, to: int, gap: int) {
    forall t | from <= t < to :: SeenSoon(samples, t, gap)
  }

  /** The part of the evidence no clock decides. */
  ghost predicate Evidence(p: Policy, completed: U64, samples: seq<Sample>) {
    && 60 <= p.window <= 86400 && 1 <= p.maxGap <= p.window && 1 <= p.maxAge <= 604800
    && completed + p.window + p.maxGap <= 0xFFFF_FFFF_FFFF_FFFF
    && 0 < |samples| <= 10000 && AllHealthy(samples) && Ordered(completed, samples)
    && samples[|samples| - 1].at <= completed + p.window + p.maxGap
    && Covered(samples, completed, completed + p.window, p.maxGap)
  }

  /** The time before the i-th sample. */
  function Before(start: int, samples: seq<Sample>, i: int): int
    requires 0 <= i <= |samples|
  {
    if i == 0 then start else samples[i - 1].at
  }

  /** The chain as a statement about the samples' positions. */
  ghost predicate Linked(p: Policy, previous: int, samples: seq<Sample>, limit: int) {
    && AllHealthy(samples) && Ordered(previous, samples)
    && (forall i | 0 <= i < |samples| :: samples[i].at <= limit)
    && (forall i | 0 <= i < |samples| :: samples[i].at - Before(previous, samples, i) <= p.maxGap)
  }

  lemma {:induction false} ChainLinks(p: Policy, previous: U64, samples: seq<Sample>, lastAllowed: U64, now: U64)
    ensures Chain(p, previous, samples, lastAllowed, now)
            == if Linked(p, previous, samples, if lastAllowed < now then lastAllowed else now)
            then Some(if samples == [] then previous else samples[|samples| - 1].at) else None
    decreases |samples|
  {
    if samples != [] {
      ChainLinks(p, samples[0].at, samples[1..], lastAllowed, now);
      LinkedSplits(p, previous, samples, if lastAllowed < now then lastAllowed else now);
    }
  }

  lemma LinkedSplits(p: Policy, previous: U64, samples: seq<Sample>, limit: int)
    requires samples != []
    ensures Linked(p, previous, samples, limit) <==>
            var s := samples[0];
            s.gatus && s.prometheus && previous < s.at <= limit && s.at - previous <= p.maxGap && Linked(p, s.at, samples[1..], limit)
  {
    var s, rest := samples[0], samples[1..];
    if s.gatus && s.prometheus && previous < s.at <= limit && s.at - previous <= p.maxGap && Linked(p, s.at, rest, limit) {
      forall i | 0 <= i < |samples|
        ensures samples[i].gatus && samples[i].prometheus && previous < samples[i].at <= limit
        ensures samples[i].at - Before(previous, samples, i) <= p.maxGap
        ensures i > 0 ==> s.at < samples[i].at
      {
        if i > 0 {
          assert samples[i] == rest[i - 1];
          assert Before(previous, samples, i) == Before(s.at, rest, i - 1);
        }
      }
      forall i, j | 0 <= i < j < |samples| ensures samples[i].at < samples[j].at {
        assert samples[j] == rest[j - 1];
        assert i > 0 ==> samples[i] == rest[i - 1];
      }
    }
    if Linked(p, previous, samples, limit) {
      assert s.at - Before(previous, samples, 0) <= p.maxGap;
      forall i | 0 <= i < |rest|
        ensures rest[i].gatus && rest[i].prometheus && s.at < rest[i].at <= limit
        ensures rest[i].at - Before(s.at, rest, i) <= p.maxGap
      {
        assert rest[i] == samples[i + 1];
        assert Before(s.at, rest, i) == Before(previous, samples, i + 1);
      }
    }
  }

  /** Small gaps cover the window: the first sample after an instant is within one gap of it. */
  lemma {:induction false} LinkedCovers(p: Policy, previous: int, samples: seq<Sample>, limit: int, t: int)
    requires Linked(p, previous, samples, limit) && samples != [] && previous <= t < samples[|samples| - 1].at
    ensures SeenSoon(samples, t, p.maxGap)
  {
    var i := FirstAfter(samples, t, 0);
    assert samples[i].at - Before(previous, samples, i) <= p.maxGap;
  }

  lemma FirstAfter(samples: seq<Sample>, t: int, from: nat) returns (i: nat)
    requires from < |samples| && t < samples[|samples| - 1].at && (from > 0 ==> samples[from - 1].at <= t)
    ensures from <= i < |samples| && t < samples[i].at && (i > 0 ==> samples[i - 1].at <= t)
    decreases |samples| - from
  {
    if t < samples[from].at {
      i := from;
    } else {
      i := FirstAfter(samples, t, from + 1);
    }
  }

  /** A covered window has no large gap: past its end the last allowed time bounds them. */
  lemma CoveredLinks(p: Policy, start: int, end: int, samples: seq<Sample>, i: nat)
    requires Ordered(start, samples) && Covered(samples, start, end, p.maxGap) && i < |samples|
    requires samples[|samples| - 1].at <= end + p.maxGap
    ensures samples[i].at <= end + p.maxGap
    ensures samples[i].at - Before(start, samples, i) <= p.maxGap
  {
    assert i < |samples| - 1 ==> samples[i].at < samples[|samples| - 1].at;
    var previous := if i == 0 then start else samples[i - 1].at;
    if previous < end {
      assert SeenSoon(samples, previous, p.maxGap);
      var j :| 0 <= j < |samples| && previous < samples[j].at <= previous + p.maxGap;
      assert forall k | i < k < |samples| :: samples[i].at < samples[k].at;
      assert forall k | 0 <= k < i :: samples[k].at <= previous;
    }
  }

  /** In a covered window some sample comes no earlier than its end. */
  lemma CoveredReachesEnd(samples: seq<Sample>, start: int, end: int, gap: int)
    requires Ordered(start, samples) && Covered(samples, start, end, gap) && start < end
    ensures samples != [] && samples[|samples| - 1].at >= end
  {
    assert SeenSoon(samples, end - 1, gap);
    var i :| 0 <= i < |samples| && end - 1 < samples[i].at <= end - 1 + gap;
    assert i < |samples| - 1 ==> samples[i].at < samples[|samples| - 1].at;
  }

  /**
   Coverage, exactly: a deployment is accepted at `now` if and only if its evidence is ordered,
   healthy and covers every instant of the window, and `now` lies between the later of the window's
   end and the last sample and the end plus the maximal age: one interval of accepting times.
   */
  lemma AcceptedExactly(p: Policy, completed: U64, now: U64, samples: seq<Sample>)
    ensures Assessed(p, completed, now, samples).Ok? <==>
            && Evidence(p, completed, samples)
            && var end, last := completed + p.window, samples[|samples| - 1].at;
            (if end < last then last else end) <= now <= end + p.maxAge
  {
    hide Chain, Linked, Covered, Ordered, AllHealthy;
    var end := completed + p.window;
    if ValidLimits(p) && end + p.maxGap <= U64_MAX {
      ChainLinks(p, completed, samples, end + p.maxGap, now);
      var limit := if end + p.maxGap < now then end + p.maxGap else now;
      if samples != [] && Linked(p, completed, samples, limit) && samples[|samples| - 1].at >= end {
        LinkedIsEvidence(p, completed, end, samples, limit);
      }
      if Evidence(p, completed, samples) && samples[|samples| - 1].at <= now {
        CoveredReachesEnd(samples, completed, end, p.maxGap);
        EvidenceIsLinked(p, completed, end, samples, limit);
      }
    }
  }

  lemma LinkedIsEvidence(p: Policy, completed: int, end: int, samples: seq<Sample>, limit: int)
    requires Linked(p, completed, samples, limit) && samples != [] && samples[|samples| - 1].at >= end
    ensures AllHealthy(samples) && Ordered(completed, samples) && samples[|samples| - 1].at <= limit
    ensures Covered(samples, completed, end, p.maxGap)
  {
    forall t | completed <= t < end ensures SeenSoon(samples, t, p.maxGap) {
      LinkedCovers(p, completed, samples, limit, t);
    }
  }

  lemma EvidenceIsLinked(p: Policy, completed: int, end: int, samples: seq<Sample>, limit: int)
    requires samples != [] && AllHealthy(samples) && Ordered(completed, samples) && Covered(samples, completed, end, p.maxGap)
    requires samples[|samples| - 1].at <= limit && samples[|samples| - 1].at <= end + p.maxGap
    ensures Linked(p, completed, samples, limit)
  {
    hide Covered;
    forall i | 0 <= i < |samples|
      ensures samples[i].at <= limit && samples[i].at - Before(completed, samples, i) <= p.maxGap
    {
      CoveredLinks(p, completed, end, samples, i);
      assert i < |samples| - 1 ==> samples[i].at < samples[|samples| - 1].at;
    }
  }

  /** Which error refuses: the limits come first, then the clock, and the evidence is looked at last. */
  lemma RefusedExactly(p: Policy, completed: U64, now: U64, samples: seq<Sample>)
    ensures var (r, end) := (Assessed(p, completed, now, samples), completed + p.window);
            var limits := && 60 <= p.window <= 86400 && 1 <= p.maxGap <= p.window && 1 <= p.maxAge <= 604800
                          && end + p.maxGap <= 0xFFFF_FFFF_FFFF_FFFF;
            && (r == Err(InvalidPolicy) <==> !limits)
            && (r == Err(NotCurrent) <==> limits && !(end <= now <= end + p.maxAge))
            && (r == Err(IncompleteHealth) <==>
                  limits && end <= now <= end + p.maxAge && !(Evidence(p, completed, samples) && samples[|samples| - 1].at <= now))
  {
    hide Chain;
    AcceptedExactly(p, completed, now, samples);
  }
}
