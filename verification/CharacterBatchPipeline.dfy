/**
 The batch driver of app/analysis/character_fact_comparison_pipeline.py: split a
 long candidate list into fitting segments, compare each, halve on truncation,
 salvage or retry one by one on a validation failure, and project what was decided.

 Token counting and the provider are arbitrary functions, and every call and every count
 that fails is written to a ghost log.
 */
module CharacterBatchPipeline {
  import opened Options
  import opened Sequences
  import opened CharacterProjection
  import opened CharacterDependencies
  import opened CharacterComparator
  import opened CharacterBatchReports
  import opened CharacterBatchPlan

  // ----- the longest fitting prefix -------------------------------------------

  function Pow2(n: nat): nat {
    if n == 0 then 1 else 2 * Pow2(n - 1)
  }

  ghost predicate PrefixMonotone(fits: nat -> bool, n: nat) {
    forall i, j :: 0 < i <= j <= n && fits(j) ==> fits(i)
  }

  lemma HalvingIsLogarithmic(checks: nat, before: nat, after: nat, bound: nat)
    requires Pow2(checks) * before <= bound && 0 < before && 2 * after <= before
    ensures Pow2(checks + 1) * after <= bound && Pow2(checks) <= bound
  {
    var q := Pow2(checks);
    assert q * (2 * after) <= q * before;
    assert q * 1 <= q * before;
    assert q * (2 * after) == 2 * q * after;
  }

  /** Binary search for a fitting prefix of n remaining candidates.  Nothing but
      fitting prefixes is returned; when fitting is monotone it is the longest one.
      At most two plus log2(n - 1) prefixes are counted. */
  method LargestFittingSegment(n: nat, fits: nat -> bool) returns (k: nat, checks: nat)
    requires n > 0
    ensures k <= n && (k > 0 ==> fits(k)) && (fits(n) ==> k == n) && (fits(1) ==> k > 0)
    ensures PrefixMonotone(fits, n) ==> forall j :: k < j <= n ==> !fits(j)
    ensures checks <= 1 || Pow2(checks - 2) <= n - 1
  {
    checks := 1;
    if fits(n) {
      return n, checks;
    }
    var low, high := 0, n - 1;
    while low < high
      invariant 0 <= low <= high < n && checks >= 1
      invariant (low > 0 ==> fits(low)) && (fits(1) ==> high > 0)
      invariant PrefixMonotone(fits, n) ==> forall j :: high < j <= n ==> !fits(j)
      invariant Pow2(checks - 1) * (high - low) <= n - 1
      invariant checks == 1 || Pow2(checks - 2) <= n - 1
    {
      var middle := (low + high + 1) / 2;
      ghost var width := high - low;
      if fits(middle) {
        low := middle;
      } else {
        high := middle - 1;
      }
      HalvingIsLogarithmic(checks - 1, width, high - low, n - 1);
      checks := checks + 1;
    }
    k := low;
  }

  // The report so far: an accepted run that covers the first k candidates, with its grounds.
  ghost predicate Reporting(g: Setting, initial: Snapshot, s: Snapshot, k: nat, rs: seq<Reported>,
                            failures: seq<CandidateRef>, log: seq<Event>)
    requires k <= |g.candidates|
  {
    && Progress(g.policy, initial, s, g.candidates, k, rs, failures) && Justified(g, initial, rs, failures, log)
    && Planned(g, initial, rs, log)
  }

  ghost predicate InOrder(g: Setting) {
    Ascending(CandidateRefs(g.candidates))
  }

  lemma StateNow(g: Setting, initial: Snapshot, s: Snapshot, k: nat, rs: seq<Reported>, failures: seq<CandidateRef>,
                 log: seq<Event>)
    requires k <= |g.candidates| && Reporting(g, initial, s, k, rs, failures, log)
    ensures StateAfter(g, initial, rs, |rs|) == s
  {
    hide Covers, Justified, Planned;
    assert rs[..|rs|] == rs;
  }

  // Something happens in front of candidate k.
  lemma ReportEvent(g: Setting, initial: Snapshot, s: Snapshot, k: nat, rs: seq<Reported>, failures: seq<CandidateRef>,
                    log: seq<Event>, e: Event)
    requires k < |g.candidates| && Reporting(g, initial, s, k, rs, failures, log) && e.made == |rs| && e.at == k
    requires (e.Asked? ==> k < e.end <= |g.candidates|) && WellGrounded(g, initial, rs, log, e)
    ensures Reporting(g, initial, s, k, rs, failures, log + [e])
    ensures Calls(log + [e]) == Calls(log) + if e.Asked? then 1 else 0
  {
    hide Justified, Covers, IsRun, Coherent, FreshFor, Calls, WellGrounded, Planned;
    PlannedMore(g, initial, rs, log, e);
    EventIsJustified(g, initial, rs, failures, log, e);
    CallsOneMore(log, e);
  }

  // Candidate k is decided as an earlier call offered.
  lemma ReportDecided(g: Setting, initial: Snapshot, s: Snapshot, k: nat, rs: seq<Reported>,
                      failures: seq<CandidateRef>, log: seq<Event>, d: Decision, e: Event)
    requires InOrder(g) && k < |g.candidates| && Reporting(g, initial, s, k, rs, failures, log)
    requires Step(g.policy, s, g.candidates[k], d).1.Applied?
    requires e in log && e.Asked? && e.made <= |rs| && e.at <= k < e.end <= |g.candidates|
    requires Offers(Heard(g, StateAfter(g, initial, rs, e.made), g.candidates[e.at..e.end]), k - e.at, d)
    ensures var (s', o) := Step(g.policy, s, g.candidates[k], d);
      Reporting(g, initial, s', k + 1, rs + [Reported(g.candidates[k], d, o.dependencies)], failures, log)
  {
    hide Step, Progress, Justified, Offers, Heard, StateAfter, Planned;
    StillPlanned(g, initial, rs, Reported(g.candidates[k], d, Step(g.policy, s, g.candidates[k], d).1.dependencies),
      log);
    ProgressDecided(g.policy, initial, s, g.candidates, k, rs, failures, d);
    DecisionIsJustified(g, initial, rs, failures, log,
      Reported(g.candidates[k], d, Step(g.policy, s, g.candidates[k], d).1.dependencies), e, k);
  }

  lemma ReportFailed(g: Setting, initial: Snapshot, s: Snapshot, k: nat, rs: seq<Reported>, failures: seq<CandidateRef>,
                     log: seq<Event>, e: Event)
    requires k < |g.candidates| && Reporting(g, initial, s, k, rs, failures, log)
    requires e in log && e.made == |rs| && Hopeless(g, s, e, k)
    ensures Reporting(g, initial, s, k + 1, rs, failures + [g.candidates[k].index], log)
  {
    StateNow(g, initial, s, k, rs, failures, log);
    hide Justified, Hopeless, Covers, Coherent, Planned;
    ProgressFailed(g.policy, initial, s, g.candidates, k, rs, failures);
    FailureIsJustified(g, initial, rs, failures, log, e, k);
  }

  /** Failing candidates start..end, which one event leaves without a decision, without
      touching the projection. */
  method FailRange(g: Setting, start: nat, end: nat, failures: seq<CandidateRef>, ghost initial: Snapshot,
                   ghost s: Snapshot, ghost rs: seq<Reported>, ghost log: seq<Event>, ghost e: Event)
    returns (extended: seq<CandidateRef>)
    requires start <= end <= |g.candidates| && Reporting(g, initial, s, start, rs, failures, log)
    requires e in log && e.made == |rs| && forall j: nat | start <= j < end :: Hopeless(g, s, e, j)
    ensures Reporting(g, initial, s, end, rs, extended, log)
      && extended == failures + CandidateRefs(g.candidates[start..end])
  {
    hide Reporting, Hopeless;
    extended := failures;
    for i := start to end
      invariant Reporting(g, initial, s, i, rs, extended, log)
        && extended == failures + CandidateRefs(g.candidates[start..i])
    {
      ReportFailed(g, initial, s, i, rs, extended, log, e);
      extended := extended + [g.candidates[i].index];
    }
  }

  /** Applying a whole validated segment: no call of apply is refused, and every candidate
      gets the decision that its call offered. */
  method ApplySegment(g: Setting, state: CharacterProjectionState, start: nat, ds: seq<Decision>, rs: seq<Reported>,
                      ghost failures: seq<CandidateRef>, ghost initial: Snapshot, ghost log: seq<Event>)
    returns (extended: seq<Reported>)
    requires state.policy == g.policy && start + |ds| <= |g.candidates| && InOrder(g)
    requires Reporting(g, initial, state.Value(), start, rs, failures, log)
      && Asked(|rs|, start, start + |ds|, Whole) in log
    requires AppliesInOrder(g.policy, state.Value(), g.candidates[start..start + |ds|], ds)
    requires Heard(g, state.Value(), g.candidates[start..start + |ds|]) == Compared(ds)
    modifies state
    ensures Reporting(g, initial, state.Value(), start + |ds|, extended, failures, log)
  {
    hide Reporting, Step, InOrder, Heard, StateAfter;
    extended := rs;
    ghost var segment := g.candidates[start..start + |ds|];
    assert segment[0..] == segment && ds[0..] == ds;
    StateNow(g, initial, state.Value(), start, rs, failures, log);
    for i := 0 to |ds|
      invariant Reporting(g, initial, state.Value(), start + i, extended, failures, log) && rs <= extended
      invariant Heard(g, StateAfter(g, initial, extended, |rs|), segment) == Compared(ds)
      invariant AppliesInOrder(g.policy, state.Value(), segment[i..], ds[i..])
    {
      var c := g.candidates[start + i];
      assert segment[i..][0] == c && segment[i..][1..] == segment[i + 1..] && ds[i..][1..] == ds[i + 1..];
      ReportDecided(g, initial, state.Value(), start + i, extended, failures, log, ds[i],
        Asked(|rs|, start, start + |ds|, Whole));
      var o := state.Apply(c, ds[i]);
      StateAfterPrefix(g, initial, extended, Reported(c, ds[i], o.dependencies), |rs|);
      extended := extended + [Reported(c, ds[i], o.dependencies)];
    }
  }

  // The retained decisions still to come: none, or the rest of a salvage that the
  // caller's state has tracked so far.
  ghost predicate SalvagePending(p: Policy, r: Snapshot, s: Snapshot, segment: seq<Candidate>,
                                 rows: seq<Option<Decision>>, b: Blocked, retained: seq<Option<Decision>>)
    requires |rows| == |retained| == |segment|
  {
    || retained == Nothing(|segment|)
    || (Coherent(r) && Coherent(s) && Ready(r, s, segment, b, false) && retained == Salvaged(p, r, segment, rows, b))
  }

  lemma PendingAfterSalvage(p: Policy, r: Snapshot, s: Snapshot, segment: seq<Candidate>, rows: seq<Option<Decision>>,
                            b: Blocked, retained: seq<Option<Decision>>)
    requires |rows| == |retained| == |segment| > 0 && SalvagePending(p, r, s, segment, rows, b, retained)
    requires retained[0].Some?
    ensures var c, d := segment[0], retained[0].value;
      && Step(p, s, c, d).1.Applied?
      && SalvagePending(p, Step(p, r, c, d).0, Step(p, s, c, d).0, segment[1..], rows[1..], b, retained[1..])
  {
    hide Step, Ready, Coherent, RowOk, Normalized;
    SalvagedFront(p, r, s, segment, rows[0], b, false);
  }

  lemma PendingAfterRetry(p: Policy, r: Snapshot, s: Snapshot, segment: seq<Candidate>, rows: seq<Option<Decision>>,
                          b: Blocked, retained: seq<Option<Decision>>, retry: Option<Decision>)
    requires |rows| == |retained| == |segment| > 0 && SalvagePending(p, r, s, segment, rows, b, retained)
    requires retained[0].None? && RetryOk(p, s, segment[0], retry)
    ensures SalvagePending(p, r, AfterRetry(p, s, segment[0], retry), segment[1..], rows[1..],
                           if Skips(b, segment[0]) then b else AfterFailure(b, segment[0]), retained[1..])
  {
    hide Step, Ready, Coherent, RowOk, Normalized, RetryOk, AfterRetry;
    if retained == Nothing(|segment|) {
      assert retained[1..] == Nothing(|segment| - 1);
    } else {
      RetriedFront(p, r, s, segment, b, retry, false);
    }
  }

  lemma SingletonIsRetry(p: Policy, s: Snapshot, c: Candidate, ordered: bool, reply: Reply)
    requires Coherent(s) && Projected(c.index) !in s.entries
    requires Verdict(p, Throwaway(s), [c], ordered, reply).Compared?
    ensures var d := Verdict(p, Throwaway(s), [c], ordered, reply).decisions[0];
      && RetryOk(p, s, c, Some(d)) && Step(p, s, c, d).1.Applied?
      && AfterRetry(p, s, c, Some(d)) == Step(p, s, c, d).0
  {
    hide Step;
    var t, ds := Throwaway(s), Verdict(p, Throwaway(s), [c], ordered, reply).decisions;
    var raw := Given([c], reply);
    ThrowawayKeepsFacts(s);
    StepIsAtomic(p, t, c, raw[0]);
    NormalizationIsHarmless(p, t, c, raw[0], t.entries);
    StepIsAtomic(p, s, c, ds[0]);
  }

  datatype RetryOutcome = RetryDecided(decision: Decision) | RetryFailed(tooLarge: bool) | RetryEscaped

  // One retry of a candidate alone: whatever is not accepted fails the candidate, except
  // that a foreign failure leaves the driver.
  method RetryOne(g: Setting, state: CharacterProjectionState, c: Candidate) returns (r: RetryOutcome)
    requires state.policy == g.policy && Coherent(state.Value()) && Projected(c.index) !in state.entriesByRef
    ensures r == match Heard(g, state.Value(), [c])
      case Compared(ds) => RetryDecided(ds[0])
      case Invalid(_, tooLarge) => RetryFailed(tooLarge)
      case CutOff => RetryFailed(false)
      case Faulted => RetryFailed(false)
      case Escaped => RetryEscaped
    ensures r.RetryDecided? ==>
      && RetryOk(g.policy, state.Value(), c, Some(r.decision))
        && Step(g.policy, state.Value(), c, r.decision).1.Applied?
      && AfterRetry(g.policy, state.Value(), c, Some(r.decision)) == Step(g.policy, state.Value(), c, r.decision).0
  {
    hide Step, RetryOk, AfterRetry, Verdict;
    var entries := state.ListEntries();
    var reply := g.world.reply(state.entriesByRef, [c]);
    var comparison := CompareBatch(g.policy, entries, [c], g.ordered, reply);
    match comparison
    case Compared(ds) =>
      SingletonIsRetry(g.policy, state.Value(), c, g.ordered, reply);
      r := RetryDecided(ds[0]);
    case Invalid(_, tooLarge) => r := RetryFailed(tooLarge);
    case CutOff => r := RetryFailed(false);
    case Faulted => r := RetryFailed(false);
    case Escaped => r := RetryEscaped;
  }

  // A call that ends with a failure beyond its candidates.
  ghost predicate Aborts(g: Setting, s: Snapshot, cs: seq<Candidate>) {
    Heard(g, s, cs).Escaped? || Heard(g, s, cs).Faulted?
  }

  // The last thing that happened was a call that ends with such a failure.
  ghost predicate EndsInAbort(g: Setting, initial: Snapshot, rs: seq<Reported>, log: seq<Event>) {
    && log != []
    && var e := log[|log| - 1];
       && e.Asked? && e.made <= |rs| && e.at < e.end <= |g.candidates|
       && Aborts(g, StateAfter(g, initial, rs, e.made), g.candidates[e.at..e.end])
  }

  ghost predicate Unretained(g: Setting, start: nat, retained: seq<Option<Decision>>, met: nat, a: CandidateRef, j: nat)
  {
    && start <= j < |g.candidates| && g.candidates[j].index == a
    && (start + met <= j || (j < start + |retained| && retained[j - start].None?))
  }

  // Of the first candidates, only those without a retained decision are lost.
  ghost predicate LosesUnretained(g: Setting, start: nat, retained: seq<Option<Decision>>, met: nat,
                                  lost: seq<CandidateRef>)
  {
    forall a | a in lost :: exists j :: Unretained(g, start, retained, met, a, j)
  }

  lemma LosesOneMore(g: Setting, start: nat, retained: seq<Option<Decision>>, i: nat, lost: seq<CandidateRef>)
    requires i < |retained| && start + |retained| <= |g.candidates| && retained[i].None?
    requires LosesUnretained(g, start, retained, |retained|, lost)
    ensures LosesUnretained(g, start, retained, |retained|, lost + [g.candidates[start + i].index])
  {
    assert Unretained(g, start, retained, |retained|, g.candidates[start + i].index, start + i);
  }

  lemma LosesTheRest(g: Setting, start: nat, retained: seq<Option<Decision>>, i: nat, lost: seq<CandidateRef>)
    requires i < |retained| && start + |retained| <= |g.candidates|
    requires LosesUnretained(g, start, retained, |retained|, lost)
    ensures LosesUnretained(g, start, retained, i, lost + CandidateRefs(g.candidates[start + i..]))
  {
    var rest := g.candidates[start + i..];
    forall a | a in lost + CandidateRefs(rest) ensures exists j :: Unretained(g, start, retained, i, a, j) {
      if a in lost {
        var j :| Unretained(g, start, retained, |retained|, a, j);
        assert Unretained(g, start, retained, i, a, j);
      } else {
        var m :| 0 <= m < |rest| && CandidateRefs(rest)[m] == a;
        assert Unretained(g, start, retained, i, a, start + i + m);
      }
    }
  }

  // Recovery of a rejected segment, in front of its i-th candidate.  The rejected reply was
  // heard after n decisions; r is the state of the salvage, b what it had to skip.
  ghost predicate Recovering(g: Setting, initial: Snapshot, s: Snapshot, start: nat, i: nat,
                             retained: seq<Option<Decision>>, rs: seq<Reported>, failures: seq<CandidateRef>,
                             log: seq<Event>, rows: seq<Option<Decision>>, n: nat, r: Snapshot, b: Blocked)
    requires i <= |retained| == |rows| && start + |retained| <= |g.candidates|
  {
    var segment := g.candidates[start..start + |retained|];
    && Reporting(g, initial, s, start + i, rs, failures, log)
    && SalvagePending(g.policy, r, s, segment[i..], rows[i..], b, retained[i..])
    && |retained| >= 2 && Frontier(g, log, start + |retained|)
    && n <= |rs| && Asked(n, start, start + |retained|, Whole) in log
    && RejectedWith(Heard(g, StateAfter(g, initial, rs, n), segment), retained)
  }

  predicate RejectedWith(heard: Comparison, retained: seq<Option<Decision>>) {
    heard.Invalid? && heard.retained == retained
  }

  // What a rejected reply left without a decision is due for a retry.
  lemma RetryIsDue(g: Setting, initial: Snapshot, s: Snapshot, start: nat, i: nat, retained: seq<Option<Decision>>,
                   rs: seq<Reported>, failures: seq<CandidateRef>, log: seq<Event>, rows: seq<Option<Decision>>, n: nat,
                   r: Snapshot, b: Blocked)
    requires i < |retained| == |rows| && start + |retained| <= |g.candidates| && retained[i].None?
    requires Recovering(g, initial, s, start, i, retained, rs, failures, log, rows, n, r, b)
      && RetriesBefore(log, start + i)
    ensures WellGrounded(g, initial, rs, log, Asked(|rs|, start + i, start + i + 1, Retry))
  {
    hide Reporting, SalvagePending, Heard, StateAfter, Frontier, RetriesBefore;
    assert LeftBy(g, initial, rs, Asked(n, start, start + |retained|, Whole), start + i);
  }

  lemma RecoveringEvent(g: Setting, initial: Snapshot, s: Snapshot, start: nat, i: nat, retained: seq<Option<Decision>>,
                        rs: seq<Reported>, failures: seq<CandidateRef>, log: seq<Event>, rows: seq<Option<Decision>>,
                        n: nat, r: Snapshot, b: Blocked)
    requires i < |retained| == |rows| && start + |retained| <= |g.candidates| && retained[i].None?
    requires Recovering(g, initial, s, start, i, retained, rs, failures, log, rows, n, r, b)
      && RetriesBefore(log, start + i)
    ensures var more := log + [Asked(|rs|, start + i, start + i + 1, Retry)];
      && Recovering(g, initial, s, start, i, retained, rs, failures, more, rows, n, r, b)
      && Calls(more) == Calls(log) + 1 && SplitsMore(log, more, {}) && RetriesBefore(more, start + i + 1)
  {
    hide Reporting, SalvagePending, RejectedWith, Heard, StateAfter, Calls, Frontier, WellGrounded, SplitsMore;
    var e := Asked(|rs|, start + i, start + i + 1, Retry);
    RetryIsDue(g, initial, s, start, i, retained, rs, failures, log, rows, n, r, b);
    ReportEvent(g, initial, s, start + i, rs, failures, log, e);
    FrontierStays(g, log, start + |retained|, e);
    EventSplits(log, e);
  }

  // The retry was too large, and so is the context: nothing is left to do.
  lemma NoRoomLeft(g: Setting, initial: Snapshot, s: Snapshot, k: nat, rs: seq<Reported>, failures: seq<CandidateRef>,
                   log: seq<Event>, was: seq<Event>)
    requires k < |g.candidates| && Reporting(g, initial, s, k, rs, failures, log) && ContextFails(g, s, k)
    requires log == was + [Asked(|rs|, k, k + 1, Retry)] && Heard(g, s, [g.candidates[k]]).Invalid?
      && Heard(g, s, [g.candidates[k]]).tooLarge
    requires forall e | e in log :: Behind(g, e) <= |g.candidates|
    ensures var more := log + [NoRoom(|rs|, k)];
      && Reporting(g, initial, s, k, rs, failures, more) && Calls(more) == Calls(log)
      && Frontier(g, more, |g.candidates|) && SplitsMore(log, more, {})
  {
    hide Reporting, Heard, Calls, SplitsMore, StateAfter, ContextFails;
    StateNow(g, initial, s, k, rs, failures, log);
    ReportEvent(g, initial, s, k, rs, failures, log, NoRoom(|rs|, k));
    EventSplits(log, NoRoom(|rs|, k));
    assert NoRoom(|rs|, k) in log + [NoRoom(|rs|, k)];
  }

  lemma RecoveringRetained(g: Setting, initial: Snapshot, s: Snapshot, start: nat, i: nat,
                           retained: seq<Option<Decision>>, rs: seq<Reported>, failures: seq<CandidateRef>,
                           log: seq<Event>, rows: seq<Option<Decision>>, n: nat, r: Snapshot, b: Blocked)
    requires InOrder(g) && i < |retained| == |rows| && start + |retained| <= |g.candidates| && retained[i].Some?
    requires Recovering(g, initial, s, start, i, retained, rs, failures, log, rows, n, r, b)
    ensures var (c, d) := (g.candidates[start + i], retained[i].value); var (s', o) := Step(g.policy, s, c, d);
      && o.Applied?
      && Recovering(g, initial, s', start, i + 1, retained, rs + [Reported(c, d, o.dependencies)], failures, log, rows,
        n,
                    Step(g.policy, r, c, d).0, b)
  {
    hide Reporting, SalvagePending, Step, InOrder, Heard, StateAfter, Frontier;
    var (c, d, segment) := (g.candidates[start + i], retained[i].value, g.candidates[start..start + |retained|]);
    assert segment[i..][0] == c && segment[i..][1..] == segment[i + 1..];
    assert rows[i..][1..] == rows[i + 1..] && retained[i..][1..] == retained[i + 1..]
      && retained[i..][0] == retained[i];
    PendingAfterSalvage(g.policy, r, s, segment[i..], rows[i..], b, retained[i..]);
    ReportDecided(g, initial, s, start + i, rs, failures, log, d, Asked(n, start, start + |retained|, Whole));
    StateAfterPrefix(g, initial, rs, Reported(c, d, Step(g.policy, s, c, d).1.dependencies), n);
  }

  // A retry that decides the candidate, or one that fails it and leaves the state as it is.
  lemma RecoveringRetried(g: Setting, initial: Snapshot, s: Snapshot, start: nat, i: nat,
                          retained: seq<Option<Decision>>, rs: seq<Reported>, failures: seq<CandidateRef>,
                          log: seq<Event>, rows: seq<Option<Decision>>, n: nat, r: Snapshot, b: Blocked)
    requires InOrder(g) && i < |retained| == |rows| && start + |retained| <= |g.candidates| && retained[i].None?
    requires Recovering(g, initial, s, start, i, retained, rs, failures, log, rows, n, r, b)
    requires Asked(|rs|, start + i, start + i + 1, Retry) in log
    ensures var (c, next) :=
      (g.candidates[start + i], if Skips(b, g.candidates[start + i]) then b
        else AfterFailure(b, g.candidates[start + i]));
      && (Heard(g, s, [c]).Compared? && RetryOk(g.policy, s, c, Some(Heard(g, s, [c]).decisions[0])) ==>
          var d := Heard(g, s, [c]).decisions[0]; var (s', o) := Step(g.policy, s, c, d);
          o.Applied? && AfterRetry(g.policy, s, c, Some(d)) == s' ==>
          Recovering(g, initial, s', start, i + 1, retained, rs + [Reported(c, d, o.dependencies)], failures, log, rows,
            n, r, next))
      && (!Heard(g, s, [c]).Compared? ==>
          Recovering(g, initial, s, start, i + 1, retained, rs, failures + [c.index], log, rows, n, r, next))
  {
    hide Reporting, SalvagePending, Step, InOrder, StateAfter, RetryOk, AfterRetry, Skips, AfterFailure, Verdict,
      Frontier;
    var (c, k, segment) := (g.candidates[start + i], start + i, g.candidates[start..start + |retained|]);
    assert segment[i..][0] == c && segment[i..][1..] == segment[i + 1..];
    assert rows[i..][1..] == rows[i + 1..] && retained[i..][1..] == retained[i + 1..]
      && retained[i..][0] == retained[i];
    ReportFacts(g, initial, s, k, rs, failures, log);
    if Heard(g, s, [c]).Compared? {
      var d := Heard(g, s, [c]).decisions[0];
      var o := Step(g.policy, s, c, d).1;
      if RetryOk(g.policy, s, c, Some(d)) && o.Applied? {
        PendingAfterRetry(g.policy, r, s, segment[i..], rows[i..], b, retained[i..], Some(d));
        ReportDecided(g, initial, s, k, rs, failures, log, d, Asked(|rs|, k, k + 1, Retry));
        StateAfterPrefix(g, initial, rs, Reported(c, d, o.dependencies), n);
      }
    } else {
      NothingRetried(g.policy, s, c);
      PendingAfterRetry(g.policy, r, s, segment[i..], rows[i..], b, retained[i..], None);
      ReportFailed(g, initial, s, k, rs, failures, log, Asked(|rs|, k, k + 1, Retry));
    }
  }

  datatype RetryStep = GoesOn | ContextTooLarge | Leaves

  // One candidate without a retained decision: one further call.
  method RetryCandidate(g: Setting, state: CharacterProjectionState, start: nat, i: nat,
                        retained: seq<Option<Decision>>, rs: seq<Reported>, failures: seq<CandidateRef>,
                        ghost log: seq<Event>, ghost initial: Snapshot, ghost rows: seq<Option<Decision>>, ghost n: nat,
                        ghost r: Snapshot, ghost b: Blocked)
    returns (rs': seq<Reported>, failures': seq<CandidateRef>, step: RetryStep, ghost log': seq<Event>,
             ghost b': Blocked)
    requires state.policy == g.policy && InOrder(g) && i < |retained| == |rows| && start + |retained| <= |g.candidates|
    requires retained[i].None?
      && Recovering(g, initial, state.Value(), start, i, retained, rs, failures, log, rows, n, r, b)
    requires RetriesBefore(log, start + i)
    modifies state
    ensures Calls(log') == Calls(log) + 1 && SplitsMore(log, log', {})
    ensures step.GoesOn? ==> RetriesBefore(log', start + i + 1)
    ensures step.ContextTooLarge? ==> Frontier(g, log', |g.candidates|)
    ensures step.GoesOn? ==>
      && Recovering(g, initial, state.Value(), start, i + 1, retained, rs', failures', log', rows, n, r, b')
      && (failures' == failures || failures' == failures + [g.candidates[start + i].index])
    ensures step.ContextTooLarge? ==>
      && ContextFails(g, state.Value(), start + i)
        && Reporting(g, initial, state.Value(), |g.candidates|, rs', failures', log')
      && failures' == failures + CandidateRefs(g.candidates[start + i..])
    ensures step.Leaves? ==>
      && Reporting(g, initial, state.Value(), start + i, rs', failures', log') && EndsInAbort(g, initial, rs', log')
  {
    hide Reporting, RetryOk, AfterRetry, Step, InOrder, Skips, AfterFailure, StateAfter, SalvagePending, Verdict,
      RejectedWith, Calls, SplitsMore, RetriesBefore;
    var k := start + i;
    var c := g.candidates[k];
    ghost var s := state.Value();
    rs', failures', step := rs, failures, GoesOn;
    b' := if Skips(b, c) then b else AfterFailure(b, c);
    RecoveringEvent(g, initial, s, start, i, retained, rs, failures, log, rows, n, r, b);
    log' := log + [Asked(|rs|, k, k + 1, Retry)];
    ReportFacts(g, initial, s, k, rs, failures, log');
    RecoveringRetried(g, initial, s, start, i, retained, rs, failures, log', rows, n, r, b);
    var retry := RetryOne(g, state, c);
    match retry {
      case RetryDecided(d) =>
        var o := state.Apply(c, d);
        rs' := rs + [Reported(c, d, o.dependencies)];
      case RetryEscaped =>
        assert Aborts(g, s, [c]);
        step := Leaves;
      case RetryFailed(tooLarge) =>
        if tooLarge && !g.world.contextFits(state.entriesByRef, g.candidates[k..]) {
          NoRoomLeft(g, initial, s, k, rs, failures, log', log);
          SplitsCompose(log, log', log' + [NoRoom(|rs|, k)], {});
          log' := log' + [NoRoom(|rs|, k)];
          failures' := FailRange(g, k, |g.candidates|, failures, initial, s, rs, log', NoRoom(|rs|, k));
          step := ContextTooLarge;
        } else {
          failures' := failures + [c.index];
        }
    }
  }

  /** After a rejected segment: retained decisions are applied and never retried, the others
      are retried one by one.  `next` is the first candidate not reported, `met` counts
      those dealt with before the context alone became too large; each candidate costs at
      most one further call. */
  method RecoverSegment(g: Setting, state: CharacterProjectionState, start: nat, retained: seq<Option<Decision>>,
                        rs: seq<Reported>, failures: seq<CandidateRef>, ghost log: seq<Event>, ghost initial: Snapshot,
                        ghost rows: seq<Option<Decision>>)
    returns (rs': seq<Reported>, failures': seq<CandidateRef>, calls: nat, next: nat, escaped: bool,
             ghost log': seq<Event>, ghost met: nat)
    requires state.policy == g.policy && start + |retained| <= |g.candidates| && InOrder(g) && |rows| == |retained|
    requires Reporting(g, initial, state.Value(), start, rs, failures, log)
      && Asked(|rs|, start, start + |retained|, Whole) in log
    requires SalvagePending(g.policy, Throwaway(state.Value()), state.Value(), g.candidates[start..start + |retained|],
      rows, NOTHING_BLOCKED, retained)
    requires RejectedWith(Heard(g, state.Value(), g.candidates[start..start + |retained|]), retained)
    requires |retained| >= 2 && Frontier(g, log, start + |retained|) && RetriesBefore(log, start)
    modifies state
    ensures SplitsMore(log, log', {}) && (!escaped ==> Frontier(g, log', next))
    ensures next <= |g.candidates| && Reporting(g, initial, state.Value(), next, rs', failures', log')
    ensures Calls(log') == Calls(log) + calls
    ensures escaped ==> next < |g.candidates| && EndsInAbort(g, initial, rs', log')
    ensures !escaped ==> (next == start + |retained| || next == |g.candidates|) && calls <= |retained|
    ensures !escaped ==>
      && met <= |retained|
        && (met < |retained| ==> next == |g.candidates| && ContextFails(g, state.Value(), start + met))
      && failures <= failures' && LosesUnretained(g, start, retained, met, failures'[|failures|..])
  {
    hide Recovering, Step, InOrder, Heard, LosesUnretained, SalvagePending, CandidateRefs, EndsInAbort, ContextFails,
      Reporting, RejectedWith, Calls, SplitsMore, Frontier, RetriesBefore;
    rs', failures', log', calls, next, escaped, met := rs, failures, log, 0, start + |retained|, false, |retained|;
    ghost var r, b := Throwaway(state.Value()), NOTHING_BLOCKED;
    RecoveryStarts(g, initial, state.Value(), start, retained, rs, failures, log, rows);
    NoSplitsYet(log);
    ghost var lost: seq<CandidateRef> := [];
    for i := 0 to |retained|
      invariant Recovering(g, initial, state.Value(), start, i, retained, rs', failures', log', rows, |rs|, r, b)
        && calls <= i
      invariant Calls(log') == Calls(log) + calls && SplitsMore(log, log', {}) && RetriesBefore(log', start + i)
      invariant failures' == failures + lost && LosesUnretained(g, start, retained, |retained|, lost)
    {
      var c := g.candidates[start + i];
      if retained[i].Some? {
        RecoveringRetained(g, initial, state.Value(), start, i, retained, rs', failures', log', rows, |rs|, r, b);
        RetriesFurther(log', start + i);
        r := Step(g.policy, r, c, retained[i].value).0;
        var o := state.Apply(c, retained[i].value);
        rs' := rs' + [Reported(c, retained[i].value, o.dependencies)];
      } else {
        calls := calls + 1;
        LosesOneMore(g, start, retained, i, lost);
        LosesTheRest(g, start, retained, i, lost);
        var step;
        ghost var was := log';
        rs', failures', step, log', b :=
          RetryCandidate(g, state, start, i, retained, rs', failures', log', initial, rows, |rs|, r, b);
        SplitsCompose(log, was, log', {});
        if step.Leaves? {
          next, escaped := start + i, true;
          return;
        }
        if step.ContextTooLarge? {
          next, met := |g.candidates|, i;
          assert failures'[|failures|..] == lost + CandidateRefs(g.candidates[start + i..]);
          return;
        }
        assert lost + [c.index] == failures'[|failures|..] || lost == failures'[|failures|..];
        lost := failures'[|failures|..];
      }
    }
    RecoveryEnds(g, initial, state.Value(), start, retained, rs', failures', log', rows, |rs|, r, b);
    assert failures'[|failures|..] == lost;
  }

  lemma RetriesFurther(log: seq<Event>, k: nat)
    requires RetriesBefore(log, k)
    ensures RetriesBefore(log, k + 1)
  {
  }

  lemma NoSplitsYet(log: seq<Event>)
    ensures SplitsMore(log, log, {})
  {
  }

  lemma RecoveryStarts(g: Setting, initial: Snapshot, s: Snapshot, start: nat, retained: seq<Option<Decision>>,
                       rs: seq<Reported>, failures: seq<CandidateRef>, log: seq<Event>, rows: seq<Option<Decision>>)
    requires start + |retained| <= |g.candidates| && |rows| == |retained|
      && Reporting(g, initial, s, start, rs, failures, log)
    requires Asked(|rs|, start, start + |retained|, Whole) in log
    requires SalvagePending(g.policy, Throwaway(s), s, g.candidates[start..start + |retained|], rows, NOTHING_BLOCKED,
      retained)
    requires RejectedWith(Heard(g, s, g.candidates[start..start + |retained|]), retained)
    requires |retained| >= 2 && Frontier(g, log, start + |retained|)
    ensures Recovering(g, initial, s, start, 0, retained, rs, failures, log, rows, |rs|, Throwaway(s), NOTHING_BLOCKED)
    ensures LosesUnretained(g, start, retained, |retained|, [])
  {
    hide Reporting, SalvagePending, Heard, StateAfter, Frontier;
    var segment := g.candidates[start..start + |retained|];
    assert segment[0..] == segment && rows[0..] == rows && retained[0..] == retained;
    StateNow(g, initial, s, start, rs, failures, log);
  }

  lemma RecoveryEnds(g: Setting, initial: Snapshot, s: Snapshot, start: nat, retained: seq<Option<Decision>>,
                     rs: seq<Reported>, failures: seq<CandidateRef>, log: seq<Event>, rows: seq<Option<Decision>>,
                     n: nat, r: Snapshot, b: Blocked)
    requires start + |retained| <= |g.candidates| && |rows| == |retained|
    requires Recovering(g, initial, s, start, |retained|, retained, rs, failures, log, rows, n, r, b)
    ensures Reporting(g, initial, s, start + |retained|, rs, failures, log) && Frontier(g, log, start + |retained|)
  {
  }

  lemma NothingRetried(p: Policy, s: Snapshot, c: Candidate)
    ensures RetryOk(p, s, c, None) && AfterRetry(p, s, c, None) == s
  {
  }

  lemma ReportFacts(g: Setting, initial: Snapshot, s: Snapshot, k: nat, rs: seq<Reported>, failures: seq<CandidateRef>,
                    log: seq<Event>)
    requires k < |g.candidates| && Reporting(g, initial, s, k, rs, failures, log)
    ensures Coherent(s) && Projected(g.candidates[k].index) !in s.entries
    ensures forall m | k <= m <= |g.candidates| :: FreshFor(s, g.candidates[k..m])
    ensures FreshFor(Throwaway(s), g.candidates[k..])
    ensures StateAfter(g, initial, rs, |rs|) == s && g.candidates[k..k + 1] == [g.candidates[k]]
  {
    hide Covers, Justified, Planned;
    var cs := g.candidates;
    StateNow(g, initial, s, k, rs, failures, log);
    assert cs[k..][0] == cs[k];
    forall m | k <= m <= |cs| ensures FreshFor(s, cs[k..m]) {
      assert forall c | c in cs[k..m] :: c in cs[k..];
    }
  }

  // ----- the driver --------------------------------------------------------------

  datatype BatchResult =
    | Aborted   // a failure that is not local to candidates left the driver
    | Finished(decisions: seq<Reported>, failures: seq<CandidateRef>, segments: nat)

  // The first segment end beyond the cursor bounds the next segment.
  function Window(cursor: nat, ends: seq<nat>, n: nat): nat
    decreases |ends|
  {
    if ends == [] then n
    else if ends[0] > cursor then ends[0]
    else Window(cursor, ends[1..], n)
  }

  ghost predicate SortedEnds(ends: seq<nat>, n: nat) {
    && (forall i, j :: 0 <= i < j < |ends| ==> ends[i] <= ends[j])
    && (forall e | e in ends :: e <= n)
  }

  // Every split point still ahead pays for the truncated call that introduced it.
  ghost predicate Budget(segments: nat, cursor: nat, open: set<nat>, ends: seq<nat>, n: nat) {
    && SortedEnds(ends, n)
    && (forall x | x in open :: cursor < x < n && x in ends)
    && segments <= 2 * cursor + |open|
    && (0 < cursor == n ==> segments <= 2 * n - 1)
  }

  lemma {:induction false} RangeBound(xs: set<nat>, low: nat, high: nat)
    requires low <= high && forall x | x in xs :: low <= x < high
    ensures |xs| <= high - low
    decreases high - low
  {
    if low == high {
      assert xs == {};
    } else {
      RangeBound(xs - {low}, low + 1, high);
    }
  }

  /** One consumed piece of m candidates frees at least one unit of budget, enough
      for the one split point it can end at. */
  lemma BudgetConsumes(segments: nat, cursor: nat, open: set<nat>, ends: seq<nat>, n: nat, m: nat, calls: nat)
    requires Budget(segments, cursor, open, ends, n) && 0 < m && cursor + m <= n
    requires ends != [] ==> cursor < ends[0] && cursor + m <= ends[0]
    requires calls <= 1 || (m >= 2 && calls <= 1 + m)
    ensures Budget(segments + calls, cursor + m, open - {cursor + m}, ends, n)
  {
    assert forall x | x in open :: cursor + m <= x;
    if cursor + m == n {
      assert open == {};
    }
  }

  /** Failing everything that is left never exceeds the budget either. */
  lemma BudgetStops(segments: nat, cursor: nat, open: set<nat>, ends: seq<nat>, n: nat, m: nat, calls: nat)
    requires Budget(segments, cursor, open, ends, n) && cursor + m <= n && cursor < n
    requires ends != [] ==> cursor < ends[0] && cursor + m <= ends[0]
    requires calls == 0 || (m >= 2 && calls <= 1 + m)
    ensures Budget(segments + calls, n, {}, ends, n)
  {
    var low := if m == 0 then cursor + 1 else cursor + m;
    assert forall x | x in open :: low <= x;
    RangeBound(open, low, n);
  }

  /** A truncated segment is halved at a split point no earlier truncation used. */
  lemma BudgetSplits(segments: nat, cursor: nat, open: set<nat>, ends: seq<nat>, n: nat, m: nat)
    requires Budget(segments, cursor, open, ends, n) && 2 <= m && cursor + m <= n
    requires ends != [] ==> cursor + m <= ends[0]
    ensures var middle := cursor + m / 2;
      middle !in open && Budget(segments + 1, cursor, open + {middle}, [middle, cursor + m] + ends, n)
  {
    assert forall x | x in open :: x in ends;
  }

  lemma BudgetDrops(segments: nat, cursor: nat, open: set<nat>, ends: seq<nat>, n: nat)
    requires Budget(segments, cursor, open, ends, n) && ends != [] && ends[0] <= cursor
    ensures Budget(segments, cursor, open, ends[1..], n)
  {
    forall x | x in open ensures x in ends[1..] {
      var i :| 0 <= i < |ends| && ends[i] == x;
      assert ends[1..][i - 1] == x;
    }
    forall e | e in ends[1..] ensures e <= n {
      assert e in ends;
    }
  }

  method DropPassedEnds(cursor: nat, ends: seq<nat>, ghost segments: nat, ghost open: set<nat>, ghost n: nat)
    returns (rest: seq<nat>)
    requires Budget(segments, cursor, open, ends, n)
    ensures Budget(segments, cursor, open, rest, n)
    ensures Window(cursor, rest, n) == Window(cursor, ends, n) && (rest != [] ==> cursor < rest[0])
    ensures forall x: nat | x > cursor :: x in rest <==> x in ends
  {
    rest := ends;
    while rest != [] && cursor >= rest[0]
      invariant Budget(segments, cursor, open, rest, n) && Window(cursor, rest, n) == Window(cursor, ends, n)
      invariant forall x: nat | x > cursor :: x in rest <==> x in ends
      decreases |rest|
    {
      BudgetDrops(segments, cursor, open, rest, n);
      assert rest == [rest[0]] + rest[1..];
      rest := rest[1..];
    }
  }

  lemma InitialReport(g: Setting, entries: seq<Entry>)
    requires Loadable(entries) && forall e | e in entries :: e.reference.Persisted?
    ensures var initial := Loaded(entries); Reporting(g, initial, initial, 0, [], [], [])
  {
    hide Progress;
    InitialProgress(g.policy, entries, g.candidates);
  }

  lemma InitialProgress(p: Policy, entries: seq<Entry>, cs: seq<Candidate>)
    requires Loadable(entries) && forall e | e in entries :: e.reference.Persisted?
    ensures var initial := Loaded(entries); Progress(p, initial, initial, cs, 0, [], [])
  {
    hide Loaded, Loadable;
    LoadedIsCoherent(entries);
    LoadedKeys(entries);
    assert cs[0..] == cs && Moves([]) == [] && Refs([]) + [] == [] && CandidateRefs(cs[..0]) == [];
  }

  lemma SegmentSalvagePends(p: Policy, s: Snapshot, segment: seq<Candidate>, ordered: bool, reply: Reply)
    returns (rows: seq<Option<Decision>>)
    requires Coherent(s) && DistinctCandidates(segment) && FreshFor(s, segment)
    ensures |rows| == |segment|
    ensures SalvagePending(p, Throwaway(s), s, segment, rows, NOTHING_BLOCKED,
                           RetainedFrom(p, Throwaway(s), segment, ordered, reply))
  {
    rows := if Rows(reply).Some? && RowsMatch(segment, Rows(reply).value) then Decisions(Rows(reply).value)
      else Nothing(|segment|);
    ThrowawayKeepsFacts(s);
  }

  ghost predicate ReportsRun(p: Policy, initial: Snapshot, cs: seq<Candidate>, result: BatchResult)
    requires result.Finished?
  {
    && Covers(cs, result.decisions, result.failures)
    && (exists final :: IsRun(p, initial, result.decisions, final))
    && (cs != [] ==> result.segments <= 2 * |cs| - 1)
  }

  datatype SegmentOutcome =
    | Consumed(calls: nat, next: nat)
    | Split  // truncated; compare the halves instead
    | Foreclosed(calls: nat, next: nat)  // a failure that is not local to the candidates

  // A recovery lost no retained decision, up to where the context alone became too large.
  ghost predicate SalvageKept(g: Setting, s: Snapshot, start: nat, retained: seq<Option<Decision>>,
                              failures: seq<CandidateRef>, failures': seq<CandidateRef>, next: nat)
  {
    && failures <= failures'
    && (exists met :: LosesOnlyUntil(g, s, start, retained, failures'[|failures|..], next, met))
  }

  ghost predicate LosesOnlyUntil(g: Setting, s: Snapshot, start: nat, retained: seq<Option<Decision>>,
                                 lost: seq<CandidateRef>, next: nat, met: nat)
  {
    && LosesUnretained(g, start, retained, met, lost)
    && (met == |retained| || (met < |retained| && next == |g.candidates| && ContextFails(g, s, start + met)))
  }

  // What a call for candidates start..end leads to: an acceptable reply decides every one, a
  // truncated one of several is halved, a single rejected candidate fails, a rejected
  // segment is recovered, and any other failure leaves the driver.
  ghost predicate Follows(g: Setting, heard: Comparison, start: nat, end: nat, rs: seq<Reported>,
                          failures: seq<CandidateRef>, o: SegmentOutcome, s': Snapshot, rs': seq<Reported>,
                          failures': seq<CandidateRef>)
    requires start < end <= |g.candidates|
  {
    && (o.Split? <==> heard.CutOff? && end - start >= 2)
    && (heard.Compared? ==> o == Consumed(1, end) && failures' == failures)
    && ((heard.CutOff? || heard.Invalid?) && end - start == 1 ==>
      o == Consumed(1, end) && rs' == rs && failures' == failures + [g.candidates[start].index])
    && (heard.Escaped? || heard.Faulted? ==> o.Foreclosed?)
    && (heard.Invalid? && end - start >= 2 && o.Consumed? ==>
      SalvageKept(g, s', start, heard.retained, failures, failures', o.next))
  }

  // The main loop's call about start..end enters the log.
  lemma MainCall(g: Setting, initial: Snapshot, s: Snapshot, start: nat, end: nat, rs: seq<Reported>,
                 failures: seq<CandidateRef>, log: seq<Event>, e: Event)
    requires start < end <= |g.candidates| && Reporting(g, initial, s, start, rs, failures, log)
    requires MainTurn(g, s, log, start, end) && e == Asked(|rs|, start, end, KindOf(g, s, start, end))
    ensures Reporting(g, initial, s, start, rs, failures, log + [e]) && Calls(log + [e]) == Calls(log) + 1
    ensures SplitsMore(log, log + [e], if e.kind == Halved then {start + (end - start) / 2, end} else {})
    ensures Frontier(g, log + [e], if e.kind == Halved then start else end) && RetriesBefore(log + [e], start)
    ensures e.kind != Retry
    ensures e.kind == Halved <==> end - start >= 2 && Heard(g, s, g.candidates[start..end]).CutOff?
  {
    hide Reporting, Heard, Calls, SplitsMore, StateAfter, Frontier, SegmentEnd, LongestFitting;
    StateNow(g, initial, s, start, rs, failures, log);
    ReportEvent(g, initial, s, start, rs, failures, log, e);
    EventSplits(log, e);
    CallsOfReport(g, initial, s, start, rs, failures, log);
    RetriesInFront(g, log, start);
    if e.kind == Halved {
      FrontierStays(g, log, start, e);
    } else {
      FrontierMoves(g, log, start, e);
    }
  }

  lemma CallsOfReport(g: Setting, initial: Snapshot, s: Snapshot, k: nat, rs: seq<Reported>,
                      failures: seq<CandidateRef>, log: seq<Event>)
    requires k <= |g.candidates| && Reporting(g, initial, s, k, rs, failures, log)
    ensures forall e | e in log && e.Asked? :: e.at < e.end
  {
    hide Progress, Justified, Planned;
    PlannedCalls(g, initial, rs, log);
  }

  /** One provider segment, with the retries its rejection may take.  An acceptable reply
      decides every candidate of the segment, a truncated one of several is halved, and a
      single rejected candidate fails. */
  method ProcessSegment(g: Setting, state: CharacterProjectionState, start: nat, end: nat, rs: seq<Reported>,
                        failures: seq<CandidateRef>, ghost log: seq<Event>, ghost initial: Snapshot)
    returns (rs': seq<Reported>, failures': seq<CandidateRef>, o: SegmentOutcome, ghost log': seq<Event>)
    requires state.policy == g.policy && start < end <= |g.candidates| && InOrder(g)
    requires Reporting(g, initial, state.Value(), start, rs, failures, log)
      && MainTurn(g, state.Value(), log, start, end)
    modifies state
    ensures SplitsMore(log, log', if o.Split? then {start + (end - start) / 2, end} else {})
    ensures !o.Foreclosed? ==> Frontier(g, log', NextOf(o, start))
    ensures NextOf(o, start) <= |g.candidates|
      && Reporting(g, initial, state.Value(), NextOf(o, start), rs', failures', log')
    ensures Calls(log') == Calls(log) + CallsOf(o)
    ensures o.Consumed? ==>
      && (o.next == end || (o.next == |g.candidates| && end - start >= 2))
      && (o.calls <= 1 || (end - start >= 2 && o.calls <= 1 + (end - start)))
    ensures o.Split? ==> end - start >= 2 && rs' == rs && failures' == failures && state.Value() == old(state.Value())
    ensures o.Foreclosed? ==> o.next < |g.candidates| && EndsInAbort(g, initial, rs', log')
    ensures Follows(g, Heard(g, old(state.Value()), g.candidates[start..end]), start, end, rs, failures, o,
      state.Value(), rs', failures')
  {
    hide Reporting, Step, InOrder, BatchOk, SalvagePending, RetainedFrom, NormalizedBatch, ContextFails,
      LosesUnretained, Verdict, Calls, StateAfter, SplitsMore, Frontier, RetriesBefore, MainTurn, KindOf;
    ghost var e := Asked(|rs|, start, end, KindOf(g, state.Value(), start, end));
    rs', failures', log' := rs, failures, log + [e];
    var segment := g.candidates[start..end];
    SegmentsAreDistinct(g, start);
    MainCall(g, initial, state.Value(), start, end, rs, failures, log, e);
    ReportFacts(g, initial, state.Value(), start, rs, failures, log');
    var entries := state.ListEntries();
    assert FreshFor(Loaded(entries), segment);
    var reply := g.world.reply(state.entriesByRef, segment);
    var comparison := CompareBatch(g.policy, entries, segment, g.ordered, reply);
    assert comparison == Heard(g, state.Value(), segment);
    VerdictMeans(g.policy, Throwaway(state.Value()), segment, g.ordered, reply);
    if comparison.Escaped? || comparison.Faulted? {
      assert Aborts(g, state.Value(), segment);
      return rs', failures', Foreclosed(1, start), log';
    }
    if comparison.Compared? {
      AcceptedBatchAppliesToCaller(g.policy, state.Value(), segment, Given(segment, reply));
      rs' := ApplySegment(g, state, start, comparison.decisions, rs, failures, initial, log');
      return rs', failures', Consumed(1, end), log';
    }
    if end - start == 1 {
      assert segment == [g.candidates[start]];
      ReportFailed(g, initial, state.Value(), start, rs, failures, log', e);
      return rs', failures + [g.candidates[start].index], Consumed(1, end), log';
    }
    if comparison.CutOff? {
      return rs', failures', Split, log';
    }
    ghost var rows := SegmentSalvagePends(g.policy, state.Value(), segment, g.ordered && !comparison.tooLarge, reply);
    assert end == start + |comparison.retained|;
    var calls, next, escaped;
    ghost var met;
    ghost var asked := log';
    rs', failures', calls, next, escaped, log', met :=
      RecoverSegment(g, state, start, comparison.retained, rs, failures, log', initial, rows);
    SplitsCompose(log, asked, log', {});
    o := if escaped then Foreclosed(1 + calls, next) else Consumed(1 + calls, next);
    assert !escaped ==> LosesOnlyUntil(g, state.Value(), start, comparison.retained, failures'[|failures|..], next,
      met);
  }

  // The first candidate not reported, and the calls made.
  function NextOf(o: SegmentOutcome, start: nat): nat {
    if o.Split? then start else o.next
  }

  function CallsOf(o: SegmentOutcome): nat {
    if o.Split? then 1 else o.calls
  }

  lemma SegmentsAreDistinct(g: Setting, start: nat)
    requires InOrder(g) && start <= |g.candidates|
    ensures forall m | start <= m <= |g.candidates| :: DistinctCandidates(g.candidates[start..m])
  {
    DistinctSuffix(g.candidates, start);
  }

  // Not even the first candidate fits: it fails alone, or everything left does if the
  // context itself is too large.
  method SkipOversized(g: Setting, cursor: nat, failures: seq<CandidateRef>, entries: map<SnapshotRef, Entry>,
                       ghost initial: Snapshot, ghost s: Snapshot, ghost rs: seq<Reported>, ghost log: seq<Event>,
                       ghost segments: nat, ghost open: set<nat>, ghost ends: seq<nat>)
    returns (extended: seq<CandidateRef>, next: nat, ghost log': seq<Event>, ghost left: set<nat>)
    requires cursor < |g.candidates| && Reporting(g, initial, s, cursor, rs, failures, log) && entries == s.entries
    requires MainTurn(g, s, log, cursor, cursor)
    requires Budget(segments, cursor, open, ends, |g.candidates|) && (ends != [] ==> cursor < ends[0])
    ensures next == if g.world.contextFits(entries, g.candidates[cursor..]) then cursor + 1 else |g.candidates|
    ensures Reporting(g, initial, s, next, rs, extended, log') && Budget(segments, next, left, ends, |g.candidates|)
    ensures Calls(log') == Calls(log) && SplitsMore(log, log', {}) && Frontier(g, log', next)
  {
    hide Reporting, Budget, Heard, Calls, SplitsMore, Frontier, StateAfter, SegmentEnd;
    BudgetEnds(segments, cursor, open, ends, |g.candidates|);
    var contextFits := g.world.contextFits(entries, g.candidates[cursor..]);
    next := if contextFits then cursor + 1 else |g.candidates|;
    ghost var e := if contextFits then TooLong(|rs|, cursor) else NoRoom(|rs|, cursor);
    StateNow(g, initial, s, cursor, rs, failures, log);
    assert !contextFits <==> ContextFails(g, s, cursor);
    ReportEvent(g, initial, s, cursor, rs, failures, log, e);
    EventSplits(log, e);
    FrontierMoves(g, log, cursor, e);
    log' := log + [e];
    extended := FailRange(g, cursor, next, failures, initial, s, rs, log', e);
    left := BudgetAdvances(segments, cursor, open, ends, |g.candidates|, if contextFits then 1 else 0, 0, next);
  }

  // The length of the next segment: the longest fitting one if fitting is monotone.
  method SegmentLength(g: Setting, entries: map<SnapshotRef, Entry>, cursor: nat, limit: nat) returns (length: nat)
    requires cursor < limit <= |g.candidates|
    ensures LongestFitting(g, entries, cursor, cursor + length, limit)
  {
    var fits := (k: nat) => k <= limit - cursor && g.world.fits(entries, g.candidates[cursor..cursor + k]);
    var checks;
    length, checks := LargestFittingSegment(limit - cursor, fits);
    assert g.candidates[cursor..cursor + 1] == [g.candidates[cursor]];
    assert fits(1) <==> g.world.fits(entries, [g.candidates[cursor]]);
    if FitsMonotone(g, entries, cursor, limit) {
      assert PrefixMonotone(fits, limit - cursor);
      forall j | cursor + length < j <= limit ensures !g.world.fits(entries, g.candidates[cursor..j]) {
        assert !fits(j - cursor);
      }
    }
  }

  // A truncated call: the window shrinks to the first half, and the budget pays for it.
  lemma HalvesAreNext(segments: nat, cursor: nat, open: set<nat>, ends: seq<nat>, n: nat, m: nat)
    requires Budget(segments, cursor, open, ends, n) && 2 <= m && cursor + m <= n
    requires ends != [] ==> cursor + m <= ends[0]
    ensures var (middle, halves) := (cursor + m / 2, [cursor + m / 2, cursor + m] + ends);
      && Budget(segments + 1, cursor, open + {middle}, halves, n)
      && Window(cursor, halves, n) < cursor + m <= Window(cursor, ends, n)
  {
    BudgetSplits(segments, cursor, open, ends, n, m);
    hide Budget;
    assert Window(cursor, [cursor + m / 2, cursor + m] + ends, n) == cursor + m / 2;
  }

  // The segment ends ahead are the split points ahead.
  ghost predicate EndsAre(log: seq<Event>, cursor: nat, ends: seq<nat>) {
    forall x: nat | x > cursor :: x in ends <==> SplitPoint(log, x)
  }

  lemma NextEnd(g: Setting, log: seq<Event>, cursor: nat, ends: seq<nat>)
    requires EndsAre(log, cursor, ends) && SortedEnds(ends, |g.candidates|) && cursor < |g.candidates|
    requires ends != [] ==> cursor < ends[0]
    ensures SegmentEnd(g, log, cursor, if ends != [] then ends[0] else |g.candidates|)
  {
    hide SplitPoint;
    if ends != [] {
      assert ends[0] in ends;
      forall x | x in ends ensures ends[0] <= x {}
    }
  }

  lemma EndsDropped(log: seq<Event>, cursor: nat, ends: seq<nat>, rest: seq<nat>)
    requires EndsAre(log, cursor, ends) && forall x: nat | x > cursor :: x in rest <==> x in ends
    ensures EndsAre(log, cursor, rest)
  {
    hide SplitPoint;
  }

  lemma EndsKept(log: seq<Event>, more: seq<Event>, cursor: nat, ends: seq<nat>, next: nat)
    requires EndsAre(log, cursor, ends) && SplitsMore(log, more, {}) && cursor <= next
    ensures EndsAre(more, next, ends)
  {
    hide SplitPoint;
  }

  lemma EndsHalved(log: seq<Event>, more: seq<Event>, cursor: nat, ends: seq<nat>, middle: nat, end: nat)
    requires EndsAre(log, cursor, ends) && SplitsMore(log, more, {middle, end})
    ensures EndsAre(more, cursor, [middle, end] + ends)
  {
    hide SplitPoint;
  }

  // The longest fitting list up to the next segment end is what the main loop deals with next.
  lemma SegmentIsNext(g: Setting, s: Snapshot, log: seq<Event>, cursor: nat, ends: seq<nat>, end: nat, segments: nat,
                      open: set<nat>)
    requires Frontier(g, log, cursor) && EndsAre(log, cursor, ends) && cursor < |g.candidates|
    requires Budget(segments, cursor, open, ends, |g.candidates|) && (ends != [] ==> cursor < ends[0] <= |g.candidates|)
    requires LongestFitting(g, s.entries, cursor, end, if ends != [] then ends[0] else |g.candidates|)
    ensures MainTurn(g, s, log, cursor, end)
  {
    hide Frontier, LongestFitting;
    NextEnd(g, log, cursor, ends);
  }

  // One turn of the main loop: a segment of the longest fitting length is processed, halved
  // or given up.  The cursor advances, or else the window in front of it shrinks.
  method Turn(g: Setting, state: CharacterProjectionState, cursor: nat, ends: seq<nat>, rs: seq<Reported>,
              failures: seq<CandidateRef>, segments: nat, ghost open: set<nat>, ghost log: seq<Event>,
              ghost initial: Snapshot)
    returns (aborted: bool, cursor': nat, ends': seq<nat>, rs': seq<Reported>, failures': seq<CandidateRef>,
             segments': nat, ghost open': set<nat>, ghost log': seq<Event>)
    requires state.policy == g.policy && cursor < |g.candidates| && InOrder(g)
    requires Reporting(g, initial, state.Value(), cursor, rs, failures, log)
      && Budget(segments, cursor, open, ends, |g.candidates|)
    requires segments == Calls(log) && EndsAre(log, cursor, ends) && Frontier(g, log, cursor)
    modifies state
    ensures !aborted ==> EndsAre(log', cursor', ends') && Frontier(g, log', cursor')
    ensures cursor' <= |g.candidates| && Reporting(g, initial, state.Value(), cursor', rs', failures', log')
      && segments' == Calls(log')
    ensures aborted ==> cursor' < |g.candidates| && EndsInAbort(g, initial, rs', log')
    ensures !aborted ==> Budget(segments', cursor', open', ends', |g.candidates|)
    ensures !aborted ==>
      cursor < cursor' || (cursor == cursor'
        && Window(cursor, ends', |g.candidates|) < Window(cursor, ends, |g.candidates|))
  {
    hide Reporting, InOrder, Budget, PrefixMonotone, CandidateRefs, Heard, EndsInAbort, FitsMonotone, NothingLonger,
      SalvageKept, SortedEnds, Hopeless, Window, Calls, StateAfter, Covers, Justified, Progress, Coherent, Follows,
      Frontier, SplitsMore, LongestFitting, SegmentEnd, Planned, EndsAre;
    var n := |g.candidates|;
    aborted, rs', failures', segments', open', log' := false, rs, failures, segments, open, log;
    ends' := DropPassedEnds(cursor, ends, segments, open, n);
    BudgetEnds(segments, cursor, open, ends', n);
    EndsDropped(log, cursor, ends, ends');
    var limit := if ends' != [] then ends'[0] else n;
    var entries := state.entriesByRef;
    var length := SegmentLength(g, entries, cursor, limit);
    SegmentIsNext(g, state.Value(), log, cursor, ends', cursor + length, segments, open);
    if length == 0 {
      failures', cursor', log', open' :=
        SkipOversized(g, cursor, failures, entries, initial, state.Value(), rs, log, segments, open, ends');
      EndsKept(log, log', cursor, ends', cursor');
      return;
    }
    var end := cursor + length;
    var outcome;
    rs', failures', outcome, log' := ProcessSegment(g, state, cursor, end, rs, failures, log, initial);
    segments' := segments + CallsOf(outcome);
    match outcome {
      case Foreclosed(_, next) =>
        aborted, cursor' := true, next;
      case Split =>
        HalvesAreNext(segments, cursor, open, ends', n, length);
        var middle: nat := cursor + length / 2;
        EndsHalved(log, log', cursor, ends', middle, end);
        cursor', open', ends' := cursor, open + {middle}, [middle, end] + ends';
      case Consumed(calls, next) =>
        open' := BudgetAdvances(segments, cursor, open, ends', n, length, calls, next);
        EndsKept(log, log', cursor, ends', next);
        cursor' := next;
    }
  }

  // A run that a call cut short: what was reported until then, and the call.
  ghost predicate CutShort(g: Setting, initial: Snapshot, rs: seq<Reported>, failures: seq<CandidateRef>,
                           log: seq<Event>)
  {
    && (exists k: nat, s :: k < |g.candidates| && Reporting(g, initial, s, k, rs, failures, log))
    && EndsInAbort(g, initial, rs, log)
  }

  /** The batch driver.  For every answer of the token counter and the provider it ends.
      Unless a failure beyond the candidates ends it early, each candidate is reported
      exactly once, decisions in source order, as an accepted run of the projection from the
      initial snapshot.  The log lists every call and every count that failed: each decision
      is one that a logged call offered, and each failure is due to a logged event.  At most
      2n - 1 calls are made. */
  method ExecuteBatch(g: Setting, snapshotEntries: seq<Entry>)
    returns (result: BatchResult, ghost log: seq<Event>, ghost reported: seq<Reported>, ghost failed: seq<CandidateRef>)
    requires Loadable(snapshotEntries) && InOrder(g)
    requires forall e | e in snapshotEntries :: e.reference.Persisted?
    ensures result.Finished? ==> ReportsRun(g.policy, Loaded(snapshotEntries), g.candidates, result)
    ensures result.Finished? ==>
      && Justified(g, Loaded(snapshotEntries), result.decisions, result.failures, log)
      && Planned(g, Loaded(snapshotEntries), result.decisions, log) && result.segments == Calls(log)
    ensures result.Aborted? ==> CutShort(g, Loaded(snapshotEntries), reported, failed, log)
  {
    hide Reporting, InOrder, ReportsRun, Budget, Loaded, Loadable, CandidateRefs, Window, Justified, EndsInAbort, Calls,
      Planned, EndsAre, Frontier;
    var loaded := CharacterProjectionState.FromEntries(g.policy, snapshotEntries);
    var state := loaded.value;
    ghost var initial := state.Value();
    InitialReport(g, snapshotEntries);
    var decisions, failures, segments, cursor := [], [], 0, 0;
    var ends: seq<nat> := [];
    ghost var open: set<nat> := {};
    log := [];
    InitialBudget(|g.candidates|);
    NoFrontier(g);
    NoEnds();
    while cursor < |g.candidates|
      invariant cursor <= |g.candidates| && state.policy == g.policy
      invariant Reporting(g, initial, state.Value(), cursor, decisions, failures, log)
      invariant Budget(segments, cursor, open, ends, |g.candidates|) && segments == Calls(log)
      invariant EndsAre(log, cursor, ends) && Frontier(g, log, cursor)
      decreases |g.candidates| - cursor, Window(cursor, ends, |g.candidates|)
    {
      var aborted;
      aborted, cursor, ends, decisions, failures, segments, open, log :=
        Turn(g, state, cursor, ends, decisions, failures, segments, open, log, initial);
      if aborted {
        return Aborted, log, decisions, failures;
      }
    }
    FinalReport(g, initial, state.Value(), decisions, failures, log, segments, open, ends);
    result, reported, failed := Finished(decisions, failures, segments), decisions, failures;
  }

  lemma HeadIsLeast(a: seq<CandidateRef>, x: CandidateRef)
    requires Ascending(a) && x in a
    ensures a != [] && a[0] <= x
  {
    var i :| 0 <= i < |a| && a[i] == x;
  }

  lemma WithoutHead(a: seq<CandidateRef>)
    requires a != [] && Ascending(a)
    ensures Ascending(a[1..]) && multiset(a[1..]) == multiset(a) - multiset{a[0]}
  {
    assert a == [a[0]] + a[1..];
  }

  lemma SameHead(a: seq<CandidateRef>, b: seq<CandidateRef>)
    requires a != [] && Ascending(a) && Ascending(b) && multiset(a) == multiset(b)
    ensures b != [] && a[0] == b[0]
  {
    hide Ascending;
    assert a[0] in multiset(b);
    HeadIsLeast(b, a[0]);
    assert b[0] in multiset(a);
    HeadIsLeast(a, b[0]);
  }

  lemma {:induction false} SortedPermutation(a: seq<CandidateRef>, b: seq<CandidateRef>)
    requires Ascending(a) && Ascending(b) && multiset(a) == multiset(b)
    ensures a == b
    decreases |a|
  {
    hide Ascending;
    if a == [] {
      assert |b| == |multiset(b)|;
    } else {
      SameHead(a, b);
      WithoutHead(a);
      WithoutHead(b);
      SortedPermutation(a[1..], b[1..]);
      assert a == [a[0]] + a[1..] && b == [b[0]] + b[1..];
    }
  }

  // After n decisions: each candidate from the n-th on alone fits and is answered acceptably,
  // and the context fits.
  ghost predicate Comparable(g: Setting, s: Snapshot, n: nat) {
    forall j: nat | n <= j < |g.candidates| ::
      && g.world.fits(s.entries, [g.candidates[j]]) && g.world.contextFits(s.entries, g.candidates[j..])
      && Heard(g, s, [g.candidates[j]]).Compared?
  }

  lemma BlameNeedsCause(g: Setting, initial: Snapshot, rs: seq<Reported>, log: seq<Event>, a: CandidateRef)
    requires Blamed(g, initial, rs, log, a) && forall e | e in log :: e.made <= e.at
    ensures exists n: nat :: n <= |rs| && !Comparable(g, StateAfter(g, initial, rs, n), n)
  {
    hide Heard, StateAfter;
    var e, j :| e in log && BlamedAt(g, initial, rs, a, e, j);
    assert !Comparable(g, StateAfter(g, initial, rs, e.made), e.made);
  }

  lemma MadeBefore(g: Setting, rs: seq<Reported>, failures: seq<CandidateRef>, e: Event)
    requires InTurn(g, rs, failures, e)
    ensures e.made <= e.at
  {
  }

  /** If in every state that the run went through each candidate that may be left can be
      compared alone, the driver decides all of them. */
  lemma NoCauseNoFailure(g: Setting, initial: Snapshot, result: BatchResult, log: seq<Event>)
    requires InOrder(g) && result.Finished? && ReportsRun(g.policy, initial, g.candidates, result)
    requires Justified(g, initial, result.decisions, result.failures, log)
    requires forall n: nat | n <= |result.decisions| :: Comparable(g, StateAfter(g, initial, result.decisions, n), n)
    ensures result.failures == [] && Refs(result.decisions) == CandidateRefs(g.candidates)
  {
    hide IsRun, Ascending, Refs, CandidateRefs, Comparable, StateAfter, Sourced, Blamed, InTurn;
    forall e | e in log ensures e.made <= e.at { MadeBefore(g, result.decisions, result.failures, e); }
    if result.failures != [] {
      BlameNeedsCause(g, initial, result.decisions, log, result.failures[0]);
    }
    assert Refs(result.decisions) + [] == Refs(result.decisions);
    SortedPermutation(Refs(result.decisions), CandidateRefs(g.candidates));
  }

  // The first event is about the front of the list, and about all of it if that fits.
  lemma FirstTurn(g: Setting, initial: Snapshot, rs: seq<Reported>, failures: seq<CandidateRef>, log: seq<Event>)
    requires Planned(g, initial, rs, log) && Justified(g, initial, rs, failures, log) && log != []
    requires g.world.fits(initial.entries, g.candidates)
    ensures log[0] == Asked(0, 0, |g.candidates|, KindOf(g, initial, 0, |g.candidates|))
  {
    hide Heard, Sourced, Blamed, Covers, ContextFails, FitsMonotone, NothingLonger, KindOf;
    var (n, e) := (|g.candidates|, log[0]);
    assert WellGrounded(g, initial, rs, log[..0], e) && e in log;
    assert log[..0] == [] && InTurn(g, rs, failures, e);
    assert Moves(rs[..0]) == [];
    assert g.candidates[0..n] == g.candidates;
    forall x: nat ensures !SplitPoint([], x) {}
  }

  // After an acceptable reply about the whole list nothing is left to ask.
  lemma NothingAfter(g: Setting, initial: Snapshot, rs: seq<Reported>, first: Event, e: Event)
    requires first == Asked(0, 0, |g.candidates|, Whole) && Heard(g, initial, g.candidates).Compared?
    ensures !WellGrounded(g, initial, rs, [first], e)
  {
    hide Heard, ContextFails, LongestFitting, SegmentEnd, KindOf;
    assert Behind(g, first) == |g.candidates| && first in [first];
    StartIsInitial(g, initial, rs);
    assert g.candidates[0..|g.candidates|] == g.candidates;
  }

  lemma SameCandidates(cs: seq<Candidate>, rs: seq<Reported>, i: nat, j: nat)
    requires Ascending(CandidateRefs(cs)) && Refs(rs) == CandidateRefs(cs) && i < |rs| && j < |cs|
    requires rs[i].candidate == cs[j]
    ensures i == j
  {
    assert |Refs(rs)| == |rs| && Refs(rs)[i] == CandidateRefs(cs)[j] == CandidateRefs(cs)[i];
  }

  /** A list that fits and has an acceptable reply takes one call, and ends with exactly the
      decisions of that reply. */
  lemma OneCallIsEnough(g: Setting, initial: Snapshot, result: BatchResult, log: seq<Event>)
    requires InOrder(g) && result.Finished? && ReportsRun(g.policy, initial, g.candidates, result)
    requires Justified(g, initial, result.decisions, result.failures, log)
      && Planned(g, initial, result.decisions, log) && result.segments == Calls(log)
    requires g.candidates != [] && g.world.fits(initial.entries, g.candidates)
    requires Heard(g, initial, g.candidates).Compared?
    ensures result.segments == 1 && result.failures == [] && |result.decisions| == |g.candidates|
    ensures forall i | 0 <= i < |g.candidates| ::
      && result.decisions[i].candidate == g.candidates[i]
      && result.decisions[i].decision == Heard(g, initial, g.candidates).decisions[i]
  {
    hide Heard, IsRun, Ascending, CandidateRefs, Refs, StateAfter, Planned, Offers, InTurn, Calls;
    var rs, n := result.decisions, |g.candidates|;
    SomethingHappened(g, initial, rs, result.failures, log);
    FirstTurn(g, initial, rs, result.failures, log);
    OneEvent(g, initial, rs, log);
    StartIsInitial(g, initial, rs);
    assert g.candidates[0..n] == g.candidates;
    assert result.failures != [] ==> Blamed(g, initial, rs, log, result.failures[0]);
    if result.failures != [] { NothingBlamed(g, initial, rs, result.failures[0]); }
    assert Refs(rs) + [] == Refs(rs);
    SortedPermutation(Refs(rs), CandidateRefs(g.candidates));
    SameLengths(g.candidates, rs);
    forall i: nat | i < n
      ensures rs[i].candidate == g.candidates[i] && rs[i].decision == Heard(g, initial, g.candidates).decisions[i]
    {
      assert Sourced(g, initial, rs, log, i);
      var e, j: nat :| e in log && SourcedBy(g, initial, rs, i, e, j);
      SameCandidates(g.candidates, rs, i, j);
      OfferedByAll(Heard(g, initial, g.candidates), i, rs[i].decision);
    }
  }

  lemma OneEvent(g: Setting, initial: Snapshot, rs: seq<Reported>, log: seq<Event>)
    requires Planned(g, initial, rs, log) && log != [] && Heard(g, initial, g.candidates).Compared?
    requires log[0] == Asked(0, 0, |g.candidates|, KindOf(g, initial, 0, |g.candidates|))
    ensures log == [Asked(0, 0, |g.candidates|, Whole)] && Calls(log) == 1
  {
    hide Heard, WellGrounded;
    assert g.candidates[0..|g.candidates|] == g.candidates;
    if |log| > 1 {
      assert WellGrounded(g, initial, rs, log[..1], log[1]) && log[..1] == [log[0]];
      NothingAfter(g, initial, rs, log[0], log[1]);
    }
    assert Calls(log[..0]) == 0;
  }

  lemma NothingBlamed(g: Setting, initial: Snapshot, rs: seq<Reported>, a: CandidateRef)
    requires Heard(g, initial, g.candidates).Compared?
    ensures !Blamed(g, initial, rs, [Asked(0, 0, |g.candidates|, Whole)], a)
  {
    hide Heard, StateAfter;
    StartIsInitial(g, initial, rs);
    forall j: nat | j < |g.candidates| ensures !BlamedAt(g, initial, rs, a, Asked(0, 0, |g.candidates|, Whole), j) {
      assert |g.candidates| == 1 ==> g.candidates == [g.candidates[j]];
    }
  }

  lemma OfferedByAll(heard: Comparison, m: nat, d: Decision)
    requires Offers(heard, m, d) && heard.Compared?
    ensures m < |heard.decisions| && heard.decisions[m] == d
  {
  }

  lemma SameLengths(cs: seq<Candidate>, rs: seq<Reported>)
    requires Refs(rs) == CandidateRefs(cs)
    ensures |rs| == |cs|
  {
    assert |Refs(rs)| == |rs|;
  }

  lemma StartIsInitial(g: Setting, initial: Snapshot, rs: seq<Reported>)
    ensures StateAfter(g, initial, rs, 0) == initial
  {
    assert Moves(rs[..0]) == [];
  }

  lemma SomethingHappened(g: Setting, initial: Snapshot, rs: seq<Reported>, failures: seq<CandidateRef>,
                          log: seq<Event>)
    requires Justified(g, initial, rs, failures, log) && Covers(g.candidates, rs, failures) && g.candidates != []
    ensures log != []
  {
    hide SourcedBy, BlamedAt, InTurn;
    assert CandidateRefs(g.candidates)[0] in multiset(Refs(rs) + failures);
    if rs != [] {
      assert Sourced(g, initial, rs, log, 0);
    } else {
      assert failures != [] && failures[0] in failures;
    }
  }

  // The budget after m candidates were consumed, or after everything left was failed.
  lemma BudgetAdvances(segments: nat, cursor: nat, open: set<nat>, ends: seq<nat>, n: nat, m: nat, calls: nat,
                       next: nat)
    returns (open': set<nat>)
    requires Budget(segments, cursor, open, ends, n) && cursor < n && cursor + m <= n
    requires ends != [] ==> cursor < ends[0] && cursor + m <= ends[0]
    requires (next == cursor + m && m > 0) || (next == n && (m >= 2 || calls == 0))
    requires calls <= 1 || (m >= 2 && calls <= 1 + m)
    ensures Budget(segments + calls, next, open', ends, n)
  {
    hide Budget;
    if next == cursor + m && m > 0 {
      BudgetConsumes(segments, cursor, open, ends, n, m, calls);
      open' := open - {next};
    } else {
      BudgetStops(segments, cursor, open, ends, n, m, calls);
      open' := {};
    }
  }

  lemma NoEnds()
    ensures EndsAre([], 0, [])
  {
  }

  lemma InitialBudget(n: nat)
    ensures Budget(0, 0, {}, [], n) && Calls([]) == 0
  {
  }

  lemma BudgetEnds(segments: nat, cursor: nat, open: set<nat>, ends: seq<nat>, n: nat)
    requires Budget(segments, cursor, open, ends, n)
    ensures ends != [] ==> ends[0] <= n
  {
    assert ends != [] ==> ends[0] in ends;
  }

  lemma FinalReport(g: Setting, initial: Snapshot, s: Snapshot, rs: seq<Reported>, failures: seq<CandidateRef>,
                    log: seq<Event>, segments: nat, open: set<nat>, ends: seq<nat>)
    requires Reporting(g, initial, s, |g.candidates|, rs, failures, log)
      && Budget(segments, |g.candidates|, open, ends, |g.candidates|)
    ensures ReportsRun(g.policy, initial, g.candidates, Finished(rs, failures, segments))
      && Justified(g, initial, rs, failures, log) && Planned(g, initial, rs, log)
  {
    hide Justified, Planned;
    assert g.candidates[..|g.candidates|] == g.candidates;
  }

  // The snapshot was built before any candidate of the batch.
  ghost predicate Predates(entries: seq<Entry>, cs: seq<Candidate>) {
    && (forall e | e in entries :: e.reference.Persisted?)
    && (forall e, c | e in entries && c in cs :: c.index !in Support(e))
  }

  lemma MovesOfReport(cs: seq<Candidate>, rs: seq<Reported>, failures: seq<CandidateRef>)
    requires Covers(cs, rs, failures)
    ensures DistinctIndices(Moves(rs))
    ensures forall x | x in Indices(Moves(rs)) :: exists c :: c in cs && c.index == x
  {
    forall i, j | 0 <= i < j < |rs| ensures Index(Moves(rs)[i]) != Index(Moves(rs)[j]) {
      assert Refs(rs)[i] < Refs(rs)[j];
    }
    forall x | x in Indices(Moves(rs)) ensures exists c :: c in cs && c.index == x {
      var i :| 0 <= i < |rs| && Index(Moves(rs)[i]) == x;
      assert Refs(rs)[i] == x && x in multiset(Refs(rs) + failures);
      var j :| 0 <= j < |cs| && CandidateRefs(cs)[j] == x;
      assert cs[j] in cs;
    }
  }

  lemma LoadedIsIndependent(entries: seq<Entry>, cs: seq<Candidate>, run: set<CandidateRef>)
    requires Loadable(entries) && Predates(entries, cs)
    requires forall x | x in run :: exists c :: c in cs && c.index == x
    ensures Coherent(Loaded(entries)) && Independent(Loaded(entries), run)
  {
    LoadedIsCoherent(entries);
    LoadedKeys(entries);
    var s := Loaded(entries);
    forall t, x | x in CellSupport(CellAt(s, t)) ensures x !in run {
      if t in s.refBySlot {
        var i :| 0 <= i < |entries| && entries[i].reference == s.refBySlot[t];
        LoadedEntry(entries, i);
        assert entries[i] in entries;
      }
    }
  }

  /** What the backend may rely on: confirming one reported decision together with
      its reported dependencies, and nothing else, replays from the original snapshot
      with every validation passing and the same projected entries. */
  lemma ReportedDependenciesSuffice(p: Policy, entries: seq<Entry>, cs: seq<Candidate>, result: BatchResult, i: nat)
    requires Loadable(entries) && Predates(entries, cs)
    requires result.Finished? && ReportsRun(p, Loaded(entries), cs, result) && i < |result.decisions|
    ensures var moves := Moves(result.decisions); var initial := Loaded(entries);
      var keep := result.decisions[i].dependencies + {result.decisions[i].candidate.index};
      && AllApplied(p, initial, Kept(moves, keep))
      && Outcomes(p, initial, Kept(moves, keep)) == KeptOutcomes(moves, Outcomes(p, initial, moves), keep)
  {
    hide Step, Outcomes, AllApplied, Kept, KeptOutcomes, Loaded, Loadable, Coherent, Covers;
    var moves, initial := Moves(result.decisions), Loaded(entries);
    MovesOfReport(cs, result.decisions, result.failures);
    LoadedIsIndependent(entries, cs, Indices(moves));
    LoadedKeys(entries);
    assert Fresh(initial, moves);
    RecordedDependenciesSuffice(p, initial, moves, i);
    assert moves[i].candidate == result.decisions[i].candidate;
  }
}
