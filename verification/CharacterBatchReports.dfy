/**
 One comparator call of app/analysis/character_fact_comparison_pipeline.py, and what the
 batch driver has reported so far: an accepted run of the projection that covers the
 candidates, each decision taken from a reply and each failure with a cause.
 */
module CharacterBatchReports {
  import opened Options
  import opened Sequences
  import opened CharacterProjection
  import opened CharacterDependencies
  import opened CharacterComparator

  // ----- one comparator call ---------------------------------------------------

  // What the provider side of one call may come to, after its own attempts.
  datatype Reply =
    | Response(rows: seq<Row>)  // the last attempt's payload, if that parsed as an object
    | NoPayload                 // the last attempt did not parse
    | PromptTooLarge
    | Truncated
    | ProviderFault             // a provider failure local to the candidates
    | Foreign                   // quota, lease, transport, frozen input

  datatype Comparison =
    | Compared(decisions: seq<Decision>)
    | Invalid(retained: seq<Option<Decision>>, tooLarge: bool)
    | CutOff
    | Faulted
    | Escaped

  function Rows(reply: Reply): Option<seq<Row>> {
    if reply.Response? then Some(reply.rows) else None
  }

  function RetainedFrom(p: Policy, s: Snapshot, cs: seq<Candidate>, salvage: bool,
                        reply: Reply): (kept: seq<Option<Decision>>)
    ensures |kept| == |cs|
  {
    if salvage then SalvagedResponse(p, s, cs, Rows(reply)) else Nothing(|cs|)
  }

  predicate Readable(cs: seq<Candidate>, reply: Reply) {
    reply.Response? && RowsMatch(cs, reply.rows) && forall row | row in reply.rows :: row.decision.Some?
  }

  function Given(cs: seq<Candidate>, reply: Reply): (ds: seq<Decision>)
    requires Readable(cs, reply)
    ensures |ds| == |cs|
  {
    seq(|cs|, i requires 0 <= i < |cs| => reply.rows[i].decision.value)
  }

  predicate Acceptable(p: Policy, s: Snapshot, cs: seq<Candidate>, reply: Reply) {
    Readable(cs, reply) && BatchOk(p, s, cs, Given(cs, reply))
  }

  // What a call comes to.  Legacy calls retain nothing from a rejected response.
  function Verdict(p: Policy, s: Snapshot, cs: seq<Candidate>, ordered: bool, reply: Reply): (r: Comparison)
    ensures r.Compared? ==> |r.decisions| == |cs|
    ensures r.Invalid? ==> |r.retained| == |cs|
  {
    if Acceptable(p, s, cs, reply) then Compared(NormalizedBatch(p, s, cs, Given(cs, reply)))
    else match reply
      case Foreign => Escaped
      case ProviderFault => Faulted
      case Truncated => CutOff
      case PromptTooLarge => Invalid(Nothing(|cs|), true)
      case _ => Invalid(RetainedFrom(p, s, cs, ordered, reply), false)
  }

  lemma VerdictMeans(p: Policy, s: Snapshot, cs: seq<Candidate>, ordered: bool, reply: Reply)
    ensures var r := Verdict(p, s, cs, ordered, reply);
      && (r.Compared? <==> Acceptable(p, s, cs, reply))
      && (r.Compared? ==> r.decisions == NormalizedBatch(p, s, cs, Given(cs, reply)))
      && (r.Invalid? ==> r.retained == RetainedFrom(p, s, cs, ordered && !r.tooLarge, reply))
  {
  }

  /** compare_batch: an acceptable reply is handed back normalised, in full; from any other
      response the independently valid decisions are retained. */
  method CompareBatch(p: Policy, entries: seq<Entry>, cs: seq<Candidate>, ordered: bool, reply: Reply)
    returns (r: Comparison)
    requires Loadable(entries) && DistinctCandidates(cs) && FreshFor(Loaded(entries), cs)
    ensures r == Verdict(p, Loaded(entries), cs, ordered, reply)
  {
    hide BatchOk, NormalizedBatch, SalvagedResponse, Loaded, Loadable, FreshFor, DistinctCandidates;
    match reply {
      case Foreign => return Escaped;
      case ProviderFault => return Faulted;
      case Truncated => return CutOff;
      case PromptTooLarge => return Invalid(Nothing(|cs|), true);
      case _ =>
    }
    var payload := Rows(reply);
    if payload.Some? && RowsMatch(cs, payload.value) && forall row | row in payload.value :: row.decision.Some? {
      var ds := seq(|cs|, i requires 0 <= i < |cs| => payload.value[i].decision.value);
      assert ds == Given(cs, reply);
      var ok := ValidateBatch(p, entries, cs, ds);
      if ok {
        LoadedIsCoherent(entries);
        ValidatedBatchApplies(p, Loaded(entries), Loaded(entries), Loaded(entries), cs, ds);
        var ns := NormalizeBatch(p, entries, cs, ds);
        return Compared(ns.value);
      }
    }
    var retained := Nothing(|cs|);
    if ordered {
      retained := IndependentDecisions(p, entries, cs, payload);
    }
    r := Invalid(retained, false);
  }

  // ----- what has been reported so far -----------------------------------------

  datatype Reported = Reported(candidate: Candidate, decision: Decision, dependencies: set<CandidateRef>)

  function Moves(rs: seq<Reported>): seq<Move> {
    seq(|rs|, i requires 0 <= i < |rs| => Move(rs[i].candidate, rs[i].decision))
  }

  function Refs(rs: seq<Reported>): seq<CandidateRef> {
    seq(|rs|, i requires 0 <= i < |rs| => rs[i].candidate.index)
  }

  function CandidateRefs(cs: seq<Candidate>): seq<CandidateRef> {
    seq(|cs|, i requires 0 <= i < |cs| => cs[i].index)
  }

  // The reported decisions are an accepted run from the initial snapshot that ends
  // in s, with the dependencies the run records.
  ghost predicate IsRun(p: Policy, initial: Snapshot, rs: seq<Reported>, s: Snapshot) {
    var os := Outcomes(p, initial, Moves(rs));
    && AllApplied(p, initial, Moves(rs)) && Final(p, initial, Moves(rs)) == s
    && forall i | 0 <= i < |rs| :: rs[i].dependencies == Recorded(os, i)
  }

  // Each of these candidates is reported once, as a decision or as a failure, and
  // decisions stay in source order.
  ghost predicate Covers(cs: seq<Candidate>, rs: seq<Reported>, failures: seq<CandidateRef>) {
    && multiset(Refs(rs) + failures) == multiset(CandidateRefs(cs))
    && Ascending(Refs(rs))
  }

  ghost predicate Progress(p: Policy, initial: Snapshot, s: Snapshot, cs: seq<Candidate>, k: nat, rs: seq<Reported>,
                           failures: seq<CandidateRef>)
    requires k <= |cs|
  {
    && Coherent(s) && FreshFor(s, cs[k..])
    && IsRun(p, initial, rs, s) && Covers(cs[..k], rs, failures)
  }

  lemma RefsAppend(rs: seq<Reported>, r: Reported)
    ensures Refs(rs + [r]) == Refs(rs) + [r.candidate.index]
    ensures Moves(rs + [r]) == Moves(rs) + [Move(r.candidate, r.decision)]
  {
  }

  lemma CandidateRefsAppend(cs: seq<Candidate>, k: nat)
    requires k < |cs|
    ensures CandidateRefs(cs[..k + 1]) == CandidateRefs(cs[..k]) + [cs[k].index]
  {
  }

  lemma IsRunAppend(p: Policy, initial: Snapshot, rs: seq<Reported>, s: Snapshot, c: Candidate, d: Decision)
    requires IsRun(p, initial, rs, s) && Step(p, s, c, d).1.Applied?
    ensures IsRun(p, initial, rs + [Reported(c, d, Step(p, s, c, d).1.dependencies)], Step(p, s, c, d).0)
  {
    hide Step;
    var r := Reported(c, d, Step(p, s, c, d).1.dependencies);
    RefsAppend(rs, r);
    RunAppend(p, initial, Moves(rs), Move(c, d));
    var os, os' := Outcomes(p, initial, Moves(rs)), Outcomes(p, initial, Moves(rs + [r]));
    forall i | 0 <= i < |rs| + 1 ensures (rs + [r])[i].dependencies == Recorded(os', i) {
      if i < |rs| { assert os'[i] == os[i] && Recorded(os', i) == Recorded(os, i); }
    }
  }

  lemma CoversDecision(cs: seq<Candidate>, k: nat, rs: seq<Reported>, failures: seq<CandidateRef>, r: Reported)
    requires k < |cs| && Covers(cs[..k], rs, failures) && r.candidate == cs[k]
    requires Ascending(CandidateRefs(cs))
    ensures Covers(cs[..k + 1], rs + [r], failures)
  {
    RefsAppend(rs, r);
    CandidateRefsAppend(cs, k);
    assert multiset(Refs(rs + [r]) + failures) == multiset(Refs(rs) + failures) + multiset{cs[k].index};
    forall i | 0 <= i < |rs| ensures Refs(rs)[i] < cs[k].index {
      assert Refs(rs)[i] in multiset(Refs(rs) + failures);
      var j :| 0 <= j < k && CandidateRefs(cs[..k])[j] == Refs(rs)[i];
      assert CandidateRefs(cs)[j] < CandidateRefs(cs)[k];
    }
  }

  lemma CoversFailure(cs: seq<Candidate>, k: nat, rs: seq<Reported>, failures: seq<CandidateRef>)
    requires k < |cs| && Covers(cs[..k], rs, failures)
    ensures Covers(cs[..k + 1], rs, failures + [cs[k].index])
  {
    CandidateRefsAppend(cs, k);
    assert Refs(rs) + (failures + [cs[k].index]) == (Refs(rs) + failures) + [cs[k].index];
  }

  lemma ProgressDecided(p: Policy, initial: Snapshot, s: Snapshot, cs: seq<Candidate>, k: nat, rs: seq<Reported>,
                        failures: seq<CandidateRef>, d: Decision)
    requires k < |cs| && Progress(p, initial, s, cs, k, rs, failures) && Ascending(CandidateRefs(cs))
    requires Step(p, s, cs[k], d).1.Applied?
    ensures var (s', o) := Step(p, s, cs[k], d);
      Progress(p, initial, s', cs, k + 1, rs + [Reported(cs[k], d, o.dependencies)], failures)
  {
    hide Step, Covers, IsRun, Coherent;
    var r := Reported(cs[k], d, Step(p, s, cs[k], d).1.dependencies);
    DistinctSuffix(cs, k);
    assert cs[k..][0] == cs[k] && cs[k..][1..] == cs[k + 1..];
    FreshTail(p, s, cs[k..], d);
    IsRunAppend(p, initial, rs, s, cs[k], d);
    CoversDecision(cs, k, rs, failures, r);
  }

  lemma ProgressFailed(p: Policy, initial: Snapshot, s: Snapshot, cs: seq<Candidate>, k: nat, rs: seq<Reported>,
                       failures: seq<CandidateRef>)
    requires k < |cs| && Progress(p, initial, s, cs, k, rs, failures)
    ensures Progress(p, initial, s, cs, k + 1, rs, failures + [cs[k].index])
  {
    hide IsRun, Covers, Coherent;
    CoversFailure(cs, k, rs, failures);
    assert cs[k..][1..] == cs[k + 1..];
    assert forall c | c in cs[k + 1..] :: c in cs[k..];
  }

  lemma DistinctSuffix(cs: seq<Candidate>, k: nat)
    requires k <= |cs| && Ascending(CandidateRefs(cs))
    ensures DistinctCandidates(cs[k..])
    ensures forall m | k <= m <= |cs| :: DistinctCandidates(cs[k..m])
  {
    forall i, j | 0 <= i < j < |cs| ensures cs[i].index < cs[j].index {
      assert CandidateRefs(cs)[i] < CandidateRefs(cs)[j];
    }
  }

  // ----- why each candidate was decided or failed ---------------------------------

  // What the driver meets: the provider's replies, and which prompts fit.  No two calls of
  // one batch are about the same candidates, so a function covers every provider; a prompt
  // may be counted again, but its size is a function of the entries and the candidates.
  datatype World = World(
    reply: (map<SnapshotRef, Entry>, seq<Candidate>) -> Reply,
    fits: (map<SnapshotRef, Entry>, seq<Candidate>) -> bool,
    contextFits: (map<SnapshotRef, Entry>, seq<Candidate>) -> bool)

  datatype Setting = Setting(policy: Policy, ordered: bool, world: World, candidates: seq<Candidate>)

  // What a call for some candidates comes to in a given state of the projection.
  function Heard(g: Setting, s: Snapshot, cs: seq<Candidate>): (heard: Comparison)
    ensures heard.Compared? ==> |heard.decisions| == |cs|
    ensures heard.Invalid? ==> |heard.retained| == |cs|
  {
    Verdict(g.policy, Throwaway(s), cs, g.ordered, g.world.reply(s.entries, cs))
  }

  predicate Offers(heard: Comparison, m: int, d: Decision) {
    || (heard.Compared? && 0 <= m < |heard.decisions| && heard.decisions[m] == d)
    || (heard.Invalid? && 0 <= m < |heard.retained| && heard.retained[m] == Some(d))
  }

  // The state of the projection once the first n decisions were reported.
  function StateAfter(g: Setting, initial: Snapshot, rs: seq<Reported>, n: nat): Snapshot
    requires n <= |rs|
  {
    Final(g.policy, initial, Moves(rs[..n]))
  }

  predicate ContextFails(g: Setting, s: Snapshot, k: nat) {
    k <= |g.candidates| && !g.world.contextFits(s.entries, g.candidates[k..])
  }

  // A call of the main loop, one of several candidates that is halved, or a call that asks
  // again about one candidate of a rejected list.
  datatype CallKind = Whole | Halved | Retry

  // What the driver found out, after `made` decisions and in front of candidate `at`: the
  // answer to a call for candidates at..end, that the candidate alone does not fit, or that
  // the context of all candidates from this one on does not.
  datatype Event =
    | Asked(made: nat, at: nat, end: nat, kind: CallKind)
    | TooLong(made: nat, at: nat)
    | NoRoom(made: nat, at: nat)

  function Calls(log: seq<Event>): nat {
    if log == [] then 0 else Calls(log[..|log| - 1]) + if log[|log| - 1].Asked? then 1 else 0
  }

  lemma CallsOneMore(log: seq<Event>, e: Event)
    ensures Calls(log + [e]) == Calls(log) + if e.Asked? then 1 else 0
  {
    assert (log + [e])[..|log|] == log;
  }

  // When the event took place, exactly the candidates in front of it had been reported.
  ghost predicate InTurn(g: Setting, rs: seq<Reported>, failures: seq<CandidateRef>, e: Event) {
    && e.made <= e.at < |g.candidates| && e.made <= |rs| && e.at - e.made <= |failures|
    && Covers(g.candidates[..e.at], rs[..e.made], failures[..e.at - e.made])
    && (e.Asked? ==> e.at < e.end <= |g.candidates|)
  }

  // Decision i is what the call offered for candidate j.
  ghost predicate SourcedBy(g: Setting, initial: Snapshot, rs: seq<Reported>, i: nat, e: Event, j: nat) {
    && e.Asked? && e.made <= i < |rs| && e.at <= j < e.end <= |g.candidates| && rs[i].candidate == g.candidates[j]
    && Offers(Heard(g, StateAfter(g, initial, rs, e.made), g.candidates[e.at..e.end]), j - e.at, rs[i].decision)
  }

  ghost predicate Sourced(g: Setting, initial: Snapshot, rs: seq<Reported>, log: seq<Event>, i: nat) {
    exists e, j :: e in log && SourcedBy(g, initial, rs, i, e, j)
  }

  // In state s the event leaves candidate j without a decision: a call for it alone has no
  // acceptable answer, it does not fit, or the context it needs is too large.
  ghost predicate Hopeless(g: Setting, s: Snapshot, e: Event, j: nat)
    requires j < |g.candidates|
  {
    match e
    case Asked(_, at, end, _) => at == j && end == j + 1 && !Heard(g, s, [g.candidates[j]]).Compared?
    case TooLong(_, at) => at == j && !g.world.fits(s.entries, [g.candidates[j]])
    case NoRoom(_, at) => at <= j && ContextFails(g, s, at)
  }

  ghost predicate BlamedAt(g: Setting, initial: Snapshot, rs: seq<Reported>, a: CandidateRef, e: Event, j: nat) {
    && e.made <= |rs| && j < |g.candidates| && g.candidates[j].index == a
    && Hopeless(g, StateAfter(g, initial, rs, e.made), e, j)
  }

  ghost predicate Blamed(g: Setting, initial: Snapshot, rs: seq<Reported>, log: seq<Event>, a: CandidateRef) {
    exists e, j :: e in log && BlamedAt(g, initial, rs, a, e, j)
  }

  // Everything that happened came in its turn, every decision is from one of the calls, and
  // every failure has its cause in one of the events.
  ghost predicate Justified(g: Setting, initial: Snapshot, rs: seq<Reported>, failures: seq<CandidateRef>,
                            log: seq<Event>)
  {
    && (forall i: nat | i < |rs| :: Sourced(g, initial, rs, log, i))
    && (forall a | a in failures :: Blamed(g, initial, rs, log, a))
    && (forall e | e in log :: InTurn(g, rs, failures, e))
  }

  lemma StillSourced(g: Setting, initial: Snapshot, rs: seq<Reported>, r: Reported, log: seq<Event>, i: nat)
    requires i < |rs| && Sourced(g, initial, rs, log, i)
    ensures Sourced(g, initial, rs + [r], log, i)
  {
    hide Offers, Heard, StateAfter;
    var e, j :| e in log && SourcedBy(g, initial, rs, i, e, j);
    StateAfterPrefix(g, initial, rs, r, e.made);
    assert SourcedBy(g, initial, rs + [r], i, e, j);
  }

  lemma StillBlamed(g: Setting, initial: Snapshot, rs: seq<Reported>, r: Reported, log: seq<Event>, a: CandidateRef)
    requires Blamed(g, initial, rs, log, a)
    ensures Blamed(g, initial, rs + [r], log, a)
  {
    hide Hopeless, StateAfter;
    var e, j :| e in log && BlamedAt(g, initial, rs, a, e, j);
    StateAfterPrefix(g, initial, rs, r, e.made);
    assert BlamedAt(g, initial, rs + [r], a, e, j);
  }

  lemma StillInTurn(g: Setting, rs: seq<Reported>, failures: seq<CandidateRef>, more: seq<Reported>,
                    lost: seq<CandidateRef>, e: Event)
    requires InTurn(g, rs, failures, e)
    ensures InTurn(g, rs + more, failures + lost, e)
  {
    hide Covers;
    assert (rs + more)[..e.made] == rs[..e.made];
    assert (failures + lost)[..e.at - e.made] == failures[..e.at - e.made];
  }

  lemma DecisionIsJustified(g: Setting, initial: Snapshot, rs: seq<Reported>, failures: seq<CandidateRef>,
                            log: seq<Event>, r: Reported, e: Event, j: nat)
    requires Justified(g, initial, rs, failures, log) && e in log && e.Asked? && e.made <= |rs|
    requires e.at <= j < e.end <= |g.candidates| && r.candidate == g.candidates[j]
    requires Offers(Heard(g, StateAfter(g, initial, rs, e.made), g.candidates[e.at..e.end]), j - e.at, r.decision)
    ensures Justified(g, initial, rs + [r], failures, log)
  {
    hide Offers, Heard, StateAfter, InTurn, Sourced, Blamed;
    forall i: nat | i < |rs + [r]| ensures Sourced(g, initial, rs + [r], log, i) {
      if i == |rs| {
        StateAfterPrefix(g, initial, rs, r, e.made);
        SourceKnown(g, initial, rs + [r], log, i, e, j);
      } else {
        StillSourced(g, initial, rs, r, log, i);
      }
    }
    forall a | a in failures ensures Blamed(g, initial, rs + [r], log, a) { StillBlamed(g, initial, rs, r, log, a); }
    assert failures + [] == failures;
    forall other | other in log
      ensures InTurn(g, rs + [r], failures, other) { StillInTurn(g, rs, failures, [r], [], other); }
  }

  lemma SourceKnown(g: Setting, initial: Snapshot, rs: seq<Reported>, log: seq<Event>, i: nat, e: Event, j: nat)
    requires e in log && SourcedBy(g, initial, rs, i, e, j)
    ensures Sourced(g, initial, rs, log, i)
  {
  }

  lemma StateAfterPrefix(g: Setting, initial: Snapshot, rs: seq<Reported>, r: Reported, n: nat)
    requires n <= |rs|
    ensures StateAfter(g, initial, rs + [r], n) == StateAfter(g, initial, rs, n)
  {
    assert (rs + [r])[..n] == rs[..n];
  }

  lemma FailureIsJustified(g: Setting, initial: Snapshot, rs: seq<Reported>, failures: seq<CandidateRef>,
                           log: seq<Event>, e: Event, j: nat)
    requires Justified(g, initial, rs, failures, log) && e in log && e.made <= |rs|
    requires j < |g.candidates| && Hopeless(g, StateAfter(g, initial, rs, e.made), e, j)
    ensures Justified(g, initial, rs, failures + [g.candidates[j].index], log)
  {
    hide Hopeless, Sourced, InTurn, StateAfter;
    assert BlamedAt(g, initial, rs, g.candidates[j].index, e, j);
    assert rs + [] == rs;
    forall other | other in log ensures InTurn(g, rs, failures + [g.candidates[j].index], other) {
      StillInTurn(g, rs, failures, [], [g.candidates[j].index], other);
    }
  }

  lemma EventIsJustified(g: Setting, initial: Snapshot, rs: seq<Reported>, failures: seq<CandidateRef>, log: seq<Event>,
                         e: Event)
    requires Justified(g, initial, rs, failures, log) && e.made == |rs| && e.at < |g.candidates|
    requires Covers(g.candidates[..e.at], rs, failures) && (e.Asked? ==> e.at < e.end <= |g.candidates|)
    ensures Justified(g, initial, rs, failures, log + [e])
  {
    hide SourcedBy, BlamedAt;
    var refs, cs := Refs(rs) + failures, g.candidates[..e.at];
    assert |multiset(refs)| == |refs| && |multiset(CandidateRefs(cs))| == |cs|;
    assert rs[..e.made] == rs && failures[..e.at - e.made] == failures;
    forall i: nat | i < |rs| ensures Sourced(g, initial, rs, log + [e], i) {
      assert Sourced(g, initial, rs, log, i);
    }
    forall a | a in failures ensures Blamed(g, initial, rs, log + [e], a) {
      assert Blamed(g, initial, rs, log, a);
    }
  }
}
