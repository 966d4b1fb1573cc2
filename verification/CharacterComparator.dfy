/**
 Batch validation, normalisation and salvage of
 app/analysis/character_fact_comparator.py.

 The comparator checks a provider response on throwaway projection states built
 from the caller's active entries.  The theorems say what that buys the caller's
 long-lived state: an accepted batch cannot be refused there, and the decisions
 salvaged from a rejected response still apply whatever happens, in between, to
 the candidates that have to be retried.
 */
module CharacterComparator {
  import opened Options
  import opened CharacterProjection

  // ----- one decision --------------------------------------------------------

  // validate_resolved_canonical_fact_key
  predicate ResolvedKeyOk(p: Policy, c: Candidate, d: Decision) {
    if c.resolution == PATTERN && c.factType == STATUS then p.canonicalStatusKey(d.resolvedKey)
    else d.resolvedKey == c.initialKey
  }

  // validate_narrative_time_choice
  predicate NarrativeTimeOk(c: Candidate, d: Decision) {
    d.advancesTime ==>
      d.scope == PRESENT && d.operation != REVIEW_REQUIRED && c.hasReferenceTime && c.referenceTimeLocated
  }

  predicate ReasonOk(p: Policy, entries: map<SnapshotRef, Entry>, d: Decision) {
    p.reasonAllowed(d.reason, d.resolvedKey, entries.Keys, set r | r in entries :: entries[r].slot.factKey)
  }

  predicate DecisionOk(p: Policy, s: Snapshot, c: Candidate, d: Decision) {
    && NarrativeTimeOk(c, d) && ResolvedKeyOk(p, c, d) && ReasonOk(p, s.entries, d)
    && Step(p, s, c, d).1.Applied?
  }

  // The scalar proposal takes its display text from the typed value, and the
  // reason loses its internal references.
  function Normalized(p: Policy, entries: map<SnapshotRef, Entry>, c: Candidate, d: Decision): Decision {
    var proposal := match d.proposal
      case None => None
      case Some(q) => match DisplayValue(c.valueType, q.valueJson, q.factValue)
        case None => d.proposal
        case Some(text) => Some(q.(factValue := text));
    d.(proposal := proposal, reason := p.displayReason(d.reason, entries))
  }

  /** Normalisation changes neither acceptance nor the effect on any slot. */
  lemma NormalizationIsHarmless(p: Policy, s: Snapshot, c: Candidate, d: Decision, es: map<SnapshotRef, Entry>)
    requires Coherent(s)
    ensures var n := Normalized(p, es, c, d);
      && n.operation == d.operation && n.resolvedKey == d.resolvedKey
      && (Accepts(p, s.entries, c, n) <==> Accepts(p, s.entries, c, d))
      && Reads(s, c, n) == Reads(s, c, d) && Touched(s, c, n) == Touched(s, c, d)
      && DependenciesFor(s, c, n) == DependenciesFor(s, c, d)
      && SameFact(NewEntry(p, s, c, d), NewEntry(p, s, c, n))
  {
    var n := Normalized(p, es, c, d);
    assert RemovedSet(n) == RemovedSet(d) && Requested(n) == Requested(d) && OwnSlot(c, n) == OwnSlot(c, d);
    assert WellAimed(s.entries, c, n) <==> WellAimed(s.entries, c, d);
    if Requested(d) <= s.entries.Keys {
      assert Permitted(p, s.entries, c, n) <==> Permitted(p, s.entries, c, d);
    }
  }

  /** The display text of a number or a truth value becomes the canonical text of its typed
      value; any other text stays, and so does everything else but the reason. */
  lemma NormalizedText(p: Policy, entries: map<SnapshotRef, Entry>, c: Candidate, d: Decision)
    ensures var n := Normalized(p, entries, c, d);
      && n.(proposal := d.proposal, reason := d.reason) == d && n.reason == p.displayReason(d.reason, entries)
      && (n.proposal.Some? <==> d.proposal.Some?)
      && (d.proposal.Some? ==>
        var (q, typed) := (n.proposal.value, d.proposal.value.valueJson.typed);
        && q.valueJson == d.proposal.value.valueJson
        && (c.valueType == NUMBER && typed.NumberField? ==> q.factValue == typed.json)
        && (c.valueType == BOOLEAN && typed.BooleanField? ==> q.factValue == if typed.flag then "true" else "false")
        && (c.valueType != NUMBER && c.valueType != BOOLEAN ==> q.factValue == d.proposal.value.factValue))
  {
  }

  // ----- whole batches -------------------------------------------------------

  // _validate_batch_comparison_result, after the coverage check.
  predicate BatchOk(p: Policy, s: Snapshot, cs: seq<Candidate>, ds: seq<Decision>)
    decreases |cs|
  {
    && |ds| == |cs|
    && (cs != [] ==> DecisionOk(p, s, cs[0], ds[0]) && BatchOk(p, Step(p, s, cs[0], ds[0]).0, cs[1..], ds[1..]))
  }

  // _normalize_batch_comparison_result: each decision is normalised against the
  // entries that the normalised decisions before it produced.
  function NormalizedBatch(p: Policy, s: Snapshot, cs: seq<Candidate>, ds: seq<Decision>): (ns: seq<Decision>)
    requires |ds| == |cs|
    ensures |ns| == |cs|
    decreases |cs|
  {
    if cs == [] then []
    else
      var n := Normalized(p, s.entries, cs[0], ds[0]);
      [n] + NormalizedBatch(p, Step(p, s, cs[0], n).0, cs[1..], ds[1..])
  }

  // Every decision applies, one after the other.
  predicate AppliesInOrder(p: Policy, s: Snapshot, cs: seq<Candidate>, ds: seq<Decision>)
    decreases |cs|
  {
    && |ds| == |cs|
    && (cs != [] ==>
      var (s', o) := Step(p, s, cs[0], ds[0]);
      o.Applied? && AppliesInOrder(p, s', cs[1..], ds[1..]))
  }

  ghost predicate DistinctCandidates(cs: seq<Candidate>) {
    forall i, j :: 0 <= i < j < |cs| ==> cs[i].index != cs[j].index
  }

  ghost predicate FreshFor(s: Snapshot, cs: seq<Candidate>) {
    forall c | c in cs :: Projected(c.index) !in s.entries
  }

  lemma FreshTail(p: Policy, s: Snapshot, cs: seq<Candidate>, d: Decision)
    requires Coherent(s) && cs != [] && DistinctCandidates(cs) && FreshFor(s, cs)
    ensures var s' := Step(p, s, cs[0], d).0;
      && Coherent(s') && FreshFor(s', cs[1..]) && FreshFor(s, cs[1..]) && DistinctCandidates(cs[1..])
      && Projected(cs[0].index) !in s.entries
  {
    hide Step;
    assert cs[0] in cs;
    StepIsAtomic(p, s, cs[0], d);
    forall c | c in cs[1..] ensures c in cs && c.index != cs[0].index {
      var i :| 0 <= i < |cs| - 1 && cs[1..][i] == c;
      assert cs[i + 1] == c;
    }
  }

  // Two snapshots with the same facts; only texts and recorded dependencies may differ.
  ghost predicate SameFacts(f: Snapshot, g: Snapshot)
    requires Coherent(f) && Coherent(g)
  {
    forall t :: Similar(CellAt(f, t), CellAt(g, t))
  }

  lemma NextCellSimilar(p: Policy, f: Snapshot, g: Snapshot, c: Candidate, d: Decision, n: Decision, t: Slot)
    requires Coherent(f) && Coherent(g) && Similar(CellAt(f, t), CellAt(g, t))
    requires Touched(f, c, d) == Touched(g, c, n) && n.operation == d.operation
    requires SameFact(NewEntry(p, f, c, d), NewEntry(p, g, c, n))
    ensures Similar(NextCell(p, f, c, d, t), NextCell(p, g, c, n, t))
  {
    hide NewEntry, Touched, DependenciesFor;
  }

  lemma SimilarStep(p: Policy, f: Snapshot, g: Snapshot, c: Candidate, d: Decision, es: map<SnapshotRef, Entry>)
    requires Coherent(f) && Coherent(g) && SameFacts(f, g)
    requires Projected(c.index) !in f.entries && Projected(c.index) !in g.entries
    requires Accepts(p, f.entries, c, d)
    ensures var n := Normalized(p, es, c, d);
      && Accepts(p, g.entries, c, n) && Step(p, g, c, n).1.Applied?
      && Coherent(Step(p, f, c, d).0) && Coherent(Step(p, g, c, n).0)
      && SameFacts(Step(p, f, c, d).0, Step(p, g, c, n).0)
  {
    hide Step, Accepts, Normalized, NewEntry, Touched, Reads, NextCell, DependenciesFor;
    var n := Normalized(p, es, c, d);
    assert ReadsAgree(f, g, c, d);
    StepTransfers(p, f, g, c, d);
    NormalizationIsHarmless(p, g, c, d, es);
    StepIsAtomic(p, f, c, d);
    StepIsAtomic(p, g, c, n);
    var f', g' := Step(p, f, c, d).0, Step(p, g, c, n).0;
    forall t ensures Similar(CellAt(f', t), CellAt(g', t)) {
      NextCellSimilar(p, f, g, c, d, n, t);
    }
  }

  lemma {:induction false} ValidatedBatchApplies(p: Policy, f: Snapshot, n: Snapshot, g: Snapshot, cs: seq<Candidate>,
                                                 ds: seq<Decision>)
    requires Coherent(f) && Coherent(n) && Coherent(g) && SameFacts(f, n) && SameFacts(f, g)
    requires DistinctCandidates(cs) && FreshFor(f, cs) && FreshFor(n, cs) && FreshFor(g, cs)
    requires BatchOk(p, f, cs, ds)
    ensures AppliesInOrder(p, n, cs, NormalizedBatch(p, n, cs, ds))
    ensures AppliesInOrder(p, g, cs, NormalizedBatch(p, n, cs, ds))
    decreases |cs|
  {
    hide Step, Accepts, SameFacts, Normalized, Coherent, ReasonOk;
    if cs != [] {
      var c, d := cs[0], ds[0];
      var d' := Normalized(p, n.entries, c, d);
      FreshTail(p, f, cs, d);
      FreshTail(p, n, cs, d');
      FreshTail(p, g, cs, d');
      StepIsAtomic(p, f, c, d);
      SimilarStep(p, f, n, c, d, n.entries);
      SimilarStep(p, f, g, c, d, n.entries);
      ValidatedBatchApplies(p, Step(p, f, c, d).0, Step(p, n, c, d').0, Step(p, g, c, d').0, cs[1..], ds[1..]);
      var ns := NormalizedBatch(p, n, cs, ds);
      assert ns[0] == d' && ns[1..] == NormalizedBatch(p, Step(p, n, c, d').0, cs[1..], ds[1..]);
    }
  }

  lemma ThrowawayKeepsFacts(s: Snapshot)
    requires Coherent(s)
    ensures Coherent(Throwaway(s)) && SameFacts(Throwaway(s), s)
  {
  }

  /** Validity depends on the active entries only: a batch that the comparator
      accepts on states rebuilt from the entries is accepted, once normalised, by
      its own normalisation pass and by the state that also carries absences. */
  lemma AcceptedBatchAppliesToCaller(p: Policy, s: Snapshot, cs: seq<Candidate>, ds: seq<Decision>)
    requires Coherent(s) && DistinctCandidates(cs) && FreshFor(s, cs)
    requires BatchOk(p, Throwaway(s), cs, ds)
    ensures AppliesInOrder(p, Throwaway(s), cs, NormalizedBatch(p, Throwaway(s), cs, ds))
    ensures AppliesInOrder(p, s, cs, NormalizedBatch(p, Throwaway(s), cs, ds))
  {
    ThrowawayKeepsFacts(s);
    ValidatedBatchApplies(p, Throwaway(s), Throwaway(s), s, cs, ds);
  }

  // ----- salvage -------------------------------------------------------------

  // What a failed candidate may have affected: its fixed slot, or everything after it.
  datatype Blocked = Blocked(slots: set<Slot>, rest: bool)

  function FixedSlot(c: Candidate): Slot {
    Slot(c.factType, c.initialKey)
  }

  function AfterFailure(b: Blocked, c: Candidate): Blocked {
    Blocked(b.slots + {FixedSlot(c)}, c.factType == STATUS || c.hasReferenceTime)
  }

  predicate Skips(b: Blocked, c: Candidate) {
    b.rest || FixedSlot(c) in b.slots
  }

  // A row that parses, passes the comparator alone, and applies once normalised.
  predicate RowOk(p: Policy, s: Snapshot, c: Candidate, row: Option<Decision>) {
    && row.Some?
    && DecisionOk(p, Throwaway(s), c, row.value)
    && Step(p, Throwaway(s), c, Normalized(p, s.entries, c, row.value)).1.Applied?
    && Step(p, s, c, Normalized(p, s.entries, c, row.value)).1.Applied?
  }

  // _independent_ordered_decisions, from the rows onwards.
  function Salvaged(p: Policy, s: Snapshot, cs: seq<Candidate>, rows: seq<Option<Decision>>,
                    b: Blocked): (kept: seq<Option<Decision>>)
    requires |rows| == |cs|
    ensures |kept| == |cs|
    decreases |cs|
  {
    if cs == [] then []
    else if Skips(b, cs[0]) then [None] + Salvaged(p, s, cs[1..], rows[1..], b)
    else if RowOk(p, s, cs[0], rows[0]) then
      var n := Normalized(p, s.entries, cs[0], rows[0].value);
      [Some(n)] + Salvaged(p, Step(p, s, cs[0], n).0, cs[1..], rows[1..], b)
    else [None] + Salvaged(p, s, cs[1..], rows[1..], AfterFailure(b, cs[0]))
  }

  ghost predicate OnlyFixed(b: Blocked) {
    forall t | t in b.slots :: t.factType != STATUS
  }

  lemma {:induction false} RetainedIsOpen(p: Policy, s: Snapshot, cs: seq<Candidate>, rows: seq<Option<Decision>>,
                                          b: Blocked, j: nat)
    requires |rows| == |cs| && j < |cs| && Salvaged(p, s, cs, rows, b)[j].Some?
    ensures !b.rest && Slot(cs[j].factType, cs[j].initialKey) !in b.slots
    decreases |cs|
  {
    hide RowOk, Step, Normalized;
    if j > 0 {
      RowHasDecision(p, s, cs[0], rows[0]);
      if Skips(b, cs[0]) {
        RetainedIsOpen(p, s, cs[1..], rows[1..], b, j - 1);
      } else if RowOk(p, s, cs[0], rows[0]) {
        RetainedIsOpen(p, Step(p, s, cs[0], Normalized(p, s.entries, cs[0], rows[0].value)).0, cs[1..], rows[1..], b,
                       j - 1);
      } else {
        RetainedIsOpen(p, s, cs[1..], rows[1..], AfterFailure(b, cs[0]), j - 1);
      }
    }
  }

  ghost predicate SlotFailedBefore(cs: seq<Candidate>, kept: seq<Option<Decision>>, i: nat) {
    exists h: nat :: h < i < |cs| && h < |kept| && kept[h].None?
      && cs[h].factType == cs[i].factType && cs[h].initialKey == cs[i].initialKey
  }

  lemma FailedBeforeInTail(cs: seq<Candidate>, kept: seq<Option<Decision>>, i: nat)
    requires 0 < i && cs != [] && kept != [] && SlotFailedBefore(cs[1..], kept[1..], i - 1)
    ensures SlotFailedBefore(cs, kept, i)
  {
    var h: nat :| h < i - 1 < |cs[1..]| && h < |kept[1..]| && kept[1..][h].None?
      && cs[1..][h].factType == cs[1..][i - 1].factType && cs[1..][h].initialKey == cs[1..][i - 1].initialKey;
    assert kept[h + 1].None? && cs[h + 1] == cs[1..][h] && cs[i] == cs[1..][i - 1];
  }

  /** A candidate without a retained decision closes its own slot for all that come later; a
      STATUS ends the salvage, and so does one with a reference time, unless its slot was
      closed before. */
  lemma {:induction false} FailureCloses(p: Policy, s: Snapshot, cs: seq<Candidate>, rows: seq<Option<Decision>>,
                                         b: Blocked, i: nat, j: nat)
    requires |rows| == |cs| && i < j < |cs| && OnlyFixed(b)
    requires Salvaged(p, s, cs, rows, b)[i].None? && Salvaged(p, s, cs, rows, b)[j].Some?
    ensures cs[i].factType != STATUS && (cs[i].factType != cs[j].factType || cs[i].initialKey != cs[j].initialKey)
    ensures cs[i].hasReferenceTime ==>
      Slot(cs[i].factType, cs[i].initialKey) in b.slots || SlotFailedBefore(cs, Salvaged(p, s, cs, rows, b), i)
    decreases |cs|
  {
    hide RowOk, Step, Normalized;
    var kept := Salvaged(p, s, cs, rows, b);
    RowHasDecision(p, s, cs[0], rows[0]);
    RetainedIsOpen(p, s, cs, rows, b, j);
    var s' := if !Skips(b, cs[0]) && RowOk(p, s, cs[0], rows[0])
      then Step(p, s, cs[0], Normalized(p, s.entries, cs[0], rows[0].value)).0 else s;
    var b' := if !Skips(b, cs[0]) && !RowOk(p, s, cs[0], rows[0]) then AfterFailure(b, cs[0]) else b;
    assert kept[1..] == Salvaged(p, s', cs[1..], rows[1..], b');
    RetainedIsOpen(p, s', cs[1..], rows[1..], b', j - 1);
    if i > 0 {
      FailureCloses(p, s', cs[1..], rows[1..], b', i - 1, j - 1);
      if cs[i].hasReferenceTime {
        if SlotFailedBefore(cs[1..], kept[1..], i - 1) {
          FailedBeforeInTail(cs, kept, i);
        } else if b' != b && cs[i].factType == cs[0].factType && cs[i].initialKey == cs[0].initialKey {
          assert kept[0].None?;
        }
      }
    }
  }

  // What the retry of a skipped candidate may do to the caller's state: nothing,
  // or one decision that passed the comparator on the caller's entries.
  predicate RetryOk(p: Policy, s: Snapshot, c: Candidate, retry: Option<Decision>) {
    retry.Some? ==> ResolvedKeyOk(p, c, retry.value) && Accepts(p, s.entries, c, retry.value)
  }

  function AfterRetry(p: Policy, s: Snapshot, c: Candidate, retry: Option<Decision>): Snapshot {
    if retry.Some? then Step(p, s, c, retry.value).0 else s
  }

  // The caller's run: salvaged decisions are applied, the others retried.
  predicate RetriesOk(p: Policy, s: Snapshot, cs: seq<Candidate>, kept: seq<Option<Decision>>,
                      retries: seq<Option<Decision>>)
    requires |kept| == |retries| == |cs|
    decreases |cs|
  {
    cs == [] ||
    if kept[0].Some? then RetriesOk(p, Step(p, s, cs[0], kept[0].value).0, cs[1..], kept[1..], retries[1..])
    else (
      && RetryOk(p, s, cs[0], retries[0])
      && RetriesOk(p, AfterRetry(p, s, cs[0], retries[0]), cs[1..], kept[1..], retries[1..]))
  }

  // The salvaged decisions alone, in the recovery state r, against the caller's run from s.
  ghost predicate Framed(p: Policy, r: Snapshot, s: Snapshot, cs: seq<Candidate>, kept: seq<Option<Decision>>,
                         retries: seq<Option<Decision>>, exact: bool)
    requires |kept| == |retries| == |cs|
    decreases |cs|
  {
    cs == [] ||
    if kept[0].Some? then
      var c, d := cs[0], kept[0].value;
      && Step(p, s, c, d).1.Applied?
      && SameFact(NewEntry(p, r, c, d), NewEntry(p, s, c, d))
      && DependenciesFor(r, c, d) <= DependenciesFor(s, c, d)
      && (exact ==> Step(p, s, c, d).1 == Step(p, r, c, d).1)
      && Framed(p, Step(p, r, c, d).0, Step(p, s, c, d).0, cs[1..], kept[1..], retries[1..], exact)
    else Framed(p, r, AfterRetry(p, s, cs[0], retries[0]), cs[1..], kept[1..], retries[1..], exact)
  }

  // Outside the blocked slots the caller's state has the facts of the recovery
  // state, with at least its provenance, or exactly it.
  ghost predicate Tracks(x: Cell, y: Cell, exact: bool) {
    Similar(x, y) && CellSupport(x) <= CellSupport(y) && (exact ==> x == y)
  }

  ghost predicate TracksOutside(r: Snapshot, s: Snapshot, slots: set<Slot>, exact: bool)
    requires Coherent(r) && Coherent(s)
  {
    forall t | t !in slots :: Tracks(CellAt(r, t), CellAt(s, t), exact)
  }

  lemma ReadsAvoidBlocked(p: Policy, r: Snapshot, c: Candidate, d: Decision, b: Blocked)
    requires Coherent(r) && Accepts(p, r.entries, c, d) && ResolvedKeyOk(p, c, d)
    requires OnlyFixed(b) && FixedSlot(c) !in b.slots
    ensures Reads(r, c, d) !! b.slots && Touched(r, c, d) !! b.slots && OwnSlot(c, d) !in b.slots
  {
    forall q | q in Requested(d) ensures r.entries[q].slot !in b.slots {
      if q in RemovedSet(d) { assert r.entries[q].slot.factType == STATUS; }
    }
  }

  ghost predicate TracksReads(r: Snapshot, s: Snapshot, c: Candidate, d: Decision, exact: bool)
    requires Coherent(r) && Coherent(s)
  {
    forall t | t in Reads(r, c, d) :: Tracks(CellAt(r, t), CellAt(s, t), exact)
  }

  lemma TrackedStep(p: Policy, r: Snapshot, s: Snapshot, c: Candidate, d: Decision, exact: bool)
    requires Coherent(r) && Coherent(s) && Accepts(p, r.entries, c, d) && TracksReads(r, s, c, d, exact)
    ensures Accepts(p, s.entries, c, d)
    ensures Reads(r, c, d) == Reads(s, c, d) && Touched(r, c, d) == Touched(s, c, d)
    ensures SameFact(NewEntry(p, r, c, d), NewEntry(p, s, c, d))
    ensures DependenciesFor(r, c, d) <= DependenciesFor(s, c, d)
    ensures exact ==>
      DependenciesFor(r, c, d) == DependenciesFor(s, c, d) && NewEntry(p, r, c, d) == NewEntry(p, s, c, d)
  {
    hide DependenciesFor, NewEntry, Reads, Permitted, ContentOk;
    assert ReadsAgree(r, s, c, d);
    StepTransfers(p, r, s, c, d);
    if d.operation == ADD { AddFindsEmptySlot(r, c, d); AddFindsEmptySlot(s, c, d); }
    forall x | x in DependenciesFor(r, c, d) ensures x in DependenciesFor(s, c, d) {
      DependenciesAreReadSupport(r, c, d, x);
      DependenciesAreReadSupport(s, c, d, x);
    }
    if exact {
      assert ReadsEqual(r, s, c, d);
      EqualReadsEqualEffect(p, r, s, c, d);
    }
  }

  lemma TrackedCell(p: Policy, r: Snapshot, s: Snapshot, c: Candidate, d: Decision, t: Slot, exact: bool)
    requires Coherent(r) && Coherent(s) && Tracks(CellAt(r, t), CellAt(s, t), exact)
    requires Touched(r, c, d) == Touched(s, c, d)
    requires SameFact(NewEntry(p, r, c, d), NewEntry(p, s, c, d))
    requires DependenciesFor(r, c, d) <= DependenciesFor(s, c, d)
    requires exact ==>
      DependenciesFor(r, c, d) == DependenciesFor(s, c, d) && NewEntry(p, r, c, d) == NewEntry(p, s, c, d)
    ensures Tracks(NextCell(p, r, c, d, t), NextCell(p, s, c, d, t), exact)
  {
    hide Touched, DependenciesFor;
  }

  lemma SalvagedStep(p: Policy, r: Snapshot, s: Snapshot, c: Candidate, d: Decision, b: Blocked, exact: bool)
    requires Coherent(r) && Coherent(s) && TracksOutside(r, s, b.slots, exact)
    requires Projected(c.index) !in r.entries && Projected(c.index) !in s.entries
    requires Accepts(p, r.entries, c, d) && ResolvedKeyOk(p, c, d) && OnlyFixed(b) && FixedSlot(c) !in b.slots
    ensures Step(p, s, c, d).1.Applied? && SameFact(NewEntry(p, r, c, d), NewEntry(p, s, c, d))
    ensures DependenciesFor(r, c, d) <= DependenciesFor(s, c, d)
    ensures exact ==> Step(p, s, c, d).1 == Step(p, r, c, d).1
    ensures Coherent(Step(p, r, c, d).0) && Coherent(Step(p, s, c, d).0)
    ensures TracksOutside(Step(p, r, c, d).0, Step(p, s, c, d).0, b.slots, exact)
  {
    hide Step, Accepts, DependenciesFor, NewEntry, NextCell, Tracks, Touched, ResolvedKeyOk;
    ReadsAvoidBlocked(p, r, c, d, b);
    assert TracksReads(r, s, c, d, exact);
    TrackedStep(p, r, s, c, d, exact);
    StepIsAtomic(p, r, c, d);
    StepIsAtomic(p, s, c, d);
    forall t | t !in b.slots
      ensures Tracks(CellAt(Step(p, r, c, d).0, t), CellAt(Step(p, s, c, d).0, t), exact)
    {
      TrackedCell(p, r, s, c, d, t, exact);
    }
  }

  /** A retry of a candidate with a fixed key stays inside its own slot. */
  lemma RetryStaysInSlot(p: Policy, s: Snapshot, c: Candidate, retry: Option<Decision>)
    requires Coherent(s) && Projected(c.index) !in s.entries && c.factType != STATUS
    requires RetryOk(p, s, c, retry)
    ensures Coherent(AfterRetry(p, s, c, retry))
    ensures forall t | t != FixedSlot(c) :: CellAt(AfterRetry(p, s, c, retry), t) == CellAt(s, t)
  {
    if retry.Some? {
      var d := retry.value;
      StepIsAtomic(p, s, c, d);
      assert Touched(s, c, d) <= {FixedSlot(c)} by {
        RetryTouches(p, s, c, d);
      }
      forall t | t != FixedSlot(c) ensures CellAt(AfterRetry(p, s, c, retry), t) == CellAt(s, t) {
        assert CellAt(AfterRetry(p, s, c, retry), t) == NextCell(p, s, c, d, t);
      }
    }
  }

  lemma RetryTouches(p: Policy, s: Snapshot, c: Candidate, d: Decision)
    requires c.factType != STATUS && Accepts(p, s.entries, c, d) && ResolvedKeyOk(p, c, d)
    ensures Touched(s, c, d) <= {FixedSlot(c)}
  {
    assert d.removed == [];
    assert forall q | q in Requested(d) :: d.target == Some(q);
  }

  ghost predicate Ready(r: Snapshot, s: Snapshot, cs: seq<Candidate>, b: Blocked, exact: bool)
    requires Coherent(r) && Coherent(s)
  {
    && DistinctCandidates(cs) && FreshFor(r, cs) && FreshFor(s, cs)
    && (b.rest || (OnlyFixed(b) && TracksOutside(r, s, b.slots, exact)))
  }

  lemma RetriedFront(p: Policy, r: Snapshot, s: Snapshot, cs: seq<Candidate>, b: Blocked, retry: Option<Decision>,
                     exact: bool)
    requires cs != [] && Coherent(r) && Coherent(s) && Ready(r, s, cs, b, exact) && RetryOk(p, s, cs[0], retry)
    ensures var s' := AfterRetry(p, s, cs[0], retry); var b' := if Skips(b, cs[0]) then b else AfterFailure(b, cs[0]);
      Coherent(s') && Ready(r, s', cs[1..], b', exact)
  {
    hide Step, Accepts, Coherent, Tracks, ResolvedKeyOk;
    var c := cs[0];
    var b' := if Skips(b, c) then b else AfterFailure(b, c);
    var s' := AfterRetry(p, s, c, retry);
    if retry.Some? { FreshTail(p, s, cs, retry.value); }
    forall e | e in cs[1..] ensures e in cs {}
    assert c in cs;
    if !b'.rest {
      assert c.factType != STATUS;
      RetryStaysInSlot(p, s, c, retry);
      assert FixedSlot(c) in b'.slots && b.slots <= b'.slots;
      forall t | t !in b'.slots ensures Tracks(CellAt(r, t), CellAt(s', t), exact) {
        assert t != FixedSlot(c);
      }
    }
  }

  lemma SalvagedFront(p: Policy, r: Snapshot, s: Snapshot, cs: seq<Candidate>, row: Option<Decision>, b: Blocked,
                      exact: bool)
    requires cs != [] && Coherent(r) && Coherent(s) && Ready(r, s, cs, b, exact)
    requires !Skips(b, cs[0]) && RowOk(p, r, cs[0], row)
    ensures var c := cs[0]; var d := Normalized(p, r.entries, c, row.value);
      && Coherent(Step(p, r, c, d).0) && Coherent(Step(p, s, c, d).0)
      && Ready(Step(p, r, c, d).0, Step(p, s, c, d).0, cs[1..], b, exact)
      && Step(p, s, c, d).1.Applied? && SameFact(NewEntry(p, r, c, d), NewEntry(p, s, c, d))
      && DependenciesFor(r, c, d) <= DependenciesFor(s, c, d)
      && (exact ==> Step(p, s, c, d).1 == Step(p, r, c, d).1)
  {
    hide Step, Accepts, TracksOutside, OnlyFixed, Normalized, DependenciesFor, NewEntry, Coherent;
    var c, d := cs[0], Normalized(p, r.entries, cs[0], row.value);
    assert c in cs;
    NormalizationIsHarmless(p, r, c, row.value, r.entries);
    StepIsAtomic(p, r, c, d);
    FreshTail(p, r, cs, d);
    FreshTail(p, s, cs, d);
    SalvagedStep(p, r, s, c, d, b, exact);
  }

  /** Salvage is a frame.  Whatever the retries of the skipped candidates do, each
      salvaged decision still applies when its turn comes, and projects the entry
      it projected in the recovery state. */
  lemma {:induction false} SalvageIsAFrame(p: Policy, r: Snapshot, s: Snapshot, cs: seq<Candidate>,
                                           rows: seq<Option<Decision>>, b: Blocked, retries: seq<Option<Decision>>,
                                           exact: bool)
    requires Coherent(r) && Coherent(s) && Ready(r, s, cs, b, exact)
    requires |rows| == |retries| == |cs|
    requires RetriesOk(p, s, cs, Salvaged(p, r, cs, rows, b), retries)
    ensures Framed(p, r, s, cs, Salvaged(p, r, cs, rows, b), retries, exact)
    decreases |cs|
  {
    hide Step, Accepts, Ready, Normalized, RowOk, RetryOk, AfterRetry, Coherent, DependenciesFor, NewEntry, SameFact;
    if cs != [] {
      var c, kept := cs[0], Salvaged(p, r, cs, rows, b);
      if kept[0].Some? {
        var d := kept[0].value;
        SalvagedFront(p, r, s, cs, rows[0], b, exact);
        assert kept[1..] == Salvaged(p, Step(p, r, c, d).0, cs[1..], rows[1..], b);
        SalvageIsAFrame(p, Step(p, r, c, d).0, Step(p, s, c, d).0, cs[1..], rows[1..], b, retries[1..], exact);
      } else {
        var b' := if Skips(b, c) then b else AfterFailure(b, c);
        RetriedFront(p, r, s, cs, b, retries[0], exact);
        assert kept[1..] == Salvaged(p, r, cs[1..], rows[1..], b');
        SalvageIsAFrame(p, r, AfterRetry(p, s, c, retries[0]), cs[1..], rows[1..], b', retries[1..], exact);
      }
    }
  }

  const NOTHING_BLOCKED := Blocked({}, false)

  // ----- what the salvaged decisions record -------------------------------------

  // The slots that are empty because of earlier decisions.
  function RecordedSlots(s: Snapshot): set<Slot> {
    set t | t in s.absence && s.absence[t] != {}
  }

  // Some decision about the candidate may be valid.
  predicate Passable(c: Candidate) {
    StatusActiveOk(c.factType, c.valueJson)
  }

  // The candidate may be added to the slot once that is empty.
  predicate MayAdd(p: Policy, c: Candidate, t: Slot) {
    && t.factType == c.factType && (t.factKey == c.initialKey || (c.resolution == PATTERN && c.factType == STATUS))
    && Passable(c) && !ExplicitlyInactive(c.factType, c.valueJson) && (c.fromBook ==> t !in p.protectedSlots)
  }

  // No candidate may be added to one of the slots, up to one that has no valid decision:
  // that one ends the salvage.
  predicate OutOfReach(p: Policy, slots: set<Slot>, cs: seq<Candidate>)
    decreases |cs|
  {
    cs != [] ==>
      && (forall t | t in slots :: !MayAdd(p, cs[0], t))
      && (Passable(cs[0]) ==> OutOfReach(p, slots, cs[1..]))
  }

  // Snapshots that differ at most in why some slots are empty.
  ghost predicate Alike(f: Snapshot, g: Snapshot, slots: set<Slot>) {
    && f.entries == g.entries && f.refBySlot == g.refBySlot
    && forall t | t !in slots :: AbsenceOf(f, t) == AbsenceOf(g, t)
  }

  lemma AlikeEffect(f: Snapshot, g: Snapshot, slots: set<Slot>, d: Decision, e: Entry, deps: set<CandidateRef>,
                    cause: set<CandidateRef>)
    requires Alike(f, g, slots)
    ensures Effect(f, d, e, deps, cause).1 == Effect(g, d, e, deps, cause).1
    ensures Alike(Effect(f, d, e, deps, cause).0, Effect(g, d, e, deps, cause).0, slots)
  {
    hide Retired, SlotsOf, Projects;
    var f', g' := Removing(f, Retired(d), cause), Removing(g, Retired(d), cause);
    assert Alike(f', g', slots);
  }

  lemma AddsWhereItMay(p: Policy, entries: map<SnapshotRef, Entry>, c: Candidate, d: Decision)
    requires ResolvedKeyOk(p, c, d) && Accepts(p, entries, c, d) && d.operation == ADD
    ensures MayAdd(p, c, OwnSlot(c, d))
  {
    hide StatusActiveOk, ExplicitlyInactive, DisplayValue, SchemaValid;
    assert d.proposal.Some? by { SchemaNeedsProposal(d); }
  }

  lemma SchemaNeedsProposal(d: Decision)
    requires SchemaValid(d) && d.operation == ADD
    ensures d.proposal.Some?
  {
  }

  lemma AlikeStep(p: Policy, f: Snapshot, g: Snapshot, slots: set<Slot>, c: Candidate, d: Decision)
    requires Alike(f, g, slots) && ResolvedKeyOk(p, c, d) && forall t | t in slots :: !MayAdd(p, c, t)
    ensures Step(p, f, c, d).1 == Step(p, g, c, d).1 && Alike(Step(p, f, c, d).0, Step(p, g, c, d).0, slots)
    ensures Accepts(p, f.entries, c, d) ==> NewEntry(p, f, c, d) == NewEntry(p, g, c, d)
  {
    hide Effect, Permitted;
    if Accepts(p, f.entries, c, d) {
      if d.operation == ADD { AddsWhereItMay(p, f.entries, c, d); }
      var deps := DependenciesFor(f, c, d);
      AlikeEffect(f, g, slots, d, NewEntry(p, f, c, d), deps, deps + {c.index});
    }
  }

  // Nothing is kept from a candidate that has no valid decision onwards.
  ghost predicate EndsWhereItMust(p: Policy, cs: seq<Candidate>, kept: seq<Option<Decision>>)
    requires |kept| == |cs|
    decreases |cs|
  {
    cs != [] ==>
      && (kept[0].Some? ==> ResolvedKeyOk(p, cs[0], kept[0].value))
      && if Passable(cs[0]) then EndsWhereItMust(p, cs[1..], kept[1..]) else kept == Nothing(|cs|)
  }

  lemma {:induction false} NothingSalvaged(p: Policy, r: Snapshot, cs: seq<Candidate>, rows: seq<Option<Decision>>,
                                           b: Blocked)
    requires |rows| == |cs| && (b.rest || rows == Nothing(|cs|))
    ensures Salvaged(p, r, cs, rows, b) == Nothing(|cs|)
    decreases |cs|
  {
    if cs != [] {
      assert rows == Nothing(|cs|) ==> rows[1..] == Nothing(|cs| - 1);
      NothingSalvaged(p, r, cs[1..], rows[1..], if Skips(b, cs[0]) then b else AfterFailure(b, cs[0]));
    }
  }

  lemma {:induction false} SalvageEnds(p: Policy, r: Snapshot, cs: seq<Candidate>, rows: seq<Option<Decision>>,
                                       b: Blocked)
    requires |rows| == |cs| && (b.rest || OnlyFixed(b))
    ensures EndsWhereItMust(p, cs, Salvaged(p, r, cs, rows, b))
    decreases |cs|
  {
    hide Step, WellAimed, Permitted, Normalized;
    if cs != [] {
      var c, kept := cs[0], Salvaged(p, r, cs, rows, b);
      if Skips(b, c) {
        if b.rest { NothingSalvaged(p, r, cs, rows, b); }
        SalvageEnds(p, r, cs[1..], rows[1..], b);
        assert kept[1..] == Salvaged(p, r, cs[1..], rows[1..], b);
      } else if RowOk(p, r, c, rows[0]) {
        var n := Normalized(p, r.entries, c, rows[0].value);
        AppliedIsAccepted(p, Throwaway(r), c, rows[0].value);
        KeyIsKept(p, r.entries, c, rows[0].value);
        SalvageEnds(p, Step(p, r, c, n).0, cs[1..], rows[1..], b);
        assert kept[1..] == Salvaged(p, Step(p, r, c, n).0, cs[1..], rows[1..], b);
      } else {
        var b' := AfterFailure(b, c);
        if b'.rest { NothingSalvaged(p, r, cs[1..], rows[1..], b'); }
        SalvageEnds(p, r, cs[1..], rows[1..], b');
        assert kept[1..] == Salvaged(p, r, cs[1..], rows[1..], b');
      }
    }
  }

  lemma AppliedIsAccepted(p: Policy, s: Snapshot, c: Candidate, d: Decision)
    requires Step(p, s, c, d).1.Applied?
    ensures Accepts(p, s.entries, c, d)
  {
    hide Accepts;
  }

  lemma KeyIsKept(p: Policy, entries: map<SnapshotRef, Entry>, c: Candidate, d: Decision)
    ensures Normalized(p, entries, c, d).resolvedKey == d.resolvedKey
  {
  }

  // The retries up to a candidate that has no valid decision.
  function UpToEnd(cs: seq<Candidate>, retries: seq<Option<Decision>>): (some: seq<Option<Decision>>)
    requires |retries| == |cs|
    ensures |some| == |cs|
    decreases |cs|
  {
    if cs == [] then []
    else if Passable(cs[0]) then [retries[0]] + UpToEnd(cs[1..], retries[1..])
    else Nothing(|cs|)
  }

  lemma {:induction false} NothingIsFramed(p: Policy, r: Snapshot, s: Snapshot, cs: seq<Candidate>,
                                           retries: seq<Option<Decision>>, exact: bool)
    requires |retries| == |cs|
    ensures Framed(p, r, s, cs, Nothing(|cs|), retries, exact)
    ensures retries == Nothing(|cs|) ==> RetriesOk(p, s, cs, Nothing(|cs|), retries)
    decreases |cs|
  {
    if cs != [] {
      assert Nothing(|cs|)[1..] == Nothing(|cs| - 1);
      NothingIsFramed(p, r, AfterRetry(p, s, cs[0], retries[0]), cs[1..], retries[1..], exact);
    }
  }

  // What the salvaged decisions do in f they do in g as well, if none of the slots in
  // which f and g differ is in reach.
  lemma {:induction false} FrameCarriesOver(p: Policy, r: Snapshot, f: Snapshot, g: Snapshot, slots: set<Slot>,
                                            cs: seq<Candidate>, kept: seq<Option<Decision>>,
                                            retries: seq<Option<Decision>>)
    requires Alike(f, g, slots) && |kept| == |retries| == |cs|
    requires OutOfReach(p, slots, cs) && EndsWhereItMust(p, cs, kept) && RetriesOk(p, f, cs, kept, retries)
    ensures RetriesOk(p, g, cs, kept, UpToEnd(cs, retries))
    ensures Framed(p, r, g, cs, kept, UpToEnd(cs, retries), true) ==> Framed(p, r, f, cs, kept, retries, true)
    decreases |cs|
  {
    hide Step, Accepts, NewEntry, DependenciesFor, Alike, ResolvedKeyOk, MayAdd, SameFact;
    if cs != [] && !Passable(cs[0]) {
      NothingIsFramed(p, r, f, cs, retries, true);
      NothingIsFramed(p, r, g, cs, Nothing(|cs|), true);
    } else if cs != [] {
      var c, some := cs[0], UpToEnd(cs, retries);
      assert some[1..] == UpToEnd(cs[1..], retries[1..]);
      if kept[0].Some? {
        var d := kept[0].value;
        AlikeStep(p, f, g, slots, c, d);
        AlikeApplied(p, f, g, slots, c, d);
        FrameCarriesOver(p, Step(p, r, c, d).0, Step(p, f, c, d).0, Step(p, g, c, d).0, slots, cs[1..], kept[1..],
          retries[1..]);
      } else {
        AlikeRetry(p, f, g, slots, c, retries[0]);
        FrameCarriesOver(p, r, AfterRetry(p, f, c, retries[0]), AfterRetry(p, g, c, retries[0]), slots, cs[1..],
          kept[1..], retries[1..]);
      }
    }
  }

  lemma AlikeApplied(p: Policy, f: Snapshot, g: Snapshot, slots: set<Slot>, c: Candidate, d: Decision)
    requires Alike(f, g, slots) && ResolvedKeyOk(p, c, d) && forall t | t in slots :: !MayAdd(p, c, t)
    ensures Step(p, f, c, d).1.Applied? ==>
      NewEntry(p, f, c, d) == NewEntry(p, g, c, d) && DependenciesFor(f, c, d) == DependenciesFor(g, c, d)
  {
    hide Accepts, MayAdd, DependenciesFor, ResolvedKeyOk;
    AlikeStep(p, f, g, slots, c, d);
    if Step(p, f, c, d).1.Applied? {
      AppliedIsAccepted(p, f, c, d);
    }
  }

  lemma AlikeRetry(p: Policy, f: Snapshot, g: Snapshot, slots: set<Slot>, c: Candidate, retry: Option<Decision>)
    requires Alike(f, g, slots) && RetryOk(p, f, c, retry) && forall t | t in slots :: !MayAdd(p, c, t)
    ensures RetryOk(p, g, c, retry) && Alike(AfterRetry(p, f, c, retry), AfterRetry(p, g, c, retry), slots)
  {
    hide Accepts, MayAdd, Step, ResolvedKeyOk;
    if retry.Some? { AlikeStep(p, f, g, slots, c, retry.value); }
  }

  function Unrecorded(s: Snapshot): Snapshot {
    s.(absence := map[])
  }

  /** The recovery state is rebuilt from the caller's entries, so the salvaged decisions
      survive the caller's run.  They record at least the dependencies they had in the
      recovery state, and the very same ones if no candidate may be added to a slot that
      earlier decisions emptied. */
  lemma {:induction false} SalvageAppliesToCaller(p: Policy, s: Snapshot, cs: seq<Candidate>,
                                                  rows: seq<Option<Decision>>, retries: seq<Option<Decision>>)
    requires Coherent(s) && DistinctCandidates(cs) && FreshFor(s, cs)
    requires |rows| == |retries| == |cs|
    requires RetriesOk(p, s, cs, Salvaged(p, Throwaway(s), cs, rows, NOTHING_BLOCKED), retries)
    ensures Framed(p, Throwaway(s), s, cs, Salvaged(p, Throwaway(s), cs, rows, NOTHING_BLOCKED), retries,
                   OutOfReach(p, RecordedSlots(s), cs))
  {
    hide Salvaged, RetriesOk, Framed, OutOfReach, RecordedSlots, Coherent, Ready, DistinctCandidates, FreshFor;
    CallerIsReady(s, cs);
    if OutOfReach(p, RecordedSlots(s), cs) {
      SalvageIsExact(p, s, cs, rows, retries);
    } else {
      SalvageIsAFrame(p, Throwaway(s), s, cs, rows, NOTHING_BLOCKED, retries, false);
    }
  }

  lemma {:induction false} SalvageIsExact(p: Policy, s: Snapshot, cs: seq<Candidate>, rows: seq<Option<Decision>>,
                                          retries: seq<Option<Decision>>)
    requires Coherent(s) && DistinctCandidates(cs) && FreshFor(s, cs)
    requires |rows| == |retries| == |cs| && OutOfReach(p, RecordedSlots(s), cs)
    requires RetriesOk(p, s, cs, Salvaged(p, Throwaway(s), cs, rows, NOTHING_BLOCKED), retries)
    ensures Framed(p, Throwaway(s), s, cs, Salvaged(p, Throwaway(s), cs, rows, NOTHING_BLOCKED), retries, true)
  {
    hide Salvaged, RetriesOk, Framed, EndsWhereItMust, OutOfReach, Coherent, RecordedSlots, Ready, FreshFor,
      DistinctCandidates, Alike;
    var r, g := Throwaway(s), Unrecorded(s);
    SalvageEnds(p, r, cs, rows, NOTHING_BLOCKED);
    UnrecordedIsAlike(s);
    FrameCarriesOver(p, r, s, g, RecordedSlots(s), cs, Salvaged(p, r, cs, rows, NOTHING_BLOCKED), retries);
    UnrecordedIsReady(s, cs);
    SalvageIsAFrame(p, r, g, cs, rows, NOTHING_BLOCKED, UpToEnd(cs, retries), true);
  }

  lemma UnrecordedIsAlike(s: Snapshot)
    requires Coherent(s)
    ensures Alike(s, Unrecorded(s), RecordedSlots(s))
  {
  }

  lemma UnrecordedIsReady(s: Snapshot, cs: seq<Candidate>)
    requires Coherent(s) && DistinctCandidates(cs) && FreshFor(s, cs)
    ensures Coherent(Throwaway(s)) && Coherent(Unrecorded(s))
    ensures Ready(Throwaway(s), Unrecorded(s), cs, NOTHING_BLOCKED, true)
  {
  }

  lemma CallerIsReady(s: Snapshot, cs: seq<Candidate>)
    requires Coherent(s) && DistinctCandidates(cs) && FreshFor(s, cs)
    ensures Coherent(Throwaway(s)) && Ready(Throwaway(s), s, cs, NOTHING_BLOCKED, false)
  {
  }

  // A policy that refuses nothing the model does not look into.
  ghost predicate Permissive(p: Policy) {
    && (forall c, scope, from :: p.changeAllowed(c, scope, from))
    && (forall reason, key, refs, keys :: p.reasonAllowed(reason, key, refs, keys))
    && (forall key :: p.canonicalStatusKey(key))
  }

  // A decision that changes nothing, and one that adds the candidate to the slot.
  function Pass(c: Candidate): Decision {
    Decision(HISTORY_ONLY, None, [], c.initialKey, None, PRESENT, false, None, "")
  }

  function PlainAdd(c: Candidate, t: Slot): Decision {
    var typed := match c.valueType
      case NUMBER => NumberField("0")
      case BOOLEAN => BooleanField(true)
      case _ => TextField("");
    Decision(ADD, None, [], t.factKey, Some(Proposal("", ValueJson(NoActive, typed))), PRESENT, false, None, "")
  }

  lemma PassIsAccepted(p: Policy, s: Snapshot, c: Candidate, es: map<SnapshotRef, Entry>)
    requires Permissive(p) && Passable(c)
    ensures RowOk(p, Throwaway(s), c, Some(Pass(c)))
    ensures var n := Normalized(p, es, c, Pass(c)); Step(p, s, c, n) == (s, Applied(None, {}))
  {
    var r := Throwaway(s);
    var n, m := Normalized(p, es, c, Pass(c)), Normalized(p, r.entries, c, Pass(c));
    assert Throwaway(r) == r && n == m.(reason := n.reason);
    PassesBy(p, s, c, n);
    PassesBy(p, r, c, Pass(c));
    PassesBy(p, r, c, m);
  }

  lemma PassesBy(p: Policy, s: Snapshot, c: Candidate, d: Decision)
    requires Passable(c) && d == Pass(c).(reason := d.reason)
    ensures Step(p, s, c, d) == (s, Applied(None, {}))
  {
    assert Requested(d) == {} && Retired(d) == {};
    assert SupportOf(s.entries, {}) == {} && SlotsOf(s.entries, {}) == {};
    assert Removing(s, {}, {c.index}) == s;
  }

  lemma PlainAddIsAccepted(p: Policy, s: Snapshot, c: Candidate, t: Slot)
    requires Permissive(p) && Coherent(s) && t in RecordedSlots(s) && MayAdd(p, c, t)
    ensures ResolvedKeyOk(p, c, PlainAdd(c, t)) && NarrativeTimeOk(c, PlainAdd(c, t))
    ensures Accepts(p, s.entries, c, PlainAdd(c, t))
    ensures DependenciesFor(s, c, PlainAdd(c, t)) == s.absence[t]
      && DependenciesFor(Throwaway(s), c, PlainAdd(c, t)) == {}
  {
    assert forall r | r in s.entries :: s.entries[r].slot != t;
    var d := PlainAdd(c, t);
    assert OwnSlot(c, d) == t && Requested(d) == {};
    assert Permitted(p, s.entries, c, d);
  }

  lemma AddIsSalvaged(p: Policy, s: Snapshot, c: Candidate, t: Slot) returns (n: Decision)
    requires Permissive(p) && Coherent(s) && Projected(c.index) !in s.entries && t in RecordedSlots(s)
      && MayAdd(p, c, t)
    ensures n == Normalized(p, s.entries, c, PlainAdd(c, t)) && RowOk(p, Throwaway(s), c, Some(PlainAdd(c, t)))
    ensures Step(p, s, c, n).1 != Step(p, Throwaway(s), c, n).1 && Step(p, s, c, n).1.Applied?
  {
    hide Step, Accepts, Coherent, Normalized, DependenciesFor, NewEntry, MayAdd, RecordedSlots, Permissive, NextCell;
    var r, d := Throwaway(s), PlainAdd(c, t);
    ThrowawayKeepsFacts(s);
    assert Throwaway(r) == r;
    n := Normalized(p, s.entries, c, d);
    PlainAddIsAccepted(p, s, c, t);
    NormalizationIsHarmless(p, s, c, d, s.entries);
    NormalizationIsHarmless(p, r, c, d, s.entries);
    StepIsAtomic(p, s, c, n);
    StepIsAtomic(p, r, c, d);
    StepIsAtomic(p, r, c, n);
    assert s.absence[t] != {} by { RecordIsNotEmpty(s, t); }
    assert ReasonOk(p, r.entries, d) by { PermitsReasons(p, r.entries, d); }
  }

  lemma RecordIsNotEmpty(s: Snapshot, t: Slot)
    requires t in RecordedSlots(s)
    ensures t in s.absence && s.absence[t] != {}
  {
  }

  lemma PermitsReasons(p: Policy, entries: map<SnapshotRef, Entry>, d: Decision)
    requires Permissive(p)
    ensures ReasonOk(p, entries, d)
  {
  }

  // The rows of a rejected response, and retries of what it does not salvage.
  ghost predicate Recovers(p: Policy, s: Snapshot, cs: seq<Candidate>, rows: seq<Option<Decision>>,
                           retries: seq<Option<Decision>>)
  {
    && |rows| == |retries| == |cs|
    && RetriesOk(p, s, cs, Salvaged(p, Throwaway(s), cs, rows, NOTHING_BLOCKED), retries)
  }

  // The salvaged decisions record what they recorded in the recovery state.
  ghost predicate RecordsTheSame(p: Policy, s: Snapshot, cs: seq<Candidate>, rows: seq<Option<Decision>>,
                                 retries: seq<Option<Decision>>)
    requires |rows| == |retries| == |cs|
  {
    Framed(p, Throwaway(s), s, cs, Salvaged(p, Throwaway(s), cs, rows, NOTHING_BLOCKED), retries, true)
  }

  // A response that adds the first candidate in reach.
  lemma {:induction false} InReachIsNoticed(p: Policy, s: Snapshot, cs: seq<Candidate>)
    returns (rows: seq<Option<Decision>>, retries: seq<Option<Decision>>)
    requires Permissive(p) && Coherent(s) && FreshFor(s, cs) && !OutOfReach(p, RecordedSlots(s), cs)
    ensures Recovers(p, s, cs, rows, retries) && !RecordsTheSame(p, s, cs, rows, retries)
    decreases |cs|
  {
    hide Step, Permissive, Coherent, RecordedSlots, MayAdd, RowOk, Normalized, Passable;
    var c, r := cs[0], Throwaway(s);
    assert c in cs;
    if t :| t in RecordedSlots(s) && MayAdd(p, c, t) {
      var n := AddIsSalvaged(p, s, c, t);
      rows, retries := [Some(PlainAdd(c, t))] + Nothing(|cs| - 1), Nothing(|cs|);
      assert rows[1..] == Nothing(|cs| - 1) && retries[1..] == Nothing(|cs| - 1);
      NothingSalvaged(p, Step(p, r, c, n).0, cs[1..], rows[1..], NOTHING_BLOCKED);
      NothingIsFramed(p, r, Step(p, s, c, n).0, cs[1..], retries[1..], true);
      var kept := Salvaged(p, r, cs, rows, NOTHING_BLOCKED);
      assert kept[0] == Some(n) && kept[1..] == Nothing(|cs| - 1);
    } else {
      assert forall e | e in cs[1..] :: e in cs;
      var rows', retries' := InReachIsNoticed(p, s, cs[1..]);
      rows, retries := [Some(Pass(c))] + rows', [None] + retries';
      assert rows[1..] == rows' && retries[1..] == retries';
      PassIsAccepted(p, s, c, r.entries);
      PassIsAccepted(p, r, c, r.entries);
      var n, kept := Normalized(p, r.entries, c, Pass(c)), Salvaged(p, r, cs, rows, NOTHING_BLOCKED);
      assert kept[0] == Some(n) && kept[1..] == Salvaged(p, r, cs[1..], rows', NOTHING_BLOCKED);
    }
  }

  /** For a given list of candidates, salvaged decisions record the same dependencies as in
      the recovery state, whatever the response and the retries, exactly when none of them
      may be added to a slot that earlier decisions emptied. */
  lemma SameRecordIffOutOfReach(p: Policy, s: Snapshot, cs: seq<Candidate>)
    requires Permissive(p) && Coherent(s) && DistinctCandidates(cs) && FreshFor(s, cs)
    ensures OutOfReach(p, RecordedSlots(s), cs) <==>
      forall rows, retries | Recovers(p, s, cs, rows, retries) :: RecordsTheSame(p, s, cs, rows, retries)
  {
    hide Permissive, OutOfReach, RecordedSlots, Coherent, Salvaged, RetriesOk, Framed, DistinctCandidates, FreshFor;
    if OutOfReach(p, RecordedSlots(s), cs) {
      forall rows, retries | Recovers(p, s, cs, rows, retries) ensures RecordsTheSame(p, s, cs, rows, retries) {
        SalvageIsExact(p, s, cs, rows, retries);
      }
    } else {
      var rows, retries := InReachIsNoticed(p, s, cs);
    }
  }

  const REMOVED_SLOT := Slot(STATUS, "k")

  function Plain(index: CandidateRef): Candidate {
    Candidate(index, STATUS, "k", EXACT, JSON, None, false, false, false)
  }

  function PlainEntry(provenance: Option<Provenance>): Entry {
    Entry(Persisted(0), REMOVED_SLOT, None, None, {}, provenance)
  }

  function PlainRemoval(): Decision {
    Decision(REMOVE, None, [Persisted(0)], "k", None, PRESENT, false, None, "")
  }

  lemma OneLoaded(e: Entry, cause: set<CandidateRef>)
    ensures Loadable([e]) && Loaded([e]) == Snapshot(map[e.reference := e], map[e.slot := e.reference], map[])
    ensures Removing(Loaded([e]), {e.reference}, cause) == Snapshot(map[], map[], map[e.slot := cause])
  {
    assert [e][..0] == [];
    assert Loaded([]) == Snapshot(map[], map[], map[]);
    assert SlotsOf(map[e.reference := e], {e.reference}) == {e.slot};
  }

  lemma RemovalIsAccepted(p: Policy, provenance: Option<Provenance>)
    requires Permissive(p) && p.replaceAllowed(Plain(0), PRESENT, None, provenance, REMOVE)
    ensures Accepts(p, Loaded([PlainEntry(provenance)]).entries, Plain(0), PlainRemoval())
    ensures DependenciesFor(Loaded([PlainEntry(provenance)]), Plain(0), PlainRemoval()) == {}
    ensures Retired(PlainRemoval()) == {Persisted(0)}
  {
    var e, d := PlainEntry(provenance), PlainRemoval();
    OneLoaded(e, {});
    hide Loaded;
    assert RemovedSet(d) == {Persisted(0)} && Requested(d) == {Persisted(0)};
    assert Permitted(p, Loaded([e]).entries, Plain(0), d);
  }

  /** The condition can fail: one entry is loaded, candidate 0 removes it, and the slot it
      leaves empty is in reach of candidate 1. */
  lemma RemovalLeavesARecord(p: Policy, provenance: Option<Provenance>)
    requires Permissive(p) && p.replaceAllowed(Plain(0), PRESENT, None, provenance, REMOVE)
    ensures var entries := [PlainEntry(provenance)];
      var (s, o) := Step(p, Loaded(entries), Plain(0), PlainRemoval());
      Loadable(entries) && o.Applied? && RecordedSlots(s) == {REMOVED_SLOT}
        && !OutOfReach(p, RecordedSlots(s), [Plain(1)])
  {
    hide Loaded, Removing, DependenciesFor, Accepts, Retired;
    RemovalIsAccepted(p, provenance);
    OneLoaded(PlainEntry(provenance), {0});
    assert MayAdd(p, Plain(1), REMOVED_SLOT);
    assert {} + {0} == {0};
  }

  // ----- the program's loops -------------------------------------------------

  datatype Row = Row(candidateRef: Option<CandidateRef>, decision: Option<Decision>)

  // The checks before a decision is applied: narrative time, the resolved key, the reason.
  method CheckAlone(p: Policy, entries: map<SnapshotRef, Entry>, c: Candidate, d: Decision) returns (ok: bool)
    ensures ok <==> NarrativeTimeOk(c, d) && ResolvedKeyOk(p, c, d) && ReasonOk(p, entries, d)
  {
    if d.advancesTime {
      if d.scope != PRESENT || d.operation == REVIEW_REQUIRED || !c.hasReferenceTime || !c.referenceTimeLocated {
        return false;
      }
    }
    var mutable := c.resolution == PATTERN && c.factType == STATUS;
    if !mutable && d.resolvedKey != c.initialKey {
      return false;
    }
    if mutable && !p.canonicalStatusKey(d.resolvedKey) {
      return false;
    }
    var keys := set r | r in entries.Keys :: entries[r].slot.factKey;
    ok := p.reasonAllowed(d.reason, d.resolvedKey, entries.Keys, keys);
  }

  // The display text of a number or a truth value is its canonical text.
  method NormalizeDecision(p: Policy, entries: map<SnapshotRef, Entry>, c: Candidate, d: Decision)
    returns (n: Decision)
    ensures n == Normalized(p, entries, c, d)
  {
    n := d;
    if d.proposal.Some? {
      var typed := d.proposal.value.valueJson.typed;
      if c.valueType == NUMBER && typed.NumberField? {
        n := n.(proposal := Some(d.proposal.value.(factValue := typed.json)));
      } else if c.valueType == BOOLEAN && typed.BooleanField? {
        n := n.(proposal := Some(d.proposal.value.(factValue := if typed.flag then "true" else "false")));
      }
    }
    n := n.(reason := p.displayReason(d.reason, entries));
  }

  /** The comparator's validation loop over a throwaway state. */
  method ValidateBatch(p: Policy, entries: seq<Entry>, cs: seq<Candidate>, ds: seq<Decision>) returns (ok: bool)
    ensures ok <==> Loadable(entries) && BatchOk(p, Loaded(entries), cs, ds)
  {
    if |ds| != |cs| {
      return false;
    }
    var loaded := CharacterProjectionState.FromEntries(p, entries);
    if loaded.None? {
      return false;
    }
    var state := loaded.value;
    for i := 0 to |cs|
      invariant BatchOk(p, Loaded(entries), cs, ds) <==> BatchOk(p, state.Value(), cs[i..], ds[i..])
    {
      assert cs[i..][1..] == cs[i + 1..] && ds[i..][1..] == ds[i + 1..];
      var c, d := cs[i], ds[i];
      var checked := CheckAlone(p, state.entriesByRef, c, d);
      if !checked {
        return false;
      }
      var o := state.Apply(c, d);
      if !o.Applied? {
        return false;
      }
    }
    ok := true;
  }

  lemma NormalizedUnfolds(p: Policy, s: Snapshot, cs: seq<Candidate>, ds: seq<Decision>, i: nat)
    requires i < |cs| == |ds|
    ensures var n := Normalized(p, s.entries, cs[i], ds[i]); var (s', o) := Step(p, s, cs[i], n);
      var rest := NormalizedBatch(p, s', cs[i + 1..], ds[i + 1..]);
      && NormalizedBatch(p, s, cs[i..], ds[i..]) == [n] + rest
      && (AppliesInOrder(p, s, cs[i..], [n] + rest) <==> o.Applied? && AppliesInOrder(p, s', cs[i + 1..], rest))
  {
    hide Step, Normalized;
    assert cs[i..][1..] == cs[i + 1..] && ds[i..][1..] == ds[i + 1..];
    var n := Normalized(p, s.entries, cs[i], ds[i]);
    var rest := NormalizedBatch(p, Step(p, s, cs[i], n).0, cs[i + 1..], ds[i + 1..]);
    assert ([n] + rest)[1..] == rest;
  }

  lemma NothingNormalized(p: Policy, s: Snapshot)
    ensures NormalizedBatch(p, s, [], []) == [] && AppliesInOrder(p, s, [], [])
  {
  }

  /** The normalisation loop over a second throwaway state; None is a refused step. */
  method NormalizeBatch(p: Policy, entries: seq<Entry>, cs: seq<Candidate>, ds: seq<Decision>)
    returns (ns: Option<seq<Decision>>)
    requires |ds| == |cs| && Loadable(entries)
    ensures var s := Loaded(entries); var all := NormalizedBatch(p, s, cs, ds);
      ns == if AppliesInOrder(p, s, cs, all) then Some(all) else None
  {
    hide Step, Normalized, Loaded, Loadable, NormalizedBatch, AppliesInOrder;
    var loaded := CharacterProjectionState.FromEntries(p, entries);
    var state, done := loaded.value, [];
    ghost var all := NormalizedBatch(p, Loaded(entries), cs, ds);
    assert cs[0..] == cs && ds[0..] == ds && [] + all == all;
    for i := 0 to |cs|
      invariant |done| == i && done + NormalizedBatch(p, state.Value(), cs[i..], ds[i..]) == all
      invariant AppliesInOrder(p, Loaded(entries), cs, all)
        <==> AppliesInOrder(p, state.Value(), cs[i..], NormalizedBatch(p, state.Value(), cs[i..], ds[i..]))
    {
      NormalizedUnfolds(p, state.Value(), cs, ds, i);
      var n := NormalizeDecision(p, state.entriesByRef, cs[i], ds[i]);
      var o := state.Apply(cs[i], n);
      if !o.Applied? {
        return None;
      }
      ghost var rest := NormalizedBatch(p, state.Value(), cs[i + 1..], ds[i + 1..]);
      assert done + ([n] + rest) == done + [n] + rest;
      done := done + [n];
    }
    assert cs[|cs|..] == [] && ds[|cs|..] == [] && done + [] == done;
    NothingNormalized(p, state.Value());
    ns := Some(done);
  }

  // Only a response with one row per candidate, in order, is worth salvaging.
  predicate RowsMatch(cs: seq<Candidate>, rows: seq<Row>) {
    |rows| == |cs| && forall i | 0 <= i < |cs| :: rows[i].candidateRef == Some(cs[i].index)
  }

  function Decisions(rows: seq<Row>): seq<Option<Decision>> {
    seq(|rows|, i requires 0 <= i < |rows| => rows[i].decision)
  }

  function Nothing(n: nat): seq<Option<Decision>> {
    seq(n, i => None)
  }

  function SalvagedResponse(p: Policy, s: Snapshot, cs: seq<Candidate>,
                            payload: Option<seq<Row>>): seq<Option<Decision>>
  {
    if payload.None? || !RowsMatch(cs, payload.value) then Nothing(|cs|)
    else Salvaged(p, s, cs, Decisions(payload.value), NOTHING_BLOCKED)
  }

  // One row, checked by the comparator alone on the active entries.
  method CheckRow(p: Policy, state: CharacterProjectionState, c: Candidate, row: Option<Decision>)
    returns (n: Option<Decision>)
    requires state.policy == p && Coherent(state.Value()) && Projected(c.index) !in state.entriesByRef
    modifies state
    ensures var s := old(state.Value());
      if RowOk(p, s, c, row) then
        n == Some(Normalized(p, s.entries, c, row.value)) && state.Value() == Step(p, s, c, n.value).0
      else n == None && state.Value() == s
  {
    if row.None? {
      return None;
    }
    var d := row.value;
    var entries := state.ListEntries();
    ghost var s := Throwaway(state.Value());
    var ok := ValidateBatch(p, entries, [c], [d]);
    assert ok == DecisionOk(p, s, c, d);
    if !ok {
      return None;
    }
    var ns := NormalizeBatch(p, entries, [c], [d]);
    assert NormalizedBatch(p, s, [c], [d]) == [Normalized(p, s.entries, c, d)];
    if ns.None? {
      return None;
    }
    StepIsAtomic(p, state.Value(), c, ns.value[0]);
    var o := state.Apply(c, ns.value[0]);
    n := if o.Applied? then Some(ns.value[0]) else None;
  }

  lemma SalvagedUnfolds(p: Policy, s: Snapshot, cs: seq<Candidate>, rows: seq<Option<Decision>>, b: Blocked, i: nat)
    requires |rows| == |cs| && i < |cs|
    ensures Salvaged(p, s, cs[i..], rows[i..], b) ==
      if Skips(b, cs[i]) then [None] + Salvaged(p, s, cs[i + 1..], rows[i + 1..], b)
      else if RowOk(p, s, cs[i], rows[i]) then
        var n := Normalized(p, s.entries, cs[i], rows[i].value);
        [Some(n)] + Salvaged(p, Step(p, s, cs[i], n).0, cs[i + 1..], rows[i + 1..], b)
      else [None] + Salvaged(p, s, cs[i + 1..], rows[i + 1..], AfterFailure(b, cs[i]))
  {
    hide Step, Normalized;
    assert cs[i..][1..] == cs[i + 1..] && rows[i..][1..] == rows[i + 1..];
  }

  // The salvage in front of row i: what is retained so far, and the rest from state s.
  ghost predicate Salvaging(p: Policy, s: Snapshot, cs: seq<Candidate>, rows: seq<Option<Decision>>, i: nat, b: Blocked,
                            retained: seq<Option<Decision>>, all: seq<Option<Decision>>)
    requires |rows| == |cs| && i <= |cs|
  {
    && Coherent(s) && FreshFor(s, cs[i..]) && DistinctCandidates(cs[i..])
    && |retained| == i && retained + Salvaged(p, s, cs[i..], rows[i..], b) == all
  }

  lemma SalvagingOneMore(p: Policy, s: Snapshot, cs: seq<Candidate>, rows: seq<Option<Decision>>, i: nat, b: Blocked,
                         retained: seq<Option<Decision>>, all: seq<Option<Decision>>)
    requires |rows| == |cs| && i < |cs| && Salvaging(p, s, cs, rows, i, b, retained, all)
    ensures Coherent(s) && Projected(cs[i].index) !in s.entries
    ensures Skips(b, cs[i]) ==> Salvaging(p, s, cs, rows, i + 1, b, retained + [None], all)
    ensures !Skips(b, cs[i]) && !RowOk(p, s, cs[i], rows[i]) ==>
      Salvaging(p, s, cs, rows, i + 1, AfterFailure(b, cs[i]), retained + [None], all)
    ensures !Skips(b, cs[i]) && RowOk(p, s, cs[i], rows[i]) ==>
      var n := Normalized(p, s.entries, cs[i], rows[i].value);
      Salvaging(p, Step(p, s, cs[i], n).0, cs, rows, i + 1, b, retained + [Some(n)], all)
  {
    hide Step, Normalized, RowOk, Coherent, Salvaged, FreshFor, DistinctCandidates, Skips, AfterFailure;
    assert cs[i..][0] == cs[i] && cs[i..][1..] == cs[i + 1..];
    SalvagedUnfolds(p, s, cs, rows, b, i);
    FreshTail(p, s, cs[i..], Pass(cs[i]));
    if rows[i].Some? {
      FreshTail(p, s, cs[i..], Normalized(p, s.entries, cs[i], rows[i].value));
    }
    RowHasDecision(p, s, cs[i], rows[i]);
    var kept := Salvaged(p, s, cs[i..], rows[i..], b);
    assert forall x: Option<Decision>, rest | kept == [x] + rest :: retained + [x] + rest == retained + kept;
  }

  lemma RowHasDecision(p: Policy, s: Snapshot, c: Candidate, row: Option<Decision>)
    ensures RowOk(p, s, c, row) ==> row.Some?
  {
  }

  lemma SkippedIsBlocked(b: Blocked, c: Candidate)
    ensures Skips(b, c) <==> b.rest || Slot(c.factType, c.initialKey) in b.slots
    ensures AfterFailure(b, c) ==
      Blocked(b.slots + {Slot(c.factType, c.initialKey)}, c.factType == STATUS || c.hasReferenceTime)
  {
  }

  /** The salvage loop of _independent_ordered_decisions. */
  method IndependentDecisions(p: Policy, entries: seq<Entry>, cs: seq<Candidate>, payload: Option<seq<Row>>)
    returns (retained: seq<Option<Decision>>)
    requires Loadable(entries) && DistinctCandidates(cs) && FreshFor(Loaded(entries), cs)
    ensures retained == SalvagedResponse(p, Loaded(entries), cs, payload)
  {
    hide Step, Normalized, Loaded, Loadable, RowOk, Coherent, Salvaged, FreshFor, DistinctCandidates, Skips,
      AfterFailure, Salvaging;
    if payload.None? || |payload.value| != |cs| {
      return Nothing(|cs|);
    }
    if exists i | 0 <= i < |cs| :: payload.value[i].candidateRef != Some(cs[i].index) {
      return Nothing(|cs|);
    }
    var rows := Decisions(payload.value);
    var loaded := CharacterProjectionState.FromEntries(p, entries);
    var state := loaded.value;
    var blockedKeys: set<Slot>, uncertainStatus, uncertainTime := {}, false, false;
    ghost var blocked := NOTHING_BLOCKED;
    ghost var all := Salvaged(p, Loaded(entries), cs, rows, NOTHING_BLOCKED);
    SalvageStarts(p, entries, cs, rows);
    retained := [];
    for i := 0 to |cs|
      invariant state.policy == p && Salvaging(p, state.Value(), cs, rows, i, blocked, retained, all)
      invariant blocked == Blocked(blockedKeys, uncertainStatus || uncertainTime)
    {
      var c := cs[i];
      var slot := Slot(c.factType, c.initialKey);
      SalvagingOneMore(p, state.Value(), cs, rows, i, blocked, retained, all);
      SkippedIsBlocked(blocked, c);
      if uncertainStatus || uncertainTime || slot in blockedKeys {
        retained := retained + [None];
      } else {
        var n := CheckRow(p, state, c, rows[i]);
        if n.None? {
          blocked := AfterFailure(blocked, c);
          blockedKeys, uncertainStatus, uncertainTime := blockedKeys + {slot}, c.factType == STATUS, c.hasReferenceTime;
        }
        retained := retained + [n];
      }
    }
    SalvageStops(p, state.Value(), cs, rows, blocked, retained, all);
  }

  lemma SalvageStarts(p: Policy, entries: seq<Entry>, cs: seq<Candidate>, rows: seq<Option<Decision>>)
    requires Loadable(entries) && DistinctCandidates(cs) && FreshFor(Loaded(entries), cs) && |rows| == |cs|
    ensures Salvaging(p, Loaded(entries), cs, rows, 0, NOTHING_BLOCKED, [],
      Salvaged(p, Loaded(entries), cs, rows, NOTHING_BLOCKED))
  {
    hide Loaded, Loadable, Coherent, Salvaged, FreshFor, DistinctCandidates;
    LoadedIsCoherent(entries);
    assert cs[0..] == cs && rows[0..] == rows;
  }

  lemma SalvageStops(p: Policy, s: Snapshot, cs: seq<Candidate>, rows: seq<Option<Decision>>, b: Blocked,
                     retained: seq<Option<Decision>>, all: seq<Option<Decision>>)
    requires |rows| == |cs| && Salvaging(p, s, cs, rows, |cs|, b, retained, all)
    ensures retained == all
  {
    assert Salvaged(p, s, [], [], b) == [];
    assert retained + [] == retained;
  }
}
