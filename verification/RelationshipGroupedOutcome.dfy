/**
 The outcome of a grouped comparison, from app/analysis/relationship_grouped_comparator.py:
 accepted groups are put together, failures are listed, and what is left is validated
 once more against the observations that did not fail.
 */
module RelationshipGroupedOutcome {
  import opened Options
  import opened RelationshipValidation
  import opened RelationshipPartition
  import opened Sequences
  import opened RelationshipGrouped
  import opened RelationshipGroupedDriver

  // ----- what remains when some observations have failed ------------------------------

  function Successful(c: Context, failed: set<ObservationRef>): Context {
    Context(c.relationships, Keep(c.observations, RefsOf(All(c)) - failed), c.held)
  }

  lemma {:induction false} KeepEverything(obs: seq<Observation>, refs: set<ObservationRef>)
    requires forall o | o in obs :: o.ref in refs
    ensures Keep(obs, refs) == obs
  {
    if obs != [] {
      KeepEverything(obs[1..], refs);
      assert obs == [obs[0]] + obs[1..];
    }
  }

  lemma {:induction false} KeepTwice(obs: seq<Observation>, some: set<ObservationRef>, fewer: set<ObservationRef>)
    requires forall o | o in obs && o.ref in fewer :: o.ref in some
    ensures Keep(Keep(obs, some), fewer) == Keep(obs, fewer)
  {
    if obs != [] {
      KeepTwice(obs[1..], some, fewer);
      assert obs == [obs[0]] + obs[1..];
      if obs[0].ref in some {
        assert Keep(obs, some) == [obs[0]] + Keep(obs[1..], some);
        assert Keep(obs, some)[1..] == Keep(obs[1..], some);
      } else {
        assert Keep(obs, some) == Keep(obs[1..], some) && Keep(obs, fewer) == Keep(obs[1..], fewer);
      }
    }
  }

  predicate OnlyNew(failed: set<ObservationRef>) {
    forall a | a in failed :: a.New?
  }

  lemma SuccessfulIsValid(c: Context, failed: set<ObservationRef>)
    requires ValidContext(c) && OnlyNew(failed)
    ensures ValidContext(Successful(c, failed))
    ensures All(Successful(c, failed)) == Keep(All(c), RefsOf(All(c)) - failed)
    ensures forall o :: o in Successful(c, failed).observations <==> o in c.observations && o.ref !in failed
    ensures forall o :: o in All(Successful(c, failed)) <==> o in All(c) && o.ref !in failed
  {
    var left := RefsOf(All(c)) - failed;
    KeepConcat(c.observations, c.held, left);
    KeepEverything(c.held, left);
    KeepDistinct(All(c), left);
    KeepMembers(All(c), left);
    KeepMembers(c.observations, left);
  }

  /** A failure elsewhere leaves the context of a group as it was when its decisions
      were validated. */
  lemma ProjectionUnaffected(c: Context, g: seq<Observation>, failed: set<ObservationRef>)
    requires forall o | o in g :: o in All(c) && o.ref !in failed
    ensures Project(Successful(c, failed), g) == Project(c, g)
  {
    KeepTwice(c.observations, RefsOf(All(c)) - failed, RefsOf(g));
  }

  // ----- holds --------------------------------------------------------------------------

  lemma HoldIsValid(c: Context, o: Observation)
    requires ValidContext(c) && o in c.observations
    ensures ValidDecisions([Hold(o)], Project(c, [o]))
  {
    hide DistinctRelationships, Keep, KeepRelationships;
    var sub := Project(c, [o]);
    ProjectionMembers(c, [o]);
    assert o in [o] && o in All(c);
    assert o in sub.observations && o in All(sub);
    var i :| 0 <= i < |All(sub)| && All(sub)[i] == o;
    assert Knows(All(sub), o.ref);
    assert o.ref in Hold(o).observationRefs;
    assert RefsOk(Hold(o), sub);
    assert LocalOk(Hold(o), sub);
    forall q | q in sub.observations ensures q.ref in Hold(o).observationRefs {}
    assert Hold(o) in [Hold(o)];
  }

  function Singles(obs: seq<Observation>): (parts: seq<seq<Observation>>)
    ensures |parts| == |obs|
  {
    seq(|obs|, k requires 0 <= k < |obs| => [obs[k]])
  }

  function HoldLists(obs: seq<Observation>): (dss: seq<seq<Decision>>)
    ensures |dss| == |obs|
  {
    seq(|obs|, k requires 0 <= k < |obs| => [Hold(obs[k])])
  }

  function Holds(obs: seq<Observation>): (ds: seq<Decision>)
    ensures |ds| == |obs|
  {
    seq(|obs|, k requires 0 <= k < |obs| => Hold(obs[k]))
  }

  lemma {:induction false} HoldsAreLists(obs: seq<Observation>)
    ensures Flatten(HoldLists(obs)) == Holds(obs)
  {
    if obs != [] {
      HoldsAreLists(obs[1..]);
      assert HoldLists(obs)[1..] == HoldLists(obs[1..]);
      assert Holds(obs) == [Hold(obs[0])] + Holds(obs[1..]);
    }
  }

  // ----- accepted groups ------------------------------------------------------------------

  function Rows(ids: seq<nat>, accepted: map<nat, seq<Decision>>): (dss: seq<seq<Decision>>)
    requires forall id | id in ids :: id in accepted
    ensures |dss| == |ids|
  {
    seq(|ids|, k requires 0 <= k < |ids| => assert ids[k] in ids; accepted[ids[k]])
  }

  function RelatedOf(ids: seq<nat>, groups: seq<Group>): (parts: seq<seq<Observation>>)
    requires Below(ids, |groups|)
    ensures |parts| == |ids|
  {
    seq(|ids|, k requires 0 <= k < |ids| => Related(groups[ids[k]]))
  }

  lemma GiveUp(accepted: map<nat, seq<Decision>>, failed: seq<Failed>, id: nat, reason: FailureReason, n: nat)
    requires AnswersAllOf(accepted, failed, n) && id in accepted
    ensures AnswersAllOf(accepted - {id}, failed + [Failed(id, reason)], n)
  {
    assert Ids(failed + [Failed(id, reason)]) == Ids(failed) + [id];
  }

  lemma RowsSkip(kept: seq<nat>, accepted: map<nat, seq<Decision>>, id: nat)
    requires (forall k | k in kept :: k in accepted) && id !in kept
    ensures Rows(kept, accepted - {id}) == Rows(kept, accepted)
  {
  }

  lemma RowsMore(kept: seq<nat>, accepted: map<nat, seq<Decision>>, id: nat)
    requires (forall k | k in kept :: k in accepted) && id in accepted
    ensures Flatten(Rows(kept + [id], accepted)) == Flatten(Rows(kept, accepted)) + accepted[id]
  {
    assert Rows(kept + [id], accepted) == Rows(kept, accepted) + [accepted[id]];
    FlattenConcat(Rows(kept, accepted), [accepted[id]]);
    assert Flatten([accepted[id]]) == accepted[id];
  }

  // The groups below n that are still accepted, in order.
  ghost predicate KeptBelow(kept: seq<nat>, accepted: map<nat, seq<Decision>>, n: nat) {
    && Ascending(kept)
    && (forall id :: id in kept <==> id in accepted && id < n)
  }

  lemma KeptMore(kept: seq<nat>, accepted: map<nat, seq<Decision>>, n: nat)
    requires KeptBelow(kept, accepted, n)
    ensures KeptBelow(kept + [n], accepted, n + 1) <== n in accepted
    ensures KeptBelow(kept, accepted - {n}, n + 1) && n !in kept
  {
    forall i, j | 0 <= i < j < |kept + [n]| ensures (kept + [n])[i] < (kept + [n])[j] {
      assert kept[i] in kept;
    }
  }

  ghost predicate GivenUp(failed: seq<Failed>, answers: map<nat, seq<Decision>>, size: nat) {
    forall f | f in failed ::
      f.reason == RESPONSE_SCHEMA_INVALID && f.id in answers && size + |answers[f.id]| > MAX_DECISIONS
  }

  // Everything that is kept fits the response schema; a group is given up only when it
  // does not fit beside what is kept.
  method Accept(holds: seq<Decision>, n: nat, answers: map<nat, seq<Decision>>, lost: seq<Failed>)
    returns (decisions: seq<Decision>, accepted: map<nat, seq<Decision>>, failed: seq<Failed>, ghost kept: seq<nat>)
    requires AnswersAllOf(answers, lost, n) && |holds| <= MAX_DECISIONS
    ensures AnswersAllOf(accepted, failed, n) && lost <= failed
    ensures forall id | id in accepted :: id in answers && accepted[id] == answers[id]
    ensures KeptBelow(kept, accepted, n)
    ensures decisions == holds + Flatten(Rows(kept, accepted)) && |decisions| <= MAX_DECISIONS
    ensures GivenUp(failed[|lost|..], answers, |decisions|)
  {
    hide AnswersAllOf, KeptBelow;
    decisions, accepted, failed, kept := holds, answers, lost, [];
    NothingKept(answers);
    for id := 0 to n
      invariant AnswersAllOf(accepted, failed, n) && lost <= failed
      invariant forall k | k in accepted :: k in answers && accepted[k] == answers[k]
      invariant forall k | k in answers && id <= k :: k in accepted
      invariant KeptBelow(kept, accepted, id) && forall k | k in kept :: k in accepted
      invariant decisions == holds + Flatten(Rows(kept, accepted)) && |decisions| <= MAX_DECISIONS
      invariant GivenUp(failed[|lost|..], answers, |decisions|)
    {
      KeptMore(kept, accepted, id);
      if id !in answers {
        assert accepted - {id} == accepted;
      } else if |decisions| + |answers[id]| > MAX_DECISIONS {
        GiveUp(accepted, failed, id, RESPONSE_SCHEMA_INVALID, n);
        RowsSkip(kept, accepted, id);
        var f := Failed(id, RESPONSE_SCHEMA_INVALID);
        assert (failed + [f])[|lost|..] == failed[|lost|..] + [f];
        accepted, failed := accepted - {id}, failed + [f];
      } else {
        RowsMore(kept, accepted, id);
        decisions, kept := decisions + answers[id], kept + [id];
      }
    }
  }

  lemma NothingKept(answers: map<nat, seq<Decision>>)
    ensures KeptBelow([], answers, 0)
  {
  }

  // ----- the combined result ---------------------------------------------------------------

  lemma GroupMembers(groups: seq<Group>, unpaired: seq<Observation>, c: Context, id: nat)
    requires AreGroups(groups, unpaired, c) && id < |groups|
    ensures forall o | o in Related(groups[id]) :: o in All(c) && PairOf(o) == Some(groups[id].pair)
    ensures forall o | o in All(c) && PairOf(o) == Some(groups[id].pair) :: o in Related(groups[id])
    ensures forall o :: o in groups[id].observations <==> o in c.observations && PairOf(o) == Some(groups[id].pair)
  {
    assert groups[id] in groups;
    assert IsGroup(groups[id], c);
  }

  lemma SeparatedByPair(g: seq<Observation>, h: seq<Observation>)
    requires forall o, q | o in g && q in h :: o.ref != q.ref && (PairOf(o) != PairOf(q) || PairOf(o).None?)
    ensures Separated(g, h)
  {
    forall o, q, a, b | o in g && q in h && Pins(o, a, b) && Pins(q, a, b) ensures a == b {
      PinnedPair(o, a, b);
      PinnedPair(q, a, b);
    }
  }

  function Parts(unpaired: seq<Observation>, kept: seq<nat>, groups: seq<Group>): (parts: seq<seq<Observation>>)
    requires Below(kept, |groups|)
    ensures |parts| == |unpaired| + |kept|
  {
    Singles(unpaired) + RelatedOf(kept, groups)
  }

  // What every member of part i has in common: no pair, or the pair of its group.
  lemma PartPair(c: Context, groups: seq<Group>, unpaired: seq<Observation>, kept: seq<nat>, i: nat)
    requires AreGroups(groups, unpaired, c) && Below(kept, |groups|) && i < |Parts(unpaired, kept, groups)|
    ensures forall o | o in Parts(unpaired, kept, groups)[i] :: o in All(c)
    ensures i < |unpaired| ==> Parts(unpaired, kept, groups)[i] == [unpaired[i]] && PairOf(unpaired[i]).None?
    ensures i >= |unpaired| ==> forall o | o in Parts(unpaired, kept, groups)[i] ::
      PairOf(o) == Some(groups[kept[i - |unpaired|]].pair)
  {
    if i < |unpaired| {
      assert Parts(unpaired, kept, groups)[i] == [unpaired[i]];
      assert unpaired[i] in unpaired;
    } else {
      var id := kept[i - |unpaired|];
      assert id in kept && Parts(unpaired, kept, groups)[i] == Related(groups[id]);
      GroupMembers(groups, unpaired, c, id);
    }
  }

  lemma PartsAreSeparated(c: Context, groups: seq<Group>, unpaired: seq<Observation>, kept: seq<nat>)
    requires ValidContext(c) && AreGroups(groups, unpaired, c) && Below(kept, |groups|)
    requires Ascending(kept)
    ensures PairwiseSeparated(Parts(unpaired, kept, groups))
  {
    var parts := Parts(unpaired, kept, groups);
    RefsAreUnique(c);
    forall i, j | 0 <= i < j < |parts| ensures Separated(parts[i], parts[j]) {
      PartPair(c, groups, unpaired, kept, i);
      PartPair(c, groups, unpaired, kept, j);
      if |unpaired| <= i {
        assert groups[kept[i - |unpaired|]].pair != groups[kept[j - |unpaired|]].pair;
      }
      forall o: Observation, q: Observation | o in parts[i] && q in parts[j]
        ensures o.ref != q.ref && (PairOf(o) != PairOf(q) || PairOf(o).None?)
      {
        if j < |unpaired| { assert unpaired[i].ref != unpaired[j].ref; }
      }
      SeparatedByPair(parts[i], parts[j]);
    }
  }

  predicate InRange(failed: seq<Failed>, n: nat) {
    forall f | f in failed :: f.id < n
  }

  // The new observations of the failed groups.
  function LostRefs(failed: seq<Failed>, groups: seq<Group>): set<ObservationRef>
    requires InRange(failed, |groups|)
  {
    set f, o | f in failed && o in groups[f.id].observations :: o.ref
  }

  lemma SettledInRange(accepted: map<nat, seq<Decision>>, failed: seq<Failed>, n: nat)
    requires AnswersAllOf(accepted, failed, n)
    ensures InRange(failed, n) && forall id | id in accepted :: id < n
    ensures forall f | f in failed :: f.id !in accepted
    ensures forall id: nat | id < n && id !in accepted :: exists f :: f in failed && f.id == id
  {
    IndicesOnce(n);
    forall f | f in failed ensures f.id in Ids(failed) {
      var k :| 0 <= k < |failed| && failed[k] == f;
      assert Ids(failed)[k] == f.id;
    }
    forall id: nat | id < n && id !in accepted ensures exists f :: f in failed && f.id == id {
      assert id in Ids(failed);
      var k :| 0 <= k < |failed| && Ids(failed)[k] == id;
      assert failed[k] in failed;
    }
  }

  // An observation is lost exactly when the group of its pair has failed.
  lemma LostIsFailedPair(c: Context, groups: seq<Group>, unpaired: seq<Observation>, failed: seq<Failed>,
                         o: Observation)
    requires ValidContext(c) && AreGroups(groups, unpaired, c) && InRange(failed, |groups|) && o in All(c)
    ensures o.ref in LostRefs(failed, groups) <==>
      o in c.observations && exists f :: f in failed && PairOf(o) == Some(groups[f.id].pair)
  {
    hide PairOf;
    RefsAreUnique(c);
    if o.ref in LostRefs(failed, groups) {
      var f, q :| f in failed && q in groups[f.id].observations && q.ref == o.ref;
      GroupMembers(groups, unpaired, c, f.id);
      assert q in All(c) && q == o;
    }
    if o in c.observations && exists f :: f in failed && PairOf(o) == Some(groups[f.id].pair) {
      var f :| f in failed && PairOf(o) == Some(groups[f.id].pair);
      GroupMembers(groups, unpaired, c, f.id);
    }
  }

  lemma LostAreNew(c: Context, groups: seq<Group>, unpaired: seq<Observation>, failed: seq<Failed>)
    requires ValidContext(c) && AreGroups(groups, unpaired, c) && InRange(failed, |groups|)
    ensures OnlyNew(LostRefs(failed, groups))
  {
    forall f | f in failed ensures forall o | o in groups[f.id].observations :: o in c.observations {
      GroupMembers(groups, unpaired, c, f.id);
    }
  }

  lemma PairsAreDistinct(c: Context, groups: seq<Group>, unpaired: seq<Observation>)
    requires AreGroups(groups, unpaired, c)
    ensures forall i, j | 0 <= i < |groups| && 0 <= j < |groups| && groups[i].pair == groups[j].pair :: i == j
    ensures forall o | o in c.observations && PairOf(o).None? :: o in unpaired
    ensures forall o | o in unpaired :: o in c.observations && PairOf(o).None?
  {
  }

  lemma KeptGroup(c: Context, groups: seq<Group>, unpaired: seq<Observation>, accepted: map<nat, seq<Decision>>,
                  failed: seq<Failed>, kept: seq<nat>, o: Observation) returns (k: nat)
    requires ValidContext(c) && AreGroups(groups, unpaired, c) && AnswersAllOf(accepted, failed, |groups|)
    requires InRange(failed, |groups|) && KeptBelow(kept, accepted, |groups|) && Below(kept, |groups|)
    requires o in c.observations && o.ref !in LostRefs(failed, groups) && PairOf(o).Some?
    ensures k < |kept| && o in Related(groups[kept[k]])
  {
    hide PairOf, AnswersAllOf, ValidContext, LostRefs;
    SettledInRange(accepted, failed, |groups|);
    LostIsFailedPair(c, groups, unpaired, failed, o);
    var g :| g in groups && PairOf(o) == Some(g.pair);
    var id: nat :| id < |groups| && groups[id] == g;
    GroupMembers(groups, unpaired, c, id);
    assert id in kept;
    k :| 0 <= k < |kept| && kept[k] == id;
  }

  // What the final validation rests on: the parts left over are untouched by the failures.
  lemma PartsSurvive(c: Context, groups: seq<Group>, unpaired: seq<Observation>, accepted: map<nat, seq<Decision>>,
                     failed: seq<Failed>, kept: seq<nat>)
    requires ValidContext(c) && AreGroups(groups, unpaired, c) && AnswersAllOf(accepted, failed, |groups|)
    requires InRange(failed, |groups|) && KeptBelow(kept, accepted, |groups|) && Below(kept, |groups|)
    ensures forall i, o | 0 <= i < |Parts(unpaired, kept, groups)| && o in Parts(unpaired, kept, groups)[i] ::
      o in All(c) && o.ref !in LostRefs(failed, groups)
    ensures forall o | o in c.observations && o.ref !in LostRefs(failed, groups) ::
      exists i :: 0 <= i < |Parts(unpaired, kept, groups)| && o in Parts(unpaired, kept, groups)[i]
  {
    hide PairOf, AnswersAllOf, ValidContext, AreGroups, LostRefs;
    SettledInRange(accepted, failed, |groups|);
    var parts := Parts(unpaired, kept, groups);
    forall i, o: Observation | 0 <= i < |parts| && o in parts[i]
      ensures o in All(c) && o.ref !in LostRefs(failed, groups) {
      PartPair(c, groups, unpaired, kept, i);
      LostIsFailedPair(c, groups, unpaired, failed, o);
      if i >= |unpaired| {
        assert kept[i - |unpaired|] in kept;
        PairsAreDistinct(c, groups, unpaired);
      }
    }
    forall o | o in c.observations && o.ref !in LostRefs(failed, groups)
      ensures exists i :: 0 <= i < |parts| && o in parts[i] {
      LostIsFailedPair(c, groups, unpaired, failed, o);
      if PairOf(o).None? {
        PairsAreDistinct(c, groups, unpaired);
        var k :| 0 <= k < |unpaired| && unpaired[k] == o;
        assert parts[k] == [o];
      } else {
        var k := KeptGroup(c, groups, unpaired, accepted, failed, kept, o);
        assert parts[|unpaired| + k] == Related(groups[kept[k]]);
      }
    }
  }

  lemma PartsAreValid(c: Context, groups: seq<Group>, unpaired: seq<Observation>, accepted: map<nat, seq<Decision>>,
                      kept: seq<nat>, lost: set<ObservationRef>)
    requires ValidContext(c) && AnswersAre(accepted, groups, c) && Below(kept, |groups|)
      && forall id | id in kept :: id in accepted
    requires forall i, o | 0 <= i < |Parts(unpaired, kept, groups)| && o in Parts(unpaired, kept, groups)[i] ::
      o in All(c) && o.ref !in lost
    requires forall o | o in unpaired :: o in c.observations
    ensures GroupwiseValid(HoldLists(unpaired) + Rows(kept, accepted), Successful(c, lost),
      Parts(unpaired, kept, groups))
  {
    hide ValidContext, ValidDecisions, Project;
    var dss, parts := HoldLists(unpaired) + Rows(kept, accepted), Parts(unpaired, kept, groups);
    forall i | 0 <= i < |parts| ensures ValidDecisions(dss[i], Project(Successful(c, lost), parts[i])) {
      ProjectionUnaffected(c, parts[i], lost);
      if i < |unpaired| {
        HoldIsValid(c, unpaired[i]);
      } else {
        assert kept[i - |unpaired|] in kept;
      }
    }
  }

  /** The combined validation can never reject: the holds and the accepted groups are
      together valid against the observations that did not fail. */
  lemma CombinedIsValid(c: Context, groups: seq<Group>, unpaired: seq<Observation>, accepted: map<nat, seq<Decision>>,
                        failed: seq<Failed>, kept: seq<nat>)
    requires ValidContext(c) && AreGroups(groups, unpaired, c) && AnswersAre(accepted, groups, c)
    requires AnswersAllOf(accepted, failed, |groups|) && InRange(failed, |groups|)
    requires KeptBelow(kept, accepted, |groups|) && Below(kept, |groups|)
    ensures ValidContext(Successful(c, LostRefs(failed, groups)))
    ensures ValidDecisions(Holds(unpaired) + Flatten(Rows(kept, accepted)), Successful(c, LostRefs(failed, groups)))
  {
    hide ValidContext, ValidDecisions, Project, PairOf, AnswersAllOf;
    var lost, parts := LostRefs(failed, groups), Parts(unpaired, kept, groups);
    PartsSurvive(c, groups, unpaired, accepted, failed, kept);
    PartsAreSeparated(c, groups, unpaired, kept);
    PartsAreValid(c, groups, unpaired, accepted, kept, lost);
    LostAreNew(c, groups, unpaired, failed);
    SuccessfulIsValid(c, lost);
    GroupwiseValidityComposes(HoldLists(unpaired) + Rows(kept, accepted), Successful(c, lost), parts);
    HoldsAreLists(unpaired);
    FlattenConcat(HoldLists(unpaired), Rows(kept, accepted));
  }

  // ----- the outcome -----------------------------------------------------------------------

  datatype Failure = Failure(observationRefs: seq<ObservationRef>, reason: FailureReason)

  function RefList(obs: seq<Observation>): (refs: seq<ObservationRef>)
    ensures |refs| == |obs|
  {
    seq(|obs|, k requires 0 <= k < |obs| => obs[k].ref)
  }

  function FailureList(failed: seq<Failed>, groups: seq<Group>): (failures: seq<Failure>)
    requires InRange(failed, |groups|)
    ensures |failures| == |failed|
  {
    seq(|failed|, k requires 0 <= k < |failed| =>
      assert failed[k] in failed; Failure(RefList(groups[failed[k].id].observations), failed[k].reason))
  }

  ghost predicate FailedRef(a: ObservationRef, failures: seq<Failure>) {
    exists f :: f in failures && a in f.observationRefs
  }

  ghost predicate Decided(a: ObservationRef, decisions: seq<Decision>) {
    exists d :: d in decisions && a in d.observationRefs
  }

  // Every new observation is decided or has failed, never both, and fails once.
  ghost predicate Partitioned(c: Context, decisions: seq<Decision>, failures: seq<Failure>) {
    && (forall o | o in c.observations :: Decided(o.ref, decisions) <==> !FailedRef(o.ref, failures))
    && (forall f, a | f in failures && a in f.observationRefs :: exists o :: o in c.observations && o.ref == a)
    && (forall i, j, a | 0 <= i < j < |failures| && a in failures[i].observationRefs ::
      a !in failures[j].observationRefs)
  }

  lemma FailureRefs(failed: seq<Failed>, groups: seq<Group>, a: ObservationRef)
    requires InRange(failed, |groups|)
    ensures FailedRef(a, FailureList(failed, groups)) <==> a in LostRefs(failed, groups)
  {
    var failures := FailureList(failed, groups);
    if FailedRef(a, failures) {
      var f :| f in failures && a in f.observationRefs;
      var k :| 0 <= k < |failures| && failures[k] == f;
      var obs := groups[failed[k].id].observations;
      var m :| 0 <= m < |obs| && RefList(obs)[m] == a;
      assert failed[k] in failed && obs[m] in obs;
    }
    if a in LostRefs(failed, groups) {
      var f, o :| f in failed && o in groups[f.id].observations && o.ref == a;
      var k :| 0 <= k < |failed| && failed[k] == f;
      var m :| 0 <= m < |groups[f.id].observations| && groups[f.id].observations[m] == o;
      assert RefList(groups[f.id].observations)[m] == a;
      assert failures[k] in failures;
    }
  }

  // Two failures name different groups, so they share no observation.
  lemma FailuresAreDisjoint(c: Context, groups: seq<Group>, unpaired: seq<Observation>, failed: seq<Failed>, i: nat,
                            j: nat, a: ObservationRef)
    requires ValidContext(c) && AreGroups(groups, unpaired, c) && InRange(failed, |groups|) && Distinct(Ids(failed))
    requires i < j < |failed| && a in FailureList(failed, groups)[i].observationRefs
    ensures a !in FailureList(failed, groups)[j].observationRefs
    ensures exists o :: o in c.observations && o.ref == a
  {
    hide PairOf;
    RefsAreUnique(c);
    PairsAreDistinct(c, groups, unpaired);
    assert Ids(failed)[i] != Ids(failed)[j] && failed[i] in failed && failed[j] in failed;
    var (g, h) := (groups[failed[i].id], groups[failed[j].id]);
    GroupMembers(groups, unpaired, c, failed[i].id);
    GroupMembers(groups, unpaired, c, failed[j].id);
    var k :| 0 <= k < |g.observations| && RefList(g.observations)[k] == a;
    assert g.observations[k] in g.observations;
    forall m | 0 <= m < |h.observations| ensures RefList(h.observations)[m] != a {
      assert h.observations[m] in h.observations;
    }
  }

  lemma FailureIsNew(c: Context, groups: seq<Group>, unpaired: seq<Observation>, failed: seq<Failed>, a: ObservationRef)
    requires AreGroups(groups, unpaired, c) && InRange(failed, |groups|) && a in LostRefs(failed, groups)
    ensures exists o :: o in c.observations && o.ref == a
  {
    var f, o :| f in failed && o in groups[f.id].observations && o.ref == a;
    GroupMembers(groups, unpaired, c, f.id);
  }

  lemma OutcomeIsPartition(c: Context, groups: seq<Group>, unpaired: seq<Observation>,
                           accepted: map<nat, seq<Decision>>, failed: seq<Failed>, decisions: seq<Decision>)
    requires ValidContext(c) && AreGroups(groups, unpaired, c) && InRange(failed, |groups|)
    requires AnswersAllOf(accepted, failed, |groups|)
    requires ValidDecisions(decisions, Successful(c, LostRefs(failed, groups)))
    ensures Partitioned(c, decisions, FailureList(failed, groups))
  {
    hide PairOf, AreGroups, ValidContext, FailureList, LostRefs;
    var failures, lost := FailureList(failed, groups), LostRefs(failed, groups);
    LostAreNew(c, groups, unpaired, failed);
    SuccessfulIsValid(c, lost);
    forall o | o in c.observations ensures Decided(o.ref, decisions) <==> !FailedRef(o.ref, failures) {
      FailureRefs(failed, groups, o.ref);
      DecidedIsSuccessful(c, lost, decisions, o);
    }
    forall f, a | f in failures && a in f.observationRefs ensures exists o :: o in c.observations && o.ref == a {
      FailureRefs(failed, groups, a);
      FailureIsNew(c, groups, unpaired, failed, a);
    }
    forall i, j, a | 0 <= i < j < |failures| && a in failures[i].observationRefs
      ensures a !in failures[j].observationRefs {
      FailuresAreDisjoint(c, groups, unpaired, failed, i, j, a);
    }
  }

  lemma DecidedIsSuccessful(c: Context, lost: set<ObservationRef>, decisions: seq<Decision>, o: Observation)
    requires ValidContext(c) && OnlyNew(lost) && ValidDecisions(decisions, Successful(c, lost)) && o in c.observations
    ensures Decided(o.ref, decisions) <==> o.ref !in lost
  {
    hide ValidContext, PairOk, Mutates;
    SuccessfulIsValid(c, lost);
    var left := Successful(c, lost);
    if Decided(o.ref, decisions) {
      var d :| d in decisions && o.ref in d.observationRefs;
      assert LocalOk(d, left) && Knows(All(left), o.ref);
      var i :| 0 <= i < |All(left)| && All(left)[i].ref == o.ref;
      assert All(left)[i] in All(left);
    }
    if o.ref !in lost {
      assert o in left.observations && CoversNew(decisions, left);
    }
  }

  lemma BlockedHaveFailed(c: Context, groups: seq<Group>, unpaired: seq<Observation>, failed: seq<Failed>,
                          blocked: set<Pair>, o: Observation)
    requires AreGroups(groups, unpaired, c) && InRange(failed, |groups|)
    requires forall id | 0 <= id < |groups| && groups[id].pair in blocked ::
      Failed(id, PREDECESSOR_INCOMPLETE) in failed
    requires o in c.observations && PairOf(o).Some? && PairOf(o).value in blocked
    ensures exists f ::
      f in FailureList(failed, groups) && o.ref in f.observationRefs && f.reason == PREDECESSOR_INCOMPLETE
  {
    hide PairOf;
    var g :| g in groups && PairOf(o) == Some(g.pair);
    var id :| 0 <= id < |groups| && groups[id] == g;
    GroupMembers(groups, unpaired, c, id);
    var k :| 0 <= k < |failed| && failed[k] == Failed(id, PREDECESSOR_INCOMPLETE);
    var m :| 0 <= m < |g.observations| && g.observations[m] == o;
    assert RefList(g.observations)[m] == o.ref;
    assert FailureList(failed, groups)[k].observationRefs == RefList(g.observations);
  }

  // A new observation of a pair whose predecessor is incomplete.
  predicate IsBlocked(o: Observation, blocked: set<Pair>) {
    PairOf(o).Some? && PairOf(o).value in blocked
  }

  ghost predicate BlockedFailed(c: Context, blocked: set<Pair>, failures: seq<Failure>) {
    forall o | o in c.observations && IsBlocked(o, blocked) ::
      exists f :: f in failures && o.ref in f.observationRefs && f.reason == PREDECESSOR_INCOMPLETE
  }

  // The group was answered, but its decisions did not fit beside the others.
  ghost predicate CrowdedOut(id: nat, size: nat, c: Context, groups: seq<Group>, batches: seq<seq<nat>>,
                             provider: Provider)
  {
    exists ds :: AnsweredIn(id, ds, batches, c, groups, provider) && size + |ds| > MAX_DECISIONS
  }

  ghost predicate FailedFor(f: Failed, size: nat, c: Context, groups: seq<Group>, blocked: set<Pair>, limits: Limits,
                            batches: seq<seq<nat>>, provider: Provider)
  {
    || Excused(f, c, groups, blocked, limits, batches, provider)
    || (f.reason == RESPONSE_SCHEMA_INVALID && CrowdedOut(f.id, size, c, groups, batches, provider))
  }

  // A failure is all of one group's observations, and the group had that reason to fail.
  ghost predicate Explained(failure: Failure, size: nat, c: Context, groups: seq<Group>, blocked: set<Pair>,
                            limits: Limits, batches: seq<seq<nat>>, provider: Provider)
  {
    exists id: nat :: id < |groups| && failure.observationRefs == RefList(groups[id].observations)
      && FailedFor(Failed(id, failure.reason), size, c, groups, blocked, limits, batches, provider)
  }

  lemma FailuresAreExplained(failed: seq<Failed>, lost: seq<Failed>, answers: map<nat, seq<Decision>>, size: nat,
                             c: Context, groups: seq<Group>, blocked: set<Pair>, limits: Limits, batches: seq<seq<nat>>,
                             provider: Provider)
    requires InRange(failed, |groups|) && lost <= failed
    requires AllExcused(lost, c, groups, blocked, limits, batches, provider)
      && AllAnswered(answers, batches, c, groups, provider)
    requires GivenUp(failed[|lost|..], answers, size)
    ensures forall f | f in FailureList(failed, groups) ::
      Explained(f, size, c, groups, blocked, limits, batches, provider)
  {
    hide Excused, AnsweredIn;
    var failures := FailureList(failed, groups);
    forall f | f in failures ensures Explained(f, size, c, groups, blocked, limits, batches, provider) {
      var k :| 0 <= k < |failures| && failures[k] == f;
      assert failed[k] in failed && failed[k] == Failed(failed[k].id, f.reason);
      if k < |lost| {
        assert failed[k] == lost[k] && lost[k] in lost;
      } else {
        assert failed[k] == failed[|lost|..][k - |lost|] && failed[k] in failed[|lost|..];
        assert AnsweredIn(failed[k].id, answers[failed[k].id], batches, c, groups, provider);
      }
      assert FailedFor(failed[k], size, c, groups, blocked, limits, batches, provider);
    }
  }

  // A decision is a hold of an observation without a pair, or part of the answer of a group.
  ghost predicate HasOrigin(d: Decision, c: Context, groups: seq<Group>, unpaired: seq<Observation>,
                            batches: seq<seq<nat>>, provider: Provider)
  {
    || (exists o :: o in unpaired && d == Hold(o))
    || (exists id, ds :: AnsweredIn(id, ds, batches, c, groups, provider) && d in ds)
  }

  lemma DecisionsHaveOrigins(decisions: seq<Decision>, kept: seq<nat>, accepted: map<nat, seq<Decision>>, c: Context,
                             groups: seq<Group>, unpaired: seq<Observation>, batches: seq<seq<nat>>, provider: Provider)
    requires (forall k | k in kept :: k in accepted) && AllAnswered(accepted, batches, c, groups, provider)
    requires decisions == Holds(unpaired) + Flatten(Rows(kept, accepted))
    ensures forall d | d in decisions :: HasOrigin(d, c, groups, unpaired, batches, provider)
  {
    hide AnsweredIn, Flatten;
    FlattenMembers(Rows(kept, accepted));
    forall d | d in decisions ensures HasOrigin(d, c, groups, unpaired, batches, provider) {
      if d in Holds(unpaired) {
        var k :| 0 <= k < |unpaired| && Holds(unpaired)[k] == d;
        assert unpaired[k] in unpaired;
      } else {
        var k :| 0 <= k < |Rows(kept, accepted)| && d in Rows(kept, accepted)[k];
        assert kept[k] in kept;
      }
    }
  }

  lemma FewerAnswered(answers: map<nat, seq<Decision>>, accepted: map<nat, seq<Decision>>, batches: seq<seq<nat>>,
                      c: Context, groups: seq<Group>, provider: Provider)
    requires AllAnswered(answers, batches, c, groups, provider)
    requires forall id | id in accepted :: id in answers && accepted[id] == answers[id]
    ensures AllAnswered(accepted, batches, c, groups, provider)
  {
    hide AnsweredIn;
  }

  // The place of the first observation that failed.
  function Place(f: Failure, obs: seq<Observation>): nat {
    if obs == [] || (f.observationRefs != [] && obs[0].ref == f.observationRefs[0]) then 0 else 1 + Place(f, obs[1..])
  }

  function Ordered(failures: seq<Failure>, obs: seq<Observation>): seq<Failure> {
    SortedBy(failures, (f: Failure) => Place(f, obs))
  }

  // Of two failures the one whose first observation comes first is listed first.
  ghost predicate InObservationOrder(failures: seq<Failure>, obs: seq<Observation>) {
    forall i, j, k: nat, l: nat |
      0 <= i < j < |failures| && StartsAt(failures[i], obs, k) && StartsAt(failures[j], obs, l) :: k <= l
  }

  ghost predicate StartsAt(f: Failure, obs: seq<Observation>, k: nat) {
    k < |obs| && f.observationRefs != [] && obs[k].ref == f.observationRefs[0]
  }

  lemma {:induction false} PlaceIsStart(f: Failure, obs: seq<Observation>, k: nat)
    requires DistinctRefs(obs) && StartsAt(f, obs, k)
    ensures Place(f, obs) == k
  {
    if k > 0 {
      assert obs[0].ref != obs[k].ref;
      PlaceIsStart(f, obs[1..], k - 1);
    }
  }

  // The order of the failures is immaterial to what they say.
  lemma OrderedFailures(failures: seq<Failure>, c: Context, decisions: seq<Decision>, blocked: set<Pair>)
    requires Partitioned(c, decisions, failures) && BlockedFailed(c, blocked, failures) && DistinctRefs(c.observations)
    ensures var ordered := Ordered(failures, c.observations);
      && Partitioned(c, decisions, ordered) && BlockedFailed(c, blocked, ordered)
      && InObservationOrder(ordered, c.observations)
      && (forall f :: f in ordered <==> f in failures)
        && (forall a :: FailedRef(a, ordered) <==> FailedRef(a, failures))
  {
    hide Place, SortedBy, IsBlocked, Decided, DistinctRefs, StartsAt;
    var ordered := Ordered(failures, c.observations);
    SortedByIsSorted(failures, (f: Failure) => Place(f, c.observations));
    forall i, j, k: nat, l: nat | 0 <= i < j < |ordered|
      && StartsAt(ordered[i], c.observations, k) && StartsAt(ordered[j], c.observations, l)
      ensures k <= l {
      PlaceIsStart(ordered[i], c.observations, k);
      PlaceIsStart(ordered[j], c.observations, l);
    }
    MembersInAnyOrder(failures, ordered);
    var apart := (f: Failure, g: Failure) =>
      forall a :: !(a in f.observationRefs && a in g.observationRefs);
    assert Pairwise(failures, apart);
    PairwiseInAnyOrder(failures, ordered, apart);
    forall i, j, a | 0 <= i < j < |ordered| && a in ordered[i].observationRefs
      ensures a !in ordered[j].observationRefs {
      assert apart(ordered[i], ordered[j]);
    }
  }

  /** The grouped comparison.  For every provider behaviour that returns, each new
      observation is decided or listed in exactly one failure; the decisions are valid
      against the observations that did not fail, so the final validation never
      rejects; every decision is a hold or part of the answer of a planned batch, and every
      failure has its cause in the plan or in the repair of its batch; and each planned batch
      takes one call, or two, so that at most 32 are made.  Failures are listed in the order of
      their first observations. */
  method Compare(c: Context, blocked: set<Pair>, limits: Limits, provider: Provider)
    returns (decisions: seq<Decision>, failures: seq<Failure>, calls: nat,
             ghost groups: seq<Group>, ghost unpaired: seq<Observation>, ghost batches: seq<seq<nat>>)
    requires ValidContext(c) && |c.observations| <= MAX_OBSERVATIONS
    ensures Partitioned(c, decisions, failures)
    ensures exists lost ::
      (forall a :: a in lost <==> FailedRef(a, failures)) && ValidDecisions(decisions, Successful(c, lost))
    ensures |decisions| <= MAX_DECISIONS && calls <= 32
    ensures batches == Planned(groups, blocked, limits) && calls == CallsFor(batches, c, groups, provider)
    ensures BlockedFailed(c, blocked, failures)
    ensures forall o | o in c.observations && PairOf(o).None? :: Hold(o) in decisions
    ensures groups == GroupsOf(FirstPairs(c.observations), c) && unpaired == WithoutPair(c.observations)
    ensures AreGroups(groups, unpaired, c) && InObservationOrder(failures, c.observations)
    ensures forall f | f in failures :: Explained(f, |decisions|, c, groups, blocked, limits, batches, provider)
    ensures forall d | d in decisions :: HasOrigin(d, c, groups, unpaired, batches, provider)
  {
    hide ValidContext, ValidDecisions, PairOf, AnswersAllOf, AreGroups, Partitioned, FailureList, LostRefs, Successful,
      AnswersAre, GivenUp, AllExcused, AllAnswered, Planned, CallsFor, Explained, HasOrigin, KeptBelow, FirstPairs,
      WithoutPair, BlockedFailed, Ordered, InObservationOrder, FailedRef;
    var built, alone := BuildGroups(c);
    groups, unpaired := built, alone;
    PairsAreDistinct(c, built, alone);
    var answers, early;
    answers, early, calls, batches := RunAll(c, built, blocked, limits, provider);
    var accepted, failed;
    ghost var kept;
    decisions, accepted, failed, kept := Accept(Holds(alone), |built|, answers, early);
    SettledInRange(accepted, failed, |built|);
    FewerAnswers(answers, accepted, built, c);
    KeptAreAccepted(kept, accepted, |built|);
    CombinedIsValid(c, built, alone, accepted, failed, kept);
    var reason := ValidateDecisions(decisions, Successful(c, LostRefs(failed, built)));
    if reason.Some? {
      assert false;  // the combined validation never rejects
    }
    failures := Ordered(FailureList(failed, built), c.observations);
    OutcomeIsPartition(c, built, alone, accepted, failed, decisions);
    AllBlockedFailed(c, built, alone, failed, blocked);
    NewRefsDistinct(c);
    OrderedFailures(FailureList(failed, built), c, decisions, blocked);
    forall a ensures a in LostRefs(failed, built) <==> FailedRef(a, FailureList(failed, built)) {
      FailureRefs(failed, built, a);
    }
    FailuresAreExplained(failed, early, answers, |decisions|, c, built, blocked, limits, batches, provider);
    FewerAnswered(answers, accepted, batches, c, built, provider);
    DecisionsHaveOrigins(decisions, kept, accepted, c, built, alone, batches, provider);
    AllHeld(c, built, alone, decisions);
  }

  lemma NewRefsDistinct(c: Context)
    requires ValidContext(c)
    ensures DistinctRefs(c.observations)
  {
    forall i, j | 0 <= i < j < |c.observations| ensures c.observations[i].ref != c.observations[j].ref {
      assert All(c)[i] == c.observations[i] && All(c)[j] == c.observations[j];
    }
  }

  lemma KeptAreAccepted(kept: seq<nat>, accepted: map<nat, seq<Decision>>, n: nat)
    requires KeptBelow(kept, accepted, n)
    ensures (forall k | 0 <= k < |kept| :: kept[k] < n) && forall k | k in kept :: k in accepted
  {
    forall k | 0 <= k < |kept| ensures kept[k] < n { assert kept[k] in kept; }
  }

  lemma AllBlockedFailed(c: Context, groups: seq<Group>, unpaired: seq<Observation>, failed: seq<Failed>,
                         blocked: set<Pair>)
    requires AreGroups(groups, unpaired, c) && InRange(failed, |groups|)
    requires forall id | 0 <= id < |groups| && groups[id].pair in blocked ::
      Failed(id, PREDECESSOR_INCOMPLETE) in failed
    ensures BlockedFailed(c, blocked, FailureList(failed, groups))
  {
    hide AreGroups, FailureList, PairOf;
    forall o | o in c.observations && IsBlocked(o, blocked)
      ensures exists f ::
        f in FailureList(failed, groups) && o.ref in f.observationRefs && f.reason == PREDECESSOR_INCOMPLETE
    {
      BlockedHaveFailed(c, groups, unpaired, failed, blocked, o);
    }
  }

  lemma AllHeld(c: Context, groups: seq<Group>, unpaired: seq<Observation>, decisions: seq<Decision>)
    requires AreGroups(groups, unpaired, c) && Holds(unpaired) <= decisions
    ensures forall o | o in c.observations && PairOf(o).None? :: Hold(o) in decisions
  {
    hide PairOf;
    forall o | o in unpaired ensures Hold(o) in decisions {
      var k :| 0 <= k < |unpaired| && unpaired[k] == o;
      assert decisions[k] == Holds(unpaired)[k];
    }
  }

  lemma FewerAnswers(answers: map<nat, seq<Decision>>, accepted: map<nat, seq<Decision>>, groups: seq<Group>,
                     c: Context)
    requires AnswersAre(answers, groups, c) && forall id | id in accepted ::
      id in answers && accepted[id] == answers[id]
    ensures AnswersAre(accepted, groups, c)
  {
  }
}
