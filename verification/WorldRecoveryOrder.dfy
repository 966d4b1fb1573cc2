/**
 The final order of a recovery in app/analysis/world_setting_batch_recovery.py: the groups
 are sorted by their first candidate.  Whether a batch is accepted, and what it does, does
 not depend on the order of its decisions.
 */
module WorldRecoveryOrder {
  import opened Sequences
  import opened WorldScopePlan
  import opened WorldRecoveryGroups
  import opened WorldRecovery

  // ----- the order of the decisions of a batch --------------------------------------

  lemma {:induction false} AllEditsConcat(a: seq<Decision>, b: seq<Decision>)
    ensures AllEdits(a + b) == AllEdits(a) + AllEdits(b)
    decreases |b|
  {
    hide Edits;
    if b == [] {
      assert a + b == a;
    } else {
      var n := |b| - 1;
      assert (a + b)[..|a + b| - 1] == a + b[..n];
      AllEditsConcat(a, b[..n]);
    }
  }

  lemma {:induction false} EditsInAnyOrder(ds: seq<Decision>, es: seq<Decision>)
    requires multiset(ds) == multiset(es)
    ensures multiset(AllEdits(ds)) == multiset(AllEdits(es))
    decreases |es|
  {
    hide Edits, AllEdits;
    if es == [] {
      assert |ds| == |multiset(ds)|;
      assert ds == es;
    } else {
      var k := TakeOut(ds, es);
      var a, b, d := ds[..k], ds[k + 1..], es[0];
      EditsInAnyOrder(a + b, es[1..]);
      assert ds == a + ([d] + b) && es == [d] + es[1..];
      AllEditsConcat(a, [d] + b);
      AllEditsConcat([d], b);
      AllEditsConcat(a, b);
      AllEditsConcat([d], es[1..]);
    }
  }

  lemma {:induction false} ProjectionInAnyOrder(ds: seq<Decision>, es: seq<Decision>, cands: seq<Candidate>)
    requires multiset(ds) == multiset(es)
    ensures multiset(ProjectedAll(ds, cands)) == multiset(ProjectedAll(es, cands))
    decreases |es|
  {
    hide Projected;
    if es == [] {
      assert |ds| == |multiset(ds)|;
      assert ds == es;
    } else {
      var k := TakeOut(ds, es);
      var a, b, d := ds[..k], ds[k + 1..], es[0];
      ProjectionInAnyOrder(a + b, es[1..], cands);
      var own := [Projected(d, cands)];
      assert ProjectedAll(ds, cands) == ProjectedAll(a, cands) + own + ProjectedAll(b, cands);
      assert ProjectedAll(a + b, cands) == ProjectedAll(a, cands) + ProjectedAll(b, cands);
      assert ProjectedAll(es, cands) == own + ProjectedAll(es[1..], cands);
    }
  }

  lemma MainInAnyOrder(ds: seq<Decision>, es: seq<Decision>, cands: seq<Candidate>, trees: Trees,
                       policy: Decision -> bool)
    requires multiset(ds) == multiset(es) && MainOk(ds, cands, trees, policy)
    ensures MainOk(es, cands, trees, policy)
  {
    hide DecisionOk, Refs;
    MembersInAnyOrder(ds, es);
    var apart := (d: Decision, e: Decision) => forall a | a in d.sources :: a !in e.sources;
    assert Pairwise(ds, apart);
    PairwiseInAnyOrder(ds, es, apart);
    forall i | 0 <= i < |es| ensures DecisionOk(es[i], cands, trees, policy) { assert es[i] in ds; }
    forall a | a in Refs(cands) ensures exists i :: 0 <= i < |es| && a in es[i].sources {
      var k :| 0 <= k < |ds| && a in ds[k].sources;
      assert ds[k] in es;
    }
    forall i, j, a | 0 <= i < j < |es| && a in es[i].sources ensures a !in es[j].sources { assert apart(es[i], es[j]); }
  }

  lemma SeparateInAnyOrder(edits: seq<Edit>, others: seq<Edit>)
    requires multiset(edits) == multiset(others) && Separate(edits)
    ensures Separate(others)
  {
    var compatible := (e: Edit, f: Edit) => Compatible(e, f);
    assert Pairwise(edits, compatible);
    PairwiseInAnyOrder(edits, others, compatible);
    forall i, j | 0 <= i < j < |others|
      ensures Compatible(others[i], others[j]) { assert compatible(others[i], others[j]); }
  }

  lemma SameEditsSamePlan(d: Decision, cands: seq<Candidate>, trees: Trees, edits: seq<Edit>, others: seq<Edit>)
    requires forall e :: e in edits <==> e in others
    ensures NotMoved(d, edits) <==> NotMoved(d, others)
    ensures SiblingsOk(d, cands, trees, edits) <==> SiblingsOk(d, cands, trees, others)
  {
    hide Generates;
    if d.proposed.scope.Some? {
      var (tree, scope) := (TreeOf(trees, d.target), d.proposed.scope.value);
      assert Children(edits, tree, d.target, scope) == Children(others, tree, d.target, scope);
    }
    assert Generates(d, cands) ==> d.proposed.scope.Some? by { GeneratesScope(d, cands); }
  }

  lemma GeneratesScope(d: Decision, cands: seq<Candidate>)
    ensures Generates(d, cands) ==> d.proposed.scope.Some?
  {
  }

  lemma PlanInAnyOrder(ds: seq<Decision>, es: seq<Decision>, cands: seq<Candidate>, trees: Trees, siblings: bool)
    requires multiset(ds) == multiset(es) && PlanOk(ds, cands, trees, siblings)
    ensures PlanOk(es, cands, trees, siblings)
  {
    hide LocalPlanOk, NotMoved, SiblingsOk, AllEdits, Separate;
    MembersInAnyOrder(ds, es);
    EditsInAnyOrder(ds, es);
    MembersInAnyOrder(AllEdits(ds), AllEdits(es));
    SeparateInAnyOrder(AllEdits(ds), AllEdits(es));
    forall i | 0 <= i < |es|
      ensures LocalPlanOk(es[i], trees) && NotMoved(es[i], AllEdits(es))
        && (siblings ==> SiblingsOk(es[i], cands, trees, AllEdits(es)))
    {
      assert es[i] in ds;
      SameEditsSamePlan(es[i], cands, trees, AllEdits(ds), AllEdits(es));
    }
  }

  /** The order of its decisions does not matter to whether a batch is accepted. */
  lemma AcceptedInAnyOrder(ds: seq<Decision>, es: seq<Decision>, cands: seq<Candidate>, trees: Trees,
                           policy: Decision -> bool, siblings: bool)
    requires multiset(ds) == multiset(es) && Accepted(ds, cands, trees, policy, siblings)
    ensures Accepted(es, cands, trees, policy, siblings)
  {
    hide MainOk, PlanOk, ProjectedAll;
    MainInAnyOrder(ds, es, cands, trees, policy);
    PlanInAnyOrder(ds, es, cands, trees, siblings);
    ProjectionInAnyOrder(ds, es, cands);
    PlanInAnyOrder(ProjectedAll(ds, cands), ProjectedAll(es, cands), cands, trees, siblings);
  }

  lemma SchemaInAnyOrder(ds: seq<Decision>, es: seq<Decision>)
    requires multiset(ds) == multiset(es)
    ensures SchemaOk(ds) <==> SchemaOk(es)
  {
    hide WellTyped;
    MembersInAnyOrder(ds, es);
  }

  // ----- the order of the groups ------------------------------------------------------

  // The place of the first of its candidates.
  function FirstPlace(v: GroupView, cands: seq<Candidate>): nat {
    if cands == [] || cands[0] in v.candidates then 0 else 1 + FirstPlace(v, cands[1..])
  }

  /** A group's place is that of the candidate of its own that comes first. */
  lemma {:induction false} PlaceIsFirst(v: GroupView, cands: seq<Candidate>, k: nat)
    requires k < |cands|
    ensures FirstPlace(v, cands) == k <==>
      cands[k] in v.candidates && forall m | 0 <= m < k :: cands[m] !in v.candidates
    decreases k
  {
    if k > 0 {
      PlaceIsFirst(v, cands[1..], k - 1);
      if cands[0] !in v.candidates {
        assert forall m | 0 < m < k :: cands[m] == cands[1..][m - 1];
        assert forall m | 0 <= m < k - 1 :: cands[1..][m] == cands[m + 1];
      }
    }
  }

  function InOrder(vs: seq<GroupView>, cands: seq<Candidate>): seq<GroupView> {
    SortedBy(vs, (v: GroupView) => FirstPlace(v, cands))
  }

  /** The sort loses no group and puts first candidates first. */
  lemma InOrderSorts(vs: seq<GroupView>, cands: seq<Candidate>)
    ensures multiset(InOrder(vs, cands)) == multiset(vs)
    ensures var ordered := InOrder(vs, cands);
      forall i, j | 0 <= i < j < |ordered| :: FirstPlace(ordered[i], cands) <= FirstPlace(ordered[j], cands)
  {
    hide FirstPlace, SortedBy;
    var key := (v: GroupView) => FirstPlace(v, cands);
    SortedByIsSorted(vs, key);
    assert InOrder(vs, cands) == SortedBy(vs, key);
    assert forall v :: key(v) == FirstPlace(v, cands);
  }

  lemma SurvivingUnfolds(vs: seq<GroupView>)
    ensures Surviving(vs) ==
      if vs == [] then [] else (if vs[0].failed then [] else vs[0].decisions) + Surviving(vs[1..])
  {
  }

  lemma {:induction false} SurvivingConcat(a: seq<GroupView>, b: seq<GroupView>)
    ensures Surviving(a + b) == Surviving(a) + Surviving(b)
  {
    hide Surviving;
    SurvivingUnfolds(a);
    if a == [] {
      assert a + b == b && [] + Surviving(b) == Surviving(b);
    } else {
      SurvivingConcat(a[1..], b);
      SurvivingUnfolds(a + b);
      assert (a + b)[0] == a[0] && (a + b)[1..] == a[1..] + b;
    }
  }

  lemma {:induction false} SurvivingInAnyOrder(vs: seq<GroupView>, us: seq<GroupView>)
    requires multiset(vs) == multiset(us)
    ensures multiset(Surviving(vs)) == multiset(Surviving(us))
    decreases |us|
  {
    hide Surviving;
    if us == [] {
      assert |vs| == |multiset(vs)|;
      assert vs == us;
    } else {
      var k := TakeOut(vs, us);
      var a, b, v := vs[..k], vs[k + 1..], us[0];
      SurvivingInAnyOrder(a + b, us[1..]);
      assert vs == a + ([v] + b) && us == [v] + us[1..];
      SurvivingConcat(a, [v] + b);
      SurvivingConcat([v], b);
      SurvivingConcat(a, b);
      SurvivingConcat([v], us[1..]);
    }
  }

  lemma SoundInAnyOrder(vs: seq<GroupView>, us: seq<GroupView>, cands: seq<Candidate>)
    requires multiset(vs) == multiset(us) && AllSound(vs, cands) && Disjoint(vs)
    ensures AllSound(us, cands) && Disjoint(us) && AllRefs(us) == AllRefs(vs)
  {
    hide Sound, Refs;
    MembersInAnyOrder(vs, us);
    var apart := (v: GroupView, u: GroupView) => Refs(v.candidates) !! Refs(u.candidates);
    assert Pairwise(vs, apart);
    PairwiseInAnyOrder(vs, us, apart);
    forall i, j | 0 <= i < j < |us|
      ensures Refs(us[i].candidates) !! Refs(us[j].candidates) { assert apart(us[i], us[j]); }
    forall i | 0 <= i < |us| ensures Sound(us[i], cands) {
      assert us[i] in vs;
      var k :| 0 <= k < |vs| && vs[k] == us[i];
      assert Sound(vs[k], cands);
    }
    AllRefsMembers(vs);
    AllRefsMembers(us);
    forall a ensures a in AllRefs(us) <==> a in AllRefs(vs) {
      if i :| 0 <= i < |us| && a in Refs(us[i].candidates) { assert us[i] in vs; }
      if i :| 0 <= i < |vs| && a in Refs(vs[i].candidates) { assert vs[i] in us; }
    }
  }

  lemma SourcesInAnyOrder(ds: seq<Decision>, es: seq<Decision>)
    requires multiset(ds) == multiset(es)
    ensures SetOf(SourceList(ds)) == SetOf(SourceList(es))
  {
    hide SourceList;
    MembersInAnyOrder(ds, es);
    SourceListMembers(ds);
    SourceListMembers(es);
    forall a ensures a in SourceList(ds) <==> a in SourceList(es) {
      if i :| 0 <= i < |ds| && a in ds[i].sources { assert ds[i] in es; }
      if i :| 0 <= i < |es| && a in es[i].sources { assert es[i] in ds; }
    }
  }
}
