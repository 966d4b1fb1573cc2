/**
 Recovery groups of world-setting decisions, from app/analysis/world_setting_batch_recovery.py:
 the mutable group, its one retry, and what a list of groups has decided.
 */
module WorldRecoveryGroups {
  import opened Sequences
  import opened WorldScopePlan
  import opened WorldComponents

  // ----- values of groups -----------------------------------------------------------

  datatype GroupView = GroupView(
    candidates: seq<Candidate>, decisions: seq<Decision>, failed: bool,
    scopes: set<Scope>, readSet: set<Touch>, writeSet: set<Touch>)

  function PrintOf(v: GroupView): Footprint {
    Footprint(Refs(v.candidates), v.scopes, v.readSet + AllReads(v.decisions), v.writeSet + AllWrites(v.decisions))
  }

  function Prints(vs: seq<GroupView>): (prints: seq<Footprint>)
    ensures |prints| == |vs|
  {
    seq(|vs|, i requires 0 <= i < |vs| => PrintOf(vs[i]))
  }

  method CollectPrints(vs: seq<GroupView>) returns (prints: seq<Footprint>)
    ensures prints == Prints(vs)
  {
    hide AllReads, AllWrites, Refs;
    prints := [];
    for i := 0 to |vs|
      invariant |prints| == i && forall k | 0 <= k < i :: prints[k] == PrintOf(vs[k])
    {
      var reads', writes := CollectFootprint(vs[i].decisions);
      prints := prints
        + [Footprint(Refs(vs[i].candidates), vs[i].scopes, vs[i].readSet + reads', vs[i].writeSet + writes)];
    }
  }

  // The decisions use each of the candidates exactly once, and nothing else.
  ghost predicate Covered(ds: seq<Decision>, cands: seq<Candidate>) {
    && (forall d | d in ds :: WellTyped(d) && forall a | a in d.sources :: a in Refs(cands))
    && SourcesOnce(ds) && CoversAll(ds, Refs(cands))
  }

  // A group that has not failed holds decisions for exactly its candidates.
  ghost predicate Sound(v: GroupView, cands: seq<Candidate>) {
    && v.candidates != [] && DistinctRefs(v.candidates) && Refs(v.candidates) <= Refs(cands)
    && (!v.failed ==> Covered(v.decisions, v.candidates))
  }

  ghost predicate AllSound(vs: seq<GroupView>, cands: seq<Candidate>) {
    forall i | 0 <= i < |vs| :: Sound(vs[i], cands)
  }

  // Failing a group keeps what it had decided, so its footprint stays.
  function Failing(vs: seq<GroupView>, chosen: set<nat>): (r: seq<GroupView>)
    ensures |r| == |vs|
  {
    seq(|vs|, i requires 0 <= i < |vs| => if i in chosen then vs[i].(failed := true) else vs[i])
  }

  lemma FailingKeepsPrints(vs: seq<GroupView>, chosen: set<nat>)
    ensures Prints(Failing(vs, chosen)) == Prints(vs)
  {
  }

  lemma FailingTwice(vs: seq<GroupView>, a: set<nat>, b: set<nat>)
    ensures Failing(Failing(vs, a), b) == Failing(vs, a + b)
  {
  }

  lemma FailingIsSound(vs: seq<GroupView>, chosen: set<nat>, cands: seq<Candidate>)
    requires AllSound(vs, cands)
    ensures AllSound(Failing(vs, chosen), cands)
  {
    forall i | 0 <= i < |vs| ensures Sound(Failing(vs, chosen)[i], cands) { assert Sound(vs[i], cands); }
  }

  function Alive(vs: seq<GroupView>): set<nat> {
    set i: nat | i < |vs| && !vs[i].failed
  }

  function Surviving(vs: seq<GroupView>): seq<Decision> {
    if vs == [] then [] else (if vs[0].failed then [] else vs[0].decisions) + Surviving(vs[1..])
  }

  function RefList(cands: seq<Candidate>): (refs: seq<Ref>)
    ensures |refs| == |cands|
  {
    seq(|cands|, k requires 0 <= k < |cands| => cands[k].ref)
  }

  // The failures of the failed groups, each with the references of its candidates.
  function FailureLists(vs: seq<GroupView>): seq<seq<Ref>> {
    if vs == [] then [] else (if vs[0].failed then [RefList(vs[0].candidates)] else []) + FailureLists(vs[1..])
  }

  function SurvivingRefs(vs: seq<GroupView>): set<Ref> {
    if vs == [] then {} else (if vs[0].failed then {} else Refs(vs[0].candidates)) + SurvivingRefs(vs[1..])
  }

  function AllRefs(vs: seq<GroupView>): set<Ref> {
    if vs == [] then {} else Refs(vs[0].candidates) + AllRefs(vs[1..])
  }

  ghost predicate Disjoint(vs: seq<GroupView>) {
    forall i, j :: 0 <= i < j < |vs| ==> Refs(vs[i].candidates) !! Refs(vs[j].candidates)
  }

  // ----- each source once ----------------------------------------------------------------

  function SourcesOf(ds: seq<Decision>): (sources: seq<seq<Ref>>)
    ensures |sources| == |ds|
  {
    seq(|ds|, i requires 0 <= i < |ds| => ds[i].sources)
  }

  function SourceList(ds: seq<Decision>): seq<Ref> {
    Flatten(SourcesOf(ds))
  }

  lemma SourceListConcat(a: seq<Decision>, b: seq<Decision>)
    ensures SourceList(a + b) == SourceList(a) + SourceList(b)
  {
    assert SourcesOf(a + b) == SourcesOf(a) + SourcesOf(b);
    FlattenConcat(SourcesOf(a), SourcesOf(b));
  }

  lemma SourceListMembers(ds: seq<Decision>)
    ensures forall a :: a in SourceList(ds) <==> exists i :: 0 <= i < |ds| && a in ds[i].sources
  {
    hide Flatten;
    FlattenMembers(SourcesOf(ds));
    forall a ensures a in SourceList(ds) <==> exists i :: 0 <= i < |ds| && a in ds[i].sources {
      if a in SourceList(ds) {
        var i :| 0 <= i < |ds| && a in SourcesOf(ds)[i];
        assert a in ds[i].sources;
      }
      if exists i :: 0 <= i < |ds| && a in ds[i].sources {
        var i :| 0 <= i < |ds| && a in ds[i].sources;
        assert a in SourcesOf(ds)[i];
      }
    }
  }

  lemma DistinctConcat<T>(a: seq<T>, b: seq<T>)
    requires Distinct(a) && Distinct(b) && SetOf(a) !! SetOf(b)
    ensures Distinct(a + b) && SetOf(a + b) == SetOf(a) + SetOf(b)
  {
    var all := a + b;
    forall i, j | 0 <= i < j < |all| ensures all[i] != all[j] {
      if i < |a| && |a| <= j {
        assert all[i] in SetOf(a) && all[j] in SetOf(b);
      }
    }
  }

  lemma {:induction false} SourcesAreDistinct(ds: seq<Decision>)
    requires SourcesOnce(ds) && forall d | d in ds :: WellTyped(d)
    ensures Distinct(SourceList(ds))
  {
    hide WellTyped;
    if ds != [] {
      assert ds[0] in ds && Distinct(ds[0].sources) by { SourcesOfOne(ds[0]); }
      assert SourcesOnce(ds[1..]);
      SourcesAreDistinct(ds[1..]);
      SourceListMembers(ds[1..]);
      DistinctConcat(ds[0].sources, SourceList(ds[1..]));
      assert SourcesOf(ds)[1..] == SourcesOf(ds[1..]);
      FlattenUnfolds(SourcesOf(ds));
    }
  }

  lemma SourcesOfOne(d: Decision)
    requires WellTyped(d)
    ensures Distinct(d.sources)
  {
  }

  lemma CoveredSources(ds: seq<Decision>, cands: seq<Candidate>)
    requires Covered(ds, cands)
    ensures Distinct(SourceList(ds)) && SetOf(SourceList(ds)) == Refs(cands)
  {
    SourcesAreDistinct(ds);
    SourceListMembers(ds);
    forall a ensures a in SourceList(ds) <==> a in Refs(cands) {
      if a in SourceList(ds) {
        var i :| 0 <= i < |ds| && a in ds[i].sources;
        assert ds[i] in ds;
      }
    }
  }

  lemma RefListIsRefs(cands: seq<Candidate>)
    requires DistinctRefs(cands)
    ensures Distinct(RefList(cands)) && SetOf(RefList(cands)) == Refs(cands)
  {
    forall a ensures a in RefList(cands) <==> a in Refs(cands) {
      if a in Refs(cands) {
        var k :| 0 <= k < |cands| && cands[k].ref == a;
        assert RefList(cands)[k] == a;
      }
    }
  }

  // The outcome of a list of groups names each reference at most once.
  ghost predicate NamesOnce(decisions: seq<Decision>, failures: seq<seq<Ref>>, refs: set<Ref>) {
    && Distinct(SourceList(decisions) + Flatten(failures))
    && SetOf(SourceList(decisions) + Flatten(failures)) == refs
  }

  /** Groups that are sound and share no candidate account for every candidate exactly
      once, either through a decision or in a failure. */
  lemma {:induction false} EveryRefOnce(vs: seq<GroupView>, cands: seq<Candidate>)
    requires AllSound(vs, cands) && Disjoint(vs)
    ensures NamesOnce(Surviving(vs), FailureLists(vs), AllRefs(vs))
    ensures SetOf(SourceList(Surviving(vs))) == SurvivingRefs(vs)
  {
    hide Sound, WellTyped, Covered;
    if vs != [] {
      var rest := vs[1..];
      assert AllSound(rest, cands) && Disjoint(rest);
      EveryRefOnce(rest, cands);
      RestIsDisjoint(vs);
      var sources, failures := SourceList(Surviving(rest)), Flatten(FailureLists(rest));
      DistinctParts(sources, failures);
      assert Sound(vs[0], cands);
      if vs[0].failed {
        var own := RefList(vs[0].candidates);
        assert DistinctRefs(vs[0].candidates) by { SoundParts(vs[0], cands); }
        RefListIsRefs(vs[0].candidates);
        assert Surviving(vs) == Surviving(rest);
        assert Flatten(FailureLists(vs)) == own + failures by {
          assert FailureLists(vs) == [own] + FailureLists(rest);
          assert FailureLists(vs)[1..] == FailureLists(rest);
        }
        DistinctConcat(own, failures);
        DistinctConcat(sources, own + failures);
      } else {
        assert Covered(vs[0].decisions, vs[0].candidates) by { SoundParts(vs[0], cands); }
        CoveredSources(vs[0].decisions, vs[0].candidates);
        SourceListConcat(vs[0].decisions, Surviving(rest));
        assert FailureLists(vs) == FailureLists(rest);
        DistinctConcat(SourceList(vs[0].decisions), sources);
        DistinctConcat(SourceList(vs[0].decisions) + sources, failures);
      }
    }
  }

  lemma SoundParts(v: GroupView, cands: seq<Candidate>)
    requires Sound(v, cands)
    ensures DistinctRefs(v.candidates) && (!v.failed ==> Covered(v.decisions, v.candidates))
    ensures Refs(v.candidates) <= Refs(cands)
  {
  }

  lemma DistinctParts<T>(a: seq<T>, b: seq<T>)
    requires Distinct(a + b)
    ensures Distinct(a) && Distinct(b) && SetOf(a) !! SetOf(b) && SetOf(a + b) == SetOf(a) + SetOf(b)
  {
    var all := a + b;
    forall i, j | 0 <= i < j < |b| ensures b[i] != b[j] { assert all[|a| + i] == b[i] && all[|a| + j] == b[j]; }
    forall i, j | 0 <= i < |a| && 0 <= j < |b| ensures a[i] != b[j] { assert all[i] == a[i] && all[|a| + j] == b[j]; }
    forall i, j | 0 <= i < j < |a| ensures a[i] != a[j] { assert all[i] == a[i] && all[j] == a[j]; }
  }

  lemma {:induction false} AllRefsMembers(vs: seq<GroupView>)
    ensures forall a :: a in AllRefs(vs) <==> exists i :: 0 <= i < |vs| && a in Refs(vs[i].candidates)
  {
    hide Refs;
    if vs != [] {
      AllRefsMembers(vs[1..]);
      forall a ensures a in AllRefs(vs) <==> exists i :: 0 <= i < |vs| && a in Refs(vs[i].candidates) {
        if a in AllRefs(vs[1..]) {
          var i :| 0 <= i < |vs| - 1 && a in Refs(vs[1..][i].candidates);
          assert a in Refs(vs[i + 1].candidates);
        }
        if exists i :: 0 <= i < |vs| && a in Refs(vs[i].candidates) {
          var i :| 0 <= i < |vs| && a in Refs(vs[i].candidates);
          assert i > 0 ==> a in Refs(vs[1..][i - 1].candidates);
        }
      }
    }
  }

  lemma RestIsDisjoint(vs: seq<GroupView>)
    requires vs != [] && Disjoint(vs)
    ensures Refs(vs[0].candidates) !! AllRefs(vs[1..]) && SurvivingRefs(vs[1..]) <= AllRefs(vs[1..])
  {
    hide Refs;
    AllRefsMembers(vs[1..]);
    forall a | a in AllRefs(vs[1..]) ensures a !in Refs(vs[0].candidates) {
      var i :| 0 <= i < |vs| - 1 && a in Refs(vs[1..][i].candidates);
      assert vs[1..][i] == vs[i + 1];
    }
    SurvivorsAreSome(vs[1..]);
  }

  lemma {:induction false} SurvivorsAreSome(vs: seq<GroupView>)
    ensures SurvivingRefs(vs) <= AllRefs(vs)
  {
    if vs != [] { SurvivorsAreSome(vs[1..]); }
  }
}
