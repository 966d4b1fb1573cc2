/**
 The outcome of a recovery in app/analysis/world_setting_batch_recovery.py: salvage,
 retries, and what may be relied on afterwards.
 */
module WorldRecoveryOutcome {
  import opened Options
  import opened Sequences
  import opened WorldScopePlan
  import opened WorldComponents
  import opened WorldRecoveryGroups
  import opened WorldRecovery
  import opened WorldRecoveryDriver
  import opened WorldRecoveryFixpoints
  import opened WorldRecoveryRegroup
  import opened WorldRecoveryOrder

  // ----- the recovery -----------------------------------------------------------------------

  lemma SurvivorsAreAlive(vs: seq<GroupView>)
    ensures Alive(vs) == {} ==> Surviving(vs) == []
    decreases |vs|
  {
    if vs != [] {
      forall i: nat | i < |vs| - 1 && !vs[1..][i].failed ensures i + 1 in Alive(vs) {}
      assert Alive(vs) == {} ==> 0 !in Alive(vs) && Alive(vs[1..]) == {};
      SurvivorsAreAlive(vs[1..]);
    }
  }

  // The groups of the rows and of what they leave out, those that share a candidate failed.
  ghost function Presented(q: Request, rows: seq<Row>): seq<GroupView> {
    var first := RowViews(q, rows) + MissingViews(Unnamed(q, rows));
    Failing(first, Sharing(first))
  }

  // What the rows of a rejected response leave: their valid decisions that share no
  // candidate and are accepted together; everything else has failed.
  ghost function Salvaged(q: Request, rows: seq<Row>): seq<GroupView> {
    FirstSettled(q, Presented(q, rows))
  }

  // Salvage of a readable response: valid decisions stay, failed components are retried.
  method Salvage(q: Request, rows: seq<Row>, limit: int)
    returns (groups: seq<Group>, calls: nat, ghost comps: seq<seq<nat>>)
    requires ValidRequest(q)
    ensures fresh(groups) && AllSound(Views(groups), q.candidates) && Disjoint(Views(groups))
    ensures AllRefs(Views(groups)) == Refs(q.candidates) && calls <= Cap(limit)
    ensures AreComponents(comps, Prints(Salvaged(q, rows))) && AllBelow(comps, |Salvaged(q, rows)|)
    ensures (Views(groups), calls) == Regrouped(q, Salvaged(q, rows), comps, |comps|, limit)
  {
    hide Refs, Sound, Disjoint, Exclusive, Alive, Failing, UnionAccepted, Cap, FirstSettled, Regrouped, AreComponents,
      AllBelow, RowViews, MissingViews, Unnamed, Sharing;
    var salvaged := GroupsFromRows(q, rows);
    ghost var first := Views(salvaged);
    FailDuplicates(salvaged);
    FailingKeepsAll(first, Sharing(first), q.candidates);
    ghost var second, dropped := Views(salvaged), {};
    dropped := ConvergeFirst(q, salvaged);
    FailingKeepsAll(second, dropped, q.candidates);
    FailingIsExclusive(second, dropped);
    groups, calls, comps := Regroup(q, salvaged, limit);
  }

  ghost function RetriedWhole(q: Request, allowed: bool): GroupView {
    var whole := GroupView(q.candidates, [], false, {}, {}, {});
    if allowed then Retried(q, whole) else whole.(failed := true)
  }

  // An unreadable response: the whole input is retried once.
  method RetryWhole(q: Request, limit: int) returns (groups: seq<Group>, calls: nat)
    requires ValidRequest(q) && q.candidates != []
    ensures fresh(groups) && AllSound(Views(groups), q.candidates) && Disjoint(Views(groups))
    ensures AllRefs(Views(groups)) == Refs(q.candidates) && calls == (if Cap(limit) > 0 then 1 else 0)
    ensures Views(groups) == [RetriedWhole(q, Cap(limit) > 0)]
  {
    hide Refs, Sound, Disjoint, Retried;
    var whole := new Group(q.candidates);
    calls := whole.Retry(q, 0, limit);
    groups := [whole];
    OneGroup(whole.View());
    assert Views(groups) == [whole.View()];
  }

  // How the groups stand before the last fixpoint.
  ghost predicate Attempted(q: Request, rows: Option<seq<Row>>, limit: int, before: seq<GroupView>, calls: nat,
                            comps: seq<seq<nat>>)
  {
    match rows
    case None => before == [RetriedWhole(q, Cap(limit) > 0)] && calls == (if Cap(limit) > 0 then 1 else 0)
    case Some(rows) =>
      && AreComponents(comps, Prints(Salvaged(q, rows))) && AllBelow(comps, |Salvaged(q, rows)|)
      && (before, calls) == Regrouped(q, Salvaged(q, rows), comps, |comps|, limit)
  }

  // The decisions are an accepted batch about the candidates they name.
  ghost predicate AcceptedAlone(q: Request, ds: seq<Decision>) {
    SchemaOk(ds) && Accepted(ds, Select(q.candidates, SetOf(SourceList(ds))), q.trees, q.policy, true)
  }

  lemma OrderKeepsOutcome(q: Request, vs: seq<GroupView>)
    requires AllSound(vs, q.candidates) && Disjoint(vs) && (Surviving(vs) == [] || AcceptedAlone(q, Surviving(vs)))
    ensures var ordered := InOrder(vs, q.candidates);
      && NamesOnce(Surviving(ordered), FailureLists(ordered), AllRefs(vs))
      && (Surviving(ordered) == [] || AcceptedAlone(q, Surviving(ordered)))
  {
    hide Sound, Refs, Accepted, SchemaOk, InOrder, Surviving, FailureLists, Disjoint, NamesOnce, AllRefs, SourceList;
    var ordered := InOrder(vs, q.candidates);
    InOrderSorts(vs, q.candidates);
    SoundInAnyOrder(vs, ordered, q.candidates);
    EveryRefOnce(ordered, q.candidates);
    SurvivingInAnyOrder(vs, ordered);
    var (before, after) := (Surviving(vs), Surviving(ordered));
    MembersInAnyOrder(before, after);
    if after != [] {
      SchemaInAnyOrder(before, after);
      SourcesInAnyOrder(before, after);
      AcceptedInAnyOrder(before, after, Select(q.candidates, SetOf(SourceList(before))), q.trees, q.policy, true);
    }
  }

  /** Recovery.  Whatever the provider answers, every candidate ends in exactly one
      decision or one failure, so the closing check never raises; what survives is, in the
      order of the first candidates, an accepted batch; nothing that survives depends, even
      indirectly, on a failure; and
      at most min(20, limit) retries are made. */
  method Recover(q: Request, rows: Option<seq<Row>>, limit: int)
    returns (decisions: seq<Decision>, failures: seq<seq<Ref>>, calls: nat,
             ghost before: seq<GroupView>, ghost comps: seq<seq<nat>>, ghost settled: seq<GroupView>)
    requires ValidRequest(q) && q.candidates != []
    ensures NamesOnce(decisions, failures, Refs(q.candidates))
    ensures decisions == [] || AcceptedAlone(q, decisions)
    ensures calls <= Cap(limit) && (rows.None? ==> calls <= 1)
    ensures Attempted(q, rows, limit, before, calls, comps) && settled == LastSettled(q, before)
    ensures var ordered := InOrder(settled, q.candidates);
      decisions == Surviving(ordered) && failures == FailureLists(ordered)
    ensures Uniform(settled)
  {
    hide Refs, Sound, Disjoint, Uniform, Alive, Failing, Accepted, SchemaOk, ValidRequest, Salvaged, LastSettled,
      Regrouped, RetriedWhole, AreComponents, AllBelow;
    var groups: seq<Group>;
    comps := [];
    if rows.None? {
      groups, calls := RetryWhole(q, limit);
    } else {
      groups, calls, comps := Salvage(q, rows.value, limit);
    }
    DisjointGroupsAreDistinct(groups, q.candidates);
    before := Views(groups);
    ghost var fell := ConvergeLast(q, groups);
    FailingKeepsAll(before, fell, q.candidates);
    settled := Views(groups);
    EveryRefOnce(settled, q.candidates);
    SurvivorsAreAlive(settled);
    OrderKeepsOutcome(q, settled);
    var ordered := InOrder(Views(groups), q.candidates);
    decisions, failures := Surviving(ordered), FailureLists(ordered);
    var refs := SourceList(decisions) + Flatten(failures);
    if !Distinct(refs) || SetOf(refs) != Refs(q.candidates) {
      assert false;  // every source is covered exactly once
    }
  }

  // ----- what regrouping keeps, and what it costs --------------------------------------------

  // Component l is without a failure, so its groups come through unchanged.
  lemma {:induction false} ComponentIsKept(q: Request, vs: seq<GroupView>, comps: seq<seq<nat>>, k: nat, limit: int,
                                           l: nat, m: nat)
    requires l < k <= |comps| && AllBelow(comps, |vs|) && m < |comps[l]| && !HasFailed(vs, comps[l])
    ensures comps[l][m] < |vs| && vs[comps[l][m]] in Regrouped(q, vs, comps, k, limit).0
  {
    hide Rejoined, HasFailed, Cap;
    assert comps[l] in comps && Below(comps[l], |vs|) && comps[k - 1] in comps;
    if l < k - 1 {
      ComponentIsKept(q, vs, comps, k - 1, limit, l, m);
    } else {
      assert Picked(vs, comps[l])[m] == vs[comps[l][m]];
    }
  }

  /** A salvaged group that no failure is connected with comes through regrouping exactly
      as it is. */
  lemma UnconnectedIsKept(q: Request, vs: seq<GroupView>, comps: seq<seq<nat>>, limit: int, i: nat)
    requires AreComponents(comps, Prints(vs)) && AllBelow(comps, |vs|) && i < |vs|
    requires forall j: nat | j < |vs| && Connected(Prints(vs), i, j) :: !vs[j].failed
    ensures vs[i] in Regrouped(q, vs, comps, |comps|, limit).0
  {
    hide Connected, Regrouped;
    assert InSome(i, comps);
    var l :| 0 <= l < |comps| && i in comps[l];
    var m :| 0 <= m < |comps[l]| && comps[l][m] == i;
    ComponentIsKept(q, vs, comps, |comps|, limit, l, m);
  }

  lemma {:induction false} SurvivingMembers(vs: seq<GroupView>, i: nat)
    requires i < |vs| && !vs[i].failed
    ensures forall d | d in vs[i].decisions :: d in Surviving(vs)
    decreases i
  {
    if i > 0 { SurvivingMembers(vs[1..], i - 1); }
  }

  /** A group that is valid alone, is hit by no joint validation and is connected with no
      failure is not retried: it comes into the last fixpoint as it is, and unless that
      connects it to a failure or to a group that is hit, the outcome holds its decisions. */
  lemma BlamelessIsKept(q: Request, rows: seq<Row>, limit: int, before: seq<GroupView>, calls: nat,
                        comps: seq<seq<nat>>, i: nat) returns (k: nat)
    requires i < |Presented(q, rows)| && !Presented(q, rows)[i].failed && Spared(q, Presented(q, rows), i)
    requires i < |Salvaged(q, rows)| && Attempted(q, Some(rows), limit, before, calls, comps)
    requires forall j: nat | j < |Salvaged(q, rows)| && Connected(Prints(Salvaged(q, rows)), i, j) ::
      !Salvaged(q, rows)[j].failed
    ensures k < |before| && before[k] == Presented(q, rows)[i]
    ensures SparedLast(q, before, k) ==>
      forall d | d in Presented(q, rows)[i].decisions :: d in Surviving(InOrder(LastSettled(q, before), q.candidates))
  {
    hide Connected, Regrouped, RowViews, MissingViews, Unnamed, Sharing, Failing, FirstSettled, Spared, SparedLast,
      AreComponents, AllBelow, LastSettled, Surviving, InOrder;
    SparedIsKept(q, Presented(q, rows), i);
    UnconnectedIsKept(q, Salvaged(q, rows), comps, limit, i);
    k :| 0 <= k < |before| && before[k] == Presented(q, rows)[i];
    SparedLastIsKept(q, before, k);
    if SparedLast(q, before, k) {
      var settled := LastSettled(q, before);
      SurvivingMembers(settled, k);
      InOrderSorts(settled, q.candidates);
      SurvivingInAnyOrder(settled, InOrder(settled, q.candidates));
      MembersInAnyOrder(Surviving(settled), Surviving(InOrder(settled, q.candidates)));
    }
  }

  function FailedComponents(vs: seq<GroupView>, comps: seq<seq<nat>>, k: nat): nat
    requires k <= |comps|
  {
    if k == 0 then 0 else FailedComponents(vs, comps, k - 1) + if HasFailed(vs, comps[k - 1]) then 1 else 0
  }

  /** Each component with a failure costs one retry, until the limit is reached. */
  lemma {:induction false} OneRetryForEachFailure(q: Request, vs: seq<GroupView>, comps: seq<seq<nat>>, k: nat,
                                                  limit: int)
    requires k <= |comps| && AllBelow(comps, |vs|)
    ensures var failed := FailedComponents(vs, comps, k);
      Regrouped(q, vs, comps, k, limit).1 == if failed < Cap(limit) then failed else Cap(limit)
  {
    hide Rejoined, HasFailed, Cap;
    if k > 0 {
      OneRetryForEachFailure(q, vs, comps, k - 1, limit);
    }
  }

  lemma OneGroup(v: GroupView)
    ensures Disjoint([v]) && AllRefs([v]) == Refs(v.candidates)
  {
    assert [v][1..] == [];
  }

  lemma {:induction false} FailingKeepsRefs(vs: seq<GroupView>, chosen: set<nat>, n: nat)
    requires n <= |vs|
    ensures AllRefs(Failing(vs, chosen)[n..]) == AllRefs(vs[n..])
    decreases |vs| - n
  {
    if n < |vs| {
      FailingKeepsRefs(vs, chosen, n + 1);
      assert Failing(vs, chosen)[n..][1..] == Failing(vs, chosen)[n + 1..] && vs[n..][1..] == vs[n + 1..];
    }
  }

  lemma FailingKeepsAll(vs: seq<GroupView>, chosen: set<nat>, cands: seq<Candidate>)
    requires AllSound(vs, cands)
    ensures AllSound(Failing(vs, chosen), cands) && AllRefs(Failing(vs, chosen)) == AllRefs(vs)
    ensures Disjoint(vs) ==> Disjoint(Failing(vs, chosen))
  {
    if Disjoint(vs) { FailingIsDisjoint(vs, chosen); }
    FailingIsSound(vs, chosen, cands);
    FailingKeepsRefs(vs, chosen, 0);
    assert Failing(vs, chosen)[0..] == Failing(vs, chosen) && vs[0..] == vs;
  }

  lemma FailingIsDisjoint(vs: seq<GroupView>, chosen: set<nat>)
    requires Disjoint(vs)
    ensures Disjoint(Failing(vs, chosen))
  {
    hide Refs;
    var after := Failing(vs, chosen);
    forall i, j | 0 <= i < j < |vs| ensures Refs(after[i].candidates) !! Refs(after[j].candidates) {
      assert after[i].candidates == vs[i].candidates && after[j].candidates == vs[j].candidates;
    }
  }

  // ----- what the outcome means --------------------------------------------------------------

  /** No path written by a survivor clashes with anything that a failed group attempted,
      and the other way round. */
  lemma SurvivorsAreIndependent(vs: seq<GroupView>, i: nat, j: nat)
    requires Uniform(vs) && i < |vs| && j < |vs| && !vs[i].failed && vs[j].failed
    ensures !Dependent(PrintOf(vs[i]), PrintOf(vs[j]))
    ensures forall t, u |
      t in AllWrites(vs[i].decisions) && u in AllReads(vs[j].decisions) + AllWrites(vs[j].decisions) ::
      t.0 != u.0 || (t.1 != u.1 && !Clash(t.1, u.1))
  {
    hide AllReads, AllWrites, Clash;
    if Dependent(Prints(vs)[i], Prints(vs)[j]) {
      DependentConnects(Prints(vs), i, j);
    }
    assert !Interferes(PrintOf(vs[i]), PrintOf(vs[j]));
    forall t, u | t in AllWrites(vs[i].decisions) && u in AllReads(vs[j].decisions) + AllWrites(vs[j].decisions)
      ensures t.0 != u.0 || (t.1 != u.1 && !Clash(t.1, u.1))
    {
      OverlapIsClash(t, u);
      assert t in PrintOf(vs[i]).writeSet && u in PrintOf(vs[j]).readSet + PrintOf(vs[j]).writeSet;
    }
  }

  /** A recovered batch is as safe to apply as one that was accepted at once. */
  lemma RecoveredIsSafe(decisions: seq<Decision>, cands: seq<Candidate>, q: Request, target: Option<TargetRef>)
    requires SchemaOk(decisions) && Accepted(decisions, cands, q.trees, q.policy, true)
    requires WellFormed(TreeOf(q.trees, target).Keys)
    ensures SafeFor(decisions, cands, q.trees, true, target)
    ensures AllEdits(ProjectedAll(decisions, cands)) == AllEdits(decisions)
  {
    hide WellTyped, PathsOk, LocalPlanOk, SafeFor, SourceScopes;
    ScopePlanSafety(decisions, cands, q.trees, q.policy, true, target);
    ProjectionKeepsEdits(decisions, cands, q.trees);
  }
}
