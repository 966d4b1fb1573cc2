/**
 Regrouping of app/analysis/world_setting_batch_recovery.py: every dependency component with
 a failure becomes one group that is retried once.
 */
module WorldRecoveryRegroup {
  import opened Sequences
  import opened WorldScopePlan
  import opened WorldComponents
  import opened WorldRecoveryGroups
  import opened WorldRecovery
  import opened WorldRecoveryDriver
  import opened WorldRecoveryFixpoints

  // ----- regrouping ---------------------------------------------------------------------

  function CompRefs(vs: seq<GroupView>, comp: seq<nat>): set<Ref> {
    if comp == [] then {}
    else (if comp[0] < |vs| then Refs(vs[comp[0]].candidates) else {}) + CompRefs(vs, comp[1..])
  }

  lemma {:induction false} CompRefsMembers(vs: seq<GroupView>, comp: seq<nat>)
    ensures forall a :: a in CompRefs(vs, comp) <==> exists i :: i in comp && i < |vs| && a in Refs(vs[i].candidates)
    decreases |comp|
  {
    hide Refs;
    if comp != [] {
      CompRefsMembers(vs, comp[1..]);
      assert comp == [comp[0]] + comp[1..];
      forall a ensures a in CompRefs(vs, comp) <==> exists i :: i in comp && i < |vs| && a in Refs(vs[i].candidates) {
        if exists i :: i in comp[1..] && i < |vs| && a in Refs(vs[i].candidates) {
          var i :| i in comp[1..] && i < |vs| && a in Refs(vs[i].candidates);
          assert i in comp;
        }
      }
    }
  }

  // Sharing a candidate is a dependency, so two components share none.
  lemma ComponentsShareNoRef(vs: seq<GroupView>, comps: seq<seq<nat>>, k: nat, l: nat)
    requires AreComponents(comps, Prints(vs)) && k < |comps| && l < |comps| && k != l
    ensures CompRefs(vs, comps[k]) !! CompRefs(vs, comps[l])
  {
    hide Connected;
    CompRefsMembers(vs, comps[k]);
    CompRefsMembers(vs, comps[l]);
    forall a | a in CompRefs(vs, comps[k]) ensures a !in CompRefs(vs, comps[l]) {
      var i :| i in comps[k] && i < |vs| && a in Refs(vs[i].candidates);
      forall j | j in comps[l] && j < |vs| ensures a !in Refs(vs[j].candidates) {
        SharingConnects(vs, i, j, a);
      }
    }
  }

  lemma SharingConnects(vs: seq<GroupView>, i: nat, j: nat, a: Ref)
    requires i < |vs| && j < |vs| && a in Refs(vs[i].candidates)
    ensures a in Refs(vs[j].candidates) ==> Connected(Prints(vs), i, j)
  {
    hide Refs, AllReads, AllWrites, Interferes;
    if a in Refs(vs[j].candidates) {
      assert a in Prints(vs)[i].refs * Prints(vs)[j].refs;
      DependentConnects(Prints(vs), i, j);
    }
  }

  // The candidates of the first k components.
  function RefsUpTo(vs: seq<GroupView>, comps: seq<seq<nat>>, k: nat): set<Ref>
    requires k <= |comps|
  {
    if k == 0 then {} else RefsUpTo(vs, comps, k - 1) + CompRefs(vs, comps[k - 1])
  }

  lemma {:induction false} RefsUpToMembers(vs: seq<GroupView>, comps: seq<seq<nat>>, k: nat)
    requires k <= |comps|
    ensures forall a :: a in RefsUpTo(vs, comps, k) <==> exists l :: 0 <= l < k && a in CompRefs(vs, comps[l])
  {
    if k > 0 { RefsUpToMembers(vs, comps, k - 1); }
  }

  lemma NextIsApart(vs: seq<GroupView>, comps: seq<seq<nat>>, k: nat)
    requires AreComponents(comps, Prints(vs)) && k < |comps|
    ensures CompRefs(vs, comps[k]) !! RefsUpTo(vs, comps, k)
  {
    hide AreComponents, CompRefs;
    RefsUpToMembers(vs, comps, k);
    forall l: nat | l < k ensures CompRefs(vs, comps[k]) !! CompRefs(vs, comps[l]) {
      ComponentsShareNoRef(vs, comps, k, l);
    }
  }

  lemma DisjointMore(ws: seq<GroupView>, v: GroupView)
    requires Disjoint(ws) && Refs(v.candidates) !! AllRefs(ws)
    ensures Disjoint(ws + [v]) && AllRefs(ws + [v]) == AllRefs(ws) + Refs(v.candidates)
  {
    hide Refs;
    AllRefsMore(ws, v);
    AllRefsMembers(ws);
    var more := ws + [v];
    forall i, j | 0 <= i < j < |more| ensures Refs(more[i].candidates) !! Refs(more[j].candidates) {
      if j == |ws| {
        forall a | a in Refs(more[i].candidates) ensures a in AllRefs(ws) {
          assert a in Refs(ws[i].candidates);
        }
      }
    }
  }

  lemma SoundMore(ws: seq<GroupView>, v: GroupView, cands: seq<Candidate>)
    requires AllSound(ws, cands) && Sound(v, cands)
    ensures AllSound(ws + [v], cands)
  {
    hide Sound;
  }

  lemma DisjointGroupsAreDistinct(groups: seq<Group>, cands: seq<Candidate>)
    requires AllSound(Views(groups), cands) && Disjoint(Views(groups))
    ensures Distinct(groups)
  {
    var vs := Views(groups);
    forall i, j | 0 <= i < j < |groups| ensures groups[i] != groups[j] {
      assert Sound(vs[i], cands);
      assert vs[i].candidates[0].ref in Refs(vs[i].candidates);
      assert vs[i].candidates[0].ref !in Refs(vs[j].candidates);
    }
  }

  // A component without a failure keeps its groups.
  method KeepComponent(q: Request, groups: seq<Group>, comp: seq<nat>, next0: seq<Group>) returns (next: seq<Group>)
    requires AllSound(Views(groups), q.candidates) && Exclusive(Views(groups))
    requires Distinct(comp) && Below(comp, |groups|) && !HasFailed(Views(groups), comp)
    requires AllSound(Views(next0), q.candidates) && Disjoint(Views(next0))
    requires CompRefs(Views(groups), comp) !! AllRefs(Views(next0))
    ensures AllSound(Views(next), q.candidates) && Disjoint(Views(next))
    ensures AllRefs(Views(next)) == AllRefs(Views(next0)) + CompRefs(Views(groups), comp)
    ensures Views(next) == Views(next0) + Picked(Views(groups), comp)
    ensures forall i | 0 <= i < |next| :: next[i] in next0 || next[i] in groups
  {
    hide Refs, Sound, Disjoint, Exclusive, CompRefs, AllRefs;
    next := next0;
    ghost var vs := Views(groups);
    assert comp[0..] == comp;
    NoMembers(vs, comp);
    for k := 0 to |comp|
      invariant AllSound(Views(next), q.candidates) && Disjoint(Views(next))
      invariant AllRefs(Views(next)) + CompRefs(vs, comp[k..]) == AllRefs(Views(next0)) + CompRefs(vs, comp)
      invariant CompRefs(vs, comp[k..]) !! AllRefs(Views(next))
      invariant Views(next) == Views(next0) + Picked(vs, comp)[..k]
      invariant forall i | 0 <= i < |next| :: next[i] in next0 || next[i] in groups
    {
      var g := groups[comp[k]];
      assert comp[k..] == [comp[k]] + comp[k + 1..] && comp[k] in comp;
      MembersAreApart(vs, comp, k);
      assert vs[comp[k]] == g.View();
      DisjointMore(Views(next), g.View());
      SoundMore(Views(next), g.View(), q.candidates);
      ViewsMore(next, g);
      next := next + [g];
    }
  }

  lemma NoMembers(vs: seq<GroupView>, comp: seq<nat>)
    ensures CompRefs(vs, comp[|comp|..]) == {}
  {
  }

  lemma MembersAreApart(vs: seq<GroupView>, comp: seq<nat>, k: nat)
    requires Exclusive(vs) && Distinct(comp) && k < |comp| && Below(comp, |vs|) && !HasFailed(vs, comp)
    ensures Refs(vs[comp[k]].candidates) !! CompRefs(vs, comp[k + 1..])
    ensures CompRefs(vs, comp[k..]) == Refs(vs[comp[k]].candidates) + CompRefs(vs, comp[k + 1..])
  {
    hide Refs;
    CompRefsMembers(vs, comp[k + 1..]);
    assert comp[k..][1..] == comp[k + 1..] && comp[k] in comp;
    forall a | a in CompRefs(vs, comp[k + 1..]) ensures a !in Refs(vs[comp[k]].candidates) {
      var i :| i in comp[k + 1..] && i < |vs| && a in Refs(vs[i].candidates);
      var m :| 0 <= m < |comp[k + 1..]| && comp[k + 1..][m] == i;
      assert comp[k + 1 + m] == i && comp[k] != i && i in comp && !vs[i].failed;
      assert Refs(vs[i].candidates) !! Refs(vs[comp[k]].candidates);
    }
  }

  // The recovery calls that the limit allows.
  function Cap(limit: int): nat {
    if limit < 0 then 0 else if limit < MAX_RECOVERY_CALLS then limit else MAX_RECOVERY_CALLS
  }

  // What the members of a component have attempted is part of the footprint.
  ghost predicate Gathers(footprint: Footprint, vs: seq<GroupView>, comp: seq<nat>) {
    forall i | i in comp && i < |vs| ::
      && PrintOf(vs[i]).scopes <= footprint.scopes
      && PrintOf(vs[i]).readSet <= footprint.readSet && PrintOf(vs[i]).writeSet <= footprint.writeSet
  }

  lemma GathersMore(less: Footprint, more: Footprint, vs: seq<GroupView>, comp: seq<nat>, i: nat)
    requires Gathers(less, vs, comp) && less.scopes <= more.scopes && less.readSet <= more.readSet
      && less.writeSet <= more.writeSet
    requires i < |vs| && PrintOf(vs[i]).scopes <= more.scopes
    requires PrintOf(vs[i]).readSet <= more.readSet && PrintOf(vs[i]).writeSet <= more.writeSet
    ensures Gathers(more, vs, comp + [i])
  {
    hide PrintOf;
  }

  // What the first k members of a component have attempted.
  function ScopesIn(vs: seq<GroupView>, comp: seq<nat>, k: nat): set<Scope>
    requires k <= |comp| && Below(comp, |vs|)
  {
    if k == 0 then {} else ScopesIn(vs, comp, k - 1) + PrintOf(vs[comp[k - 1]]).scopes
  }

  function ReadsIn(vs: seq<GroupView>, comp: seq<nat>, k: nat): set<Touch>
    requires k <= |comp| && Below(comp, |vs|)
  {
    if k == 0 then {} else ReadsIn(vs, comp, k - 1) + PrintOf(vs[comp[k - 1]]).readSet
  }

  function WritesIn(vs: seq<GroupView>, comp: seq<nat>, k: nat): set<Touch>
    requires k <= |comp| && Below(comp, |vs|)
  {
    if k == 0 then {} else WritesIn(vs, comp, k - 1) + PrintOf(vs[comp[k - 1]]).writeSet
  }

  // A component as one group, with the footprint of its first k members.
  function Joint(q: Request, vs: seq<GroupView>, comp: seq<nat>, k: nat): GroupView
    requires k <= |comp| && Below(comp, |vs|)
  {
    GroupView(Select(q.candidates, CompRefs(vs, comp)), [], false, ScopesIn(vs, comp, k), ReadsIn(vs, comp, k),
      WritesIn(vs, comp, k))
  }

  ghost function Rejoined(q: Request, vs: seq<GroupView>, comp: seq<nat>, allowed: bool): GroupView
    requires Below(comp, |vs|)
  {
    if allowed then Retried(q, Joint(q, vs, comp, |comp|)) else Joint(q, vs, comp, |comp|).(failed := true)
  }

  // A failed component keeps everything its members have attempted.
  lemma {:induction false} JointGathers(q: Request, vs: seq<GroupView>, comp: seq<nat>, k: nat)
    requires k <= |comp| && Below(comp, |vs|)
    ensures Gathers(PrintOf(Joint(q, vs, comp, k)), vs, comp[..k])
  {
    if k > 0 {
      JointGathers(q, vs, comp, k - 1);
      assert comp[..k] == comp[..k - 1] + [comp[k - 1]];
      GathersMore(PrintOf(Joint(q, vs, comp, k - 1)), PrintOf(Joint(q, vs, comp, k)), vs, comp[..k - 1], comp[k - 1]);
    }
  }

  // A component with a failure becomes one group and is retried once.
  method JoinComponent(q: Request, groups: seq<Group>, comp: seq<nat>, calls: nat, limit: int)
    returns (joint: Group, made: nat)
    requires ValidRequest(q) && AllSound(Views(groups), q.candidates)
    requires comp != [] && Below(comp, |groups|) && calls <= Cap(limit)
    ensures fresh(joint) && Sound(joint.View(), q.candidates)
    ensures Refs(joint.View().candidates) == CompRefs(Views(groups), comp)
    ensures made == if calls < Cap(limit) then calls + 1 else calls
    ensures joint.View() == Rejoined(q, Views(groups), comp, calls < Cap(limit))
    ensures joint.failed ==> Gathers(PrintOf(joint.View()), Views(groups), comp)
  {
    hide Refs, Sound, PrintOf, DistinctRefs, Gathers, AllReads, AllWrites, Retried;
    ghost var vs := Views(groups);
    JointRefs(vs, comp, q.candidates);
    SelectRefs(q.candidates, CompRefs(vs, comp));
    SelectDistinct(q.candidates, CompRefs(vs, comp));
    var candidates := Select(q.candidates, CompRefs(Views(groups), comp));
    assert candidates != [] by { NoRefs(); }
    joint := new Group(candidates);
    for k := 0 to |comp|
      invariant joint.candidates == candidates && joint.View() == Joint(q, vs, comp, k)
    {
      var member := groups[comp[k]];
      var attempted, written := CollectFootprint(member.decisions);
      AttemptedBy(vs[comp[k]]);
      joint.RecordDependencies(member.generatedScopes, member.dependencyReads + attempted,
        member.dependencyWrites + written);
    }
    assert comp[..|comp|] == comp;
    JointGathers(q, vs, comp, |comp|);
    made := joint.Retry(q, calls, limit);
    if joint.failed {
      GathersStill(PrintOf(Joint(q, vs, comp, |comp|)), PrintOf(joint.View()), vs, comp);
    }
  }

  lemma AttemptedBy(v: GroupView)
    ensures PrintOf(v).scopes == v.scopes && PrintOf(v).readSet == v.readSet + AllReads(v.decisions)
    ensures PrintOf(v).writeSet == v.writeSet + AllWrites(v.decisions)
  {
  }

  lemma GathersStill(less: Footprint, more: Footprint, vs: seq<GroupView>, comp: seq<nat>)
    requires Gathers(less, vs, comp) && Includes(more, less)
    ensures Gathers(more, vs, comp)
  {
    hide PrintOf;
  }

  lemma JointRefs(vs: seq<GroupView>, comp: seq<nat>, cands: seq<Candidate>)
    requires AllSound(vs, cands) && comp != [] && Below(comp, |vs|)
    ensures CompRefs(vs, comp) != {} && CompRefs(vs, comp) <= Refs(cands)
  {
    CompRefsMembers(vs, comp);
    var i := comp[0];
    assert Sound(vs[i], cands) && i in comp;
    assert vs[i].candidates[0].ref in Refs(vs[i].candidates);
    forall a | a in CompRefs(vs, comp) ensures a in Refs(cands) {
      var j :| j in comp && j < |vs| && a in Refs(vs[j].candidates);
      assert Sound(vs[j], cands);
    }
  }

  ghost predicate AllBelow(comps: seq<seq<nat>>, n: nat) {
    forall comp | comp in comps :: Below(comp, n)
  }

  // The first k components after regrouping, and the retries made for them.
  ghost function Regrouped(q: Request, vs: seq<GroupView>, comps: seq<seq<nat>>, k: nat,
                           limit: int): (seq<GroupView>, nat)
    requires k <= |comps| && AllBelow(comps, |vs|)
  {
    if k == 0 then ([], 0)
    else
      var (done, calls) := Regrouped(q, vs, comps, k - 1, limit);
      var comp := comps[k - 1];
      if !HasFailed(vs, comp) then (done + Picked(vs, comp), calls)
      else (done + [Rejoined(q, vs, comp, calls < Cap(limit))], if calls < Cap(limit) then calls + 1 else calls)
  }

  /** Regrouping: every component with a failure is retried as one group, at most once,
      the others stay as they are, and afterwards no two groups share a candidate and none
      is lost. */
  method Regroup(q: Request, groups: seq<Group>, limit: int)
    returns (next: seq<Group>, calls: nat, ghost comps: seq<seq<nat>>)
    requires ValidRequest(q) && AllSound(Views(groups), q.candidates) && Exclusive(Views(groups))
    ensures AreComponents(comps, Prints(Views(groups))) && AllBelow(comps, |groups|)
    ensures (Views(next), calls) == Regrouped(q, Views(groups), comps, |comps|, limit)
    ensures AllSound(Views(next), q.candidates) && Disjoint(Views(next))
    ensures AllRefs(Views(next)) == AllRefs(Views(groups)) && calls <= Cap(limit)
    ensures forall i | 0 <= i < |next| :: next[i] in groups || fresh(next[i])
  {
    hide Refs, Sound, Disjoint, Exclusive, AreComponents, PrintOf, Gathers, Cap, Rejoined, Picked, AllRefs, CompRefs;
    ghost var vs := Views(groups);
    var prints := CollectPrints(Views(groups));
    var components := Components(prints);
    comps := components;
    AllMembersExist(Prints(vs), components);
    next, calls := [], 0;
    NoGroups();
    for k := 0 to |components|
      invariant AllSound(Views(next), q.candidates) && Disjoint(Views(next))
      invariant AllRefs(Views(next)) == RefsUpTo(vs, components, k)
      invariant calls <= Cap(limit) && forall i | 0 <= i < |next| :: next[i] in groups || fresh(next[i])
      invariant (Views(next), calls) == Regrouped(q, vs, components, k, limit)
    {
      var comp := components[k];
      NextIsApart(vs, components, k);
      MembersExist(Prints(vs), components, k);
      if !HasFailed(Views(groups), comp) {
        next := KeepComponent(q, groups, comp, next);
      } else {
        var joint, made := JoinComponent(q, groups, comp, calls, limit);
        DisjointMore(Views(next), joint.View());
        SoundMore(Views(next), joint.View(), q.candidates);
        ViewsMore(next, joint);
        next, calls := next + [joint], made;
      }
    }
    ComponentsHoldAll(vs, components);
  }

  lemma AllMembersExist(prints: seq<Footprint>, comps: seq<seq<nat>>)
    requires AreComponents(comps, prints)
    ensures AllBelow(comps, |prints|)
  {
    hide AreComponents;
    forall k | 0 <= k < |comps| ensures Below(comps[k], |prints|) { MembersExist(prints, comps, k); }
  }

  lemma NoGroups()
    ensures Disjoint([]) && AllRefs([]) == {}
  {
  }

  lemma MembersExist(prints: seq<Footprint>, comps: seq<seq<nat>>, k: nat)
    requires AreComponents(comps, prints) && k < |comps|
    ensures comps[k] != [] && Distinct(comps[k]) && Below(comps[k], |prints|)
  {
    forall m | 0 <= m < |comps[k]| ensures comps[k][m] < |prints| { assert comps[k][m] in comps[k]; }
  }

  lemma ComponentsHoldAll(vs: seq<GroupView>, comps: seq<seq<nat>>)
    requires AreComponents(comps, Prints(vs))
    ensures RefsUpTo(vs, comps, |comps|) == AllRefs(vs)
  {
    hide Refs, Connected;
    RefsUpToMembers(vs, comps, |comps|);
    AllRefsMembers(vs);
    forall a ensures a in RefsUpTo(vs, comps, |comps|) <==> a in AllRefs(vs) {
      if a in RefsUpTo(vs, comps, |comps|) {
        var l :| 0 <= l < |comps| && a in CompRefs(vs, comps[l]);
        CompRefsMembers(vs, comps[l]);
      }
      if a in AllRefs(vs) {
        var i :| 0 <= i < |vs| && a in Refs(vs[i].candidates);
        assert InSome(i, comps);
        var l :| 0 <= l < |comps| && i in comps[l];
        CompRefsMembers(vs, comps[l]);
        assert a in CompRefs(vs, comps[l]);
      }
    }
  }
}
