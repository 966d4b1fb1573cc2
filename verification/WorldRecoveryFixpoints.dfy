/**
 The two fixpoints of app/analysis/world_setting_batch_recovery.py: failures that joint
 validation causes, and failure of whatever depends on a failure.
 */
module WorldRecoveryFixpoints {
  import opened Sequences
  import opened WorldScopePlan
  import opened WorldBatchValidator
  import opened WorldComponents
  import opened WorldRecoveryGroups
  import opened WorldRecovery

  // ----- joint validation -----------------------------------------------------------

  // All surviving decisions together, generated scopes with their siblings included.
  ghost predicate UnionAccepted(q: Request, vs: seq<GroupView>) {
    && SchemaOk(Surviving(vs))
    && Accepted(Surviving(vs), Select(q.candidates, SurvivingRefs(vs)), q.trees, q.policy, true)
  }

  method CheckUnion(q: Request, vs: seq<GroupView>) returns (ok: bool)
    ensures ok <==> UnionAccepted(q, vs)
  {
    ok := CheckSchema(Surviving(vs));
    if ok {
      ok := ValidateBatch(Surviving(vs), Select(q.candidates, SurvivingRefs(vs)), q.trees, q.policy, true);
    }
  }

  // One of the group's candidates is named.
  ghost predicate Meets(v: GroupView, named: set<Ref>) {
    exists k :: 0 <= k < |v.candidates| && v.candidates[k].ref in named
  }

  // A surviving group is hit by an error that names one of its candidates, or no candidate
  // of any surviving group.
  ghost predicate Hit(vs: seq<GroupView>, named: set<Ref>, i: nat) {
    && i < |vs| && !vs[i].failed
    && (Meets(vs[i], named) || forall j: nat | j < |vs| && !vs[j].failed :: !Meets(vs[j], named))
  }

  ghost function HitBy(vs: seq<GroupView>, named: set<Ref>): (hit: set<nat>)
    ensures hit <= Alive(vs) && forall i: nat :: i in hit <==> Hit(vs, named, i)
  {
    set i: nat | i < |vs| && Hit(vs, named, i)
  }

  lemma SomeoneIsHit(vs: seq<GroupView>, named: set<Ref>)
    requires Alive(vs) != {}
    ensures HitBy(vs, named) != {}
  {
    hide Meets;
    var i :| i in Alive(vs);
    if j: nat :| j < |vs| && !vs[j].failed && Meets(vs[j], named) {
      assert Hit(vs, named, j);
    } else {
      assert Hit(vs, named, i);
    }
  }

  // The groups that an error names, or every surviving group if it names none of them.
  function Affected(vs: seq<GroupView>, named: set<Ref>): (hit: set<nat>)
    ensures hit == HitBy(vs, named)
  {
    AffectedAreHit(vs, named);
    var touched := set i | i in Alive(vs) && Refs(vs[i].candidates) * named != {};
    if touched == {} then Alive(vs) else touched
  }

  lemma AffectedAreHit(vs: seq<GroupView>, named: set<Ref>)
    ensures var touched := set i | i in Alive(vs) && Refs(vs[i].candidates) * named != {};
      HitBy(vs, named) == if touched == {} then Alive(vs) else touched
  {
    hide Refs, Meets;
    MeetingIsSharing(vs, named);
    var touched := set i | i in Alive(vs) && Refs(vs[i].candidates) * named != {};
    forall i: nat | i < |vs| ensures i in touched <==> !vs[i].failed && Meets(vs[i], named) {}
    if touched == {} {
      forall i: nat ensures i in Alive(vs) <==> Hit(vs, named, i) {}
    } else {
      var j :| j in touched;
      forall i: nat ensures i in touched <==> Hit(vs, named, i) {}
    }
  }

  lemma MeetingIsSharing(vs: seq<GroupView>, named: set<Ref>)
    ensures forall i: nat | i < |vs| :: Refs(vs[i].candidates) * named != {} <==> Meets(vs[i], named)
  {
    forall i: nat | i < |vs| ensures Refs(vs[i].candidates) * named != {} <==> Meets(vs[i], named) {
      if Meets(vs[i], named) {
        var k :| 0 <= k < |vs[i].candidates| && vs[i].candidates[k].ref in named;
        assert vs[i].candidates[k].ref in Refs(vs[i].candidates) * named;
      }
      if Refs(vs[i].candidates) * named != {} {
        var a :| a in Refs(vs[i].candidates) * named;
        var k :| 0 <= k < |vs[i].candidates| && vs[i].candidates[k].ref == a;
        assert Meets(vs[i], named);
      }
    }
  }

  lemma AliveShrinks(vs: seq<GroupView>, hit: set<nat>)
    requires hit * Alive(vs) != {}
    ensures |Alive(Failing(vs, hit))| < |Alive(vs)|
  {
    var less, more := Alive(Failing(vs, hit)), Alive(vs);
    assert less == more - hit;
    assert more == less + (more * hit) && |more * hit| > 0;
  }

  lemma AliveFewer(vs: seq<GroupView>, hit: set<nat>)
    ensures |Alive(Failing(vs, hit))| <= |Alive(vs)|
  {
    var less, more := Alive(Failing(vs, hit)), Alive(vs);
    assert less == more - hit;
    assert more == less + (more * hit);
  }

  lemma FailingNothing(vs: seq<GroupView>)
    ensures Failing(vs, {}) == vs
  {
  }

  /** What the first fixpoint leaves: the groups that joint validation errors name fail,
      until the rest is accepted together or nothing is left. */
  ghost function FirstSettled(q: Request, vs: seq<GroupView>): seq<GroupView>
    decreases |Alive(vs)|
  {
    if Alive(vs) == {} || UnionAccepted(q, vs) then vs
    else
      var hit := HitBy(vs, q.blame(Surviving(vs)));
      SomeoneIsHit(vs, q.blame(Surviving(vs)));
      AliveShrinks(vs, hit);
      FirstSettled(q, Failing(vs, hit))
  }

  lemma FirstSettledUnfolds(q: Request, vs: seq<GroupView>)
    ensures FirstSettled(q, vs) ==
      if Alive(vs) == {} || UnionAccepted(q, vs) then vs
        else FirstSettled(q, Failing(vs, HitBy(vs, q.blame(Surviving(vs)))))
  {
    hide UnionAccepted, Surviving, HitBy, Failing;
  }

  // Group i is never hit while the first fixpoint is computed.
  ghost predicate Spared(q: Request, vs: seq<GroupView>, i: nat)
    decreases |Alive(vs)|
  {
    if Alive(vs) == {} || UnionAccepted(q, vs) then true
    else
      var hit := HitBy(vs, q.blame(Surviving(vs)));
      SomeoneIsHit(vs, q.blame(Surviving(vs)));
      AliveShrinks(vs, hit);
      !Hit(vs, q.blame(Surviving(vs)), i) && Spared(q, Failing(vs, hit), i)
  }

  lemma SettledFails(q: Request, vs: seq<GroupView>, i: nat)
    requires i < |vs|
    ensures |FirstSettled(q, vs)| == |vs|
    ensures vs[i].failed ==> FirstSettled(q, vs)[i] == vs[i]
    decreases |Alive(vs)|
  {
    hide UnionAccepted, Surviving, Hit;
    FirstSettledUnfolds(q, vs);
    if Alive(vs) != {} && !UnionAccepted(q, vs) {
      var hit := HitBy(vs, q.blame(Surviving(vs)));
      SomeoneIsHit(vs, q.blame(Surviving(vs)));
      AliveShrinks(vs, hit);
      SettledFails(q, Failing(vs, hit), i);
    }
  }

  /** In the first fixpoint a group survives, as it is, exactly if no joint validation names
      one of its candidates, or names nobody, while it survives. */
  lemma {:induction false} SparedIsKept(q: Request, vs: seq<GroupView>, i: nat)
    requires i < |vs| && !vs[i].failed
    ensures |FirstSettled(q, vs)| == |vs|
    ensures FirstSettled(q, vs)[i] == vs[i].(failed := !Spared(q, vs, i))
    decreases |Alive(vs)|
  {
    hide UnionAccepted, Surviving, Hit;
    FirstSettledUnfolds(q, vs);
    if Alive(vs) != {} && !UnionAccepted(q, vs) {
      var hit := HitBy(vs, q.blame(Surviving(vs)));
      SomeoneIsHit(vs, q.blame(Surviving(vs)));
      AliveShrinks(vs, hit);
      if i in hit {
        SettledFails(q, Failing(vs, hit), i);
      } else {
        SparedIsKept(q, Failing(vs, hit), i);
      }
    }
  }

  /** A round of the first fixpoint whose error names a candidate of a surviving group fails
      exactly the surviving groups with such a candidate. */
  lemma RoundFailsBlamed(q: Request, vs: seq<GroupView>, j: nat) returns (next: seq<GroupView>)
    requires !UnionAccepted(q, vs) && j < |vs| && !vs[j].failed && Meets(vs[j], q.blame(Surviving(vs)))
    ensures |next| == |vs| && FirstSettled(q, vs) == FirstSettled(q, next)
    ensures forall i | 0 <= i < |vs| ::
      next[i] == vs[i].(failed := vs[i].failed || Meets(vs[i], q.blame(Surviving(vs))))
  {
    hide UnionAccepted, Surviving, Meets;
    FirstSettledUnfolds(q, vs);
    assert j in Alive(vs);
    next := Failing(vs, HitBy(vs, q.blame(Surviving(vs))));
    forall i: nat | i < |vs| ensures next[i] == vs[i].(failed := vs[i].failed || Meets(vs[i], q.blame(Surviving(vs)))) {
      assert i in HitBy(vs, q.blame(Surviving(vs))) <==> Hit(vs, q.blame(Surviving(vs)), i);
    }
  }

  method ConvergeFirst(q: Request, groups: seq<Group>) returns (ghost chosen: set<nat>)
    requires Distinct(groups)
    modifies groups
    ensures Views(groups) == Failing(old(Views(groups)), chosen) == FirstSettled(q, old(Views(groups)))
    ensures Alive(Views(groups)) == {} || UnionAccepted(q, Views(groups))
  {
    hide Failing, UnionAccepted, Alive, FirstSettled, Surviving;
    ghost var start := Views(groups);
    chosen := {};
    FailingNothing(start);
    var done := false;
    while !done
      invariant Views(groups) == Failing(start, chosen) && FirstSettled(q, Views(groups)) == FirstSettled(q, start)
      invariant done ==> Alive(Views(groups)) == {} || UnionAccepted(q, Views(groups))
      decreases |Alive(Views(groups))|, !done
    {
      var vs := Views(groups);
      FirstSettledUnfolds(q, vs);
      done := Alive(vs) == {};
      if !done {
        done := CheckUnion(q, vs);
      }
      if !done {
        var hit := Affected(vs, q.blame(Surviving(vs)));
        SomeoneIsHit(vs, q.blame(Surviving(vs)));
        AliveShrinks(vs, hit);
        FailAll(groups, hit);
        FailingTwice(start, chosen, hit);
        chosen := chosen + hit;
      }
    }
    FirstSettledUnfolds(q, Views(groups));
  }

  function Picked(vs: seq<GroupView>, alive: seq<nat>): (picked: seq<GroupView>)
    requires Below(alive, |vs|)
    ensures |picked| == |alive|
  {
    seq(|alive|, m requires 0 <= m < |alive| => vs[alive[m]])
  }

  predicate HasFailed(vs: seq<GroupView>, comp: seq<nat>) {
    exists i | i in comp :: i < |vs| && vs[i].failed
  }

  // ----- the last fixpoint -----------------------------------------------------------------

  // Whatever is connected to a failure has failed.
  ghost predicate Uniform(vs: seq<GroupView>) {
    forall i: nat, j: nat | i < |vs| && j < |vs| && Connected(Prints(vs), i, j) :: vs[i].failed == vs[j].failed
  }

  // The surviving groups of components with a failure.
  function Mixed(vs: seq<GroupView>, comps: seq<seq<nat>>): set<nat> {
    set i | i in Alive(vs) && exists k | 0 <= k < |comps| :: i in comps[k] && HasFailed(vs, comps[k])
  }

  lemma FailingMixedIsUniform(vs: seq<GroupView>, comps: seq<seq<nat>>)
    requires AreComponents(comps, Prints(vs))
    ensures Uniform(Failing(vs, Mixed(vs, comps)))
  {
    hide Connected;
    var after := Failing(vs, Mixed(vs, comps));
    FailingKeepsPrints(vs, Mixed(vs, comps));
    forall i: nat, j: nat | i < |vs| && j < |vs| && Connected(Prints(after), i, j)
      ensures after[i].failed == after[j].failed {
      assert InSome(i, comps) && InSome(j, comps);
      var k :| 0 <= k < |comps| && i in comps[k];
      var l :| 0 <= l < |comps| && j in comps[l];
      assert k == l;
      FailedInMixed(vs, comps, k, i);
      FailedInMixed(vs, comps, k, j);
    }
  }

  // In a component, one failure fails all.
  lemma FailedInMixed(vs: seq<GroupView>, comps: seq<seq<nat>>, k: nat, i: nat)
    requires k < |comps| && i in comps[k] && i < |vs|
    requires AreComponents(comps, Prints(vs))
    ensures Failing(vs, Mixed(vs, comps))[i].failed <==> HasFailed(vs, comps[k])
  {
    hide Connected;
    if i in Mixed(vs, comps) {
      var l :| 0 <= l < |comps| && i in comps[l] && HasFailed(vs, comps[l]);
      assert Connected(Prints(vs), i, i);
      assert l == k;
    }
  }

  function AliveList(vs: seq<GroupView>, n: nat): (alive: seq<nat>)
    requires n <= |vs|
    ensures Below(alive, |vs|) && forall i: nat :: i in alive <==> i < n && !vs[i].failed
  {
    if n == 0 then []
    else if vs[n - 1].failed then AliveList(vs, n - 1)
    else AliveList(vs, n - 1) + [n - 1]
  }

  predicate Touched(alive: seq<nat>, comp: seq<nat>, affected: set<nat>) {
    exists a | a in comp :: a < |alive| && alive[a] in affected
  }

  function At(alive: seq<nat>, chosen: set<nat>): set<nat> {
    set m | m in chosen && m < |alive| :: alive[m]
  }

  predicate InTouched(m: nat, alive: seq<nat>, comps: seq<seq<nat>>, affected: set<nat>) {
    exists k | 0 <= k < |comps| :: m in comps[k] && Touched(alive, comps[k], affected)
  }

  function TouchedMembers(alive: seq<nat>, comps: seq<seq<nat>>, affected: set<nat>): set<nat> {
    set m: nat | m < |alive| && InTouched(m, alive, comps, affected)
  }

  // The members of components, of the surviving groups alone, that hold an affected group.
  function Involved(alive: seq<nat>, comps: seq<seq<nat>>, affected: set<nat>): set<nat> {
    At(alive, TouchedMembers(alive, comps, affected))
  }

  // The surviving groups that are connected to a failure.
  ghost function Dragged(vs: seq<GroupView>): set<nat> {
    set i | i in Alive(vs) && exists j: nat :: j < |vs| && vs[j].failed && Connected(Prints(vs), i, j)
  }

  lemma MixedIsDragged(vs: seq<GroupView>, comps: seq<seq<nat>>)
    requires AreComponents(comps, Prints(vs))
    ensures Mixed(vs, comps) == Dragged(vs)
  {
    hide Connected;
    forall i: nat | i in Alive(vs) ensures i in Mixed(vs, comps) <==> i in Dragged(vs) {
      assert InSome(i, comps);
      var l :| 0 <= l < |comps| && i in comps[l];
      if i in Mixed(vs, comps) {
        var k :| 0 <= k < |comps| && i in comps[k] && HasFailed(vs, comps[k]);
        var j :| j in comps[k] && j < |vs| && vs[j].failed;
        assert Connected(Prints(vs), i, j);
      }
      if i in Dragged(vs) {
        var j: nat :| j < |vs| && vs[j].failed && Connected(Prints(vs), i, j);
        assert InSome(j, comps);
        var k :| 0 <= k < |comps| && j in comps[k];
        assert k == l && HasFailed(vs, comps[l]);
      }
    }
  }

  ghost predicate ReachesAffected(prints: seq<Footprint>, alive: seq<nat>, affected: set<nat>, m: nat) {
    exists n: nat :: n < |alive| && alive[n] in affected && Connected(prints, m, n)
  }

  ghost function ReachingMembers(prints: seq<Footprint>, alive: seq<nat>, affected: set<nat>): set<nat> {
    set m: nat | m < |alive| && ReachesAffected(prints, alive, affected, m)
  }

  // The groups connected to an affected one through surviving groups alone.
  ghost function DraggedAmong(vs: seq<GroupView>, alive: seq<nat>, affected: set<nat>): set<nat>
    requires Below(alive, |vs|)
  {
    At(alive, ReachingMembers(Prints(Picked(vs, alive)), alive, affected))
  }

  ghost function DraggedAlone(vs: seq<GroupView>, affected: set<nat>): set<nat> {
    DraggedAmong(vs, AliveList(vs, |vs|), affected)
  }

  lemma ToucherIsConnected(prints: seq<Footprint>, alive: seq<nat>, comps: seq<seq<nat>>, affected: set<nat>, m: nat)
    requires AreComponents(comps, prints) && |alive| == |prints| && m < |alive|
    ensures InTouched(m, alive, comps, affected) <==> ReachesAffected(prints, alive, affected, m)
  {
    hide Connected;
    assert InSome(m, comps);
    var l :| 0 <= l < |comps| && m in comps[l];
    if InTouched(m, alive, comps, affected) {
      var k :| 0 <= k < |comps| && m in comps[k] && Touched(alive, comps[k], affected);
      var n :| n in comps[k] && n < |alive| && alive[n] in affected;
      assert Connected(prints, m, n);
    }
    if ReachesAffected(prints, alive, affected, m) {
      var n: nat :| n < |alive| && alive[n] in affected && Connected(prints, m, n);
      assert InSome(n, comps);
      var k :| 0 <= k < |comps| && n in comps[k];
      assert k == l && Touched(alive, comps[l], affected);
    }
  }

  lemma TouchersReach(prints: seq<Footprint>, alive: seq<nat>, comps: seq<seq<nat>>, affected: set<nat>)
    requires AreComponents(comps, prints) && |alive| == |prints|
    ensures TouchedMembers(alive, comps, affected) == ReachingMembers(prints, alive, affected)
  {
    hide AreComponents, InTouched, ReachesAffected;
    forall m: nat | m < |alive| ensures InTouched(m, alive, comps, affected) <==>
      ReachesAffected(prints, alive, affected, m) {
      ToucherIsConnected(prints, alive, comps, affected, m);
    }
  }

  lemma InvolvedIsDragged(vs: seq<GroupView>, alive: seq<nat>, comps: seq<seq<nat>>, affected: set<nat>)
    requires Below(alive, |vs|) && AreComponents(comps, Prints(Picked(vs, alive)))
    ensures Involved(alive, comps, affected) == DraggedAmong(vs, alive, affected)
  {
    hide AreComponents, TouchedMembers, ReachingMembers, Picked, Prints, At;
    TouchersReach(Prints(Picked(vs, alive)), alive, comps, affected);
  }

  lemma SomeAliveDragged(vs: seq<GroupView>, affected: set<nat>)
    requires affected <= Alive(vs) && affected != {}
    ensures DraggedAlone(vs, affected) * Alive(vs) != {}
  {
    hide Picked, Prints;
    var alive := AliveList(vs, |vs|);
    var i :| i in affected;
    var m: nat :| m < |alive| && alive[m] == i;
    ConnectedToItself(Prints(Picked(vs, alive)), m);
    assert i in DraggedAlone(vs, affected) * Alive(vs);
  }

  lemma AliveDecreases(vs: seq<GroupView>, mixed: set<nat>, hit: set<nat>)
    requires hit * Alive(Failing(vs, mixed)) != {}
    ensures |Alive(Failing(Failing(vs, mixed), hit))| < |Alive(vs)|
  {
    hide Alive, Failing;
    AliveFewer(vs, mixed);
    AliveShrinks(Failing(vs, mixed), hit);
  }

  /** What the last fixpoint leaves: whatever is connected to a failure fails, then the
      groups that joint validation errors name fail with what is connected to them, until
      the rest is accepted together or nothing is left. */
  ghost function LastSettled(q: Request, vs: seq<GroupView>): seq<GroupView>
    decreases |Alive(vs)|
  {
    var calm := Failing(vs, Dragged(vs));
    if Alive(calm) == {} || UnionAccepted(q, calm) then calm
    else
      var affected := HitBy(calm, q.blame(Surviving(calm)));
      var hit := DraggedAlone(calm, affected);
      SomeoneIsHit(calm, q.blame(Surviving(calm)));
      SomeAliveDragged(calm, affected);
      AliveDecreases(vs, Dragged(vs), hit);
      LastSettled(q, Failing(calm, hit))
  }

  lemma LastSettledUnfolds(q: Request, vs: seq<GroupView>)
    ensures var calm := Failing(vs, Dragged(vs));
      LastSettled(q, vs) ==
        if Alive(calm) == {} || UnionAccepted(q, calm) then calm
        else LastSettled(q, Failing(calm, DraggedAlone(calm, HitBy(calm, q.blame(Surviving(calm))))))
  {
    hide UnionAccepted, Surviving, HitBy, Failing, Dragged, DraggedAlone, Alive;
  }

  // Connected through groups that survive, including itself.
  ghost predicate Reaches(vs: seq<GroupView>, i: nat, named: set<Ref>) {
    exists m: nat, n: nat :: ReachesAt(vs, i, named, m, n)
  }

  ghost predicate ReachesAt(vs: seq<GroupView>, i: nat, named: set<Ref>, m: nat, n: nat) {
    var alive := AliveList(vs, |vs|);
    && m < |alive| && alive[m] == i && n < |alive| && Hit(vs, named, alive[n])
    && Connected(Prints(Picked(vs, alive)), m, n)
  }

  lemma DraggedReaches(vs: seq<GroupView>, named: set<Ref>, i: nat)
    ensures i in DraggedAlone(vs, HitBy(vs, named)) <==> Reaches(vs, i, named)
  {
    hide AliveList, Hit, Connected, Picked, Prints;
    var alive := AliveList(vs, |vs|);
    if i in DraggedAlone(vs, HitBy(vs, named)) {
      var m: nat :| m < |alive| && ReachesAffected(Prints(Picked(vs, alive)), alive, HitBy(vs, named), m)
        && alive[m] == i;
      var n: nat :| n < |alive| && alive[n] in HitBy(vs, named) && Connected(Prints(Picked(vs, alive)), m, n);
      assert ReachesAt(vs, i, named, m, n);
    }
    if m: nat, n: nat :| ReachesAt(vs, i, named, m, n) {
      assert alive[n] in HitBy(vs, named);
      assert ReachesAffected(Prints(Picked(vs, alive)), alive, HitBy(vs, named), m);
      assert m in ReachingMembers(Prints(Picked(vs, alive)), alive, HitBy(vs, named));
    }
  }

  // Group i is never connected to a failure or to a group that is hit while the last fixpoint
  // is computed.
  ghost predicate SparedLast(q: Request, vs: seq<GroupView>, i: nat)
    decreases |Alive(vs)|
  {
    var calm := Failing(vs, Dragged(vs));
    && i !in Dragged(vs)
    && if Alive(calm) == {} || UnionAccepted(q, calm) then true
       else
         var affected := HitBy(calm, q.blame(Surviving(calm)));
         var hit := DraggedAlone(calm, affected);
         SomeoneIsHit(calm, q.blame(Surviving(calm)));
         SomeAliveDragged(calm, affected);
         AliveDecreases(vs, Dragged(vs), hit);
         !Reaches(calm, i, q.blame(Surviving(calm))) && SparedLast(q, Failing(calm, hit), i)
  }

  lemma LastSettledFails(q: Request, vs: seq<GroupView>, i: nat)
    requires i < |vs|
    ensures |LastSettled(q, vs)| == |vs|
    ensures vs[i].failed ==> LastSettled(q, vs)[i] == vs[i]
    decreases |Alive(vs)|
  {
    hide UnionAccepted, Surviving, HitBy, Dragged, DraggedAlone, Alive;
    LastSettledUnfolds(q, vs);
    var calm := Failing(vs, Dragged(vs));
    if Alive(calm) != {} && !UnionAccepted(q, calm) {
      var hit := DraggedAlone(calm, HitBy(calm, q.blame(Surviving(calm))));
      SomeoneIsHit(calm, q.blame(Surviving(calm)));
      SomeAliveDragged(calm, HitBy(calm, q.blame(Surviving(calm))));
      AliveDecreases(vs, Dragged(vs), hit);
      LastSettledFails(q, Failing(calm, hit), i);
    }
  }

  /** In the last fixpoint a group survives, as it is, exactly if it is never connected to a
      failure, nor through surviving groups to one that is hit. */
  lemma {:induction false} SparedLastIsKept(q: Request, vs: seq<GroupView>, i: nat)
    requires i < |vs| && !vs[i].failed
    ensures |LastSettled(q, vs)| == |vs|
    ensures LastSettled(q, vs)[i] == vs[i].(failed := !SparedLast(q, vs, i))
    decreases |Alive(vs)|
  {
    hide UnionAccepted, Surviving, HitBy, Dragged, DraggedAlone, Alive, Reaches;
    LastSettledUnfolds(q, vs);
    LastSettledFails(q, vs, i);
    var calm := Failing(vs, Dragged(vs));
    if Alive(calm) != {} && !UnionAccepted(q, calm) {
      var named := q.blame(Surviving(calm));
      var hit := DraggedAlone(calm, HitBy(calm, named));
      SomeoneIsHit(calm, named);
      SomeAliveDragged(calm, HitBy(calm, named));
      AliveDecreases(vs, Dragged(vs), hit);
      DraggedReaches(calm, named, i);
      LastSettledFails(q, Failing(calm, hit), i);
      if i !in Dragged(vs) && i !in hit {
        SparedLastIsKept(q, Failing(calm, hit), i);
      }
    }
  }

  /** The last fixpoint ends with every dependent of a failure failed, and what survives
      accepted together. */
  method ConvergeLast(q: Request, groups: seq<Group>) returns (ghost chosen: set<nat>)
    requires Distinct(groups)
    modifies groups
    ensures Views(groups) == Failing(old(Views(groups)), chosen) == LastSettled(q, old(Views(groups)))
    ensures Uniform(Views(groups)) && (Alive(Views(groups)) == {} || UnionAccepted(q, Views(groups)))
  {
    hide Failing, UnionAccepted, Alive, Uniform, AreComponents, Mixed, Involved, LastSettled, Dragged, DraggedAlone,
      Surviving, AliveList, Picked;
    ghost var start := Views(groups);
    chosen := {};
    FailingNothing(start);
    var done := false;
    while !done
      invariant Views(groups) == Failing(start, chosen)
      invariant (if done then Views(groups) else LastSettled(q, Views(groups))) == LastSettled(q, start)
      invariant done ==> Uniform(Views(groups)) && (Alive(Views(groups)) == {} || UnionAccepted(q, Views(groups)))
      decreases |Alive(Views(groups))|, !done
    {
      var before := Views(groups);
      LastSettledUnfolds(q, before);
      var prints := CollectPrints(before);
      var comps := Components(prints);
      var mixed := Mixed(before, comps);
      MixedIsDragged(before, comps);
      FailingMixedIsUniform(before, comps);
      AliveFewer(before, mixed);
      FailAll(groups, mixed);
      FailingTwice(start, chosen, mixed);
      chosen := chosen + mixed;
      var vs := Views(groups);
      done := Alive(vs) == {};
      if !done {
        done := CheckUnion(q, vs);
      }
      if !done {
        var hit := FailInvolved(q, groups);
        FailingTwice(start, chosen, hit);
        chosen := chosen + hit;
      }
    }
  }

  // The groups that a joint validation error names fail, with what depends on them.
  method FailInvolved(q: Request, groups: seq<Group>) returns (hit: set<nat>)
    requires Distinct(groups) && Alive(Views(groups)) != {}
    modifies groups
    ensures hit == DraggedAlone(old(Views(groups)),
      HitBy(old(Views(groups)), q.blame(Surviving(old(Views(groups))))))
    ensures Views(groups) == Failing(old(Views(groups)), hit) && |Alive(Views(groups))| < |Alive(old(Views(groups)))|
  {
    hide Failing, Alive, AreComponents, Involved, DraggedAmong, Surviving, AliveList, Picked;
    var vs := Views(groups);
    var affected := Affected(vs, q.blame(Surviving(vs)));
    var alive := AliveList(vs, |vs|);
    var prints := CollectPrints(Picked(vs, alive));
    var parts := Components(prints);
    hit := Involved(alive, parts, affected);
    InvolvedIsDragged(vs, alive, parts, affected);
    SomeoneIsHit(vs, q.blame(Surviving(vs)));
    SomeAliveDragged(vs, affected);
    AliveShrinks(vs, hit);
    FailAll(groups, hit);
  }
}
