/**
 Recovery of a rejected batch of world-setting decisions, from
 app/analysis/world_setting_batch_recovery.py: independently valid decisions are kept,
 each dependency component with a failure is retried once, and what is left is
 validated together.

 Provider replies, and what a malformed reply adds to a group's footprint, are
 arbitrary.
 */
module WorldRecovery {
  import opened Options
  import opened Sequences
  import opened WorldScopePlan
  import opened WorldBatchValidator
  import opened WorldComponents
  import opened WorldRecoveryGroups

  const MAX_RECOVERY_CALLS := 20

  // What a retry brings: decisions if the reply can be read, and what the paths that its
  // rows name add to the footprint should they be rejected.
  datatype Reply = Reply(parsed: Option<seq<Decision>>, scopes: set<Scope>, readSet: set<Touch>, writeSet: set<Touch>)

  // The frozen request: what every call of one recovery is made against.  No two retries
  // share a candidate, and a joint validation depends on the decisions that survive, so
  // functions cover every provider and every way to name the candidates of an error.
  datatype Request = Request(
    candidates: seq<Candidate>, trees: Trees, policy: Decision -> bool,
    reply: seq<Candidate> -> Reply, blame: seq<Decision> -> set<Ref>)

  ghost predicate ValidRequest(q: Request) {
    DistinctRefs(q.candidates)
  }

  function Select(cands: seq<Candidate>, refs: set<Ref>): seq<Candidate> {
    if cands == [] then [] else (if cands[0].ref in refs then [cands[0]] else []) + Select(cands[1..], refs)
  }

  lemma {:induction false} SelectRefs(cands: seq<Candidate>, refs: set<Ref>)
    ensures Refs(Select(cands, refs)) == Refs(cands) * refs
    decreases |cands|
  {
    hide Refs;
    if cands == [] {
      assert Refs(cands) == {} by { NoRefs(); }
    } else {
      SelectRefs(cands[1..], refs);
      RefsOfCons(cands);
      var rest := Select(cands[1..], refs);
      if cands[0].ref in refs {
        RefsOfCons([cands[0]] + rest);
        assert ([cands[0]] + rest)[1..] == rest;
      } else {
        assert Select(cands, refs) == rest;
      }
    }
  }

  lemma NoRefs()
    ensures Refs([]) == {}
  {
  }

  lemma {:induction false} SelectDistinct(cands: seq<Candidate>, refs: set<Ref>)
    requires DistinctRefs(cands)
    ensures DistinctRefs(Select(cands, refs))
    decreases |cands|
  {
    if cands != [] {
      var chosen, rest := Select(cands, refs), Select(cands[1..], refs);
      SelectDistinct(cands[1..], refs);
      SelectRefs(cands[1..], refs);
      forall k | 0 <= k < |rest| ensures rest[k].ref != cands[0].ref {
        assert rest[k].ref in Refs(rest);
        var m :| 0 <= m < |cands| - 1 && cands[1..][m].ref == rest[k].ref;
        assert cands[m + 1].ref == rest[k].ref;
      }
      var shift := |chosen| - |rest|;
      forall i, j | 0 <= i < j < |chosen| ensures chosen[i].ref != chosen[j].ref {
        assert chosen[j] == rest[j - shift] && (i >= shift ==> chosen[i] == rest[i - shift]);
      }
    }
  }

  lemma RefsOfCons(cands: seq<Candidate>)
    requires cands != []
    ensures Refs(cands) == {cands[0].ref} + Refs(cands[1..])
  {
    forall a | a in Refs(cands) ensures a == cands[0].ref || a in Refs(cands[1..]) {
      var k :| 0 <= k < |cands| && cands[k].ref == a;
      assert k > 0 ==> cands[1..][k - 1].ref == a;
    }
    forall a | a in Refs(cands[1..]) ensures a in Refs(cands) {
      var k :| 0 <= k < |cands| - 1 && cands[1..][k].ref == a;
      assert cands[k + 1].ref == a;
    }
  }

  // The response schema, and the validation of a group's own decisions.
  ghost predicate SchemaOk(ds: seq<Decision>) {
    1 <= |ds| <= MAX_DECISIONS && forall d | d in ds :: WellTyped(d)
  }

  method CheckSchema(ds: seq<Decision>) returns (ok: bool)
    ensures ok <==> SchemaOk(ds)
  {
    hide WellTyped;
    if ds == [] || |ds| > MAX_DECISIONS {
      return false;
    }
    for i := 0 to |ds|
      invariant forall k | 0 <= k < i :: WellTyped(ds[k])
    {
      var typed := CheckTyped(ds[i]);
      if !typed {
        return false;
      }
    }
    ok := true;
  }

  lemma AcceptedIsCovered(ds: seq<Decision>, cands: seq<Candidate>, trees: Trees, policy: Decision -> bool,
                          siblings: bool)
    requires SchemaOk(ds) && Accepted(ds, cands, trees, policy, siblings)
    ensures Covered(ProjectedAll(ds, cands), cands)
  {
    hide WellTyped, PathsOk, PlanOk, SourceScopes, Refs;
    var projected := ProjectedAll(ds, cands);
    forall i | 0 <= i < |ds| ensures projected[i].sources == ds[i].sources && WellTyped(projected[i]) {
      assert ds[i] in ds;
      ProjectionIsWellTyped(ds[i], cands);
    }
    forall a | a in Refs(cands) ensures exists i :: 0 <= i < |projected| && a in projected[i].sources {
      var i :| 0 <= i < |ds| && a in ds[i].sources;
      assert a in projected[i].sources;
    }
  }

  // The scopes that the decisions create for candidates from elsewhere.
  function GeneratedBy(ds: seq<Decision>, cands: seq<Candidate>): set<Scope> {
    set d | d in ds && d.operation == ADD && d.proposed.scope.Some?
      && (exists k | 0 <= k < |cands| :: cands[k].path.scope != d.proposed.scope) :: (d.target, d.proposed.scope.value)
  }

  // _mark_generated_scopes, decision by decision.
  method CollectGenerated(ds: seq<Decision>, cands: seq<Candidate>) returns (scopes: set<Scope>)
    ensures scopes == GeneratedBy(ds, cands)
  {
    scopes := {};
    for i := 0 to |ds|
      invariant scopes == GeneratedBy(ds[..i], cands)
    {
      assert ds[..i + 1] == ds[..i] + [ds[i]];
      if ds[i].operation == ADD && ds[i].proposed.scope.Some? {
        if exists k | 0 <= k < |cands| :: cands[k].path.scope != ds[i].proposed.scope {
          scopes := scopes + {(ds[i].target, ds[i].proposed.scope.value)};
        }
      }
    }
    assert ds[..|ds|] == ds;
  }

  // Decisions that the validation of a group alone accepts.
  ghost predicate OwnOk(q: Request, parsed: Option<seq<Decision>>, cands: seq<Candidate>) {
    parsed.Some? && SchemaOk(parsed.value) && Accepted(parsed.value, cands, q.trees, q.policy, false)
  }

  // A group after a retry that was made.
  ghost function Retried(q: Request, v: GroupView): GroupView {
    var reply := q.reply(v.candidates);
    if OwnOk(q, reply.parsed, v.candidates) then
      var own := ProjectedAll(reply.parsed.value, v.candidates);
      GroupView(v.candidates, own, false, GeneratedBy(own, v.candidates), {}, {})
    else
      GroupView(v.candidates, [], true, v.scopes + reply.scopes,
                v.readSet + AllReads(v.decisions) + reply.readSet, v.writeSet + AllWrites(v.decisions) + reply.writeSet)
  }

  class Group {
    const candidates: seq<Candidate>
    var decisions: seq<Decision>
    var failed: bool
    var generatedScopes: set<Scope>
    var dependencyReads: set<Touch>
    var dependencyWrites: set<Touch>

    function View(): GroupView
      reads this
    {
      GroupView(candidates, decisions, failed, generatedScopes, dependencyReads, dependencyWrites)
    }

    constructor (candidates: seq<Candidate>)
      ensures View() == GroupView(candidates, [], false, {}, {}, {})
    {
      this.candidates, decisions, failed := candidates, [], false;
      generatedScopes, dependencyReads, dependencyWrites := {}, {}, {};
    }

    method Fail()
      modifies this`failed
      ensures View() == old(View()).(failed := true)
    {
      failed := true;
    }

    // Dependencies are only ever added to.
    method RecordDependencies(scopes: set<Scope>, readSet: set<Touch>, writeSet: set<Touch>)
      modifies this`generatedScopes, this`dependencyReads, this`dependencyWrites
      ensures View() == old(View()).(scopes := old(generatedScopes) + scopes,
        readSet := old(dependencyReads) + readSet, writeSet := old(dependencyWrites) + writeSet)
    {
      generatedScopes := generatedScopes + scopes;
      dependencyReads := dependencyReads + readSet;
      dependencyWrites := dependencyWrites + writeSet;
    }

    // One bounded retry.  A failure keeps everything that was attempted in the footprint.
    method Retry(q: Request, calls: nat, limit: int) returns (made: nat)
      requires ValidRequest(q) && candidates != [] && DistinctRefs(candidates) && Refs(candidates) <= Refs(q.candidates)
      modifies this
      ensures made == if calls < MAX_RECOVERY_CALLS && calls < limit then calls + 1 else calls
      ensures View() == if made == calls then old(View()).(failed := true) else Retried(q, old(View()))
      ensures Sound(View(), q.candidates)
      ensures failed ==> Includes(PrintOf(View()), PrintOf(old(View())))
    {
      hide Accepted, Covered, Refs, DistinctRefs, ProjectedAll, GeneratedBy, AllReads, AllWrites, SchemaOk;
      made := calls;
      if calls >= MAX_RECOVERY_CALLS || calls >= limit {
        Fail();
        return;
      }
      made := calls + 1;
      var reply := q.reply(candidates);
      var ok := false;
      if reply.parsed.Some? {
        ok := CheckSchema(reply.parsed.value);
      }
      if ok {
        ok := ValidateBatch(reply.parsed.value, candidates, q.trees, q.policy, false);
      }
      if ok {
        AcceptedIsCovered(reply.parsed.value, candidates, q.trees, q.policy, false);
        decisions, failed := ProjectedAll(reply.parsed.value, candidates), false;
        dependencyReads, dependencyWrites := {}, {};
        generatedScopes := CollectGenerated(decisions, candidates);
      } else {
        var attempted, written := CollectFootprint(decisions);
        dependencyReads, dependencyWrites := dependencyReads + attempted, dependencyWrites + written;
        RecordDependencies(reply.scopes, reply.readSet, reply.writeSet);
        decisions := [];
        Fail();
      }
    }
  }

  predicate Includes(more: Footprint, less: Footprint) {
    more.refs == less.refs && less.scopes <= more.scopes && less.readSet <= more.readSet
      && less.writeSet <= more.writeSet
  }

  function Views(groups: seq<Group>): (vs: seq<GroupView>)
    reads groups
    ensures |vs| == |groups|
  {
    seq(|groups|, i requires 0 <= i < |groups| reads groups => groups[i].View())
  }

  // Fails the chosen groups and leaves the others as they are.
  method FailAll(groups: seq<Group>, chosen: set<nat>)
    requires Distinct(groups)
    modifies groups
    ensures Views(groups) == Failing(old(Views(groups)), chosen)
  {
    ghost var before := Views(groups);
    for i := 0 to |groups|
      invariant forall k | 0 <= k < i :: groups[k].View() == Failing(before, chosen)[k]
      invariant forall k | i <= k < |groups| :: groups[k].View() == before[k]
    {
      if i in chosen {
        groups[i].Fail();
      }
    }
  }
}
