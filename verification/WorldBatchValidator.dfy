/**
 The loops of app/analysis/world_setting_comparator.py that decide whether a batch of
 world-setting decisions is accepted, proved against the declarative plan.
 */
module WorldBatchValidator {
  import opened Options
  import opened WorldScopePlan

  // ----- the plan's running record -----------------------------------------------------

  // Paths and root names are kept together with the target that they belong to.
  datatype Ledger = Ledger(
    finalPaths: set<(Option<TargetRef>, Path)>,
    scalarKinds: map<(Option<TargetRef>, Name), bool>,
    movedRoots: set<(Option<TargetRef>, Name)>,
    scopeMembers: map<(Option<TargetRef>, Name), set<Name>>)

  function MembersAt(ledger: Ledger, target: Option<TargetRef>, scope: Name): set<Name> {
    if (target, scope) in ledger.scopeMembers then ledger.scopeMembers[(target, scope)] else {}
  }

  function Key(e: Edit): (Option<TargetRef>, Name) {
    (e.target, TopName(e.path))
  }

  function Record(ledger: Ledger, e: Edit): Ledger {
    Ledger(
      ledger.finalPaths + {(e.target, e.path)},
      ledger.scalarKinds[Key(e) := e.path.scope.None?],
      if e.Move? then ledger.movedRoots + {(e.target, e.from)} else ledger.movedRoots,
      if e.Replace? || e.path.scope.None? then ledger.scopeMembers
      else ledger.scopeMembers[(e.target, e.path.scope.value) :=
        MembersAt(ledger, e.target, e.path.scope.value) + {e.path.name}])
  }

  // claim_final_path, and the rule that a root property moves once.
  predicate Free(ledger: Ledger, e: Edit) {
    && (e.target, e.path) !in ledger.finalPaths
    && (Key(e) in ledger.scalarKinds ==> ledger.scalarKinds[Key(e)] == e.path.scope.None?)
    && (e.Move? ==> (e.target, e.from) !in ledger.movedRoots)
  }

  ghost predicate RecordsPaths(ledger: Ledger, edits: seq<Edit>) {
    && (forall t, p :: (t, p) in ledger.finalPaths <==> exists e :: e in edits && e.target == t && e.path == p)
    && (forall t, n :: (t, n) in ledger.movedRoots <==> exists e ::
      e in edits && e.Move? && e.target == t && e.from == n)
  }

  ghost predicate RecordsKinds(ledger: Ledger, edits: seq<Edit>) {
    && (forall e | e in edits :: Key(e) in ledger.scalarKinds && ledger.scalarKinds[Key(e)] == e.path.scope.None?)
    && (forall k | k in ledger.scalarKinds :: exists e :: e in edits && Key(e) == k)
  }

  ghost predicate RecordsMembers(ledger: Ledger, edits: seq<Edit>, trees: Trees) {
    forall t, s :: MembersAt(ledger, t, s) == Children(edits, TreeOf(trees, t), t, s)
  }

  ghost predicate Records(ledger: Ledger, edits: seq<Edit>, trees: Trees) {
    RecordsPaths(ledger, edits) && RecordsKinds(ledger, edits) && RecordsMembers(ledger, edits, trees)
  }

  lemma FreeIsCompatible(ledger: Ledger, edits: seq<Edit>, e: Edit)
    requires RecordsPaths(ledger, edits) && RecordsKinds(ledger, edits)
    ensures Free(ledger, e) <==> forall f | f in edits :: Compatible(f, e)
  {
    if Free(ledger, e) {
      forall f | f in edits ensures Compatible(f, e) {
        assert f.target == e.target && Clash(f.path, e.path) ==> Key(f) == Key(e);
        assert f.target == e.target ==> (f.target, f.path) in ledger.finalPaths;
        assert f.target == e.target && f.Move? ==> (f.target, f.from) in ledger.movedRoots;
      }
    } else if (e.target, e.path) in ledger.finalPaths {
      var f :| f in edits && f.target == e.target && f.path == e.path;
      assert !Compatible(f, e);
    } else if e.Move? && (e.target, e.from) in ledger.movedRoots {
      var f :| f in edits && f.Move? && f.target == e.target && f.from == e.from;
      assert !Compatible(f, e);
    } else {
      var f :| f in edits && Key(f) == Key(e);
      assert !Compatible(f, e);
    }
  }

  lemma RecordMore(ledger: Ledger, edits: seq<Edit>, e: Edit, trees: Trees)
    requires Records(ledger, edits, trees) && forall f | f in edits :: Compatible(f, e)
    ensures Records(Record(ledger, e), edits + [e], trees)
  {
    hide Children, Compatible;
    PathsMore(ledger, edits, e);
    KindsMore(ledger, edits, e);
    MembersMore(ledger, edits, e, trees);
  }

  lemma InMore(edits: seq<Edit>, e: Edit)
    ensures forall f :: f in edits + [e] <==> f in edits || f == e
  {
  }

  lemma PathsMore(ledger: Ledger, edits: seq<Edit>, e: Edit)
    requires RecordsPaths(ledger, edits)
    ensures RecordsPaths(Record(ledger, e), edits + [e])
  {
    InMore(edits, e);
    var more, now := edits + [e], Record(ledger, e);
    forall t, p ensures (t, p) in now.finalPaths <==> exists f :: f in more && f.target == t && f.path == p {
      if (t, p) in ledger.finalPaths {
        var f :| f in edits && f.target == t && f.path == p;
        assert f in more;
      }
    }
    forall t, n ensures (t, n) in now.movedRoots <==> exists f :: f in more && f.Move? && f.target == t && f.from == n {
      if (t, n) in ledger.movedRoots {
        var f :| f in edits && f.Move? && f.target == t && f.from == n;
        assert f in more;
      }
    }
  }

  lemma KindsMore(ledger: Ledger, edits: seq<Edit>, e: Edit)
    requires RecordsKinds(ledger, edits) && forall f | f in edits :: Compatible(f, e)
    ensures RecordsKinds(Record(ledger, e), edits + [e])
  {
    InMore(edits, e);
    var more, now := edits + [e], Record(ledger, e);
    forall f | f in more ensures Key(f) in now.scalarKinds && now.scalarKinds[Key(f)] == f.path.scope.None? {
      assert f != e && Key(f) == Key(e) ==> !Clash(f.path, e.path);
    }
    forall k | k in now.scalarKinds ensures exists f :: f in more && Key(f) == k {
      if k in ledger.scalarKinds {
        var f :| f in edits && Key(f) == k;
        assert f in more;
      }
    }
  }

  lemma MembersMore(ledger: Ledger, edits: seq<Edit>, e: Edit, trees: Trees)
    requires RecordsMembers(ledger, edits, trees)
    ensures RecordsMembers(Record(ledger, e), edits + [e], trees)
  {
    var more, now := edits + [e], Record(ledger, e);
    forall t, s ensures MembersAt(now, t, s) == Children(more, TreeOf(trees, t), t, s) {
      ChildrenMore(edits, e, TreeOf(trees, t), t, s);
      assert MembersAt(ledger, t, s) == Children(edits, TreeOf(trees, t), t, s);
    }
  }

  lemma ChildrenMore(edits: seq<Edit>, e: Edit, tree: Tree, target: Option<TargetRef>, scope: Name)
    ensures Children(edits + [e], tree, target, scope) == Children(edits, tree, target, scope)
      + (if !e.Replace? && e.target == target && e.path.scope == Some(scope) then {e.path.name} else {})
  {
    InMore(edits, e);
  }

  lemma SeparateMore(edits: seq<Edit>, e: Edit)
    ensures Separate(edits + [e]) <==> Separate(edits) && forall f | f in edits :: Compatible(f, e)
  {
    var more := edits + [e];
    if Separate(more) {
      forall i, j | 0 <= i < j < |edits| ensures Compatible(edits[i], edits[j]) { assert Compatible(more[i], more[j]); }
      forall f | f in edits ensures Compatible(f, e) {
        var i :| 0 <= i < |edits| && edits[i] == f;
        assert Compatible(more[i], more[|edits|]);
      }
    }
    if Separate(edits) && forall f | f in edits :: Compatible(f, e) {
      forall i, j | 0 <= i < j < |more| ensures Compatible(more[i], more[j]) {
        assert more[i] == edits[i] && edits[i] in edits;
      }
    }
  }

  lemma SeparatePrefix(edits: seq<Edit>, more: seq<Edit>)
    requires !Separate(edits)
    ensures !Separate(edits + more)
  {
    var i, j :| 0 <= i < j < |edits| && !Compatible(edits[i], edits[j]);
    assert !Compatible((edits + more)[i], (edits + more)[j]);
  }

  // ----- one decision ------------------------------------------------------------------

  method ClaimEdit(ledger: Ledger, e: Edit, ghost edits: seq<Edit>, trees: Trees) returns (ok: bool, next: Ledger)
    requires Records(ledger, edits, trees) && Separate(edits)
    ensures ok <==> Separate(edits + [e])
    ensures ok ==> Records(next, edits + [e], trees)
  {
    hide Records, RecordsPaths, RecordsKinds, RecordsMembers, Separate, Free;
    assert RecordsPaths(ledger, edits) && RecordsKinds(ledger, edits) by { RecordsBoth(ledger, edits, trees); }
    FreeIsCompatible(ledger, edits, e);
    SeparateMore(edits, e);
    ok, next := Free(ledger, e), ledger;
    if ok {
      RecordMore(ledger, edits, e, trees);
      next := Record(ledger, e);
    }
  }

  lemma RecordsBoth(ledger: Ledger, edits: seq<Edit>, trees: Trees)
    requires Records(ledger, edits, trees)
    ensures RecordsPaths(ledger, edits) && RecordsKinds(ledger, edits) && RecordsMembers(ledger, edits, trees)
  {
  }

  // A root property that exists moves below another name, to a free path without a clash.
  method CheckMove(d: Decision, name: Name, tree: Tree) returns (ok: bool)
    ensures ok <==> MoveOk(d, name, tree)
  {
    if Path(None, name) !in tree {
      return false;
    }
    if d.proposed.scope == Some(name) || d.proposed.name == name {
      return false;
    }
    var destination := Path(d.proposed.scope, name);
    ok := destination !in tree && !HasPathConflict(tree, destination);
  }

  method ClaimMoves(d: Decision, ledger: Ledger, ghost edits: seq<Edit>, trees: Trees) returns (ok: bool, next: Ledger)
    requires Records(ledger, edits, trees) && Separate(edits)
    ensures ok <==> (forall k | 0 <= k < |d.moves| ::
      MoveOk(d, d.moves[k], TreeOf(trees, d.target))) && Separate(edits + Moves(d))
    ensures ok ==> Records(next, edits + Moves(d), trees)
  {
    hide Records, Separate, MoveOk;
    next := ledger;
    assert edits + Moves(d)[..0] == edits;
    for k := 0 to |d.moves|
      invariant Records(next, edits + Moves(d)[..k], trees) && Separate(edits + Moves(d)[..k])
      invariant forall m | 0 <= m < k :: MoveOk(d, d.moves[m], TreeOf(trees, d.target))
    {
      var e := Moves(d)[k];
      assert edits + Moves(d)[..k + 1] == edits + Moves(d)[..k] + [e];
      var allowed := CheckMove(d, d.moves[k], TreeOf(trees, d.target));
      if !allowed {
        return false, next;
      }
      ok, next := ClaimEdit(next, e, edits + Moves(d)[..k], trees);
      if !ok {
        SeparatePrefix(edits + Moves(d)[..k + 1], Moves(d)[k + 1..]);
        assert edits + Moves(d)[..k + 1] + Moves(d)[k + 1..] == edits + Moves(d);
        return;
      }
    }
    assert Moves(d)[..|d.moves|] == Moves(d);
    ok := true;
  }

  method CheckPlannedDecision(d: Decision, ledger: Ledger, ghost edits: seq<Edit>, trees: Trees)
    returns (ok: bool, next: Ledger)
    requires Records(ledger, edits, trees) && Separate(edits)
    ensures ok <==> LocalPlanOk(d, trees) && Separate(edits + Edits(d))
    ensures ok ==> Records(next, edits + Edits(d), trees)
  {
    hide Records, Separate, MoveOk;
    next := ledger;
    if IsGeneral(d) {
      assert edits + Edits(d) == edits;
      return true, next;
    }
    if d.proposed.scope == Some(d.proposed.name) {
      return false, next;
    }
    assert edits + Edits(d) == edits + Own(d) + Moves(d);
    if Own(d) == [] {
      assert edits + Own(d) == edits;
    } else {
      assert Own(d) == [Own(d)[0]];
      ok, next := ClaimEdit(ledger, Own(d)[0], edits, trees);
      if !ok {
        SeparatePrefix(edits + Own(d), Moves(d));
        return;
      }
    }
    if d.moves != [] && (d.operation != ADD || d.target.None? || d.proposed.scope.None?) {
      return false, next;
    }
    ok, next := ClaimMoves(d, next, edits + Own(d), trees);
  }

  // ----- the whole plan ------------------------------------------------------------------

  function ScopeKeys(trees: Trees): set<(Option<TargetRef>, Name)> {
    set t, p | t in trees && p in trees[t] && p.scope.Some? :: (Some(t), p.scope.value)
  }

  function StartingLedger(trees: Trees): Ledger {
    Ledger({}, map[], {}, map k | k in ScopeKeys(trees) :: Children([], TreeOf(trees, k.0), k.0, k.1))
  }

  lemma StartingLedgerRecords(trees: Trees)
    ensures Records(StartingLedger(trees), [], trees)
  {
    var ledger := StartingLedger(trees);
    forall t, s ensures MembersAt(ledger, t, s) == Children([], TreeOf(trees, t), t, s) {
      forall p | p in TreeOf(trees, t) && p.scope == Some(s) ensures (t, s) in ScopeKeys(trees) {
        assert (Some(t.value), p.scope.value) in ScopeKeys(trees);
      }
    }
  }

  lemma {:induction false} EditsPrefix(ds: seq<Decision>, i: nat)
    requires i <= |ds|
    ensures AllEdits(ds[..i]) <= AllEdits(ds)
    decreases |ds|
  {
    if i < |ds| {
      EditsPrefix(ds[..|ds| - 1], i);
      assert ds[..|ds| - 1][..i] == ds[..i];
    } else {
      assert ds[..i] == ds;
    }
  }

  lemma EditsOneMore(ds: seq<Decision>, i: nat)
    requires i < |ds|
    ensures AllEdits(ds[..i + 1]) == AllEdits(ds[..i]) + Edits(ds[i])
  {
    assert ds[..i + 1][..i] == ds[..i];
  }

  lemma UnplannedPrefix(ds: seq<Decision>, i: nat)
    requires i <= |ds| && !Separate(AllEdits(ds[..i]))
    ensures !Separate(AllEdits(ds))
  {
    hide AllEdits, Separate;
    EditsPrefix(ds, i);
    var all, prefix := AllEdits(ds), AllEdits(ds[..i]);
    SeparatePrefix(prefix, all[|prefix|..]);
    assert prefix + all[|prefix|..] == all;
  }

  // The first pass: local rules and final paths.
  method ClaimAll(ds: seq<Decision>, trees: Trees) returns (ok: bool, ledger: Ledger)
    ensures ok <==> (forall i | 0 <= i < |ds| :: LocalPlanOk(ds[i], trees)) && Separate(AllEdits(ds))
    ensures ok ==> Records(ledger, AllEdits(ds), trees)
  {
    hide Records, Separate, LocalPlanOk, AllEdits, Edits;
    ledger := StartingLedger(trees);
    StartingLedgerRecords(trees);
    assert AllEdits(ds[..0]) == [] && Separate(AllEdits(ds[..0])) by { NoEdits(ds[..0]); }
    for i := 0 to |ds|
      invariant Records(ledger, AllEdits(ds[..i]), trees) && Separate(AllEdits(ds[..i]))
      invariant forall k | 0 <= k < i :: LocalPlanOk(ds[k], trees)
    {
      EditsOneMore(ds, i);
      ok, ledger := CheckPlannedDecision(ds[i], ledger, AllEdits(ds[..i]), trees);
      if !ok {
        if !Separate(AllEdits(ds[..i + 1])) {
          UnplannedPrefix(ds, i + 1);
        }
        return;
      }
    }
    assert ds[..|ds|] == ds;
    ok := true;
  }

  lemma NoEdits(ds: seq<Decision>)
    requires ds == []
    ensures AllEdits(ds) == [] && Separate(AllEdits(ds))
  {
  }

  method CollectScopes(d: Decision, cands: seq<Candidate>) returns (scopes: set<Option<Name>>)
    ensures scopes == SourceScopes(d, cands)
  {
    scopes := {};
    for k := 0 to |cands|
      invariant scopes == set l | 0 <= l < k && cands[l].ref in d.sources :: cands[l].path.scope
    {
      if cands[k].ref in d.sources {
        scopes := scopes + {cands[k].path.scope};
      }
    }
  }

  // The second pass over one decision.
  ghost predicate SettledOk(d: Decision, cands: seq<Candidate>, ledger: Ledger, siblings: bool) {
    && ((d.operation == UPDATE || d.operation == MERGE)
        && d.target.Some? && d.matched.Some? && d.matched.value.scope.None? ==>
      (d.target, d.matched.value.name) !in ledger.movedRoots)
    && (siblings && Generates(d, cands) ==> |MembersAt(ledger, d.target, d.proposed.scope.value)| >= 2)
  }

  // A moved root property is not also updated, and a scope that the comparison chose has at
  // least two children.
  method CheckSettled(d: Decision, cands: seq<Candidate>, ledger: Ledger, siblings: bool) returns (ok: bool)
    ensures ok <==> SettledOk(d, cands, ledger, siblings)
  {
    if d.operation in {UPDATE, MERGE} && d.target.Some? && d.matched.Some? && d.matched.value.scope.None? {
      if (d.target, d.matched.value.name) in ledger.movedRoots {
        return false;
      }
    }
    if d.operation != ADD || d.proposed.scope.None? {
      return true;
    }
    var scopes := CollectScopes(d, cands);
    if |scopes| != 1 || scopes == {d.proposed.scope} {
      return true;
    }
    ok := !siblings || |MembersAt(ledger, d.target, d.proposed.scope.value)| >= 2;
  }

  lemma SettledIsPlan(d: Decision, cands: seq<Candidate>, ledger: Ledger, siblings: bool, edits: seq<Edit>,
                      trees: Trees)
    requires Records(ledger, edits, trees)
    ensures SettledOk(d, cands, ledger, siblings) <==>
      NotMoved(d, edits) && (siblings ==> SiblingsOk(d, cands, trees, edits))
  {
    hide Children, RecordsKinds, SourceScopes;
  }

  /** The plan validator accepts exactly the batches whose plan is in order. */
  method CheckScopePlan(ds: seq<Decision>, cands: seq<Candidate>, trees: Trees, siblings: bool) returns (ok: bool)
    ensures ok <==> PlanOk(ds, cands, trees, siblings)
  {
    hide Records, Separate, LocalPlanOk, AllEdits, NotMoved, SiblingsOk, SettledOk;
    var ledger;
    ok, ledger := ClaimAll(ds, trees);
    if !ok {
      return;
    }
    for i := 0 to |ds|
      invariant forall k | 0 <= k < i ::
        NotMoved(ds[k], AllEdits(ds)) && (siblings ==> SiblingsOk(ds[k], cands, trees, AllEdits(ds)))
    {
      SettledIsPlan(ds[i], cands, ledger, siblings, AllEdits(ds), trees);
      var settled := CheckSettled(ds[i], cands, ledger, siblings);
      if !settled {
        return false;
      }
    }
  }

  // ----- the whole batch ------------------------------------------------------------------

  // The response schema of one decision, in order.
  method CheckTyped(d: Decision) returns (ok: bool)
    ensures ok <==> WellTyped(d)
  {
    if d.matched.Some? && d.target.None? {
      return false;
    }
    if d.operation in {UPDATE, MERGE} && (d.target.None? || d.matched.None?) {
      return false;
    }
    if d.operation == ADD && d.matched.Some? {
      return false;
    }
    if d.operation == REVIEW_REQUIRED {
      if d.review == Some(SCOPE_MISMATCH) && (d.target.None? || d.matched.None? || d.proposed.scope.None?) {
        return false;
      }
      if d.review == Some(SCOPE_UNRESOLVED) {
        if d.target.None? || d.matched.None? || d.matched.value.scope.None? {
          return false;
        }
      }
      if d.review == Some(BATCH_LIMIT_EXCEEDED) && d.matched.Some? {
        return false;
      }
      if d.review.None? {
        return false;
      }
    } else if d.review.Some? {
      return false;
    }
    if d.sources == [] || |d.sources| > MAX_NAMES || |d.moves| > MAX_NAMES {
      return false;
    }
    ok := !exists i, j | 0 <= i < j < |d.sources| :: d.sources[i] == d.sources[j];
  }

  // The checks that depend on the operation.
  method CheckPaths(d: Decision, trees: Trees) returns (ok: bool)
    requires TargetKnown(d, trees)
    ensures ok <==> PathsOk(d, trees)
  {
    var tree := TreeOf(trees, d.target);
    if d.operation == REVIEW_REQUIRED {
      if d.review == Some(BATCH_LIMIT_EXCEEDED) {
        return false;
      }
      if d.review in {Some(GENERAL_UNCERTAINTY), Some(SCOPE_MISMATCH)} && d.moves != [] {
        return false;
      }
      return d.matched.None? || d.matched.value in tree;
    }
    if d.operation == ADD {
      if d.matched.Some? {
        return false;
      }
      return d.target.None? || !(d.proposed in tree || HasPathConflict(tree, d.proposed));
    }
    if d.operation == EXCLUDE && d.matched.None? {
      return true;
    }
    if d.target.None? || d.matched.None? || d.matched.value !in tree {
      return false;
    }
    ok := d.operation == EXCLUDE || d.proposed == d.matched.value;
  }

  // The candidates that a decision is about.
  method SourcesIn(d: Decision, cands: seq<Candidate>) returns (own: seq<Candidate>)
    ensures forall c :: c in own <==> exists k :: 0 <= k < |cands| && cands[k].ref in d.sources && cands[k] == c
  {
    own := [];
    for i := 0 to |cands|
      invariant forall c :: c in own <==> exists k :: 0 <= k < i && cands[k].ref in d.sources && cands[k] == c
    {
      if cands[i].ref in d.sources {
        own := own + [cands[i]];
      }
    }
  }

  // What a review may be about.
  method CheckReview(d: Decision, cands: seq<Candidate>) returns (ok: bool)
    ensures ok <==> ReviewOk(d, cands)
  {
    var own := SourcesIn(d, cands);
    assert forall k | 0 <= k < |cands| && cands[k].ref in d.sources :: cands[k] in own;
    if d.review == Some(GENERAL_UNCERTAINTY) {
      if |d.sources| != 1 {
        return false;
      }
      if d.conflicting {
        return d.matched == Some(d.proposed) && forall c | c in own :: c.path.scope == d.proposed.scope;
      }
      return true;
    }
    if d.review == Some(SCOPE_MISMATCH) {
      if |d.sources| != 1 || d.matched.None? || d.proposed.scope.None? {
        return false;
      }
      return d.matched.value.scope != d.proposed.scope && forall c | c in own :: c.path == d.proposed;
    }
    if d.review == Some(SCOPE_UNRESOLVED) && d.matched.Some? {
      if exists c | c in own :: c.path.name != d.matched.value.name {
        if |d.sources| != 1 || d.matched.value.scope.None? || d.proposed.scope.Some? || d.moves != [] {
          return false;
        }
        return forall c | c in own :: c.path == d.proposed;
      }
    }
    ok := true;
  }

  // The checks on one decision, in order.
  method CheckDecision(d: Decision, cands: seq<Candidate>, trees: Trees, policy: Decision -> bool) returns (ok: bool)
    ensures ok <==> DecisionOk(d, cands, trees, policy)
  {
    hide PathsOk, ReviewOk;
    if exists a | a in d.sources :: a !in Refs(cands) {
      return false;
    }
    var scopes := CollectScopes(d, cands);
    if |scopes| != 1 {
      return false;
    }
    if d.target.Some? && d.target.value !in trees {
      return false;
    }
    if |trees| == 1 && d.target.None? {
      return false;
    }
    if !policy(d) {
      return false;
    }
    ok := CheckReview(d, cands);
    if ok {
      ok := CheckPaths(d, trees);
    }
  }

  /** The main validator: known sources, each used once and none left out, and every
      decision in order. */
  method CheckDecisions(ds: seq<Decision>, cands: seq<Candidate>, trees: Trees, policy: Decision -> bool)
    returns (ok: bool)
    ensures ok <==> MainOk(ds, cands, trees, policy)
  {
    hide DecisionOk, Refs;
    var seen: set<Ref> := {};
    for i := 0 to |ds|
      invariant forall k | 0 <= k < i :: DecisionOk(ds[k], cands, trees, policy)
      invariant forall a :: a in seen <==> exists k :: 0 <= k < i && a in ds[k].sources
      invariant forall k, l, a | 0 <= k < l < i && a in ds[k].sources :: a !in ds[l].sources
    {
      var d := ds[i];
      if exists a | a in d.sources :: a in seen {
        return false;
      }
      var allowed := CheckDecision(d, cands, trees, policy);
      if !allowed {
        return false;
      }
      seen := seen + (set a | a in d.sources);
    }
    ok := Refs(cands) <= seen;
  }

  /** A batch is accepted when its decisions are in order, its plan is, and the plan of
      what will be stored is. */
  method ValidateBatch(ds: seq<Decision>, cands: seq<Candidate>, trees: Trees, policy: Decision -> bool, siblings: bool)
    returns (ok: bool)
    ensures ok <==> Accepted(ds, cands, trees, policy, siblings)
  {
    hide MainOk, PlanOk;
    ok := CheckDecisions(ds, cands, trees, policy);
    if ok {
      ok := CheckScopePlan(ds, cands, trees, siblings);
    }
    if ok {
      ok := CheckScopePlan(ProjectedAll(ds, cands), cands, trees, siblings);
    }
  }
}
