/**
 The batch plan of world-setting decisions, from app/analysis/world_setting_comparator.py:
 which batches of decisions are accepted, and what applying an accepted batch does to
 the two-level trees of scalar and scoped properties.

 Names are taken in their normalised form, so equality of names is equality of the
 keys that the validator compares.
 */
module WorldScopePlan {
  import opened Options

  type TargetRef(==, !new)

  type Name(==, !new)

  type Ref(==, !new)

  type Value(==, !new)

  // A property is a scalar at the root, or a child of one scope.
  datatype Path = Path(scope: Option<Name>, name: Name)

  type Tree = map<Path, Value>

  type Trees = map<TargetRef, Tree>

  function TopName(p: Path): Name {
    if p.scope.None? then p.name else p.scope.value
  }

  // One top-level name used both for a scalar and for a scope.
  predicate Clash(p: Path, q: Path) {
    p.scope.None? != q.scope.None? && TopName(p) == TopName(q)
  }

  ghost predicate WellFormed(paths: set<Path>) {
    forall p, q | p in paths && q in paths :: !Clash(p, q)
  }

  predicate HasPathConflict(tree: Tree, p: Path) {
    if p.scope.None? then exists q | q in tree :: q.scope == Some(p.name)
    else exists q | q in tree :: q.scope.None? && q.name == p.scope.value
  }

  /** The two-way conflict search finds exactly the clashes with existing properties. */
  lemma PathConflictIsClash(tree: Tree, p: Path)
    ensures HasPathConflict(tree, p) <==> exists q :: q in tree && Clash(p, q)
  {
    if HasPathConflict(tree, p) {
      if p.scope.None? {
        var q :| q in tree && q.scope == Some(p.name);
        assert Clash(p, q);
      } else {
        var q :| q in tree && q.scope.None? && q.name == p.scope.value;
        assert Clash(p, q);
      }
    }
  }

  // ----- decisions ----------------------------------------------------------------

  datatype Operation = ADD | UPDATE | MERGE | EXCLUDE | REVIEW_REQUIRED

  datatype ReviewReason = GENERAL_UNCERTAINTY | SCOPE_UNRESOLVED | SCOPE_MISMATCH | BATCH_LIMIT_EXCEEDED

  datatype Decision = Decision(
    sources: seq<Ref>, operation: Operation, review: Option<ReviewReason>, conflicting: bool,
    target: Option<TargetRef>, matched: Option<Path>, proposed: Path, value: Value, moves: seq<Name>)

  datatype Candidate = Candidate(ref: Ref, path: Path)

  const MAX_DECISIONS := 20

  const MAX_NAMES := 20

  // What the response schema guarantees.
  predicate WellTyped(d: Decision) {
    && d.sources != [] && (forall i, j :: 0 <= i < j < |d.sources| ==> d.sources[i] != d.sources[j])
    && (d.matched.Some? ==> d.target.Some?)
    && (d.operation == UPDATE || d.operation == MERGE ==> d.matched.Some?)
    && (d.operation == ADD ==> d.matched.None?)
    && (d.review.Some? <==> d.operation == REVIEW_REQUIRED)
    && (d.review == Some(SCOPE_MISMATCH) ==> d.matched.Some? && d.proposed.scope.Some?)
    && (d.review == Some(SCOPE_UNRESOLVED) ==> d.matched.Some? && d.matched.value.scope.Some?)
    && (d.review == Some(BATCH_LIMIT_EXCEEDED) ==> d.matched.None?)
    && |d.sources| <= MAX_NAMES && |d.moves| <= MAX_NAMES
  }

  ghost predicate DistinctRefs(cands: seq<Candidate>) {
    forall i, j :: 0 <= i < j < |cands| ==> cands[i].ref != cands[j].ref
  }

  function Refs(cands: seq<Candidate>): set<Ref> {
    set k | 0 <= k < |cands| :: cands[k].ref
  }

  function SourceScopes(d: Decision, cands: seq<Candidate>): set<Option<Name>> {
    set k | 0 <= k < |cands| && cands[k].ref in d.sources :: cands[k].path.scope
  }

  function TreeOf(trees: Trees, target: Option<TargetRef>): Tree {
    if target.Some? && target.value in trees then trees[target.value] else map[]
  }

  predicate TargetKnown(d: Decision, trees: Trees) {
    d.target.Some? ==> d.target.value in trees
  }

  // ----- edits ------------------------------------------------------------------------

  // One write to a tree; a move takes a root property below a scope.
  datatype Edit =
    | Insert(target: Option<TargetRef>, path: Path, value: Value)
    | Replace(target: Option<TargetRef>, path: Path, value: Value)
    | Move(target: Option<TargetRef>, path: Path, from: Name)

  function Moves(d: Decision): (edits: seq<Edit>)
    ensures |edits| == |d.moves|
  {
    seq(|d.moves|, k requires 0 <= k < |d.moves| => Move(d.target, Path(d.proposed.scope, d.moves[k]), d.moves[k]))
  }

  predicate IsGeneral(d: Decision) {
    d.review == Some(GENERAL_UNCERTAINTY)
  }

  function Own(d: Decision): seq<Edit> {
    if d.operation == ADD then [Insert(d.target, d.proposed, d.value)]
    else if d.operation == UPDATE || d.operation == MERGE then [Replace(d.target, d.proposed, d.value)]
    else []
  }

  // What a decision writes, in the order in which the plan claims the paths.
  function Edits(d: Decision): seq<Edit> {
    if IsGeneral(d) then [] else Own(d) + Moves(d)
  }

  function AllEdits(ds: seq<Decision>): seq<Edit> {
    if ds == [] then [] else AllEdits(ds[..|ds| - 1]) + Edits(ds[|ds| - 1])
  }

  lemma {:induction false} AllEditsMembers(ds: seq<Decision>)
    ensures forall e :: e in AllEdits(ds) <==> exists d :: d in ds && e in Edits(d)
  {
    hide Edits;
    if ds != [] {
      var n := |ds| - 1;
      AllEditsMembers(ds[..n]);
      assert ds == ds[..n] + [ds[n]];
      forall e ensures e in AllEdits(ds) <==> exists d :: d in ds && e in Edits(d) {
        assert e in AllEdits(ds) <==> e in AllEdits(ds[..n]) || e in Edits(ds[n]);
      }
    }
  }

  // ----- accepted batches ---------------------------------------------------------------

  // What the batch validator asks of a decision's paths.
  predicate PathsOk(d: Decision, trees: Trees)
    requires TargetKnown(d, trees)
  {
    var tree := TreeOf(trees, d.target);
    match d.operation
    case ADD => d.matched.None? && (d.target.Some? ==> d.proposed !in tree && !HasPathConflict(tree, d.proposed))
    case EXCLUDE => d.matched.Some? ==> d.target.Some? && d.matched.value in tree
    case REVIEW_REQUIRED =>
      && d.review != Some(BATCH_LIMIT_EXCEEDED)
      && (IsGeneral(d) || d.review == Some(SCOPE_MISMATCH) ==> d.moves == [])
      && (d.matched.Some? ==> d.matched.value in tree)
    case _ => d.target.Some? && d.matched.Some? && d.matched.value in tree && d.proposed == d.matched.value
  }

  ghost predicate FromPath(d: Decision, cands: seq<Candidate>, path: Path) {
    forall k | 0 <= k < |cands| && cands[k].ref in d.sources :: cands[k].path == path
  }

  // A review is about one candidate: of a conflict at the matched path, of another scope than
  // the matched one, or of a root property that may belong below a scope.
  ghost predicate ReviewOk(d: Decision, cands: seq<Candidate>) {
    && (IsGeneral(d) ==> |d.sources| == 1)
    && (IsGeneral(d) && d.conflicting ==>
      && d.matched == Some(d.proposed)
      && forall k | 0 <= k < |cands| && cands[k].ref in d.sources :: cands[k].path.scope == d.proposed.scope)
    && (d.review == Some(SCOPE_MISMATCH) ==>
      && |d.sources| == 1 && d.matched.Some? && d.proposed.scope.Some?
      && d.matched.value.scope != d.proposed.scope && FromPath(d, cands, d.proposed))
    && (d.review == Some(SCOPE_UNRESOLVED) && Renames(d, cands) ==>
      && |d.sources| == 1 && d.matched.value.scope.Some? && d.moves == []
      && d.proposed.scope.None? && FromPath(d, cands, d.proposed))
  }

  // The matched property has another name than some source.
  predicate Renames(d: Decision, cands: seq<Candidate>) {
    d.matched.Some? && exists k | 0 <= k < |cands| && cands[k].ref in d.sources ::
      cands[k].path.name != d.matched.value.name
  }

  // The checks on one decision; policy stands for those that are not about paths.
  ghost predicate DecisionOk(d: Decision, cands: seq<Candidate>, trees: Trees, policy: Decision -> bool) {
    && (forall a | a in d.sources :: a in Refs(cands))
    && |SourceScopes(d, cands)| == 1
    && TargetKnown(d, trees) && (|trees| == 1 ==> d.target.Some?)
    && policy(d) && PathsOk(d, trees) && ReviewOk(d, cands)
  }

  ghost predicate SourcesOnce(ds: seq<Decision>) {
    forall i, j, a | 0 <= i < j < |ds| && a in ds[i].sources :: a !in ds[j].sources
  }

  ghost predicate CoversAll(ds: seq<Decision>, refs: set<Ref>) {
    forall a | a in refs :: exists i :: 0 <= i < |ds| && a in ds[i].sources
  }

  predicate MoveOk(d: Decision, name: Name, tree: Tree) {
    var destination := Path(d.proposed.scope, name);
    && Path(None, name) in tree
    && Some(name) != d.proposed.scope && name != d.proposed.name
    && destination !in tree && !HasPathConflict(tree, destination)
  }

  // The plan's checks on one decision that is not a general review.
  predicate LocalPlanOk(d: Decision, trees: Trees) {
    IsGeneral(d) ||
    (d.proposed.scope != Some(d.proposed.name)
    && (d.moves != [] ==> d.operation == ADD && d.target.Some? && d.proposed.scope.Some?)
    && forall k | 0 <= k < |d.moves| :: MoveOk(d, d.moves[k], TreeOf(trees, d.target)))
  }

  predicate Compatible(e: Edit, f: Edit) {
    e.target == f.target ==> e.path != f.path && !Clash(e.path, f.path) && (e.Move? && f.Move? ==> e.from != f.from)
  }

  ghost predicate Separate(edits: seq<Edit>) {
    forall i, j :: 0 <= i < j < |edits| ==> Compatible(edits[i], edits[j])
  }

  // A root property that the batch updates must stay where it is.
  predicate NotMoved(d: Decision, edits: seq<Edit>) {
    (d.operation == UPDATE || d.operation == MERGE) && d.target.Some? && d.matched.Some?
      && d.matched.value.scope.None? ==>
      forall e | e in edits && e.Move? :: e.target != d.target || e.from != d.matched.value.name
  }

  // The children that a scope has once the edits are applied.
  function Children(edits: seq<Edit>, tree: Tree, target: Option<TargetRef>, scope: Name): set<Name> {
    (set p | p in tree && p.scope == Some(scope) :: p.name) +
    (set e | e in edits && !e.Replace? && e.target == target && e.path.scope == Some(scope) :: e.path.name)
  }

  // The scope was chosen by the comparison and is not the one of the sources.
  ghost predicate Generates(d: Decision, cands: seq<Candidate>) {
    d.operation == ADD && d.proposed.scope.Some? && |SourceScopes(d, cands)| == 1
      && SourceScopes(d, cands) != {d.proposed.scope}
  }

  ghost predicate SiblingsOk(d: Decision, cands: seq<Candidate>, trees: Trees, edits: seq<Edit>) {
    Generates(d, cands) ==> |Children(edits, TreeOf(trees, d.target), d.target, d.proposed.scope.value)| >= 2
  }

  ghost predicate PlanOk(ds: seq<Decision>, cands: seq<Candidate>, trees: Trees, siblings: bool) {
    && (forall i | 0 <= i < |ds| :: LocalPlanOk(ds[i], trees))
    && Separate(AllEdits(ds))
    && (forall i | 0 <= i < |ds| :: NotMoved(ds[i], AllEdits(ds)))
    && (siblings ==> forall i | 0 <= i < |ds| :: SiblingsOk(ds[i], cands, trees, AllEdits(ds)))
  }

  function FindCandidate(cands: seq<Candidate>, ref: Ref): Option<Candidate> {
    if cands == [] then None else if cands[0].ref == ref then Some(cands[0]) else FindCandidate(cands[1..], ref)
  }

  // The deterministic restoration of fields before a batch is stored.
  function Projected(d: Decision, cands: seq<Candidate>): Decision {
    var source := if |d.sources| == 1 then FindCandidate(cands, d.sources[0]) else None;
    var restored :=
      if source.None? then d
      else if IsGeneral(d) && d.conflicting && d.matched.Some? then d.(proposed := d.matched.value)
      else if d.operation == EXCLUDE || d.operation == REVIEW_REQUIRED then d.(proposed := source.value.path)
      else d;
    if d.operation == ADD then restored else restored.(moves := [])
  }

  function ProjectedAll(ds: seq<Decision>, cands: seq<Candidate>): (projected: seq<Decision>)
    ensures |projected| == |ds|
  {
    seq(|ds|, i requires 0 <= i < |ds| => Projected(ds[i], cands))
  }

  ghost predicate MainOk(ds: seq<Decision>, cands: seq<Candidate>, trees: Trees, policy: Decision -> bool) {
    && (forall i | 0 <= i < |ds| :: DecisionOk(ds[i], cands, trees, policy))
    && SourcesOnce(ds) && CoversAll(ds, Refs(cands))
  }

  // The batches that the comparator accepts.
  ghost predicate Accepted(ds: seq<Decision>, cands: seq<Candidate>, trees: Trees, policy: Decision -> bool,
                           siblings: bool)
  {
    && MainOk(ds, cands, trees, policy)
    && PlanOk(ds, cands, trees, siblings)
    && PlanOk(ProjectedAll(ds, cands), cands, trees, siblings)
  }

  /** Every decision of an accepted batch is about offered candidates of one scope and names
      no target that was not offered; if only one was, it names that one. */
  lemma TargetsAreOffered(ds: seq<Decision>, cands: seq<Candidate>, trees: Trees, policy: Decision -> bool,
                          siblings: bool, d: Decision)
    requires Accepted(ds, cands, trees, policy, siblings) && d in ds
    ensures d.target.Some? ==> d.target.value in trees
    ensures |trees| == 1 ==> d.target.Some? && forall t :: t in trees <==> t == d.target.value
    ensures forall a | a in d.sources :: exists k :: 0 <= k < |cands| && cands[k].ref == a
    ensures forall k, l | 0 <= k < |cands| && 0 <= l < |cands| && cands[k].ref in d.sources && cands[l].ref in d.sources
      :: cands[k].path.scope == cands[l].path.scope
  {
    hide PlanOk;
    var i :| 0 <= i < |ds| && ds[i] == d;
    assert DecisionOk(ds[i], cands, trees, policy);
    if |trees| == 1 {
      var t := d.target.value;
      assert |trees.Keys - {t}| == 0;
    }
    OneScope(SourceScopes(d, cands));
    forall k | 0 <= k < |cands| && cands[k].ref in d.sources ensures cands[k].path.scope in SourceScopes(d, cands) {}
  }

  lemma OneScope(scopes: set<Option<Name>>)
    requires |scopes| == 1
    ensures forall x, y | x in scopes && y in scopes :: x == y
  {
    forall x, y | x in scopes && y in scopes
      ensures x == y { assert y !in scopes - {x} by { assert |scopes - {x}| == 0; } }
  }

  /** What an accepted decision writes or matches lies where the target has room for it: an ADD
      at a free path that clashes with none, an UPDATE or MERGE at the matched property, and
      whatever is matched exists. */
  lemma PathsAreThere(ds: seq<Decision>, cands: seq<Candidate>, trees: Trees, policy: Decision -> bool,
                      siblings: bool, d: Decision)
    requires Accepted(ds, cands, trees, policy, siblings) && d in ds
    ensures d.operation == ADD ==> forall p | p in TreeOf(trees, d.target) :: p != d.proposed && !Clash(p, d.proposed)
    ensures d.operation == UPDATE || d.operation == MERGE ==> d.target.Some? && d.matched == Some(d.proposed)
    ensures d.matched.Some? ==> d.operation != ADD && d.matched.value in TreeOf(trees, d.target)
    ensures !IsGeneral(d) ==> forall a | a in d.moves ::
      && d.operation == ADD && d.target.Some? && d.proposed.scope.Some? && Path(None, a) in TreeOf(trees, d.target)
      && d.proposed.scope != Some(a) && d.proposed.name != a
      && forall p | p in TreeOf(trees, d.target) ::
        p != Path(d.proposed.scope, a) && !Clash(p, Path(d.proposed.scope, a))
  {
    hide Separate, SiblingsOk, NotMoved, AllEdits, SourceScopes, Refs, HasPathConflict;
    var i :| 0 <= i < |ds| && ds[i] == d;
    assert DecisionOk(ds[i], cands, trees, policy) && LocalPlanOk(ds[i], trees);
    PathConflictIsClash(TreeOf(trees, d.target), d.proposed);
    if !IsGeneral(d) {
      forall a | a in d.moves ensures MoveOk(d, a, TreeOf(trees, d.target)) {
        var k :| 0 <= k < |d.moves| && d.moves[k] == a;
      }
      forall a | a in d.moves ensures
        forall p | p in TreeOf(trees, d.target) :: !Clash(p, Path(d.proposed.scope, a))
      {
        PathConflictIsClash(TreeOf(trees, d.target), Path(d.proposed.scope, a));
      }
    }
  }

  // ----- applying edits --------------------------------------------------------------------

  function ApplyEdit(tree: Tree, e: Edit): Tree {
    match e
    case Insert(_, path, value) => tree[path := value]
    case Replace(_, path, value) => tree[path := value]
    case Move(_, path, from) =>
      if Path(None, from) in tree then (tree - {Path(None, from)})[path := tree[Path(None, from)]] else tree
  }

  // The tree of one target after the edits that concern it, in order.
  function ApplyEdits(tree: Tree, edits: seq<Edit>, target: Option<TargetRef>): Tree {
    if edits == [] then tree
    else
      var e, before := edits[|edits| - 1], ApplyEdits(tree, edits[..|edits| - 1], target);
      if e.target == target then ApplyEdit(before, e) else before
  }

  predicate EditOk(e: Edit, tree: Tree) {
    match e
    case Insert(_, path, _) => path !in tree && !HasPathConflict(tree, path)
    case Replace(_, path, _) => path in tree
    case Move(_, path, from) =>
      Path(None, from) in tree && path.scope.Some? && path !in tree && !HasPathConflict(tree, path)
  }

  ghost predicate Legal(edits: seq<Edit>, tree: Tree, target: Option<TargetRef>) {
    && (forall e | e in edits && e.target == target :: EditOk(e, tree))
    && Separate(edits)
    && (forall e, f | e in edits && f in edits && e.target == target == f.target && e.Replace? && f.Move? ::
      e.path != Path(None, f.from))
  }

  function Vacated(edits: seq<Edit>, target: Option<TargetRef>): set<Path> {
    set e | e in edits && e.target == target && e.Move? :: Path(None, e.from)
  }

  function Filled(edits: seq<Edit>, target: Option<TargetRef>): set<Path> {
    set e | e in edits && e.target == target :: e.path
  }

  function Inserts(edits: seq<Edit>, target: Option<TargetRef>): nat {
    if edits == [] then 0
    else
      var e := edits[|edits| - 1];
      Inserts(edits[..|edits| - 1], target) + if e.Insert? && e.target == target then 1 else 0
  }

  // The content that an edit leaves at its path.
  function Content(e: Edit, tree: Tree): Option<Value> {
    match e
    case Insert(_, _, value) => Some(value)
    case Replace(_, _, value) => Some(value)
    case Move(_, _, from) => if Path(None, from) in tree then Some(tree[Path(None, from)]) else None
  }

  ghost predicate KeysHold(after: Tree, tree: Tree, edits: seq<Edit>, target: Option<TargetRef>) {
    after.Keys == (tree.Keys - Vacated(edits, target)) + Filled(edits, target)
  }

  ghost predicate RestHolds(after: Tree, tree: Tree, edits: seq<Edit>, target: Option<TargetRef>) {
    forall p | p in tree && p !in Vacated(edits, target) && p !in Filled(edits, target) :: p in after
      && after[p] == tree[p]
  }

  ghost predicate ContentsHold(after: Tree, tree: Tree, edits: seq<Edit>, target: Option<TargetRef>) {
    forall e | e in edits && e.target == target :: e.path in after && Some(after[e.path]) == Content(e, tree)
  }

  // The tree holds the edits done so far, is otherwise unchanged, and grew by the insertions.
  ghost predicate Holds(after: Tree, tree: Tree, edits: seq<Edit>, target: Option<TargetRef>) {
    && KeysHold(after, tree, edits, target) && RestHolds(after, tree, edits, target)
    && ContentsHold(after, tree, edits, target)
    && |after| == |tree| + Inserts(edits, target)
  }

  lemma LegalPrefix(edits: seq<Edit>, tree: Tree, target: Option<TargetRef>)
    requires edits != [] && Legal(edits, tree, target)
    ensures var before := edits[..|edits| - 1];
      && Legal(before, tree, target)
      && (forall e | e in before :: Compatible(e, edits[|edits| - 1]))
  {
    var n := |edits| - 1;
    forall e | e in edits[..n] ensures e in edits && Compatible(e, edits[n]) {
      var i :| 0 <= i < n && edits[..n][i] == e;
      assert Compatible(edits[i], edits[n]);
    }
    assert forall i, j :: 0 <= i < j < n ==> Compatible(edits[i], edits[j]);
  }

  lemma EditSetsMore(before: seq<Edit>, e: Edit, target: Option<TargetRef>)
    ensures var more := before + [e];
      && Vacated(more, target) ==
        Vacated(before, target) + (if e.target == target && e.Move? then {Path(None, e.from)} else {})
      && Filled(more, target) == Filled(before, target) + (if e.target == target then {e.path} else {})
      && Inserts(more, target) == Inserts(before, target) + if e.Insert? && e.target == target then 1 else 0
  {
    var more := before + [e];
    assert more[..|more| - 1] == before;
    forall f ensures f in more <==> f in before || f == e {}
  }

  // A legal edit finds its place untouched by the earlier ones.
  lemma PlaceIsFresh(tree: Tree, before: seq<Edit>, e: Edit, target: Option<TargetRef>)
    requires Legal(before + [e], tree, target) && e.target == target
    requires forall f | f in before :: Compatible(f, e)
    ensures EditOk(e, tree) && e.path !in Filled(before, target)
    ensures e.Replace? ==> e.path !in Vacated(before, target)
    ensures e.Move? ==> Path(None, e.from) !in Vacated(before, target) && Path(None, e.from) !in Filled(before, target)
  {
    hide Clash, HasPathConflict;
    var edits := before + [e];
    assert e in edits;
    forall f | f in before && f.target == target ensures f in edits && f.path != e.path && EditOk(f, tree) {
      assert Compatible(f, e);
    }
  }

  // An edit at its fresh place, seen from the tree it is applied to.
  ghost predicate Fits(after: Tree, tree: Tree, before: seq<Edit>, e: Edit, target: Option<TargetRef>) {
    && Holds(after, tree, before, target) && e.target == target && EditOk(e, tree)
    && e.path !in Filled(before, target)
    && (e.Replace? ==> e.path !in Vacated(before, target))
    && (e.Move? ==> Path(None, e.from) !in Vacated(before, target) && Path(None, e.from) !in Filled(before, target))
  }

  lemma KeysOneMore(after: Tree, tree: Tree, before: seq<Edit>, e: Edit, target: Option<TargetRef>)
    requires Fits(after, tree, before, e, target)
    ensures KeysHold(ApplyEdit(after, e), tree, before + [e], target)
  {
    hide Vacated, Filled, Inserts, ContentsHold, RestHolds, HasPathConflict;
    EditSetsMore(before, e, target);
    if e.Move? {
      KeysOfMove(after, Path(None, e.from), e.path, tree.Keys, Vacated(before, target), Filled(before, target));
    }
  }

  lemma KeysOfMove(after: Tree, root: Path, destination: Path, keys: set<Path>, vacated: set<Path>, filled: set<Path>)
    requires after.Keys == (keys - vacated) + filled && root in after && root !in filled
    ensures (after - {root})[destination := after[root]].Keys == (keys - (vacated + {root})) + (filled + {destination})
  {
  }

  lemma SizeOneMore(after: Tree, tree: Tree, before: seq<Edit>, e: Edit, target: Option<TargetRef>)
    requires Fits(after, tree, before, e, target)
    ensures |ApplyEdit(after, e)| == |tree| + Inserts(before + [e], target)
  {
    hide Vacated, Filled, Inserts, ContentsHold, RestHolds, HasPathConflict;
    EditSetsMore(before, e, target);
    assert e.path in after <==> e.Replace?;
    if e.Move? {
      var root := Path(None, e.from);
      assert root in after.Keys;
      SizeOfMove(after, root, e.path);
    }
  }

  lemma SizeOfMove(tree: Tree, root: Path, destination: Path)
    requires root in tree && destination !in tree
    ensures |(tree - {root})[destination := tree[root]]| == |tree|
  {
    assert (tree - {root}).Keys == tree.Keys - {root};
    assert |tree - {root}| == |tree| - 1;
  }

  lemma RestOneMore(after: Tree, tree: Tree, before: seq<Edit>, e: Edit, target: Option<TargetRef>)
    requires Fits(after, tree, before, e, target)
    ensures RestHolds(ApplyEdit(after, e), tree, before + [e], target)
  {
    hide Vacated, Filled, Inserts, Content, ContentsHold, HasPathConflict;
    EditSetsMore(before, e, target);
  }

  lemma ContentsOneMore(after: Tree, tree: Tree, before: seq<Edit>, e: Edit, target: Option<TargetRef>)
    requires Fits(after, tree, before, e, target)
    ensures ContentsHold(ApplyEdit(after, e), tree, before + [e], target)
  {
    var edits, now := before + [e], ApplyEdit(after, e);
    assert e.Move? ==> Path(None, e.from) in after && after[Path(None, e.from)] == tree[Path(None, e.from)];
    forall f | f in before && f.target == target ensures f.path in now && now[f.path] == after[f.path]
      && f.path in after {
      assert f.path in Filled(before, target);
    }
    forall f | f in edits && f.target == target ensures f.path in now && Some(now[f.path]) == Content(f, tree) {
      assert f in before || f == e;
    }
  }

  lemma HoldsOneMore(after: Tree, tree: Tree, before: seq<Edit>, e: Edit, target: Option<TargetRef>)
    requires Holds(after, tree, before, target) && Legal(before + [e], tree, target) && e.target == target
    requires forall f | f in before :: Compatible(f, e)
    ensures Holds(ApplyEdit(after, e), tree, before + [e], target)
  {
    hide Clash, HasPathConflict, Legal, Vacated, Filled, Inserts, Content, ContentsHold, RestHolds, KeysHold;
    PlaceIsFresh(tree, before, e, target);
    KeysOneMore(after, tree, before, e, target);
    SizeOneMore(after, tree, before, e, target);
    RestOneMore(after, tree, before, e, target);
    ContentsOneMore(after, tree, before, e, target);
  }

  /** Sequentially applied, legal edits never overwrite one another, lose no property
      and grow the tree by the number of insertions. */
  lemma {:induction false} LegalEditsHold(edits: seq<Edit>, tree: Tree, target: Option<TargetRef>)
    requires Legal(edits, tree, target)
    ensures Holds(ApplyEdits(tree, edits, target), tree, edits, target)
    decreases |edits|
  {
    hide Legal, Compatible, Holds;
    if edits == [] {
      NothingHolds(tree, target);
    } else {
      var n := |edits| - 1;
      var before, e := edits[..n], edits[n];
      LegalPrefix(edits, tree, target);
      LegalEditsHold(before, tree, target);
      assert edits == before + [e];
      if e.target == target {
        HoldsOneMore(ApplyEdits(tree, before, target), tree, before, e, target);
      } else {
        OtherTargetHolds(ApplyEdits(tree, before, target), tree, before, e, target);
      }
    }
  }

  lemma NothingHolds(tree: Tree, target: Option<TargetRef>)
    ensures Holds(tree, tree, [], target)
  {
  }

  lemma EditSetsSame(before: seq<Edit>, e: Edit, target: Option<TargetRef>)
    requires e.target != target
    ensures Vacated(before + [e], target) == Vacated(before, target)
      && Filled(before + [e], target) == Filled(before, target)
    ensures Inserts(before + [e], target) == Inserts(before, target)
  {
    EditSetsMore(before, e, target);
  }

  lemma ContentsSame(after: Tree, tree: Tree, before: seq<Edit>, e: Edit, target: Option<TargetRef>)
    requires ContentsHold(after, tree, before, target) && e.target != target
    ensures ContentsHold(after, tree, before + [e], target)
  {
    hide Content;
    forall f | f in before + [e] && f.target == target ensures f in before {}
  }

  lemma OtherTargetHolds(after: Tree, tree: Tree, before: seq<Edit>, e: Edit, target: Option<TargetRef>)
    requires Holds(after, tree, before, target) && e.target != target
    ensures Holds(after, tree, before + [e], target)
  {
    hide Vacated, Filled, Inserts, ContentsHold;
    EditSetsSame(before, e, target);
    ContentsSame(after, tree, before, e, target);
  }

  // ----- scope-plan safety --------------------------------------------------------------------

  // Every decision keeps to what is there and what the plan allows.
  predicate EachKeepsTo(ds: seq<Decision>, trees: Trees) {
    forall d | d in ds :: TargetKnown(d, trees) && PathsOk(d, trees) && LocalPlanOk(d, trees)
  }

  lemma AcceptedKeepTo(ds: seq<Decision>, cands: seq<Candidate>, trees: Trees, policy: Decision -> bool, siblings: bool)
    requires MainOk(ds, cands, trees, policy) && PlanOk(ds, cands, trees, siblings)
    ensures EachKeepsTo(ds, trees)
  {
    hide TargetKnown, PathsOk, LocalPlanOk, SourceScopes, Separate, NotMoved, SiblingsOk, AllEdits;
    forall d | d in ds ensures TargetKnown(d, trees) && PathsOk(d, trees) && LocalPlanOk(d, trees) {
      var i :| 0 <= i < |ds| && ds[i] == d;
      assert DecisionOk(ds[i], cands, trees, policy) && LocalPlanOk(ds[i], trees);
    }
  }

  lemma EditsAreOk(d: Decision, trees: Trees, e: Edit)
    requires TargetKnown(d, trees) && PathsOk(d, trees) && LocalPlanOk(d, trees) && e in Edits(d)
    ensures e.target == d.target && EditOk(e, TreeOf(trees, d.target))
    ensures e.Replace? ==>
      d.matched == Some(e.path) && (d.operation == UPDATE || d.operation == MERGE) && d.target.Some?
    ensures e.Move? ==> d.operation == ADD && e.from in d.moves && e.path == Path(d.proposed.scope, e.from)
    ensures e.Insert? ==> d.operation == ADD && e.path == d.proposed && e.value == d.value
  {
    if e in Moves(d) {
      var k :| 0 <= k < |d.moves| && Moves(d)[k] == e;
      assert MoveOk(d, d.moves[k], TreeOf(trees, d.target));
    }
  }


  // The decision that an edit belongs to.
  lemma OwnerOf(ds: seq<Decision>, trees: Trees, e: Edit) returns (d: Decision)
    requires EachKeepsTo(ds, trees) && e in AllEdits(ds)
    ensures d in ds && e.target == d.target && EditOk(e, TreeOf(trees, d.target))
    ensures e.Replace? ==>
      d.matched == Some(e.path) && d.proposed == e.path
      && (d.operation == UPDATE || d.operation == MERGE) && d.target.Some?
    ensures e.Move? ==> d.operation == ADD && e.from in d.moves && e.path == Path(d.proposed.scope, e.from)
    ensures e.Insert? ==> d.operation == ADD && e.path == d.proposed && e.value == d.value
  {
    hide TargetKnown, PathsOk, LocalPlanOk, AllEdits, EditOk;
    AllEditsMembers(ds);
    d :| d in ds && e in Edits(d);
    EditsAreOk(d, trees, e);
  }

  lemma ReplacedStays(ds: seq<Decision>, trees: Trees, e: Edit, f: Edit)
    requires EachKeepsTo(ds, trees) && e in AllEdits(ds) && f in AllEdits(ds)
    requires forall d | d in ds :: NotMoved(d, AllEdits(ds))
    requires e.target == f.target && e.Replace? && f.Move?
    ensures e.path != Path(None, f.from)
  {
    hide EachKeepsTo, AllEdits, EditOk;
    var d := OwnerOf(ds, trees, e);
    assert NotMoved(d, AllEdits(ds));
  }

  lemma NobodyMoved(ds: seq<Decision>, cands: seq<Candidate>, trees: Trees, siblings: bool)
    requires PlanOk(ds, cands, trees, siblings)
    ensures forall d | d in ds :: NotMoved(d, AllEdits(ds))
  {
    hide SiblingsOk, LocalPlanOk, Separate, NotMoved, AllEdits;
  }

  lemma AcceptedIsLegal(ds: seq<Decision>, cands: seq<Candidate>, trees: Trees, policy: Decision -> bool,
                        siblings: bool, target: Option<TargetRef>)
    requires MainOk(ds, cands, trees, policy) && PlanOk(ds, cands, trees, siblings)
    ensures Legal(AllEdits(ds), TreeOf(trees, target), target)
  {
    hide MainOk, AllEdits, EditOk, NotMoved, LocalPlanOk, SiblingsOk, Separate, EachKeepsTo;
    var edits, tree := AllEdits(ds), TreeOf(trees, target);
    AcceptedKeepTo(ds, cands, trees, policy, siblings);
    NobodyMoved(ds, cands, trees, siblings);
    forall e | e in edits && e.target == target ensures EditOk(e, tree) {
      var d := OwnerOf(ds, trees, e);
    }
    forall e, f | e in edits && f in edits && e.target == target == f.target && e.Replace? && f.Move?
      ensures e.path != Path(None, f.from)
    {
      ReplacedStays(ds, trees, e, f);
    }
  }

  lemma LegalKeepsForm(edits: seq<Edit>, tree: Tree, target: Option<TargetRef>)
    requires Legal(edits, tree, target) && WellFormed(tree.Keys)
    ensures WellFormed(tree.Keys + Filled(edits, target))
  {
    hide Clash;
    ClashIsSymmetric();
    forall p, q | p in tree.Keys + Filled(edits, target) && q in tree.Keys + Filled(edits, target)
      ensures !Clash(p, q) {
      PathConflictIsClash(tree, p);
      PathConflictIsClash(tree, q);
      assert p in tree && q in Filled(edits, target) ==> !Clash(q, p) by {
        if p in tree && q in Filled(edits, target) { FilledIsFree(edits, tree, target, q); }
      }
      assert q in tree && p in Filled(edits, target) ==> !Clash(p, q) by {
        if q in tree && p in Filled(edits, target) { FilledIsFree(edits, tree, target, p); }
      }
      if p in Filled(edits, target) && q in Filled(edits, target) && p != q {
        FilledAgree(edits, target, p, q);
      }
    }
  }

  lemma ClashIsSymmetric()
    ensures forall p, q :: Clash(p, q) == Clash(q, p)
    ensures forall p :: !Clash(p, p)
  {
  }

  lemma FilledIsFree(edits: seq<Edit>, tree: Tree, target: Option<TargetRef>, p: Path)
    requires Legal(edits, tree, target) && p in Filled(edits, target)
    ensures p in tree || !HasPathConflict(tree, p)
  {
    hide HasPathConflict;
    var e :| e in edits && e.target == target && e.path == p;
    assert EditOk(e, tree);
  }

  lemma FilledAgree(edits: seq<Edit>, target: Option<TargetRef>, p: Path, q: Path)
    requires Separate(edits) && p in Filled(edits, target) && q in Filled(edits, target) && p != q
    ensures !Clash(p, q)
  {
    var e :| e in edits && e.target == target && e.path == p;
    var f :| f in edits && f.target == target && f.path == q;
    var i :| 0 <= i < |edits| && edits[i] == e;
    var j :| 0 <= j < |edits| && edits[j] == f;
    assert i < j ==> Compatible(edits[i], edits[j]);
    assert j < i ==> Compatible(edits[j], edits[i]);
  }

  // ----- what a reader sees of a target after a batch ---------------------------------------------

  function Applied(ds: seq<Decision>, trees: Trees, target: Option<TargetRef>): Tree {
    ApplyEdits(TreeOf(trees, target), AllEdits(ds), target)
  }

  predicate Writes(d: Decision) {
    d.operation == ADD || d.operation == UPDATE || d.operation == MERGE
  }

  function Adds(ds: seq<Decision>, target: Option<TargetRef>): nat {
    if ds == [] then 0
    else
      var d := ds[|ds| - 1];
      Adds(ds[..|ds| - 1], target) + if d.operation == ADD && d.target == target then 1 else 0
  }

  function ChildrenOf(tree: Tree, scope: Name): set<Name> {
    set p | p in tree && p.scope == Some(scope) :: p.name
  }

  ghost predicate UpdatedBy(ds: seq<Decision>, target: Option<TargetRef>, p: Path) {
    exists d :: d in ds && d.target == target && (d.operation == UPDATE || d.operation == MERGE) && d.proposed == p
  }

  // A root property that some ADD takes below its scope, value and all.
  ghost predicate MovedBy(ds: seq<Decision>, target: Option<TargetRef>, p: Path, tree: Tree, after: Tree) {
    exists d :: d in ds && d.target == target && d.operation == ADD && p.scope.None? && p in tree && p.name in d.moves
      && Path(d.proposed.scope, p.name) in after && after[Path(d.proposed.scope, p.name)] == tree[p]
  }

  // No property is lost: it is untouched, updated in place, or moved.
  ghost predicate Survives(ds: seq<Decision>, target: Option<TargetRef>, p: Path, tree: Tree, after: Tree)
    requires p in tree
  {
    (p in after && (after[p] == tree[p] || UpdatedBy(ds, target, p))) || MovedBy(ds, target, p, tree, after)
  }

  lemma {:induction false} InsertsConcat(a: seq<Edit>, b: seq<Edit>, target: Option<TargetRef>)
    ensures Inserts(a + b, target) == Inserts(a, target) + Inserts(b, target)
    decreases |b|
  {
    if b == [] {
      assert a + b == a;
    } else {
      InsertsConcat(a, b[..|b| - 1], target);
      assert (a + b)[..|a + b| - 1] == a + b[..|b| - 1];
    }
  }

  lemma {:induction false} NoInserts(edits: seq<Edit>, target: Option<TargetRef>)
    requires forall e | e in edits :: !e.Insert?
    ensures Inserts(edits, target) == 0
    decreases |edits|
  {
    if edits != [] {
      assert edits[|edits| - 1] in edits;
      NoInserts(edits[..|edits| - 1], target);
    }
  }

  lemma InsertsOfDecision(d: Decision, target: Option<TargetRef>)
    requires d.operation == ADD ==> d.review.None?
    ensures Inserts(Edits(d), target) == if d.operation == ADD && d.target == target then 1 else 0
  {
    if IsGeneral(d) {
      assert Edits(d) == [];
    } else {
      InsertsConcat(Own(d), Moves(d), target);
      NoInserts(Moves(d), target);
      if d.operation == ADD {
        assert Own(d)[..0] == [] && Inserts([], target) == 0;
      } else {
        NoInserts(Own(d), target);
      }
    }
  }

  lemma {:induction false} InsertsAreAdds(ds: seq<Decision>, target: Option<TargetRef>)
    requires forall d | d in ds :: d.operation == ADD ==> d.review.None?
    ensures Inserts(AllEdits(ds), target) == Adds(ds, target)
    decreases |ds|
  {
    hide Inserts, Edits;
    if ds == [] {
      NoInserts([], target);
    } else {
      var n := |ds| - 1;
      assert ds[n] in ds;
      InsertsAreAdds(ds[..n], target);
      InsertsConcat(AllEdits(ds[..n]), Edits(ds[n]), target);
      InsertsOfDecision(ds[n], target);
    }
  }

  lemma PropertySurvives(ds: seq<Decision>, trees: Trees, target: Option<TargetRef>, after: Tree, p: Path)
    requires EachKeepsTo(ds, trees) && p in TreeOf(trees, target)
    requires Holds(after, TreeOf(trees, target), AllEdits(ds), target)
    ensures Survives(ds, target, p, TreeOf(trees, target), after)
  {
    hide EachKeepsTo, AllEdits, Inserts;
    var tree, edits := TreeOf(trees, target), AllEdits(ds);
    if p in Vacated(edits, target) {
      var e :| e in edits && e.target == target && e.Move? && Path(None, e.from) == p;
      var d := OwnerOf(ds, trees, e);
      assert Some(after[e.path]) == Content(e, tree);
      assert MovedBy(ds, target, p, tree, after);
    } else if p in Filled(edits, target) {
      var e :| e in edits && e.target == target && e.path == p;
      var d := OwnerOf(ds, trees, e);
      assert UpdatedBy(ds, target, p);
    }
  }

  lemma GeneratedScopeHasSiblings(cands: seq<Candidate>, trees: Trees, edits: seq<Edit>, after: Tree, d: Decision)
    requires Generates(d, cands) && SiblingsOk(d, cands, trees, edits)
      && KeysHold(after, TreeOf(trees, d.target), edits, d.target)
    ensures |ChildrenOf(after, d.proposed.scope.value)| >= 2
  {
    hide Children, ChildrenOf, KeysHold;
    var tree, scope := TreeOf(trees, d.target), d.proposed.scope.value;
    forall name | name in Children(edits, tree, d.target, scope) ensures name in ChildrenOf(after, scope) {
      ChildIsThere(after, tree, edits, d.target, scope, name);
      IsChild(after, scope, name);
    }
    SubsetSize(Children(edits, tree, d.target, scope), ChildrenOf(after, scope));
  }

  lemma IsChild(tree: Tree, scope: Name, name: Name)
    requires Path(Some(scope), name) in tree
    ensures name in ChildrenOf(tree, scope)
  {
    assert Path(Some(scope), name).name == name;
  }

  // Moves only take root properties away, so a child stays a child.
  lemma ChildIsThere(after: Tree, tree: Tree, edits: seq<Edit>, target: Option<TargetRef>, scope: Name, name: Name)
    requires KeysHold(after, tree, edits, target) && name in Children(edits, tree, target, scope)
    ensures Path(Some(scope), name) in after
  {
    var p := Path(Some(scope), name);
    if p in tree {
      assert p !in Vacated(edits, target);
    } else {
      var e :| e in edits && !e.Replace? && e.target == target && e.path.scope == Some(scope) && e.path.name == name;
      assert e.path == p && p in Filled(edits, target);
    }
  }

  lemma SubsetSize(small: set<Name>, large: set<Name>)
    requires small <= large
    ensures |small| <= |large|
  {
    assert large == small + (large - small);
  }

  // A batch applied to one target.
  ghost predicate SafeFor(ds: seq<Decision>, cands: seq<Candidate>, trees: Trees, siblings: bool,
                          target: Option<TargetRef>)
  {
    var tree, after := TreeOf(trees, target), Applied(ds, trees, target);
    && WellFormed(after.Keys)
    && |after| == |tree| + Adds(ds, target)
    && (forall p | p in tree :: Survives(ds, target, p, tree, after))
    && (forall d | d in ds && d.target == target && Writes(d) :: d.proposed in after && after[d.proposed] == d.value)
    && (siblings ==> forall d | d in ds && d.target == target && Generates(d, cands) ::
      |ChildrenOf(after, d.proposed.scope.value)| >= 2)
  }

  /** Scope-plan safety: an accepted batch, applied edit by edit, keeps every well-formed
      tree well formed, loses no property, adds exactly as many as it has ADDs, leaves the
      proposed values in place, and gives every generated scope at least two children. */
  lemma ScopePlanSafety(ds: seq<Decision>, cands: seq<Candidate>, trees: Trees, policy: Decision -> bool,
                        siblings: bool, target: Option<TargetRef>)
    requires MainOk(ds, cands, trees, policy) && PlanOk(ds, cands, trees, siblings)
    requires forall d | d in ds :: WellTyped(d)
    requires WellFormed(TreeOf(trees, target).Keys)
    ensures SafeFor(ds, cands, trees, siblings, target)
  {
    hide Separate, Legal, MainOk, PlanOk, Survives, SourceScopes, ChildrenOf, Vacated, Filled, AllEdits, ApplyEdits,
      Adds, Inserts, WellFormed, KeysHold, RestHolds, ContentsHold, WellTyped, EachKeepsTo, SiblingsOk;
    var tree, after, edits := TreeOf(trees, target), Applied(ds, trees, target), AllEdits(ds);
    AcceptedIsLegal(ds, cands, trees, policy, siblings, target);
    LegalEditsHold(edits, tree, target);
    LegalResultKeepsForm(edits, tree, target, after);
    assert forall d | d in ds :: d.operation == ADD ==> d.review.None? by { AddsAreNotReviews(ds); }
    InsertsAreAdds(ds, target);
    AcceptedKeepTo(ds, cands, trees, policy, siblings);
    forall p | p in tree ensures Survives(ds, target, p, tree, after) {
      PropertySurvives(ds, trees, target, after, p);
    }
    forall d | d in ds && d.target == target && Writes(d) ensures d.proposed in after && after[d.proposed] == d.value {
      OwnEditIsThere(ds, d, target, tree, after);
    }
    if siblings {
      forall d | d in ds && d.target == target && Generates(d, cands)
        ensures |ChildrenOf(after, d.proposed.scope.value)| >= 2
      {
        PlannedSiblings(ds, cands, trees, d);
        GeneratedScopeHasSiblings(cands, trees, edits, after, d);
      }
    }
  }

  lemma PlannedSiblings(ds: seq<Decision>, cands: seq<Candidate>, trees: Trees, d: Decision)
    requires PlanOk(ds, cands, trees, true) && d in ds
    ensures SiblingsOk(d, cands, trees, AllEdits(ds))
  {
    hide SiblingsOk, LocalPlanOk, Separate, NotMoved, AllEdits;
  }

  lemma AddsAreNotReviews(ds: seq<Decision>)
    requires forall d | d in ds :: WellTyped(d)
    ensures forall d | d in ds :: d.operation == ADD ==> d.review.None?
  {
  }

  lemma LegalResultKeepsForm(edits: seq<Edit>, tree: Tree, target: Option<TargetRef>, after: Tree)
    requires Legal(edits, tree, target) && WellFormed(tree.Keys) && Holds(after, tree, edits, target)
    ensures WellFormed(after.Keys)
  {
    hide Legal;
    LegalKeepsForm(edits, tree, target);
    assert after.Keys <= tree.Keys + Filled(edits, target);
  }

  lemma OwnEditIsThere(ds: seq<Decision>, d: Decision, target: Option<TargetRef>, tree: Tree, after: Tree)
    requires d in ds && Writes(d) && WellTyped(d) && d.target == target && Holds(after, tree, AllEdits(ds), target)
    ensures d.proposed in after && after[d.proposed] == d.value
  {
    AllEditsMembers(ds);
    var e := Own(d)[0];
    assert e in Edits(d);
    assert e in AllEdits(ds) && Some(after[e.path]) == Content(e, tree);
  }

  /** The projection changes no write: the stored batch makes the same edits as the
      batch that was validated. */
  lemma {:induction false} ProjectionKeepsEdits(ds: seq<Decision>, cands: seq<Candidate>, trees: Trees)
    requires forall d | d in ds :: WellTyped(d) && TargetKnown(d, trees) && PathsOk(d, trees) && LocalPlanOk(d, trees)
    ensures AllEdits(ProjectedAll(ds, cands)) == AllEdits(ds)
    decreases |ds|
  {
    hide HasPathConflict, MoveOk;
    if ds != [] {
      var n := |ds| - 1;
      ProjectionKeepsEdits(ds[..n], cands, trees);
      assert ProjectedAll(ds, cands)[..n] == ProjectedAll(ds[..n], cands);
      assert ds[n] in ds;
      var d, projected := ds[n], Projected(ds[n], cands);
      assert d.operation != ADD ==> d.moves == [];
      assert Edits(projected) == Edits(d);
    }
  }

  lemma ProjectionIsWellTyped(d: Decision, cands: seq<Candidate>)
    requires WellTyped(d) && ReviewOk(d, cands)
    ensures WellTyped(Projected(d, cands)) && Projected(d, cands).sources == d.sources
  {
    if |d.sources| == 1 { FoundIsThere(cands, d.sources[0]); }
  }

  lemma {:induction false} FoundIsThere(cands: seq<Candidate>, ref: Ref)
    ensures var found := FindCandidate(cands, ref);
      found.Some? ==> found.value.ref == ref && exists k :: 0 <= k < |cands| && cands[k] == found.value
  {
    if cands != [] && cands[0].ref != ref {
      FoundIsThere(cands[1..], ref);
      var found := FindCandidate(cands[1..], ref);
      if found.Some? {
        var k :| 0 <= k < |cands| - 1 && cands[1..][k] == found.value;
        assert cands[k + 1] == found.value;
      }
    }
  }

  /** What is stored for one source: an exclusion or a review takes the source's own path, a
      review of a conflict the matched one; only an ADD keeps its moves, and nothing else
      changes. */
  lemma ProjectionRestores(d: Decision, cands: seq<Candidate>, k: nat)
    requires DistinctRefs(cands) && k < |cands| && d.sources == [cands[k].ref]
    ensures var p := Projected(d, cands);
      && p.(proposed := d.proposed, moves := d.moves) == d && p.moves == (if d.operation == ADD then d.moves else [])
      && (IsGeneral(d) && d.conflicting && d.matched.Some? ==> p.proposed == d.matched.value)
      && (!(IsGeneral(d) && d.conflicting && d.matched.Some?) ==>
        p.proposed == if d.operation in {EXCLUDE, REVIEW_REQUIRED} then cands[k].path else d.proposed)
  {
    FoundIsFirst(cands, k);
  }

  lemma {:induction false} FoundIsFirst(cands: seq<Candidate>, k: nat)
    requires DistinctRefs(cands) && k < |cands|
    ensures FindCandidate(cands, cands[k].ref) == Some(cands[k])
    decreases |cands|
  {
    if k > 0 {
      assert DistinctRefs(cands[1..]);
      FoundIsFirst(cands[1..], k - 1);
    }
  }
}
