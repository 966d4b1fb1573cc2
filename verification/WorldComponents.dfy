/**
 What a recovery group touches, and the dependency components of groups, from
 app/analysis/world_setting_batch_recovery.py.
 */
module WorldComponents {
  import opened Options
  import opened Sequences
  import opened WorldScopePlan
  import Graph

  // A path of one target.
  type Touch = (Option<TargetRef>, Path)

  type Scope = (Option<TargetRef>, Name)

  datatype Footprint = Footprint(refs: set<Ref>, scopes: set<Scope>, readSet: set<Touch>, writeSet: set<Touch>)

  // Some names under one scope of a target.
  function Under(target: Option<TargetRef>, scope: Option<Name>, names: seq<Name>): set<Touch> {
    set name | name in names :: (target, Path(scope, name))
  }

  function ReadsOf(d: Decision): set<Touch> {
    (if d.matched.Some? then {(d.target, d.matched.value)} else {}) + Under(d.target, None, d.moves)
  }

  function WritesOf(d: Decision): set<Touch> {
    (if Writes(d) then {(d.target, d.proposed)} else {})
    + Under(d.target, None, d.moves) + Under(d.target, d.proposed.scope, d.moves)
  }

  function AllReads(ds: seq<Decision>): set<Touch> {
    set d, t | d in ds && t in ReadsOf(d) :: t
  }

  function AllWrites(ds: seq<Decision>): set<Touch> {
    set d, t | d in ds && t in WritesOf(d) :: t
  }

  lemma TouchesOneMore(ds: seq<Decision>, i: nat)
    requires i < |ds|
    ensures AllReads(ds[..i + 1]) == AllReads(ds[..i]) + ReadsOf(ds[i])
    ensures AllWrites(ds[..i + 1]) == AllWrites(ds[..i]) + WritesOf(ds[i])
  {
    hide ReadsOf, WritesOf;
    assert ds[..i + 1] == ds[..i] + [ds[i]];
    forall d ensures d in ds[..i + 1] <==> d in ds[..i] || d == ds[i] {}
  }

  // What one decision reads and writes: the matched path, the proposed path, and both ends of
  // each move.
  method CollectTouches(d: Decision) returns (reads': set<Touch>, writes: set<Touch>)
    ensures reads' == ReadsOf(d) && writes == WritesOf(d)
  {
    assert Under(d.target, None, d.moves[..0]) == Under(d.target, d.proposed.scope, d.moves[..0]) == {};
    hide Under;
    reads', writes := {}, {};
    if d.matched.Some? {
      reads' := reads' + {(d.target, d.matched.value)};
    }
    if d.operation in {ADD, UPDATE, MERGE} {
      writes := writes + {(d.target, d.proposed)};
    }
    ghost var (matched, proposed) := (reads', writes);
    for k := 0 to |d.moves|
      invariant reads' == matched + Under(d.target, None, d.moves[..k])
      invariant writes == proposed + Under(d.target, None, d.moves[..k])
        + Under(d.target, d.proposed.scope, d.moves[..k])
    {
      UnderOneMore(d.target, None, d.moves, k);
      UnderOneMore(d.target, d.proposed.scope, d.moves, k);
      var source := (d.target, Path(None, d.moves[k]));
      reads', writes := reads' + {source}, writes + {source, (d.target, Path(d.proposed.scope, d.moves[k]))};
    }
    assert d.moves[..|d.moves|] == d.moves;
  }

  lemma UnderOneMore(target: Option<TargetRef>, scope: Option<Name>, names: seq<Name>, k: nat)
    requires k < |names|
    ensures Under(target, scope, names[..k + 1]) == Under(target, scope, names[..k]) + {(target, Path(scope, names[k]))}
  {
    assert names[..k + 1] == names[..k] + [names[k]];
  }

  method CollectFootprint(ds: seq<Decision>) returns (reads': set<Touch>, writes: set<Touch>)
    ensures reads' == AllReads(ds) && writes == AllWrites(ds)
  {
    hide ReadsOf, WritesOf;
    reads', writes := {}, {};
    for i := 0 to |ds|
      invariant reads' == AllReads(ds[..i]) && writes == AllWrites(ds[..i])
    {
      TouchesOneMore(ds, i);
      var read, written := CollectTouches(ds[i]);
      reads', writes := reads' + read, writes + written;
    }
    assert ds[..|ds|] == ds;
  }

  lemma {:induction false} EditsKeepElsewhere(tree: Tree, edits: seq<Edit>, target: Option<TargetRef>, p: Path)
    requires forall e | e in edits && e.target == target :: e.path != p && (e.Move? ==> p != Path(None, e.from))
    ensures var after := ApplyEdits(tree, edits, target);
      (p in after <==> p in tree) && (p in tree ==> after[p] == tree[p])
  {
    if edits != [] {
      EditsKeepElsewhere(tree, edits[..|edits| - 1], target, p);
      assert edits[|edits| - 1] in edits;
    }
  }

  /** The write set of some decisions holds every path whose content they change. */
  lemma WritesCover(ds: seq<Decision>, trees: Trees, target: Option<TargetRef>, p: Path)
    requires (target, p) !in AllWrites(ds)
    ensures var (tree, after) := (TreeOf(trees, target), Applied(ds, trees, target));
      (p in after <==> p in tree) && (p in tree ==> after[p] == tree[p])
  {
    hide AllEdits, ApplyEdits;
    AllEditsMembers(ds);
    forall e | e in AllEdits(ds) && e.target == target ensures e.path != p && (e.Move? ==> p != Path(None, e.from)) {
      var d :| d in ds && e in Edits(d);
      EditIsWritten(d, e);
      assert (e.target, e.path) in AllWrites(ds) && (e.Move? ==> (e.target, Path(None, e.from)) in AllWrites(ds));
    }
    EditsKeepElsewhere(TreeOf(trees, target), AllEdits(ds), target, p);
  }

  lemma EditIsWritten(d: Decision, e: Edit)
    requires e in Edits(d)
    ensures (e.target, e.path) in WritesOf(d) && (e.Move? ==> (e.target, Path(None, e.from)) in WritesOf(d))
  {
    if e in Moves(d) {
      var k :| 0 <= k < |d.moves| && Moves(d)[k] == e;
      assert d.moves[k] in d.moves;
    }
  }

  /** What a decision writes is exactly what it edits: the paths it fills and those it takes
      properties from. */
  lemma WritesAreEdits(d: Decision, t: Touch)
    requires IsGeneral(d) ==> !Writes(d) && d.moves == []
    ensures t in WritesOf(d) <==>
      exists e :: e in Edits(d) && e.target == t.0 && (e.path == t.1 || (e.Move? && t.1 == Path(None, e.from)))
  {
    if t in WritesOf(d) {
      if name :| name in d.moves && t.0 == d.target && t.1 in {Path(None, name), Path(d.proposed.scope, name)} {
        var k :| 0 <= k < |d.moves| && d.moves[k] == name;
        assert Moves(d)[k] in Edits(d);
      } else {
        assert Own(d)[0] in Edits(d);
      }
    }
    if e :| e in Edits(d) && e.target == t.0 && (e.path == t.1 || (e.Move? && t.1 == Path(None, e.from))) {
      EditIsWritten(d, e);
    }
  }

  predicate Overlap(l: Touch, r: Touch) {
    && l.0 == r.0
    && (l == r || (l.1.scope.None? && r.1.scope == Some(l.1.name)) || (r.1.scope.None? && l.1.scope == Some(r.1.name)))
  }

  /** Two touches overlap exactly when they are one path or could not stand together in
      a well-formed tree. */
  lemma OverlapIsClash(l: Touch, r: Touch)
    ensures Overlap(l, r) <==> l.0 == r.0 && (l.1 == r.1 || Clash(l.1, r.1))
    ensures Overlap(l, r) == Overlap(r, l)
  {
  }

  // One side writes what the other reads or writes.
  predicate Interferes(l: Footprint, r: Footprint) {
    exists a, b | a in l.writeSet && b in r.readSet + r.writeSet :: Overlap(a, b)
  }

  predicate Dependent(l: Footprint, r: Footprint) {
    l.refs * r.refs != {} || l.scopes * r.scopes != {} || Interferes(l, r) || Interferes(r, l)
  }

  // Something written meets something touched: on one path, or on two that cannot stand
  // together.
  ghost predicate Meeting(written: set<Touch>, touched: set<Touch>) {
    exists t, u | t in written && u in touched :: t.0 == u.0 && (t.1 == u.1 || Clash(t.1, u.1))
  }

  /** Groups depend on each other exactly if they share a candidate or a scope that both
      generate, or what one writes meets what the other reads or writes. */
  lemma DependentMeans(l: Footprint, r: Footprint)
    ensures Dependent(l, r) <==>
      || !(l.refs !! r.refs) || !(l.scopes !! r.scopes)
      || Meeting(l.writeSet, r.readSet + r.writeSet) || Meeting(r.writeSet, l.readSet + l.writeSet)
  {
    InterferingMeets(l, r);
    InterferingMeets(r, l);
    hide Interferes, Meeting;
    SharingIsMeeting(l.refs, r.refs);
    SharingIsMeeting(l.scopes, r.scopes);
  }

  lemma SharingIsMeeting<T>(a: set<T>, b: set<T>)
    ensures a !! b <==> a * b == {}
  {
    if x :| x in a && x in b {
      assert x in a * b;
    }
  }

  lemma InterferingMeets(l: Footprint, r: Footprint)
    ensures Interferes(l, r) <==> Meeting(l.writeSet, r.readSet + r.writeSet)
  {
    hide Overlap, Clash;
    var touched := r.readSet + r.writeSet;
    if t, u :| t in l.writeSet && u in touched && t.0 == u.0 && (t.1 == u.1 || Clash(t.1, u.1)) {
      OverlapIsClash(t, u);
      assert Overlap(t, u) && u in r.readSet + r.writeSet;
    }
    if t, u :| t in l.writeSet && u in touched && Overlap(t, u) {
      OverlapIsClash(t, u);
      assert Meeting(l.writeSet, touched);
    }
  }

  // The test, part by part.
  method CheckDependent(l: Footprint, r: Footprint) returns (ok: bool)
    ensures ok <==> Dependent(l, r)
  {
    if l.refs * r.refs != {} || l.scopes * r.scopes != {} {
      return true;
    }
    if exists a, b | a in l.writeSet && b in r.readSet + r.writeSet :: Overlap(a, b) {
      return true;
    }
    ok := exists a, b | a in r.writeSet && b in l.readSet + l.writeSet :: Overlap(a, b);
  }

  lemma DependentIsSymmetric(l: Footprint, r: Footprint)
    ensures Dependent(l, r) == Dependent(r, l)
  {
    assert l.refs * r.refs == r.refs * l.refs && l.scopes * r.scopes == r.scopes * l.scopes;
  }

  function DependLink(prints: seq<Footprint>): Graph.Link {
    (i: nat, j: nat) => i < |prints| && j < |prints| && Dependent(prints[i], prints[j])
  }

  ghost predicate Connected(prints: seq<Footprint>, i: nat, j: nat) {
    Graph.Connected(|prints|, DependLink(prints), i, j)
  }

  ghost predicate InSome(i: nat, components: seq<seq<nat>>) {
    exists k :: 0 <= k < |components| && i in components[k]
  }

  ghost predicate StartAtFirst(components: seq<seq<nat>>) {
    forall k, i | 0 <= k < |components| && i in components[k] :: components[k] != [] && components[k][0] <= i
  }

  // Each group in one component, connected groups together, and the components in the order
  // of their first groups.
  ghost predicate AreComponents(components: seq<seq<nat>>, prints: seq<Footprint>) {
    && (forall k, i | 0 <= k < |components| && i in components[k] :: i < |prints|)
    && (forall k | 0 <= k < |components| :: components[k] != [] && Distinct(components[k]))
    && (forall i: nat | i < |prints| :: InSome(i, components))
    && FirstsAscend(components) && StartAtFirst(components)
    && (forall k, l, i, j |
      0 <= k < |components| && 0 <= l < |components| && i in components[k] && j in components[l] ::
      k == l <==> Connected(prints, i, j))
  }

  predicate DependsOnAny(prints: seq<Footprint>, g: nat, component: seq<nat>) {
    exists m | m in component :: DependLink(prints)(g, m)
  }

  method CheckDependsOnAny(prints: seq<Footprint>, g: nat, component: seq<nat>) returns (ok: bool)
    requires g < |prints| && forall m | m in component :: m < |prints|
    ensures ok <==> DependsOnAny(prints, g, component)
  {
    hide Dependent;
    for k := 0 to |component|
      invariant forall m | 0 <= m < k :: !DependLink(prints)(g, component[m])
    {
      assert component[k] in component;
      var depends := CheckDependent(prints[g], prints[component[k]]);
      if depends {
        assert DependLink(prints)(g, component[k]);
        return true;
      }
    }
    ok := false;
  }

  // The groups still to be placed, and the component being grown from its first member.
  ghost predicate Growing(prints: seq<Footprint>, component: seq<nat>, remaining: seq<nat>, all: set<nat>) {
    && component != [] && (forall i | i in component :: i < |prints|) && (forall i | i in remaining :: i < |prints|)
    && SetOf(component) !! SetOf(remaining) && SetOf(component) + SetOf(remaining) == all
    && Distinct(remaining) && Distinct(component)
    && (forall i | i in component :: Connected(prints, component[0], i))
    && Ascending(remaining) && Leads(component[0], component, remaining)
  }

  // Every group of the component, and every group still to be placed, comes after its first.
  ghost predicate Leads(first: nat, component: seq<nat>, remaining: seq<nat>) {
    && (forall i | i in component :: first <= i)
    && (forall i | i in remaining :: first < i)
  }

  // One pass over a snapshot of the remaining groups.
  method Sweep(prints: seq<Footprint>, component0: seq<nat>, remaining0: seq<nat>, ghost all: set<nat>)
    returns (component: seq<nat>, remaining: seq<nat>, changed: bool)
    requires Growing(prints, component0, remaining0, all)
    ensures Growing(prints, component, remaining, all) && component0 <= component
    ensures |remaining| + |component| == |remaining0| + |component0|
    ensures changed <==> |component| > |component0|
    ensures !changed ==> forall g | g in remaining :: !DependsOnAny(prints, g, component)
  {
    hide Dependent, Connected;
    component, remaining, changed := component0, [], false;
    assert remaining0[0..] == remaining0;
    for k := 0 to |remaining0|
      invariant Growing(prints, component, remaining + remaining0[k..], all) && component0 <= component
      invariant |remaining| + |component| == k + |component0|
      invariant changed <==> |component| > |component0|
      invariant !changed ==> forall g | g in remaining :: !DependsOnAny(prints, g, component)
    {
      var g := remaining0[k];
      TakeNext(prints, component, remaining, remaining0, k, all);
      var depends := CheckDependsOnAny(prints, g, component);
      if depends {
        component, changed := component + [g], true;
      } else {
        remaining := remaining + [g];
      }
    }
    assert remaining + remaining0[|remaining0|..] == remaining;
  }

  lemma TakeNext(prints: seq<Footprint>, component: seq<nat>, kept: seq<nat>, remaining: seq<nat>, k: nat,
                 all: set<nat>)
    requires k < |remaining| && Growing(prints, component, kept + remaining[k..], all)
    ensures remaining[k] < |prints|
    ensures Growing(prints, component, kept + [remaining[k]] + remaining[k + 1..], all)
    ensures DependsOnAny(prints, remaining[k], component) ==>
      Growing(prints, component + [remaining[k]], kept + remaining[k + 1..], all)
  {
    hide Dependent, Connected, Ascending;
    var g, rest := remaining[k], remaining[k + 1..];
    assert kept + remaining[k..] == kept + [g] + rest;
    assert g in kept + [g] + rest;
    DistinctWithout(kept, g, rest);
    AscendingWithout(kept, g, rest);
    forall i | i in kept + rest ensures i in kept + [g] + rest {}
    if DependsOnAny(prints, g, component) {
      var m :| m in component && DependLink(prints)(g, m);
      assert component[0] in component;
      JoinsComponent(prints, component[0], m, g);
      MoreOfComponent(prints, component, kept + rest, g, all);
    }
  }

  lemma MoreOfComponent(prints: seq<Footprint>, component: seq<nat>, others: seq<nat>, g: nat, all: set<nat>)
    requires component != [] && (forall i | i in component :: i < |prints| && Connected(prints, component[0], i))
    requires g < |prints| && Connected(prints, component[0], g)
    requires Distinct(component) && Distinct(others) && (forall i | i in others :: i < |prints|)
    requires Ascending(others) && Leads(component[0], component + [g], others)
    requires g !in component && g !in others && SetOf(component) !! SetOf(others)
      && SetOf(component) + SetOf(others) + {g} == all
    ensures Growing(prints, component + [g], others, all)
  {
    hide Connected, Ascending;
    assert SetOf(component + [g]) == SetOf(component) + {g};
    assert (component + [g])[0] == component[0];
  }

  lemma JoinsComponent(prints: seq<Footprint>, first: nat, m: nat, g: nat)
    requires first < |prints| && m < |prints| && g < |prints|
    requires Connected(prints, first, m) && Dependent(prints[g], prints[m])
    ensures Connected(prints, first, g)
  {
    DependentIsSymmetric(prints[g], prints[m]);
    Graph.ConnectedByLink(|prints|, DependLink(prints), m, g);
    Graph.ConnectedThrough(|prints|, DependLink(prints), first, m, g);
  }

  // The components placed so far, and the groups that are left.
  ghost predicate Placed(prints: seq<Footprint>, output: seq<seq<nat>>, remaining: seq<nat>) {
    && (forall k, i | 0 <= k < |output| && i in output[k] :: i < |prints|)
      && (forall i | i in remaining :: i < |prints|)
    && (forall i: nat | i < |prints| :: i in remaining || InSome(i, output))
    && (forall k, i | 0 <= k < |output| && i in output[k] :: i !in remaining)
    && (forall k, l, i | 0 <= k < l < |output| && i in output[k] :: i !in output[l])
    && (forall k | 0 <= k < |output| :: output[k] != [] && Distinct(output[k]))
    && Distinct(remaining)
  }

  // The components placed so far start with their least groups, in order, and all of these
  // come before the groups that are left.
  ghost predicate InSequence(output: seq<seq<nat>>, remaining: seq<nat>) {
    && FirstsAscend(output) && StartAtFirst(output) && Ascending(remaining)
    && forall k, i | 0 <= k < |output| && i in remaining :: output[k] != [] && output[k][0] < i
  }

  ghost predicate Linked(prints: seq<Footprint>, output: seq<seq<nat>>) {
    forall k, i | 0 <= k < |output| && output[k] != [] && i in output[k] :: Connected(prints, output[k][0], i)
  }

  // No dependency leaves a component.
  ghost predicate Closed(prints: seq<Footprint>, output: seq<seq<nat>>) {
    forall k, i: nat, j: nat | 0 <= k < |output| && i in output[k] && DependLink(prints)(i, j) :: j in output[k]
  }

  method Components(prints: seq<Footprint>) returns (output: seq<seq<nat>>)
    ensures AreComponents(output, prints)
  {
    hide Dependent, Connected, Placed, Linked, Closed, InSequence, AreComponents, Ascending, Leads;
    output := [];
    var remaining: seq<nat> := seq(|prints|, i => i);
    NothingPlaced(prints, remaining);
    while remaining != []
      invariant Placed(prints, output, remaining) && Linked(prints, output) && Closed(prints, output)
      invariant InSequence(output, remaining)
      decreases |remaining|
    {
      ghost var all := SetOf(remaining);
      var component := [remaining[0]];
      ghost var before := remaining;
      StartGrowing(prints, output, remaining);
      remaining := remaining[1..];
      var changed := true;
      while changed
        invariant Growing(prints, component, remaining, all) && |remaining| + |component| == |before|
        invariant component[0] == before[0]
        invariant !changed ==> forall g | g in remaining :: !DependsOnAny(prints, g, component)
        decreases |remaining|, changed
      {
        component, remaining, changed := Sweep(prints, component, remaining, all);
      }
      PlaceComponent(prints, output, before, component, remaining);
      PlaceInSequence(prints, output, before, component, remaining);
      output := output + [component];
    }
    PlacedAreComponents(prints, output);
  }

  lemma NothingPlaced(prints: seq<Footprint>, remaining: seq<nat>)
    requires remaining == seq(|prints|, i => i)
    ensures Placed(prints, [], remaining) && Linked(prints, []) && Closed(prints, []) && InSequence([], remaining)
  {
    forall i: nat | i < |prints| ensures i in remaining { assert remaining[i] == i; }
  }

  lemma StartGrowing(prints: seq<Footprint>, output: seq<seq<nat>>, remaining: seq<nat>)
    requires Placed(prints, output, remaining) && InSequence(output, remaining) && remaining != []
    ensures Growing(prints, [remaining[0]], remaining[1..], SetOf(remaining))
  {
    assert remaining == [remaining[0]] + remaining[1..] && remaining[0] in remaining;
    Graph.ConnectedToSelf(|prints|, DependLink(prints), remaining[0]);
    assert Distinct(remaining[1..]) && remaining[0] !in remaining[1..];
    assert SetOf(remaining) == SetOf([remaining[0]]) + SetOf(remaining[1..]);
    assert Connected(prints, remaining[0], remaining[0]);
    forall i | i in remaining[1..] ensures i < |prints| { assert i in remaining; }
  }

  lemma GrowingSplits(prints: seq<Footprint>, component: seq<nat>, remaining: seq<nat>, before: seq<nat>)
    requires Growing(prints, component, remaining, SetOf(before))
    ensures forall i :: i in before <==> i in component || i in remaining
    ensures forall i :: !(i in component && i in remaining)
  {
    forall i ensures (i in before <==> i in SetOf(before)) && (i in component <==> i in SetOf(component)) {}
    forall i ensures i in remaining <==> i in SetOf(remaining) {}
  }

  lemma ClosedMember(prints: seq<Footprint>, output: seq<seq<nat>>, k: nat, i: nat, j: nat)
    requires Closed(prints, output) && k < |output| && DependLink(prints)(i, j)
    ensures i in output[k] ==> j in output[k]
  {
  }

  lemma PlaceComponent(prints: seq<Footprint>, output: seq<seq<nat>>, before: seq<nat>, component: seq<nat>,
                       remaining: seq<nat>)
    requires Placed(prints, output, before) && Linked(prints, output) && Closed(prints, output)
    requires Growing(prints, component, remaining, SetOf(before))
    requires forall g | g in remaining :: !DependsOnAny(prints, g, component)
    ensures Placed(prints, output + [component], remaining) && Linked(prints, output + [component])
    ensures Closed(prints, output + [component])
  {
    hide Dependent, Connected;
    var more := output + [component];
    GrowingSplits(prints, component, remaining, before);
    forall i: nat | i < |prints| ensures i in remaining || InSome(i, more) {
      assert i in component ==> i in more[|output|];
      if InSome(i, output) {
        var k :| 0 <= k < |output| && i in output[k];
        assert i in more[k];
      }
    }
    forall k, i: nat, j: nat | 0 <= k < |more| && i in more[k] && DependLink(prints)(i, j) ensures j in more[k] {
      if k == |output| {
        DependentIsSymmetric(prints[i], prints[j]);
        assert DependsOnAny(prints, j, component) && i in before;
        forall l | 0 <= l < |output| ensures j !in output[l] {
          ClosedMember(prints, output, l, j, i);
        }
      }
    }
  }

  lemma PlaceInSequence(prints: seq<Footprint>, output: seq<seq<nat>>, before: seq<nat>, component: seq<nat>,
                        remaining: seq<nat>)
    requires InSequence(output, before) && Growing(prints, component, remaining, SetOf(before))
    requires before != [] && component[0] == before[0]
    ensures InSequence(output + [component], remaining)
  {
    hide Connected, Ascending;
    GrowingSplits(prints, component, remaining, before);
    assert before[0] in before;
    var more := output + [component];
    forall k, l | 0 <= k < l < |more| ensures more[k] != [] && more[l] != [] && more[k][0] < more[l][0] {}
  }

  lemma PlacedAreComponents(prints: seq<Footprint>, output: seq<seq<nat>>)
    requires InSequence(output, []) && Placed(prints, output, []) && Linked(prints, output) && Closed(prints, output)
    ensures AreComponents(output, prints)
  {
    hide Dependent, Connected;
    assert FirstsAscend(output) && StartAtFirst(output);
    forall k, l, i, j | 0 <= k < |output| && 0 <= l < |output| && i in output[k] && j in output[l]
      ensures k == l <==> Connected(prints, i, j)
    {
      if k == l {
        assert output[k][0] in output[k];
        ConnectedBack(prints, output[k][0], i);
        ConnectedBetween(prints, i, output[k][0], j);
      }
      if Connected(prints, i, j) {
        ComponentIsClosed(prints, output, k, i, j);
      }
    }
  }

  lemma DependentConnects(prints: seq<Footprint>, i: nat, j: nat)
    requires i < |prints| && j < |prints| && Dependent(prints[i], prints[j])
    ensures Connected(prints, i, j)
  {
    Graph.ConnectedByLink(|prints|, DependLink(prints), i, j);
  }

  lemma ConnectedToItself(prints: seq<Footprint>, i: nat)
    requires i < |prints|
    ensures Connected(prints, i, i)
  {
    Graph.ConnectedToSelf(|prints|, DependLink(prints), i);
  }

  lemma ConnectedBetween(prints: seq<Footprint>, i: nat, j: nat, k: nat)
    requires Connected(prints, i, j) && Connected(prints, j, k)
    ensures Connected(prints, i, k)
  {
    Graph.ConnectedThrough(|prints|, DependLink(prints), i, j, k);
  }

  lemma ConnectedBack(prints: seq<Footprint>, i: nat, j: nat)
    requires Connected(prints, i, j) && i < |prints|
    ensures Connected(prints, j, i)
  {
    hide Dependent;
    var back := set k: nat | k < |prints| && Connected(prints, k, i);
    Graph.ConnectedToSelf(|prints|, DependLink(prints), i);
    forall a: nat, b: nat | a in back && b < |prints| && DependLink(prints)(a, b) ensures b in back {
      DependentIsSymmetric(prints[a], prints[b]);
      Graph.ConnectedByLink(|prints|, DependLink(prints), b, a);
      Graph.ConnectedThrough(|prints|, DependLink(prints), b, a, i);
    }
    Graph.ConnectedStaysInside(|prints|, DependLink(prints), back, i, j);
  }

  lemma ComponentIsClosed(prints: seq<Footprint>, output: seq<seq<nat>>, k: nat, i: nat, j: nat)
    requires Closed(prints, output) && k < |output| && i in output[k] && Connected(prints, i, j)
    ensures j in output[k]
  {
    var inside := SetOf(output[k]);
    Graph.ConnectedStaysInside(|prints|, DependLink(prints), inside, i, j);
  }
}
